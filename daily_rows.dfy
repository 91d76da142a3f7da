/** The daily rows (`table1`) of an Employee Attendance record, as
    `_add_daily_attendance_fast` builds them and upserts them by date. */
module DailyRows {
  import opened Common

  datatype DailyRow = DailyRow(
    date: Date,
    day: string,
    checkIn1: string,
    checkOut1: string,
    difference: string,
    absent: bool,
    present: bool,
    weekday: bool,
    dayType: string)

  /** A positive worked time as "HH:MM:00": whole hours, then the
      remaining whole minutes, then zero seconds. */
  function DurationText(worked: nat): string
    requires worked < 86400
  {
    Pad2(worked / 3600) + ":" + Pad2((worked % 3600) / 60) + ":" + Pad2(0)
  }

  /** The "difference" column: the worked time, or empty when a time is
      missing or the worked time is not positive. */
  function Difference(checkIn: Option<Time>, checkOut: Option<Time>): (s: string)
    ensures s == "" <==> checkIn.None? || checkOut.None? || checkOut.value <= checkIn.value
  {
    if checkIn.Some? && checkOut.Some? && checkOut.value - checkIn.value > 0 then
      DurationText(checkOut.value - checkIn.value)
    else ""
  }

  /** A non-empty difference is the clock-time text of the worked time cut
      down to whole minutes, so it reads back as that time. */
  lemma DifferenceIsWorkedMinutes(checkIn: Time, checkOut: Time)
    requires checkIn < checkOut
    ensures Difference(Some(checkIn), Some(checkOut)) == FormatTime(WholeMinutes(checkOut - checkIn))
  {
    assert Difference(Some(checkIn), Some(checkOut)) == DurationText(checkOut - checkIn);
    DurationTextIsClockTime(checkOut - checkIn);
  }

  /** A duration cut down to whole minutes. */
  function WholeMinutes(worked: nat): nat {
    worked - worked % 60
  }

  lemma DurationTextIsClockTime(worked: nat)
    requires worked < 86400
    ensures WholeMinutes(worked) < 86400 && DurationText(worked) == FormatTime(WholeMinutes(worked))
  {
    var t: Time := worked - worked % 60;
    assert worked % 3600 == ((worked % 3600) / 60) * 60 + worked % 60;
    assert t == (worked / 3600) * 3600 + ((worked % 3600) / 60) * 60;
    DivModOfTime(worked / 3600, (worked % 3600) / 60, 0);
    assert Hour(t) == worked / 3600 && Minute(t) == (worked % 3600) / 60 && Second(t) == 0;
  }

  /** The row `_add_daily_attendance_fast` writes for one date. */
  function BuildDailyRow(date: Date, checkIn: Option<Time>, checkOut: Option<Time>, isAbsent: bool): DailyRow {
    DailyRow(
      date,
      DayName(date),
      if checkIn.Some? then FormatTime(checkIn.value) else "",
      if checkOut.Some? then FormatTime(checkOut.value) else "",
      Difference(checkIn, checkOut),
      isAbsent,
      !isAbsent,
      Weekday(date) < 5,
      if Weekday(date) < 5 then "Weekday" else "Weekly Off")
  }

  /** What each column of a built row says: the times read back as the
      given times (empty when missing), present is the negation of absent,
      and Monday to Friday are weekdays while Saturday and Sunday are
      weekly offs. */
  lemma DailyRowMeaning(date: Date, checkIn: Option<Time>, checkOut: Option<Time>, isAbsent: bool)
    ensures var r := BuildDailyRow(date, checkIn, checkOut, isAbsent);
      && r.date == date
      && (r.checkIn1 == "" <==> checkIn.None?)
      && (checkIn.Some? ==> ParseTime(r.checkIn1) == Some(checkIn.value))
      && (r.checkOut1 == "" <==> checkOut.None?)
      && (checkOut.Some? ==> ParseTime(r.checkOut1) == Some(checkOut.value))
      && r.absent == isAbsent && r.present == !isAbsent
      && (r.weekday <==> Weekday(date) < 5)
      && (r.dayType == "Weekday" <==> Weekday(date) < 5)
      && (r.dayType == "Weekly Off" <==> Weekday(date) >= 5)
  {
    if checkIn.Some? { ParseFormat(checkIn.value); }
    if checkOut.Some? { ParseFormat(checkOut.value); }
  }

  /** The first row of `table` with the given date, as the `for ... break`
      search finds it. */
  function FirstIndexOfDate(table: seq<DailyRow>, date: Date): (r: Option<nat>)
    ensures r.Some? ==> r.value < |table| && table[r.value].date == date
    ensures r.Some? ==> forall j :: 0 <= j < r.value ==> table[j].date != date
    ensures r.None? ==> forall j :: 0 <= j < |table| ==> table[j].date != date
  {
    if table == [] then None
    else if table[0].date == date then Some(0)
    else
      match FirstIndexOfDate(table[1..], date)
      case None => None
      case Some(i) => Some(i + 1)
  }

  /** The search loop of `_add_daily_attendance_fast` over `table1`. */
  method FindDailyRecord(table: seq<DailyRow>, date: Date) returns (found: Option<nat>)
    ensures found.Some? ==> found.value < |table| && table[found.value].date == date
    ensures found.Some? ==> forall j :: 0 <= j < found.value ==> table[j].date != date
    ensures found.None? ==> forall j :: 0 <= j < |table| ==> table[j].date != date
    ensures found == FirstIndexOfDate(table, date)
  {
    found := None;
    var i := 0;
    while i < |table|
      invariant 0 <= i <= |table|
      invariant forall j :: 0 <= j < i ==> table[j].date != date
    {
      if table[i].date == date {
        found := Some(i);
        break;
      }
      i := i + 1;
    }
  }

  /** The table after writing `row`: it overwrites the first row with the
      same date, or is appended when there is none. */
  function Upsert(table: seq<DailyRow>, row: DailyRow): seq<DailyRow> {
    match FirstIndexOfDate(table, row.date)
    case Some(i) => table[i := row]
    case None => table + [row]
  }

  /** The row a date reads as: the first one carrying it. */
  function Lookup(table: seq<DailyRow>, date: Date): Option<DailyRow> {
    match FirstIndexOfDate(table, date)
    case Some(i) => Some(table[i])
    case None => None
  }

  /** The shape of an upsert: a date already present keeps the row count
      and changes only its first row; a new date adds exactly one row at the
      end; every other row stays as it was. */
  lemma UpsertShape(table: seq<DailyRow>, row: DailyRow)
    ensures (exists j :: 0 <= j < |table| && table[j].date == row.date) ==>
      |Upsert(table, row)| == |table|
    ensures (forall j :: 0 <= j < |table| ==> table[j].date != row.date) ==>
      |Upsert(table, row)| == |table| + 1 && Upsert(table, row)[|table|] == row
    ensures forall j :: 0 <= j < |table| && FirstIndexOfDate(table, row.date) != Some(j) ==>
      Upsert(table, row)[j] == table[j]
  {
  }

  /** After an upsert the date reads as the written row, and every other
      date reads as before: the table behaves as a map keyed by date. */
  lemma UpsertThenLookup(table: seq<DailyRow>, row: DailyRow, date: Date)
    ensures Lookup(Upsert(table, row), row.date) == Some(row)
    ensures date != row.date ==> Lookup(Upsert(table, row), date) == Lookup(table, date)
  {
    var u := Upsert(table, row);
    match FirstIndexOfDate(table, row.date)
    case Some(i) =>
      assert u[i] == row;
      FirstIndexAfterWrite(table, row, i, date);
    case None =>
      assert u[|table|] == row;
      assert u[..|table|] == table;
      FirstIndexAfterAppend(table, row, date);
  }

  /** The search result is determined by where the date first occurs. */
  lemma FirstIndexAt(table: seq<DailyRow>, date: Date, k: nat)
    requires k < |table| && table[k].date == date
    requires forall j :: 0 <= j < k ==> table[j].date != date
    ensures FirstIndexOfDate(table, date) == Some(k)
  {
  }

  lemma FirstIndexAfterWrite(table: seq<DailyRow>, row: DailyRow, i: nat, date: Date)
    requires FirstIndexOfDate(table, row.date) == Some(i)
    ensures FirstIndexOfDate(table[i := row], row.date) == Some(i)
    ensures date != row.date ==> FirstIndexOfDate(table[i := row], date) == FirstIndexOfDate(table, date)
  {
    var u := table[i := row];
    FirstIndexAt(u, row.date, i);
    if date != row.date {
      match FirstIndexOfDate(table, date)
      case Some(k) =>
        FirstIndexAt(u, date, k);
      case None =>
        assert forall j :: 0 <= j < |u| ==> u[j].date != date by {
          forall j | 0 <= j < |u| ensures u[j].date != date {
            if j != i { assert u[j] == table[j]; }
          }
        }
    }
  }

  lemma FirstIndexAfterAppend(table: seq<DailyRow>, row: DailyRow, date: Date)
    requires FirstIndexOfDate(table, row.date) == None
    ensures FirstIndexOfDate(table + [row], row.date) == Some(|table|)
    ensures date != row.date ==> FirstIndexOfDate(table + [row], date) == FirstIndexOfDate(table, date)
  {
    var u := table + [row];
    FirstIndexAt(u, row.date, |table|);
    if date != row.date {
      match FirstIndexOfDate(table, date)
      case Some(k) =>
        FirstIndexAt(u, date, k);
      case None =>
        assert forall j :: 0 <= j < |u| ==> u[j].date != date by {
          forall j | 0 <= j < |u| ensures u[j].date != date {
            if j < |table| { assert u[j] == table[j]; }
          }
        }
    }
  }

  /** Writing the same row twice is writing it once. */
  lemma UpsertIdempotent(table: seq<DailyRow>, row: DailyRow)
    ensures Upsert(Upsert(table, row), row) == Upsert(table, row)
  {
    match FirstIndexOfDate(table, row.date)
    case Some(i) =>
      FirstIndexAfterWrite(table, row, i, row.date);
    case None =>
      FirstIndexAfterAppend(table, row, row.date);
  }
}
