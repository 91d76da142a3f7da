/** The Compliance Attendance Generate document: it loads the active
    employees into its child table, then writes one Employee Attendance
    record per employee that has none yet, with a "Present" row for every
    date of its range. */
module ComplianceGenerate {
  import opened Common

  /** A row of `table1` as this generator fills it. */
  datatype SheetRow = SheetRow(date: Date, status: string, checkIn1: string, checkOut1: string)

  /** An inserted Employee Attendance record. */
  datatype Sheet = Sheet(employee: string, month: string, year: int, table1: seq<SheetRow>)

  /** The draws for one date: minute and second of the check-in and of the
      check-out (the hours are drawn from the one-value ranges 9..9 and
      19..19). */
  datatype ClockDraw = ClockDraw(inMinute: int, inSecond: int, outMinute: int, outSecond: int)

  /** Values randint can return: minutes in 0..15, seconds in 0..59. */
  predicate DrawFits(c: ClockDraw) {
    0 <= c.inMinute <= 15 && 0 <= c.inSecond <= 59 && 0 <= c.outMinute <= 15 && 0 <= c.outSecond <= 59
  }

  function CheckIn(c: ClockDraw): Time
    requires DrawFits(c)
  {
    TimeOf(9, c.inMinute, c.inSecond)
  }

  function CheckOut(c: ClockDraw): Time
    requires DrawFits(c)
  {
    TimeOf(19, c.outMinute, c.outSecond)
  }

  /** The row appended for one date. */
  function Row(date: Date, c: ClockDraw): SheetRow
    requires DrawFits(c)
  {
    SheetRow(date, "Present", FormatTime(CheckIn(c)), FormatTime(CheckOut(c)))
  }

  /** Every row is "Present", its check-in reads back as a time in
      09:00:00..09:15:59, its check-out as a time in 19:00:00..19:15:59,
      and so the check-out is always the later. */
  lemma RowTimes(date: Date, c: ClockDraw)
    requires DrawFits(c)
    ensures var r := Row(date, c);
      && r.date == date && r.status == "Present"
      && ParseTime(r.checkIn1).Some? && ParseTime(r.checkOut1).Some?
      && 32400 <= ParseTime(r.checkIn1).value <= 33359
      && 68400 <= ParseTime(r.checkOut1).value <= 69359
      && ParseTime(r.checkIn1).value < ParseTime(r.checkOut1).value
  {
    ParseFormat(CheckIn(c));
    ParseFormat(CheckOut(c));
  }

  /** Every time of the check-in range can be drawn. */
  lemma CheckInCoversRange(t: Time)
    requires 32400 <= t <= 33359
    ensures var c := ClockDraw((t - 32400) / 60, (t - 32400) % 60, 0, 0);
            DrawFits(c) && CheckIn(c) == t
  {
  }

  /** Every time of the check-out range can be drawn. */
  lemma CheckOutCoversRange(t: Time)
    requires 68400 <= t <= 69359
    ensures var c := ClockDraw(0, 0, (t - 68400) / 60, (t - 68400) % 60);
            DrawFits(c) && CheckOut(c) == t
  {
  }

  /** The draws of date `d` fit. */
  predicate DrawAt(clock: Date -> ClockDraw, d: Date) {
    DrawFits(clock(d))
  }

  /** The draws of every date fit. */
  ghost predicate ClockFits(clock: Date -> ClockDraw) {
    forall d: Date :: DrawAt(clock, d)
  }

  /** The rows after the loop has handled the dates `from ..= last`. */
  function SheetRows(from: Date, last: Date, clock: Date -> ClockDraw): seq<SheetRow>
    requires ClockFits(clock)
    decreases last - from
  {
    if last < from then []
    else
      assert DrawAt(clock, last);
      SheetRows(from, last - 1, clock) + [Row(last, clock(last))]
  }

  /** One row per date of the range; no rows at all when the range is
      empty. */
  lemma {:induction false} SheetRowsLength(from: Date, last: Date, clock: Date -> ClockDraw)
    requires ClockFits(clock)
    ensures |SheetRows(from, last, clock)| == if last < from then 0 else last - from + 1
    decreases last - from
  {
    if last >= from {
      SheetRowsLength(from, last - 1, clock);
    }
  }

  /** The rows come in ascending date order from `from`: the k-th row is
      the one drawn for date `from + k`. */
  lemma {:induction false} SheetRowAt(from: Date, last: Date, clock: Date -> ClockDraw, k: nat)
    requires ClockFits(clock)
    requires k < |SheetRows(from, last, clock)|
    ensures DrawAt(clock, from + k)
    ensures SheetRows(from, last, clock)[k] == Row(from + k, clock(from + k))
    decreases last - from
  {
    var rows := SheetRows(from, last, clock);
    assert last >= from;
    var before := SheetRows(from, last - 1, clock);
    assert DrawAt(clock, last);
    assert rows == before + [Row(last, clock(last))];
    SheetRowsLength(from, last - 1, clock);
    if k < |before| {
      SheetRowAt(from, last - 1, clock, k);
      assert rows[k] == before[k];
    } else {
      assert k == last - from;
    }
  }

  /** The date loop of `generate_attendance`. */
  method BuildSheet(from: Date, to: Date, clock: Date -> ClockDraw) returns (rows: seq<SheetRow>)
    requires ClockFits(clock)
    ensures rows == SheetRows(from, to, clock)
  {
    rows := [];
    var current := from;
    while current <= to
      invariant current == from || from < current <= to + 1
      invariant rows == SheetRows(from, current - 1, clock)
    {
      assert DrawAt(clock, current);
      var c := clock(current);
      var checkIn := TimeOf(9, c.inMinute, c.inSecond);
      var checkOut := TimeOf(19, c.outMinute, c.outSecond);
      rows := rows + [SheetRow(current, "Present", FormatTime(checkIn), FormatTime(checkOut))];
      current := current + 1;
    }
  }

  /** The record written for one employee: month and year are those of the
      start date, whatever the range spans. */
  function NewSheet(employee: string, from: Date, to: Date, monthOf: Date -> string, yearOf: Date -> int,
                    clock: Date -> ClockDraw): Sheet
    requires ClockFits(clock)
  {
    Sheet(employee, monthOf(from), yearOf(from), SheetRows(from, to, clock))
  }

  ghost predicate ClocksFit(clocks: seq<Date -> ClockDraw>) {
    forall i :: 0 <= i < |clocks| ==> ClockFits(clocks[i])
  }

  /** The records inserted for the first `n` employees of the child table;
      `attendanceExists` answers the existence query for an employee. */
  function GeneratedUpTo(employees: seq<string>, from: Date, to: Date, attendanceExists: string -> bool,
                         monthOf: Date -> string, yearOf: Date -> int, clocks: seq<Date -> ClockDraw>, n: nat)
    : seq<Sheet>
    requires n <= |employees| == |clocks| && ClocksFit(clocks)
  {
    if n == 0 then []
    else
      var before := GeneratedUpTo(employees, from, to, attendanceExists, monthOf, yearOf, clocks, n - 1);
      if attendanceExists(employees[n - 1]) then before
      else before + [NewSheet(employees[n - 1], from, to, monthOf, yearOf, clocks[n - 1])]
  }

  /** At most one record per listed employee. */
  lemma {:induction false} GeneratedCount(employees: seq<string>, from: Date, to: Date, attendanceExists: string -> bool,
                                          monthOf: Date -> string, yearOf: Date -> int,
                                          clocks: seq<Date -> ClockDraw>, n: nat)
    requires n <= |employees| == |clocks| && ClocksFit(clocks)
    ensures |GeneratedUpTo(employees, from, to, attendanceExists, monthOf, yearOf, clocks, n)| <= n
  {
    if n > 0 {
      GeneratedCount(employees, from, to, attendanceExists, monthOf, yearOf, clocks, n - 1);
    }
  }

  /** Skip-if-exists: every inserted record is the full record of a listed
      employee whose existence query found nothing. */
  lemma {:induction false} GeneratedSheetIsFresh(employees: seq<string>, from: Date, to: Date, attendanceExists: string -> bool,
                                                 monthOf: Date -> string, yearOf: Date -> int,
                                                 clocks: seq<Date -> ClockDraw>, n: nat, j: nat)
    requires n <= |employees| == |clocks| && ClocksFit(clocks)
    requires j < |GeneratedUpTo(employees, from, to, attendanceExists, monthOf, yearOf, clocks, n)|
    ensures var s := GeneratedUpTo(employees, from, to, attendanceExists, monthOf, yearOf, clocks, n)[j];
      && !attendanceExists(s.employee)
      && exists i :: 0 <= i < n && s == NewSheet(employees[i], from, to, monthOf, yearOf, clocks[i])
  {
    var before := GeneratedUpTo(employees, from, to, attendanceExists, monthOf, yearOf, clocks, n - 1);
    var g := GeneratedUpTo(employees, from, to, attendanceExists, monthOf, yearOf, clocks, n);
    if j < |before| {
      GeneratedSheetIsFresh(employees, from, to, attendanceExists, monthOf, yearOf, clocks, n - 1, j);
      assert g[j] == before[j];
    } else {
      assert g[j] == NewSheet(employees[n - 1], from, to, monthOf, yearOf, clocks[n - 1]);
    }
  }

  /** Every listed employee whose existence query finds nothing gets a
      record. */
  lemma {:induction false} FreshEmployeeGetsSheet(employees: seq<string>, from: Date, to: Date, attendanceExists: string -> bool,
                                                  monthOf: Date -> string, yearOf: Date -> int,
                                                  clocks: seq<Date -> ClockDraw>, n: nat, i: nat)
    requires n <= |employees| == |clocks| && ClocksFit(clocks)
    requires i < n && !attendanceExists(employees[i])
    ensures NewSheet(employees[i], from, to, monthOf, yearOf, clocks[i])
            in GeneratedUpTo(employees, from, to, attendanceExists, monthOf, yearOf, clocks, n)
  {
    var before := GeneratedUpTo(employees, from, to, attendanceExists, monthOf, yearOf, clocks, n - 1);
    var g := GeneratedUpTo(employees, from, to, attendanceExists, monthOf, yearOf, clocks, n);
    var sheet := NewSheet(employees[i], from, to, monthOf, yearOf, clocks[i]);
    if i < n - 1 {
      FreshEmployeeGetsSheet(employees, from, to, attendanceExists, monthOf, yearOf, clocks, n - 1, i);
      assert sheet in before;
      assert forall x :: x in before ==> x in g;
    } else {
      assert g == before + [sheet];
    }
  }

  class ComplianceAttendanceGenerate {
    /** The `employee` child table, as employee ids. */
    var employee: seq<string>
    var fromDate: Date
    var toDate: Date
    /** How many times the document has been saved. */
    var saves: nat

    constructor (fromDate: Date, toDate: Date)
      ensures employee == [] && this.fromDate == fromDate && this.toDate == toDate && saves == 0
    {
      employee := [];
      this.fromDate := fromDate;
      this.toDate := toDate;
      saves := 0;
    }

    /** `get_employees` with the ids the active-employee query returned:
        a non-empty result replaces the child table, in query order, and
        saves; an empty result leaves the document alone. */
    method GetEmployees(rec: seq<string>)
      modifies this`employee, this`saves
      ensures rec != [] ==> employee == rec && saves == old(saves) + 1
      ensures rec == [] ==> employee == old(employee) && saves == old(saves)
    {
      if rec != [] {
        employee := [];
        for i := 0 to |rec|
          invariant employee == rec[..i] && saves == old(saves)
        {
          employee := employee + [rec[i]];
        }
        assert rec[..|rec|] == rec;
        saves := saves + 1;
      }
    }

    /** `generate_attendance`: the records it inserts, one per employee of
        the child table whose existence query finds nothing. */
    method GenerateAttendance(attendanceExists: string -> bool, monthOf: Date -> string, yearOf: Date -> int,
                              clocks: seq<Date -> ClockDraw>)
      returns (inserted: seq<Sheet>)
      requires |clocks| == |employee| && ClocksFit(clocks)
      ensures inserted == GeneratedUpTo(employee, fromDate, toDate, attendanceExists, monthOf, yearOf, clocks, |employee|)
    {
      inserted := [];
      for i := 0 to |employee|
        invariant inserted == GeneratedUpTo(employee, fromDate, toDate, attendanceExists, monthOf, yearOf, clocks, i)
      {
        var id := employee[i];
        if !attendanceExists(id) {
          var rows := BuildSheet(fromDate, toDate, clocks[i]);
          inserted := inserted + [Sheet(id, monthOf(fromDate), yearOf(fromDate), rows)];
        }
      }
    }
  }
}
