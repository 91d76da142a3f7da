/** The documents the fake generator writes for one employee, held as an
    in-memory store: the Attendance Logs it inserts (`_insert_batch`), the
    monthly Employee Attendance record it finds or creates
    (`_create_employee_attendance_fast`) and the daily rows it upserts into
    that record (`_add_daily_attendance_fast` inside the second date loop of
    `_generate_for_employee_fast`). */
module FakeDatabase {
  import opened Common
  import opened FakeTimes
  import opened DailyRows
  import opened AttendanceLogs

  /** The optional Employee Attendance fields, named as the document names
      them: department, designation, biometric_id, employee_name, email_id,
      joining_date, holiday_list, unit and cnic. */
  datatype Field =
    | Department | Designation | BiometricIdField | EmployeeName | EmailId
    | JoiningDate | HolidayList | Unit | Cnic

  /** An Employee Attendance document. */
  datatype AttendanceRecord = AttendanceRecord(
    name: string,
    employee: string,
    month: string,
    year: int,
    company: string,
    optional: map<Field, string>,
    table1: seq<DailyRow>)

  /** The Employee field an optional Employee Attendance field is copied
      from (email_id from the company email, joining_date from the date of
      joining, unit from the branch). */
  function SourceOf(emp: Employee, f: Field): string {
    match f
    case Department => emp.department
    case Designation => emp.designation
    case BiometricIdField => emp.biometricId
    case EmployeeName => emp.employeeName
    case EmailId => emp.companyEmail
    case JoiningDate => emp.dateOfJoining
    case HolidayList => emp.holidayList
    case Unit => emp.branch
    case Cnic => emp.cnic
  }

  function AddIfSet(fields: map<Field, string>, f: Field, value: string): map<Field, string> {
    if value != "" then fields[f := value] else fields
  }

  /** The order of the "add the field only if the employee has it" tests. */
  const FieldOrder: seq<Field> :=
    [Department, Designation, BiometricIdField, EmployeeName, EmailId, JoiningDate, HolidayList, Unit, Cnic]

  /** The optional fields after the tests for `fields`, in order. */
  function Collect(emp: Employee, fields: seq<Field>): map<Field, string> {
    if fields == [] then map[]
    else
      var last := fields[|fields| - 1];
      AddIfSet(Collect(emp, fields[..|fields| - 1]), last, SourceOf(emp, last))
  }

  /** The optional fields of a new Employee Attendance record. */
  function OptionalFields(emp: Employee): map<Field, string> {
    Collect(emp, FieldOrder)
  }

  /** After looking at `fields`, a field is present exactly when it was
      among the fields looked at and its Employee field is set, and then holds that value. */
  lemma {:induction false} CollectCopies(emp: Employee, fields: seq<Field>, f: Field)
    ensures f in Collect(emp, fields) <==> f in fields && SourceOf(emp, f) != ""
    ensures f in Collect(emp, fields) ==> Collect(emp, fields)[f] == SourceOf(emp, f)
  {
    if fields != [] {
      var init := fields[..|fields| - 1];
      CollectCopies(emp, init, f);
      assert fields == init + [fields[|fields| - 1]];
    }
  }

  /** An optional field is present exactly when its Employee field is set,
      and then holds that field's value. */
  lemma OptionalFieldsCopied(emp: Employee, f: Field)
    ensures f in OptionalFields(emp) <==> SourceOf(emp, f) != ""
    ensures f in OptionalFields(emp) ==> OptionalFields(emp)[f] == SourceOf(emp, f)
  {
    CollectCopies(emp, FieldOrder, f);
    assert f in FieldOrder by {
      match f
      case Department => assert FieldOrder[0] == f;
      case Designation => assert FieldOrder[1] == f;
      case BiometricIdField => assert FieldOrder[2] == f;
      case EmployeeName => assert FieldOrder[3] == f;
      case EmailId => assert FieldOrder[4] == f;
      case JoiningDate => assert FieldOrder[5] == f;
      case HolidayList => assert FieldOrder[6] == f;
      case Unit => assert FieldOrder[7] == f;
      case Cnic => assert FieldOrder[8] == f;
    }
  }

  /** The record `_create_employee_attendance_fast` inserts. */
  function NewRecord(emp: Employee, run: Run, name: string): AttendanceRecord {
    AttendanceRecord(name, emp.name, run.monthName, run.year, run.company, OptionalFields(emp), [])
  }

  predicate ForPeriod(r: AttendanceRecord, employee: string, month: string, year: int) {
    r.employee == employee && r.month == month && r.year == year
  }

  /** Record names are unique, as document names are. */
  predicate NamesDistinct(records: seq<AttendanceRecord>) {
    forall i, j :: 0 <= i < j < |records| ==> records[i].name != records[j].name
  }

  /** The record `get_doc` loads by name. */
  function IndexOfName(records: seq<AttendanceRecord>, name: string): (r: Option<nat>)
    ensures r.Some? ==> r.value < |records| && records[r.value].name == name
    ensures r.None? ==> forall j :: 0 <= j < |records| ==> records[j].name != name
  {
    if records == [] then None
    else if records[0].name == name then Some(0)
    else
      match IndexOfName(records[1..], name)
      case None => None
      case Some(i) => Some(i + 1)
  }

  /** The record the existence query (`limit=1`) returns for an employee
      and a month: the first in stored order. */
  function IndexOfPeriod(records: seq<AttendanceRecord>, employee: string, month: string, year: int): (r: Option<nat>)
    ensures r.Some? ==> r.value < |records| && ForPeriod(records[r.value], employee, month, year)
    ensures r.None? ==> forall j :: 0 <= j < |records| ==> !ForPeriod(records[j], employee, month, year)
  {
    if records == [] then None
    else if ForPeriod(records[0], employee, month, year) then Some(0)
    else
      match IndexOfPeriod(records[1..], employee, month, year)
      case None => None
      case Some(i) => Some(i + 1)
  }

  /** `_create_employee_attendance_fast`: the records afterwards and the
      name of the record found or created, `None` when the insert failed
      because the name is taken. */
  function FindOrCreate(records: seq<AttendanceRecord>, emp: Employee, run: Run, newName: string)
    : (seq<AttendanceRecord>, Option<string>)
  {
    match IndexOfPeriod(records, emp.name, run.monthName, run.year)
    case Some(i) => (records, Some(records[i].name))
    case None =>
      if IndexOfName(records, newName).Some? then (records, None)
      else (records + [NewRecord(emp, run, newName)], Some(newName))
  }

  /** Find-or-create: an existing record for the employee and month is
      returned and nothing is written; otherwise exactly one record, with
      the optional fields copied and no daily rows, is appended. Either way
      the returned name loads a record for that employee and month, and the
      names stay unique. */
  lemma FindOrCreateResult(records: seq<AttendanceRecord>, emp: Employee, run: Run, newName: string)
    requires NamesDistinct(records)
    ensures var (after, name) := FindOrCreate(records, emp, run, newName);
      && NamesDistinct(after)
      && ((exists j :: 0 <= j < |records| && ForPeriod(records[j], emp.name, run.monthName, run.year)) ==>
            after == records && name.Some?)
      && ((forall j :: 0 <= j < |records| ==> !ForPeriod(records[j], emp.name, run.monthName, run.year)) ==>
            if forall j :: 0 <= j < |records| ==> records[j].name != newName
            then after == records + [NewRecord(emp, run, newName)] && name == Some(newName)
            else after == records && name.None?)
      && (name.Some? ==> IndexOfName(after, name.value).Some?
                         && ForPeriod(after[IndexOfName(after, name.value).value], emp.name, run.monthName, run.year))
  {
    var (after, name) := FindOrCreate(records, emp, run, newName);
    match IndexOfPeriod(records, emp.name, run.monthName, run.year)
    case Some(i) =>
      IndexOfNameUnique(records, i);
    case None =>
      if IndexOfName(records, newName).None? {
        assert after[|records|].name == newName;
        IndexOfNameUnique(after, |records|);
      }
  }

  /** With unique names, looking a record up by its name finds it. */
  lemma IndexOfNameUnique(records: seq<AttendanceRecord>, i: nat)
    requires NamesDistinct(records) && i < |records|
    ensures IndexOfName(records, records[i].name) == Some(i)
  {
  }

  /** Calling find-or-create again finds the record the first call
      returned and writes nothing, whatever name it would give a new one. */
  lemma FindOrCreateAgain(records: seq<AttendanceRecord>, emp: Employee, run: Run, newName: string, otherName: string)
    requires FindOrCreate(records, emp, run, newName).1.Some?
    ensures var (after, name) := FindOrCreate(records, emp, run, newName);
            FindOrCreate(after, emp, run, otherName).0 == after
            && FindOrCreate(after, emp, run, otherName).1.Some?
  {
    var (after, name) := FindOrCreate(records, emp, run, newName);
    if IndexOfPeriod(records, emp.name, run.monthName, run.year).None? {
      assert ForPeriod(after[|records|], emp.name, run.monthName, run.year);
    }
  }

  /** The records after `_add_daily_attendance_fast` wrote `row` into the
      record named `name`; nothing changes when no record has that name
      (loading it raises). */
  function WithDay(records: seq<AttendanceRecord>, name: string, row: DailyRow): (r: seq<AttendanceRecord>)
    ensures |r| == |records|
  {
    match IndexOfName(records, name)
    case Some(i) => records[i := records[i].(table1 := Upsert(records[i].table1, row))]
    case None => records
  }

  /** Writing a daily row touches one record's rows and nothing else:
      the names, owners, months and fields of every record stay. */
  lemma WithDayKeepsHeaders(records: seq<AttendanceRecord>, name: string, row: DailyRow)
    ensures |WithDay(records, name, row)| == |records|
    ensures forall j :: 0 <= j < |records| ==>
      WithDay(records, name, row)[j] == records[j].(table1 := WithDay(records, name, row)[j].table1)
    ensures forall j :: 0 <= j < |records| && records[j].name != name ==> WithDay(records, name, row)[j] == records[j]
  {
  }

  /** How one daily write reads back in record `i`: the written date reads
      as the row when `i` is the record the name loads, and every other
      date reads as before. */
  lemma WithDayAt(records: seq<AttendanceRecord>, name: string, row: DailyRow, i: nat, d: Date)
    requires i < |records|
    ensures IndexOfName(records, name) == Some(i) ==> Lookup(WithDay(records, name, row)[i].table1, row.date) == Some(row)
    ensures d != row.date ==> Lookup(WithDay(records, name, row)[i].table1, d) == Lookup(records[i].table1, d)
  {
    match IndexOfName(records, name)
    case Some(k) =>
      if k == i {
        UpsertThenLookup(records[i].table1, row, d);
      }
    case None =>
  }

  /** The daily row the second date loop writes for a date, if any: one
      for an absent or a present day, carrying that date. */
  function DayRow(outcome: DayOutcome, date: Date): (r: Option<DailyRow>)
    ensures r.Some? <==> outcome.Absent? || outcome.Present?
    ensures r.Some? ==> r.value.date == date
  {
    match outcome
    case Absent => Some(BuildDailyRow(date, None, None, true))
    case Present(checkIn, checkOut) => Some(BuildDailyRow(date, Some(checkIn), Some(checkOut), false))
    case _ => None
  }

  /** The records after one date of the second loop. */
  function DayStep(records: seq<AttendanceRecord>, name: string, outcome: DayOutcome, date: Date): seq<AttendanceRecord> {
    match DayRow(outcome, date)
    case Some(row) => WithDay(records, name, row)
    case None => records
  }

  /** The records after the second date loop has handled `run.start ..= last`. */
  function RowsUpTo(records: seq<AttendanceRecord>, name: string, run: Run, cfg: GenConfig, dice: Dice, last: Date)
    : (r: seq<AttendanceRecord>)
    requires DiceFit(dice, cfg)
    ensures |r| == |records|
    decreases last - run.start
  {
    if last < run.start then records
    else DayStep(RowsUpTo(records, name, run, cfg, dice, last - 1), name, Outcome(run, cfg, dice, last), last)
  }

  /** `after` differs from `before` at most in the daily rows of records
      named `name`. */
  ghost predicate OnlyRowsOf(before: seq<AttendanceRecord>, after: seq<AttendanceRecord>, name: string) {
    && |after| == |before|
    && (forall j :: 0 <= j < |before| ==> after[j] == before[j].(table1 := after[j].table1))
    && (forall j :: 0 <= j < |before| && before[j].name != name ==> after[j] == before[j])
  }

  /** The second date loop writes only the daily rows of the named record:
      every record keeps its place, name, owner, month and fields, and every
      other record is left as it was. */
  lemma {:induction false} RowsUpToKeepsHeaders(records: seq<AttendanceRecord>, name: string, run: Run, cfg: GenConfig,
                                                dice: Dice, last: Date)
    requires DiceFit(dice, cfg)
    ensures OnlyRowsOf(records, RowsUpTo(records, name, run, cfg, dice, last), name)
    decreases last - run.start
  {
    if last >= run.start {
      RowsUpToKeepsHeaders(records, name, run, cfg, dice, last - 1);
      var prev := RowsUpTo(records, name, run, cfg, dice, last - 1);
      match DayRow(Outcome(run, cfg, dice, last), last)
      case Some(row) =>
        WithDayKeepsHeaders(prev, name, row);
      case None =>
    }
  }

  /** After the loop, every absent or present date of the range reads, in
      the named record, as the row built for that date's outcome. */
  lemma {:induction false} RowsUpToWritesDays(records: seq<AttendanceRecord>, name: string, run: Run, cfg: GenConfig,
                                              dice: Dice, last: Date, i: nat, d: Date)
    requires DiceFit(dice, cfg)
    requires NamesDistinct(records) && i < |records| && records[i].name == name
    requires run.start <= d <= last && (Outcome(run, cfg, dice, d).Absent? || Outcome(run, cfg, dice, d).Present?)
    ensures Lookup(RowsUpTo(records, name, run, cfg, dice, last)[i].table1, d) == DayRow(Outcome(run, cfg, dice, d), d)
    decreases last - run.start
  {
    var prev := RowsUpTo(records, name, run, cfg, dice, last - 1);
    RowsUpToKeepsHeaders(records, name, run, cfg, dice, last - 1);
    assert forall j :: 0 <= j < |prev| ==> prev[j].name == records[j].name;
    IndexOfNameUnique(prev, i);
    if d < last {
      RowsUpToWritesDays(records, name, run, cfg, dice, last - 1, i, d);
    }
    match DayRow(Outcome(run, cfg, dice, last), last)
    case Some(row) =>
      WithDayAt(prev, name, row, i, d);
    case None =>
  }

  /** A date the loop writes nothing for (outside the range, a skipped
      weekend, or a date whose processing raised) reads as it did before,
      in every record. */
  lemma {:induction false} RowsUpToKeepsOtherDays(records: seq<AttendanceRecord>, name: string, run: Run, cfg: GenConfig,
                                                  dice: Dice, last: Date, i: nat, d: Date)
    requires DiceFit(dice, cfg)
    requires i < |records|
    requires !(run.start <= d <= last) || Outcome(run, cfg, dice, d).Weekend? || Outcome(run, cfg, dice, d).Failed?
    ensures Lookup(RowsUpTo(records, name, run, cfg, dice, last)[i].table1, d) == Lookup(records[i].table1, d)
    decreases last - run.start
  {
    if last >= run.start {
      var prev := RowsUpTo(records, name, run, cfg, dice, last - 1);
      RowsUpToKeepsOtherDays(records, name, run, cfg, dice, last - 1, i, d);
      match DayRow(Outcome(run, cfg, dice, last), last)
      case Some(row) =>
        WithDayAt(prev, name, row, i, d);
      case None =>
    }
  }

  /** The stored documents. */
  datatype Store = Store(logs: seq<AttendanceLog>, attendance: seq<AttendanceRecord>)

  /** The random draws and insert outcomes for one employee: the dice of
      the first and of the second date loop (rolled independently), which
      log inserts succeed, and the name a new Employee Attendance record
      gets. */
  datatype EmployeeDraws = EmployeeDraws(logDice: Dice, rowDice: Dice, accepted: AttendanceLog -> bool, newName: string)

  /** The logs an employee's pass stores: the first loop's batch, less
      the inserts that fail. */
  function EmployeeLogs(emp: Employee, run: Run, cfg: GenConfig, draws: EmployeeDraws): seq<AttendanceLog>
    requires DiceFit(draws.logDice, cfg)
  {
    Kept(LogsUpTo(emp, run, cfg, draws.logDice, run.end), draws.accepted)
  }

  /** The attendance records after an employee's pass: the month's record
      is found or created, then the second loop fills its daily rows. */
  function EmployeeRecords(attendance: seq<AttendanceRecord>, emp: Employee, run: Run, cfg: GenConfig,
                           draws: EmployeeDraws): seq<AttendanceRecord>
    requires DiceFit(draws.rowDice, cfg)
  {
    var found := FindOrCreate(attendance, emp, run, draws.newName);
    if found.1.None? then found.0 else RowsUpTo(found.0, found.1.value, run, cfg, draws.rowDice, run.end)
  }

  /** `_generate_for_employee_fast` on the store: the store afterwards and
      the `created` count it returns. */
  function EmployeeRun(s: Store, emp: Employee, run: Run, cfg: GenConfig, draws: EmployeeDraws): (Store, nat)
    requires DiceFit(draws.logDice, cfg) && DiceFit(draws.rowDice, cfg)
  {
    var kept := EmployeeLogs(emp, run, cfg, draws);
    (Store(s.logs + kept, EmployeeRecords(s.attendance, emp, run, cfg, draws)), |kept|)
  }

  /** After an employee's pass whose find-or-create returned a name, that
      name loads the employee's record for the month, and each absent or
      present date of the second loop reads there as its built row. */
  lemma EmployeeRunRows(attendance: seq<AttendanceRecord>, emp: Employee, run: Run, cfg: GenConfig,
                        draws: EmployeeDraws, d: Date)
    requires DiceFit(draws.rowDice, cfg)
    requires NamesDistinct(attendance)
    requires FindOrCreate(attendance, emp, run, draws.newName).1.Some?
    requires run.start <= d <= run.end
    requires Outcome(run, cfg, draws.rowDice, d).Absent? || Outcome(run, cfg, draws.rowDice, d).Present?
    ensures var name := FindOrCreate(attendance, emp, run, draws.newName).1.value;
            var after := EmployeeRecords(attendance, emp, run, cfg, draws);
            && IndexOfName(after, name).Some?
            && ForPeriod(after[IndexOfName(after, name).value], emp.name, run.monthName, run.year)
            && Lookup(after[IndexOfName(after, name).value].table1, d) == DayRow(Outcome(run, cfg, draws.rowDice, d), d)
  {
    var found := FindOrCreate(attendance, emp, run, draws.newName);
    var name := found.1.value;
    FindOrCreateResult(attendance, emp, run, draws.newName);
    var k := IndexOfName(found.0, name).value;
    IndexOfNameUnique(found.0, k);
    var after := RowsUpTo(found.0, name, run, cfg, draws.rowDice, run.end);
    assert EmployeeRecords(attendance, emp, run, cfg, draws) == after;
    RowsUpToKeepsHeaders(found.0, name, run, cfg, draws.rowDice, run.end);
    assert forall j :: 0 <= j < |after| ==> after[j].name == found.0[j].name;
    IndexOfNameUnique(after, k);
    RowsUpToWritesDays(found.0, name, run, cfg, draws.rowDice, run.end, k, d);
  }

  /** The count an employee contributes is the number of inserted logs:
      at most two per present day of the first pass, exactly that when
      every insert succeeds. */
  lemma EmployeeRunCreated(emp: Employee, run: Run, cfg: GenConfig, draws: EmployeeDraws)
    requires DiceFit(draws.logDice, cfg)
    ensures |EmployeeLogs(emp, run, cfg, draws)| <= 2 * PresentDays(run, cfg, draws.logDice, run.end)
    ensures (forall x :: draws.accepted(x)) ==>
      |EmployeeLogs(emp, run, cfg, draws)| == 2 * PresentDays(run, cfg, draws.logDice, run.end)
  {
    var batch := LogsUpTo(emp, run, cfg, draws.logDice, run.end);
    LogsCount(emp, run, cfg, draws.logDice, run.end);
    if forall x :: draws.accepted(x) {
      KeptAll(batch, draws.accepted);
    }
  }

  class Database {
    var logs: seq<AttendanceLog>
    var attendance: seq<AttendanceRecord>

    constructor (logs: seq<AttendanceLog>, attendance: seq<AttendanceRecord>)
      ensures this.logs == logs && this.attendance == attendance
    {
      this.logs := logs;
      this.attendance := attendance;
    }

    function Contents(): Store
      reads this
    {
      Store(logs, attendance)
    }

    /** `_insert_batch`: insert each log in turn, skipping the ones whose
        insert fails, and count the successes. */
    method InsertBatch(batch: seq<AttendanceLog>, accepted: AttendanceLog -> bool) returns (inserted: nat)
      modifies this`logs
      ensures logs == old(logs) + Kept(batch, accepted)
      ensures inserted == |Kept(batch, accepted)| <= |batch|
    {
      inserted := 0;
      var i := 0;
      while i < |batch|
        invariant 0 <= i <= |batch|
        invariant logs == old(logs) + Kept(batch[..i], accepted)
        invariant inserted == |Kept(batch[..i], accepted)|
      {
        KeptAppend(batch[..i], [batch[i]], accepted);
        assert batch[..i + 1] == batch[..i] + [batch[i]];
        if accepted(batch[i]) {
          logs := logs + [batch[i]];
          inserted := inserted + 1;
        }
        i := i + 1;
      }
      assert batch[..i] == batch;
    }

    /** `_create_employee_attendance_fast`. */
    method CreateEmployeeAttendance(emp: Employee, run: Run, newName: string) returns (name: Option<string>)
      modifies this`attendance
      ensures (attendance, name) == FindOrCreate(old(attendance), emp, run, newName)
    {
      var existing := IndexOfPeriod(attendance, emp.name, run.monthName, run.year);
      if existing.Some? {
        return Some(attendance[existing.value].name);
      }
      if IndexOfName(attendance, newName).Some? {
        // the insert raises and the error is logged
        return None;
      }
      attendance := attendance + [NewRecord(emp, run, newName)];
      name := Some(newName);
    }

    /** `_add_daily_attendance_fast`: load the record, build the row, and
        overwrite the first row with that date or append the row. */
    method AddDailyAttendance(name: string, date: Date, checkIn: Option<Time>, checkOut: Option<Time>, isAbsent: bool)
      returns (ok: bool)
      modifies this`attendance
      ensures ok <==> IndexOfName(old(attendance), name).Some?
      ensures attendance == WithDay(old(attendance), name, BuildDailyRow(date, checkIn, checkOut, isAbsent))
    {
      var index := IndexOfName(attendance, name);
      if index.None? {
        return false;
      }
      var record := attendance[index.value];
      var existing := FindDailyRecord(record.table1, date);
      var row := BuildDailyRow(date, checkIn, checkOut, isAbsent);
      var table := if existing.Some? then record.table1[existing.value := row] else record.table1 + [row];
      attendance := attendance[index.value := record.(table1 := table)];
      ok := true;
    }

    /** The second date loop of `_generate_for_employee_fast`: rolls for
        absence again, independently of the first loop, and writes a daily
        row for every date that is not skipped. */
    method FillDailyRows(name: string, run: Run, cfg: GenConfig, dice: Dice)
      requires DiceFit(dice, cfg)
      modifies this`attendance
      ensures attendance == RowsUpTo(old(attendance), name, run, cfg, dice, run.end)
    {
      ghost var records := attendance;
      var current := run.start;
      while current <= run.end
        invariant current == run.start || run.start < current <= run.end + 1
        invariant attendance == RowsUpTo(records, name, run, cfg, dice, current - 1)
        decreases run.end - current
      {
        FillDay(name, run, cfg, dice, current);
        current := current + 1;
      }
    }

    /** One iteration of the second date loop: skip the date, or write its
        absent or present row. */
    method FillDay(name: string, run: Run, cfg: GenConfig, dice: Dice, current: Date)
      requires DiceFit(dice, cfg)
      modifies this`attendance
      ensures attendance == DayStep(old(attendance), name, Outcome(run, cfg, dice, current), current)
    {
      assert DayFits(dice, cfg, current);
      if !run.includeWeekends && Weekday(current) >= 5 {
        return;
      }
      if !cfg.absentProbability.Number? {
        // comparing the roll with a missing or textual probability raises
        return;
      }
      var isAbsent := dice.absentRoll(current) as real <= cfg.absentProbability.value;
      if isAbsent {
        var _ := AddDailyAttendance(name, current, None, None, true);
      } else {
        var times := GenerateTimes(cfg, dice.checkInMinute(current), dice.checkOutMinute(current));
        if times.None? {
          // randint over an empty window raises
          return;
        }
        var _ := AddDailyAttendance(name, current, Some(times.value.0), Some(times.value.1), false);
      }
    }

    /** `_generate_for_employee_fast` for one employee: build and insert
        the log batch, find or create the month's record, then fill its
        daily rows. Returns the number of logs inserted. */
    method GenerateForEmployee(emp: Employee, run: Run, cfg: GenConfig, draws: EmployeeDraws) returns (created: nat)
      requires DiceFit(draws.logDice, cfg) && DiceFit(draws.rowDice, cfg)
      modifies this
      ensures (Contents(), created) == EmployeeRun(old(Contents()), emp, run, cfg, draws)
    {
      ghost var before := Contents();
      var batch, daysProcessed, leaveDates := GenerateLogs(emp, run, cfg, draws.logDice);
      if batch != [] {
        created := InsertBatch(batch, draws.accepted);
      } else {
        created := 0;
      }
      assert logs == before.logs + EmployeeLogs(emp, run, cfg, draws) && created == |EmployeeLogs(emp, run, cfg, draws)|;
      var name := CreateEmployeeAttendance(emp, run, draws.newName);
      assert (attendance, name) == FindOrCreate(before.attendance, emp, run, draws.newName);
      if name.None? {
        return;
      }
      FillDailyRows(name.value, run, cfg, draws.rowDice);
    }
  }
}
