/** The first pass of `_generate_for_employee_fast`: walking the date range,
    skipping weekends, rolling for absence and collecting a Check In and a
    Check Out log for every present day; and which of those logs
    `_insert_batch` manages to insert. */
module AttendanceLogs {
  import opened Common
  import opened FakeTimes

  /** The Employee fields the generator reads; an empty string stands for
      an unset field. */
  datatype Employee = Employee(
    name: string,
    employeeName: string,
    department: string,
    designation: string,
    biometricId: string,
    companyEmail: string,
    dateOfJoining: string,
    holidayList: string,
    branch: string,
    cnic: string)

  /** The settings of one generation run, taken from the generator
      document. `monthName` and `year` are those of the start date. */
  datatype Run = Run(
    company: string,
    start: Date,
    end: Date,
    includeWeekends: bool,
    monthName: string,
    year: int)

  datatype LogType = CheckIn | CheckOut

  /** One Attendance Logs document of the batch. */
  datatype AttendanceLog = AttendanceLog(
    employee: string,
    employeeName: string,
    date: Date,
    time: Time,
    company: string,
    department: string,
    designation: string,
    biometricId: string,
    logType: LogType)

  /** `emp.biometric_id or "505"`. */
  function BiometricId(emp: Employee): (b: string)
    ensures b != ""
    ensures emp.biometricId != "" ==> b == emp.biometricId
  {
    if emp.biometricId == "" then "505" else emp.biometricId
  }

  function Log(emp: Employee, company: string, date: Date, time: Time, logType: LogType): AttendanceLog {
    AttendanceLog(emp.name, emp.employeeName, date, time, company, emp.department, emp.designation, BiometricId(emp), logType)
  }

  /** The logs one date adds to the batch: a Check In and a Check Out on a
      present day, nothing otherwise. */
  function DayLogs(emp: Employee, company: string, date: Date, outcome: DayOutcome): seq<AttendanceLog> {
    match outcome
    case Present(checkIn, checkOut) => [Log(emp, company, date, checkIn, CheckIn), Log(emp, company, date, checkOut, CheckOut)]
    case _ => []
  }

  function Outcome(run: Run, cfg: GenConfig, dice: Dice, date: Date): DayOutcome
    requires DiceFit(dice, cfg)
  {
    DecideDay(run.includeWeekends, cfg, dice, date)
  }

  /** The batch after the loop has handled the dates `run.start ..= last`. */
  function LogsUpTo(emp: Employee, run: Run, cfg: GenConfig, dice: Dice, last: Date): seq<AttendanceLog>
    requires DiceFit(dice, cfg)
    decreases last - run.start
  {
    if last < run.start then []
    else LogsUpTo(emp, run, cfg, dice, last - 1) + DayLogs(emp, run.company, last, Outcome(run, cfg, dice, last))
  }

  /** The number of present days among `run.start ..= last`. */
  function PresentDays(run: Run, cfg: GenConfig, dice: Dice, last: Date): nat
    requires DiceFit(dice, cfg)
    decreases last - run.start
  {
    if last < run.start then 0
    else PresentDays(run, cfg, dice, last - 1) + (if Outcome(run, cfg, dice, last).Present? then 1 else 0)
  }

  /** `days_processed`: the dates that were neither skipped as weekends nor
      abandoned because their processing raised. */
  function DaysProcessed(run: Run, cfg: GenConfig, dice: Dice, last: Date): nat
    requires DiceFit(dice, cfg)
    decreases last - run.start
  {
    if last < run.start then 0
    else
      var o := Outcome(run, cfg, dice, last);
      DaysProcessed(run, cfg, dice, last - 1) + (if o.Present? || o.Absent? then 1 else 0)
  }

  /** The dates on which a leave application is attempted (the absent
      days), in order. */
  function AbsentDates(run: Run, cfg: GenConfig, dice: Dice, last: Date): seq<Date>
    requires DiceFit(dice, cfg)
    decreases last - run.start
  {
    if last < run.start then []
    else AbsentDates(run, cfg, dice, last - 1) + (if Outcome(run, cfg, dice, last).Absent? then [last] else [])
  }

  /** The first date loop of `_generate_for_employee_fast`. */
  method GenerateLogs(emp: Employee, run: Run, cfg: GenConfig, dice: Dice)
    returns (batch: seq<AttendanceLog>, daysProcessed: nat, leaveDates: seq<Date>)
    requires DiceFit(dice, cfg)
    ensures batch == LogsUpTo(emp, run, cfg, dice, run.end)
    ensures daysProcessed == DaysProcessed(run, cfg, dice, run.end)
    ensures leaveDates == AbsentDates(run, cfg, dice, run.end)
  {
    batch, daysProcessed, leaveDates := [], 0, [];
    var current := run.start;
    while current <= run.end
      invariant current == run.start || run.start < current <= run.end + 1
      invariant batch == LogsUpTo(emp, run, cfg, dice, current - 1)
      invariant daysProcessed == DaysProcessed(run, cfg, dice, current - 1)
      invariant leaveDates == AbsentDates(run, cfg, dice, current - 1)
      decreases run.end - current
    {
      assert DayFits(dice, cfg, current);
      if !run.includeWeekends && Weekday(current) >= 5 {
        current := current + 1;
        continue;
      }
      if !cfg.absentProbability.Number? {
        // comparing the roll with a missing or textual probability raises
        current := current + 1;
        continue;
      }
      if dice.absentRoll(current) as real <= cfg.absentProbability.value {
        leaveDates := leaveDates + [current];
      } else {
        var times := GenerateTimes(cfg, dice.checkInMinute(current), dice.checkOutMinute(current));
        if times.None? {
          // randint over an empty window raises
          current := current + 1;
          continue;
        }
        var (checkIn, checkOut) := times.value;
        batch := batch + [Log(emp, run.company, current, checkIn, CheckIn), Log(emp, run.company, current, checkOut, CheckOut)];
      }
      daysProcessed := daysProcessed + 1;
      current := current + 1;
    }
  }

  /** Each present day adds exactly two logs. */
  lemma {:induction false} LogsCount(emp: Employee, run: Run, cfg: GenConfig, dice: Dice, last: Date)
    requires DiceFit(dice, cfg)
    ensures |LogsUpTo(emp, run, cfg, dice, last)| == 2 * PresentDays(run, cfg, dice, last)
    decreases last - run.start
  {
    if last >= run.start {
      LogsCount(emp, run, cfg, dice, last - 1);
    }
  }

  /** The batch is a sequence of pairs, one per present day: a Check In
      followed by a Check Out of the same date, carrying the times drawn for
      that date. */
  lemma {:induction false} LogsArePairs(emp: Employee, run: Run, cfg: GenConfig, dice: Dice, last: Date, k: nat)
    requires DiceFit(dice, cfg)
    requires k < PresentDays(run, cfg, dice, last)
    ensures var logs := LogsUpTo(emp, run, cfg, dice, last);
      && 2 * k + 1 < |logs|
      && logs[2 * k].logType == CheckIn && logs[2 * k + 1].logType == CheckOut
      && logs[2 * k].date == logs[2 * k + 1].date
      && Outcome(run, cfg, dice, logs[2 * k].date) == Present(logs[2 * k].time, logs[2 * k + 1].time)
    decreases last - run.start
  {
    LogsCount(emp, run, cfg, dice, last);
    LogsCount(emp, run, cfg, dice, last - 1);
    var prev := LogsUpTo(emp, run, cfg, dice, last - 1);
    var logs := LogsUpTo(emp, run, cfg, dice, last);
    if k < PresentDays(run, cfg, dice, last - 1) {
      LogsArePairs(emp, run, cfg, dice, last - 1, k);
      assert logs[2 * k] == prev[2 * k] && logs[2 * k + 1] == prev[2 * k + 1];
    } else {
      assert 2 * k == |prev|;
    }
  }

  /** Every log of the batch falls on a date of the range whose outcome
      is present. */
  lemma {:induction false} LogOnPresentDay(emp: Employee, run: Run, cfg: GenConfig, dice: Dice, last: Date, i: nat)
    requires DiceFit(dice, cfg)
    requires i < |LogsUpTo(emp, run, cfg, dice, last)|
    ensures var date := LogsUpTo(emp, run, cfg, dice, last)[i].date;
            run.start <= date <= last && Outcome(run, cfg, dice, date).Present?
    decreases last - run.start
  {
    var prev := LogsUpTo(emp, run, cfg, dice, last - 1);
    var logs := LogsUpTo(emp, run, cfg, dice, last);
    if i < |prev| {
      LogOnPresentDay(emp, run, cfg, dice, last - 1, i);
      assert logs[i] == prev[i];
    }
  }

  /** Every present day of the range has its logs in the batch. */
  lemma {:induction false} PresentDayLogged(emp: Employee, run: Run, cfg: GenConfig, dice: Dice, last: Date, date: Date)
    requires DiceFit(dice, cfg)
    requires run.start <= date <= last && Outcome(run, cfg, dice, date).Present?
    ensures exists i :: 0 <= i < |LogsUpTo(emp, run, cfg, dice, last)| && LogsUpTo(emp, run, cfg, dice, last)[i].date == date
    decreases last - run.start
  {
    var prev := LogsUpTo(emp, run, cfg, dice, last - 1);
    var logs := LogsUpTo(emp, run, cfg, dice, last);
    if date == last {
      assert logs[|prev|].date == date;
    } else {
      PresentDayLogged(emp, run, cfg, dice, last - 1, date);
      var i :| 0 <= i < |prev| && prev[i].date == date;
      assert logs[i] == prev[i];
    }
  }

  /** A log exists for a date exactly when the date is in the range and its
      outcome is present: in particular no log falls on a skipped weekend or
      on a day whose roll was at most the absence probability. */
  lemma LogDates(emp: Employee, run: Run, cfg: GenConfig, dice: Dice, last: Date, date: Date)
    requires DiceFit(dice, cfg)
    ensures (exists i :: 0 <= i < |LogsUpTo(emp, run, cfg, dice, last)| && LogsUpTo(emp, run, cfg, dice, last)[i].date == date)
        <==> run.start <= date <= last && Outcome(run, cfg, dice, date).Present?
  {
    var logs := LogsUpTo(emp, run, cfg, dice, last);
    if exists i :: 0 <= i < |logs| && logs[i].date == date {
      var i :| 0 <= i < |logs| && logs[i].date == date;
      LogOnPresentDay(emp, run, cfg, dice, last, i);
    }
    if run.start <= date <= last && Outcome(run, cfg, dice, date).Present? {
      PresentDayLogged(emp, run, cfg, dice, last, date);
    }
  }

  /** Where a log of the batch up to `last` comes from: the batch up to the
      day before, or the logs of `last` itself. */
  lemma LogsUpToAt(emp: Employee, run: Run, cfg: GenConfig, dice: Dice, last: Date, k: nat)
    requires DiceFit(dice, cfg)
    requires k < |LogsUpTo(emp, run, cfg, dice, last)|
    ensures last >= run.start
    ensures k < |LogsUpTo(emp, run, cfg, dice, last - 1)| ==>
            LogsUpTo(emp, run, cfg, dice, last)[k] == LogsUpTo(emp, run, cfg, dice, last - 1)[k]
    ensures k >= |LogsUpTo(emp, run, cfg, dice, last - 1)| ==> LogsUpTo(emp, run, cfg, dice, last)[k].date == last
  {
  }

  /** The dates of the batch never decrease. */
  lemma {:induction false} LogsInDateOrder(emp: Employee, run: Run, cfg: GenConfig, dice: Dice, last: Date, i: nat, j: nat)
    requires DiceFit(dice, cfg)
    requires i <= j < |LogsUpTo(emp, run, cfg, dice, last)|
    ensures LogsUpTo(emp, run, cfg, dice, last)[i].date <= LogsUpTo(emp, run, cfg, dice, last)[j].date
    decreases last - run.start
  {
    LogsUpToAt(emp, run, cfg, dice, last, i);
    LogsUpToAt(emp, run, cfg, dice, last, j);
    if j < |LogsUpTo(emp, run, cfg, dice, last - 1)| {
      LogsInDateOrder(emp, run, cfg, dice, last - 1, i, j);
    } else if i < |LogsUpTo(emp, run, cfg, dice, last - 1)| {
      LogOnPresentDay(emp, run, cfg, dice, last - 1, i);
    }
  }

  /** Days processed never exceed the dates of the range; when weekends are
      included and nothing can raise, every date is processed. */
  lemma {:induction false} DaysProcessedBound(run: Run, cfg: GenConfig, dice: Dice, last: Date)
    requires DiceFit(dice, cfg)
    ensures PresentDays(run, cfg, dice, last) <= DaysProcessed(run, cfg, dice, last)
    ensures last >= run.start ==> DaysProcessed(run, cfg, dice, last) <= last - run.start + 1
    ensures last >= run.start && run.includeWeekends && cfg.absentProbability.Number? && WindowsDrawable(cfg)
            ==> DaysProcessed(run, cfg, dice, last) == last - run.start + 1
    decreases last - run.start
  {
    if last >= run.start {
      DaysProcessedBound(run, cfg, dice, last - 1);
      DecideDayCases(run.includeWeekends, cfg, dice, last);
    }
  }

  /** The logs `_insert_batch` manages to insert, in batch order: a failed
      insert is skipped and the loop goes on. */
  function Kept(batch: seq<AttendanceLog>, accepted: AttendanceLog -> bool): (r: seq<AttendanceLog>)
    ensures |r| <= |batch|
    ensures forall x :: x in r ==> x in batch && accepted(x)
  {
    if batch == [] then []
    else (if accepted(batch[0]) then [batch[0]] else []) + Kept(batch[1..], accepted)
  }

  /** Inserting two batches one after the other keeps what each keeps: a
      failure in the first part does not stop the second. */
  lemma {:induction false} KeptAppend(a: seq<AttendanceLog>, b: seq<AttendanceLog>, accepted: AttendanceLog -> bool)
    ensures Kept(a + b, accepted) == Kept(a, accepted) + Kept(b, accepted)
  {
    if a != [] {
      assert (a + b)[1..] == a[1..] + b;
      KeptAppend(a[1..], b, accepted);
    } else {
      assert a + b == b;
    }
  }

  /** When every insert succeeds the whole batch is inserted. */
  lemma {:induction false} KeptAll(batch: seq<AttendanceLog>, accepted: AttendanceLog -> bool)
    requires forall i :: 0 <= i < |batch| ==> accepted(batch[i])
    ensures Kept(batch, accepted) == batch
  {
    if batch != [] {
      KeptAll(batch[1..], accepted);
    }
  }

  /** A log of the batch that is accepted is inserted. */
  lemma {:induction false} KeptAccepted(batch: seq<AttendanceLog>, accepted: AttendanceLog -> bool, i: nat)
    requires i < |batch| && accepted(batch[i])
    ensures batch[i] in Kept(batch, accepted)
  {
    if i > 0 {
      KeptAccepted(batch[1..], accepted, i - 1);
    }
  }
}
