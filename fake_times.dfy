/** The per-day decisions of the fake generator: the configuration it reads,
    the clock times it draws inside a window (`_random_time_fast`,
    `_generate_times_fast`) and what happens to one date of the range
    (skipped weekend, absent, present, or a date whose processing raised). */
module FakeTimes {
  import opened Common
  import DepartmentConfig

  /** The fields of a configuration that the generator reads. */
  datatype GenConfig = GenConfig(
    absentProbability: DepartmentConfig.Probability,
    checkInStart: Time,
    checkInEnd: Time,
    checkOutStart: Time,
    checkOutEnd: Time)

  /** `_default_cfg()`, as far as the generator reads it: absence 5, check-in
      08:00:00-09:00:00, check-out 17:00:00-18:00:00 (times in seconds). */
  const DefaultConfig: GenConfig :=
    GenConfig(DepartmentConfig.Number(5.0), 28800, 32400, 61200, 64800)

  /** The generator's view of a department's stored configuration. */
  function FromDepartment(c: DepartmentConfig.Config): (g: GenConfig)
    ensures g.absentProbability == c.absentProbability
    ensures g.checkInStart == c.checkInStart && g.checkInEnd == c.checkInEnd
    ensures g.checkOutStart == c.checkOutStart && g.checkOutEnd == c.checkOutEnd
  {
    GenConfig(c.absentProbability, c.checkInStart, c.checkInEnd, c.checkOutStart, c.checkOutEnd)
  }

  /** `m` stands for the value of `random.randint(lo, hi)`. When `lo > hi`
      randint raises instead of returning, and `m` is never used. */
  predicate Drawable(lo: int, hi: int, m: int) {
    lo > hi || lo <= m <= hi
  }

  /** `_random_time_fast(start, end)` with the drawn minute of the day `m`:
      `None` when the minute range is empty (randint raises). The seconds of
      both bounds are dropped before drawing. */
  function RandomTime(start: Time, end: Time, m: int): (r: Option<Time>)
    requires Drawable(MinuteOfDay(start), MinuteOfDay(end), m)
    ensures r.None? <==> MinuteOfDay(start) > MinuteOfDay(end)
    ensures r.Some? ==> Hour(r.value) == m / 60 && Minute(r.value) == m % 60 && Second(r.value) == 0
    ensures r.Some? ==> r.value == m * 60 && MinuteOfDay(r.value) == m
  {
    if MinuteOfDay(start) > MinuteOfDay(end) then None
    else
      WholeMinute(m);
      Some(TimeOf(m / 60, m % 60, 0))
  }

  lemma WholeMinute(m: int)
    requires 0 <= m < 1440
    ensures (m / 60) * 3600 + (m % 60) * 60 == m * 60
    ensures (m * 60) / 60 == m
  {
    assert m == (m / 60) * 60 + m % 60;
  }

  /** Dropping the seconds keeps the order of two times. */
  lemma MinuteOfDayMonotone(a: Time, b: Time)
    requires a <= b
    ensures MinuteOfDay(a) <= MinuteOfDay(b)
    ensures MinuteOfDay(a) * 60 <= a
  {
  }

  /** The drawn time lies in the window at minute granularity: never after
      `end`, and never before the start of `start`'s minute. */
  lemma RandomTimeInWindow(start: Time, end: Time, m: int)
    requires Drawable(MinuteOfDay(start), MinuteOfDay(end), m)
    requires MinuteOfDay(start) <= MinuteOfDay(end)
    ensures RandomTime(start, end, m).Some?
    ensures var t := RandomTime(start, end, m).value;
            MinuteOfDay(start) <= MinuteOfDay(t) <= MinuteOfDay(end) && start - Second(start) <= t <= end
  {
    MinuteOfDayMonotone(start, start);
    MinuteOfDayMonotone(end, end);
  }

  /** Every whole-minute time of the window can be drawn. */
  lemma RandomTimeCoversWindow(start: Time, end: Time, t: Time)
    requires Second(t) == 0 && MinuteOfDay(start) <= MinuteOfDay(t) <= MinuteOfDay(end)
    ensures RandomTime(start, end, MinuteOfDay(t)) == Some(t)
  {
    assert t == MinuteOfDay(t) * 60 + Second(t);
  }

  /** The seconds of the start bound are ignored: with a window opening at
      09:00:30 the draw of minute 540 gives 09:00:00, before the window. */
  lemma RandomTimeMayPrecedeStart()
    ensures RandomTime(32430, 33000, 540) == Some(32400)
    ensures Hour(32430) == 9 && Minute(32430) == 0 && Second(32430) == 30
  {
    assert MinuteOfDay(32430) == 540 && MinuteOfDay(33000) == 550;
    assert Drawable(540, 550, 540);
    var r := RandomTime(32430, 33000, 540);
    assert r.Some? && r.value == 540 * 60;
  }

  /** `_generate_times_fast`: a check-in time drawn from the check-in window
      and a check-out time from the check-out window; `None` when either
      draw raises. */
  function GenerateTimes(cfg: GenConfig, inMinute: int, outMinute: int): (r: Option<(Time, Time)>)
    requires Drawable(MinuteOfDay(cfg.checkInStart), MinuteOfDay(cfg.checkInEnd), inMinute)
    requires Drawable(MinuteOfDay(cfg.checkOutStart), MinuteOfDay(cfg.checkOutEnd), outMinute)
    ensures r.Some? <==> RandomTime(cfg.checkInStart, cfg.checkInEnd, inMinute).Some?
                         && RandomTime(cfg.checkOutStart, cfg.checkOutEnd, outMinute).Some?
    ensures r.Some? ==> Some(r.value.0) == RandomTime(cfg.checkInStart, cfg.checkInEnd, inMinute)
                        && Some(r.value.1) == RandomTime(cfg.checkOutStart, cfg.checkOutEnd, outMinute)
  {
    match RandomTime(cfg.checkInStart, cfg.checkInEnd, inMinute)
    case None => None
    case Some(checkIn) =>
      match RandomTime(cfg.checkOutStart, cfg.checkOutEnd, outMinute)
      case None => None
      case Some(checkOut) => Some((checkIn, checkOut))
  }

  /** The windows of the configuration can always be drawn from. */
  predicate WindowsDrawable(cfg: GenConfig) {
    MinuteOfDay(cfg.checkInStart) <= MinuteOfDay(cfg.checkInEnd)
    && MinuteOfDay(cfg.checkOutStart) <= MinuteOfDay(cfg.checkOutEnd)
  }

  /** A configuration that passed the department check never makes the draw
      raise, and its check-in never comes after its check-out. */
  lemma AcceptedConfigDrawsOrderedTimes(c: DepartmentConfig.Config, inMinute: int, outMinute: int)
    requires DepartmentConfig.Validate(c) == None
    requires Drawable(MinuteOfDay(c.checkInStart), MinuteOfDay(c.checkInEnd), inMinute)
    requires Drawable(MinuteOfDay(c.checkOutStart), MinuteOfDay(c.checkOutEnd), outMinute)
    ensures WindowsDrawable(FromDepartment(c))
    ensures var r := GenerateTimes(FromDepartment(c), inMinute, outMinute);
            r.Some? && r.value.0 <= r.value.1
  {
    DepartmentConfig.AcceptedDayIsOrdered(c);
    MinuteOfDayMonotone(c.checkInStart, c.checkInEnd);
    MinuteOfDayMonotone(c.checkInEnd, c.checkOutStart);
    MinuteOfDayMonotone(c.checkOutStart, c.checkOutEnd);
  }

  /** A department configuration whose check-in window closes at 09:00:10
      and whose check-out window opens at 09:00:50. */
  const TightConfig: DepartmentConfig.Config := DepartmentConfig.Config(
    DepartmentConfig.Missing, DepartmentConfig.Missing, DepartmentConfig.Missing, DepartmentConfig.Missing,
    28800, 32410, 32450, 36000, 64800, 68400)

  lemma TightConfigAccepted()
    ensures DepartmentConfig.Validate(TightConfig) == None
  {
  }

  /** The order is not strict: that accepted configuration can draw the
      same minute for check-in and check-out. */
  lemma AcceptedConfigMayDrawEqualTimes()
    ensures DepartmentConfig.Validate(TightConfig) == None
    ensures GenerateTimes(FromDepartment(TightConfig), 540, 540) == Some((32400, 32400))
  {
    TightConfigAccepted();
    var g := FromDepartment(TightConfig);
    assert MinuteOfDay(g.checkInStart) == 480 && MinuteOfDay(g.checkInEnd) == 540;
    assert MinuteOfDay(g.checkOutStart) == 540 && MinuteOfDay(g.checkOutEnd) == 600;
    assert RandomTime(g.checkInStart, g.checkInEnd, 540) == Some(32400);
    assert RandomTime(g.checkOutStart, g.checkOutEnd, 540) == Some(32400);
  }

  /** The random draws for one pass over the date range, one set per date:
      the absence roll (`randint(1, 100)`) and the two drawn minutes. */
  datatype Dice = Dice(absentRoll: Date -> int, checkInMinute: Date -> int, checkOutMinute: Date -> int)

  /** The draws of date `d` are values randint can return: the roll is one
      of 1..100 and each drawn minute lies in its window's minute range. */
  predicate DayFits(dice: Dice, cfg: GenConfig, d: Date) {
    && 1 <= dice.absentRoll(d) <= 100
    && Drawable(MinuteOfDay(cfg.checkInStart), MinuteOfDay(cfg.checkInEnd), dice.checkInMinute(d))
    && Drawable(MinuteOfDay(cfg.checkOutStart), MinuteOfDay(cfg.checkOutEnd), dice.checkOutMinute(d))
  }

  /** The draws of every date fit. */
  ghost predicate DiceFit(dice: Dice, cfg: GenConfig) {
    forall d: Date :: DayFits(dice, cfg, d)
  }

  /** What one date of the range comes to. `Failed` is a date whose
      processing raised and was skipped by the per-date handler: a drawn
      window that is empty, or an absence probability that is not a number
      (comparing the roll with it raises). */
  datatype DayOutcome = Weekend | Failed | Absent | Present(checkIn: Time, checkOut: Time)

  /** The body of one iteration of either date loop of
      `_generate_for_employee_fast`. */
  function DecideDay(includeWeekends: bool, cfg: GenConfig, dice: Dice, d: Date): DayOutcome
    requires DayFits(dice, cfg, d)
  {
    if !includeWeekends && Weekday(d) >= 5 then Weekend
    else if !cfg.absentProbability.Number? then Failed
    else if dice.absentRoll(d) as real <= cfg.absentProbability.value then Absent
    else
      match GenerateTimes(cfg, dice.checkInMinute(d), dice.checkOutMinute(d))
      case None => Failed
      case Some(times) => Present(times.0, times.1)
  }

  /** The cases of one date: weekends are skipped exactly when they are
      excluded, a day is absent exactly when its roll is at most the
      absence probability, and a present day's times come from the windows. */
  lemma DecideDayCases(includeWeekends: bool, cfg: GenConfig, dice: Dice, d: Date)
    requires DayFits(dice, cfg, d)
    ensures DecideDay(includeWeekends, cfg, dice, d) == Weekend <==> !includeWeekends && Weekday(d) >= 5
    ensures DecideDay(includeWeekends, cfg, dice, d) == Absent <==>
      (includeWeekends || Weekday(d) < 5)
      && cfg.absentProbability.Number? && dice.absentRoll(d) as real <= cfg.absentProbability.value
    ensures DecideDay(includeWeekends, cfg, dice, d) == Failed ==>
      !cfg.absentProbability.Number? || !WindowsDrawable(cfg)
    ensures DecideDay(includeWeekends, cfg, dice, d).Present? ==>
      var o := DecideDay(includeWeekends, cfg, dice, d);
      && dice.absentRoll(d) as real > cfg.absentProbability.value
      && MinuteOfDay(cfg.checkInStart) <= MinuteOfDay(o.checkIn) <= MinuteOfDay(cfg.checkInEnd)
      && MinuteOfDay(cfg.checkOutStart) <= MinuteOfDay(o.checkOut) <= MinuteOfDay(cfg.checkOutEnd)
      && Second(o.checkIn) == 0 && Second(o.checkOut) == 0
  {
    var o := DecideDay(includeWeekends, cfg, dice, d);
    if o.Present? {
      RandomTimeInWindow(cfg.checkInStart, cfg.checkInEnd, dice.checkInMinute(d));
      RandomTimeInWindow(cfg.checkOutStart, cfg.checkOutEnd, dice.checkOutMinute(d));
    }
  }

  /** With rolls in 1..100, an absence probability of 100 or more makes
      every counted day absent, and one below 1 makes none absent. */
  lemma AbsenceExtremes(includeWeekends: bool, cfg: GenConfig, dice: Dice, d: Date)
    requires DayFits(dice, cfg, d)
    requires cfg.absentProbability.Number? && (includeWeekends || Weekday(d) < 5)
    ensures cfg.absentProbability.value >= 100.0 ==> DecideDay(includeWeekends, cfg, dice, d) == Absent
    ensures cfg.absentProbability.value < 1.0 ==> DecideDay(includeWeekends, cfg, dice, d) != Absent
  {
  }

  /** The default configuration never makes a date fail: its probability
      is a number and its windows, 08:00-09:00 and 17:00-18:00, are not
      empty. */
  lemma DefaultConfigNeverFails(includeWeekends: bool, dice: Dice, d: Date)
    requires DayFits(dice, DefaultConfig, d)
    ensures DecideDay(includeWeekends, DefaultConfig, dice, d) != Failed
  {
    assert MinuteOfDay(28800) == 480 && MinuteOfDay(32400) == 540;
    assert MinuteOfDay(61200) == 1020 && MinuteOfDay(64800) == 1080;
    assert WindowsDrawable(DefaultConfig);
  }
}
