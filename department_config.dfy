/** `DepartmentAttendanceConfig.validate`: the save-time check of a
    department's attendance configuration (four probabilities in percent and
    three time windows). The check changes nothing; it either passes or
    throws with one message. */
module DepartmentConfig {
  import opened Common

  /** A probability field as stored: empty, a number, or text that
      `float()` cannot read. */
  datatype Probability = Missing | Number(value: real) | NotNumeric

  datatype Config = Config(
    lateArrivalProbability: Probability,
    absentProbability: Probability,
    overtimeProbability: Probability,
    earlyExitProbability: Probability,
    checkInStart: Time,
    checkInEnd: Time,
    checkOutStart: Time,
    checkOutEnd: Time,
    overtimeStart: Time,
    overtimeEnd: Time)

  /** The reasons `validate` throws, in the order it checks them. */
  datatype ConfigError =
    | ProbabilityOutOfRange
    | CheckInWindow
    | CheckOutWindow
    | OvertimeWindow
    | CheckInNotBeforeCheckOut

  function Message(e: ConfigError): string {
    match e
    case ProbabilityOutOfRange => "All probabilities must be between 0 and 100"
    case CheckInWindow => "Check-in start time must be before check-in end time"
    case CheckOutWindow => "Check-out start time must be before check-out end time"
    case OvertimeWindow => "Overtime start time must be before overtime end time"
    case CheckInNotBeforeCheckOut => "Check-in end time should be before check-out start time"
  }

  /** The number the probability check compares: an empty field and text
      that is not a number both count as 0. */
  function Value(p: Probability): real {
    match p
    case Number(v) => v
    case Missing => 0.0
    case NotNumeric => 0.0
  }

  predicate InRange(p: Probability) {
    0.0 <= Value(p) <= 100.0
  }

  /** The fields in the order the check visits them. */
  function Probabilities(c: Config): (ps: seq<Probability>)
    ensures |ps| == 4
  {
    [c.lateArrivalProbability, c.absentProbability, c.overtimeProbability, c.earlyExitProbability]
  }

  /** The loop over the probability fields: it gets through without
      throwing exactly when every field is in range. */
  function ProbabilitiesPass(ps: seq<Probability>): (ok: bool)
    ensures ok <==> forall i :: 0 <= i < |ps| ==> InRange(ps[i])
  {
    if ps == [] then true
    else InRange(ps[0]) && ProbabilitiesPass(ps[1..])
  }

  /** `_validate_times`: the first window rule that fails, if any. */
  function CheckTimes(c: Config): Option<ConfigError> {
    if c.checkInStart >= c.checkInEnd then Some(CheckInWindow)
    else if c.checkOutStart >= c.checkOutEnd then Some(CheckOutWindow)
    else if c.overtimeStart >= c.overtimeEnd then Some(OvertimeWindow)
    else if c.checkInEnd >= c.checkOutStart then Some(CheckInNotBeforeCheckOut)
    else None
  }

  /** `validate`: probabilities first, then the times; `None` means the
      configuration is saved. */
  function Validate(c: Config): Option<ConfigError> {
    if !ProbabilitiesPass(Probabilities(c)) then Some(ProbabilityOutOfRange)
    else CheckTimes(c)
  }

  /** Every rule of the check, stated on its own. */
  predicate Acceptable(c: Config) {
    && InRange(c.lateArrivalProbability)
    && InRange(c.absentProbability)
    && InRange(c.overtimeProbability)
    && InRange(c.earlyExitProbability)
    && c.checkInStart < c.checkInEnd
    && c.checkOutStart < c.checkOutEnd
    && c.overtimeStart < c.overtimeEnd
    && c.checkInEnd < c.checkOutStart
  }

  /** The check passes exactly when every rule holds. */
  lemma ValidateAcceptsExactly(c: Config)
    ensures Validate(c) == None <==> Acceptable(c)
  {
    var ps := Probabilities(c);
    assert ProbabilitiesPass(ps) <==> InRange(ps[0]) && InRange(ps[1]) && InRange(ps[2]) && InRange(ps[3]);
  }

  /** Which message is thrown: the first failing rule in the order
      probabilities, check-in window, check-out window, overtime window,
      check-in before check-out. */
  lemma ValidateReportsFirstFailure(c: Config)
    ensures Validate(c) == Some(ProbabilityOutOfRange) <==> exists i :: 0 <= i < 4 && !InRange(Probabilities(c)[i])
    ensures Validate(c) == Some(CheckInWindow) <==>
      ProbabilitiesPass(Probabilities(c)) && c.checkInStart >= c.checkInEnd
    ensures Validate(c) == Some(CheckOutWindow) <==>
      ProbabilitiesPass(Probabilities(c)) && c.checkInStart < c.checkInEnd && c.checkOutStart >= c.checkOutEnd
    ensures Validate(c) == Some(OvertimeWindow) <==>
      ProbabilitiesPass(Probabilities(c)) && c.checkInStart < c.checkInEnd && c.checkOutStart < c.checkOutEnd
      && c.overtimeStart >= c.overtimeEnd
    ensures Validate(c) == Some(CheckInNotBeforeCheckOut) <==>
      ProbabilitiesPass(Probabilities(c)) && c.checkInStart < c.checkInEnd && c.checkOutStart < c.checkOutEnd
      && c.overtimeStart < c.overtimeEnd && c.checkInEnd >= c.checkOutStart
  {
  }

  /** Both bounds are inclusive: when the other three probabilities are in
      range and field `k` holds the number `v`, the probability error is
      avoided exactly when 0 <= v <= 100, so 0 and 100 themselves pass. */
  lemma ProbabilityBoundsInclusive(c: Config, k: nat, v: real)
    requires k < 4 && Probabilities(c)[k] == Number(v)
    requires forall i :: 0 <= i < 4 && i != k ==> InRange(Probabilities(c)[i])
    ensures Validate(c) != Some(ProbabilityOutOfRange) <==> 0.0 <= v <= 100.0
  {
    ValidateReportsFirstFailure(c);
  }

  /** An empty field and a field that is not a number both pass. */
  lemma MissingOrNotNumericPasses(p: Probability)
    requires p == Missing || p == NotNumeric
    ensures InRange(p) && Value(p) == 0.0
  {
  }

  /** A window whose start equals its end is refused, for each of the
      three windows. */
  lemma EqualWindowBoundsRejected(c: Config)
    requires ProbabilitiesPass(Probabilities(c))
    ensures c.checkInStart == c.checkInEnd ==> Validate(c) == Some(CheckInWindow)
    ensures c.checkInStart < c.checkInEnd && c.checkOutStart == c.checkOutEnd ==> Validate(c) == Some(CheckOutWindow)
    ensures c.checkInStart < c.checkInEnd && c.checkOutStart < c.checkOutEnd && c.overtimeStart == c.overtimeEnd
            ==> Validate(c) == Some(OvertimeWindow)
  {
  }

  /** An accepted configuration orders its working day: check-in opens,
      closes, then check-out opens and closes. */
  lemma AcceptedDayIsOrdered(c: Config)
    requires Validate(c) == None
    ensures c.checkInStart < c.checkInEnd < c.checkOutStart < c.checkOutEnd
  {
    ValidateAcceptsExactly(c);
  }
}
