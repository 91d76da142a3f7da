/** The Fake Attendance Generator document itself: its date-range check,
    its job status with the cancel request, and the truncation that
    `log_message` applies to error text. */
module GeneratorDoc {
  import opened Common

  const MaxLoggedLength: nat := 100

  /** The text `log_message` writes to the error log for an error: a
      message longer than 100 characters is cut to its first 100 and
      marked with "...". */
  function ShortMessage(message: string): (r: string)
    ensures |r| <= MaxLoggedLength + 3
    ensures |message| <= MaxLoggedLength ==> r == message
    ensures |message| > MaxLoggedLength ==>
      |r| == MaxLoggedLength + 3 && r[..MaxLoggedLength] == message[..MaxLoggedLength] && r[MaxLoggedLength..] == "..."
  {
    if |message| > MaxLoggedLength then message[..MaxLoggedLength] + "..." else message
  }

  /** Cutting twice cuts nothing more: the shortened text of a shortened
      message is the same text. */
  lemma ShortMessageIdempotent(message: string)
    ensures ShortMessage(ShortMessage(message)) == ShortMessage(message)
  {
    var r := ShortMessage(message);
    if |message| > MaxLoggedLength {
      assert r[..MaxLoggedLength] == message[..MaxLoggedLength];
    }
  }

  /** The logged text always starts with the message's first 100
      characters (all of it when shorter). */
  lemma ShortMessageKeepsPrefix(message: string)
    ensures var n := if |message| < MaxLoggedLength then |message| else MaxLoggedLength;
            n <= |ShortMessage(message)| && ShortMessage(message)[..n] == message[..n]
  {
  }

  const StartAfterEnd := "Start date must be before end date"

  /** `FakeAttendanceGenerator.validate`: only a range with both dates set
      and the start after the end is refused. */
  function ValidateRange(start: Option<Date>, end: Option<Date>): (r: Option<string>)
    ensures r.Some? <==> start.Some? && end.Some? && start.value > end.value
    ensures r.Some? ==> r.value == StartAfterEnd
  {
    if start.Some? && end.Some? && start.value > end.value then Some(StartAfterEnd) else None
  }

  /** A one-day range passes. */
  lemma SingleDayRangeAccepted(d: Date)
    ensures ValidateRange(Some(d), Some(d)) == None
  {
  }

  const InProgress := "In Progress"
  const Failed := "Failed"
  const Completed := "Completed"
  const CancelledByUser := "Cancelled by user"

  /** What `cancel_generation` answers. */
  datatype CancelReply = Cancelled | NotCancelled(message: string)

  /** The stored status fields of one generator document. */
  class Generator {
    var status: string
    var generationLog: string
    var generatedRecords: int

    constructor (status: string)
      ensures this.status == status && generationLog == "" && generatedRecords == 0
    {
      this.status := status;
      generationLog := "";
      generatedRecords := 0;
    }

    /** `cancel_generation`: a running job is marked failed with the log
        "Cancelled by user"; any other status is left alone and the request
        is refused. */
    method CancelGeneration() returns (reply: CancelReply)
      modifies this
      ensures old(status) == InProgress ==>
        reply == Cancelled && status == Failed && generationLog == CancelledByUser
      ensures old(status) != InProgress ==>
        reply == NotCancelled("Job is not running") && status == old(status) && generationLog == old(generationLog)
      ensures generatedRecords == old(generatedRecords)
    {
      if status == InProgress {
        status := Failed;
        generationLog := CancelledByUser;
        reply := Cancelled;
      } else {
        reply := NotCancelled("Job is not running");
      }
    }
  }
}
