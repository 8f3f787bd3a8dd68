/** How the result of provider.Sync becomes the terminal state of a run. */
module Outcomes {
  import opened Text
  import opened RunTable

  /** An error as the engine sees it: a SyncError, a context deadline, or any other. */
  datatype Failure = Classified(code: Code, message: string) | DeadlineExceeded | Unclassified

  datatype SyncResult = SyncResult(rows: int, cursor: string, failure: Option<Failure>)

  const TIMED_OUT := "sync run timed out"
  const MAX_MESSAGE: nat := 500

  function Truncate(s: string): (r: string)
    ensures |r| <= MAX_MESSAGE && r <= s && (|s| <= MAX_MESSAGE ==> r == s)
  {
    if |s| > MAX_MESSAGE then s[..MAX_MESSAGE] else s
  }

  /** The public code and message of an error. */
  function Classify(f: Failure): (Code, string) {
    match f
    case Classified(code, message) => (code, Truncate(message))
    case DeadlineExceeded => (Transient, TIMED_OUT)
    case Unclassified => (Internal, "sync failed")
  }

  function OutcomeOf(result: SyncResult): (o: Outcome)
    ensures !IsActive(o.status) && o.rows == result.rows && o.cursor == result.cursor
    ensures o.status == Succeeded <==> result.failure.None?
    ensures o.status == Partial <==>
            result.failure.Some? && result.failure.value.Classified? && result.failure.value.code == PartialError
    ensures o.code == match result.failure
                      case None => NoError
                      case Some(Classified(code, _)) => code
                      case Some(DeadlineExceeded) => Transient
                      case Some(Unclassified) => Internal
    ensures result.failure.Some? && result.failure.value.Classified? ==>
            && o.message <= result.failure.value.message
            && |o.message| == (if |result.failure.value.message| <= 500 then |result.failure.value.message| else 500)
  {
    match result.failure
    case None => Outcome(Succeeded, result.rows, result.cursor, NoError, "")
    case Some(f) =>
      var (code, message) := Classify(f);
      Outcome(if code == PartialError then Partial else Failed, result.rows, result.cursor, code, message)
  }
}
