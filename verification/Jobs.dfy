/** One job record: its lifecycle and the ways it can be published. */
module Jobs {
  import opened Wire
  import Messages

  datatype JobState = Queued | Running | Succeeded | Failed | Cancelled

  predicate Terminal(s: JobState) {
    s == Succeeded || s == Failed || s == Cancelled
  }

  /** Position on the way from admission to the end. */
  function Rank(s: JobState): nat {
    match s
    case Queued => 0
    case Running => 1
    case _ => 2
  }

  function StateCode(s: JobState): byte {
    match s
    case Queued => Messages.QUEUED
    case Running => Messages.RUNNING
    case Succeeded => Messages.SUCCEEDED
    case Failed => Messages.FAILED
    case Cancelled => Messages.STATE_CANCELLED
  }

  /** A record: identity, state, outcome category, cancellation token, and the result it holds, if any. */
  datatype Record = Record(
    id: u64, session: u64, state: JobState, outcome: ErrorCode, cancelled: bool, result: Option<int>)

  function Fresh(id: u64, session: u64): Record {
    Record(id, session, Queued, OK, false, None)
  }

  // ----- Transitions under the record lock -----

  function AsCancelled(r: Record): Record {
    r.(state := Cancelled, outcome := CANCELLED, result := None)
  }

  /** Publication of a failure; a cancellation that was requested takes precedence. */
  function AsFailed(r: Record, code: ErrorCode): Record {
    if r.cancelled then AsCancelled(r) else r.(state := Failed, outcome := code, result := None)
  }

  /** Publication of a result, unless cancellation was requested first. */
  function AsSucceeded(r: Record, value: int): Record {
    if r.cancelled then AsCancelled(r) else r.(state := Succeeded, outcome := OK, result := Some(value))
  }

  /** A cancellation request that finds a terminal record leaves it alone. */
  function WithCancelRequested(r: Record): Record {
    if Terminal(r.state) then r else r.(cancelled := true)
  }

  /** Result, outcome and token agree with the state. */
  predicate Coherent(r: Record) {
    && (r.result.Some? <==> r.state == Succeeded)
    && (r.state == Failed ==> r.outcome != OK)
    && (r.state == Cancelled ==> r.outcome == CANCELLED)
    && (r.state != Failed && r.state != Cancelled ==> r.outcome == OK)
    && (r.cancelled ==> r.state != Succeeded && r.state != Failed)
  }

  // ----- Observations -----

  function Snapshot(instance: u64, r: Record, message: Bytes): Messages.JobStatus {
    Messages.JobStatus(Messages.Id(instance, r.id), Messages.Id(instance, r.session), StateCode(r.state),
                       Status(r.outcome, message))
  }

  /** What a result request answers. */
  function ResultOf(r: Record): Result<int> {
    if r.state == Succeeded && r.result.Some? then Ok(r.result.value)
    else if r.state == Failed || r.state == Cancelled then Err(if r.outcome == OK then INTERNAL else r.outcome)
    else Err(INVALID_ARGUMENT)
  }
}
