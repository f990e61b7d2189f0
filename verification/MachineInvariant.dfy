/** What every reachable state of the orchestration machine satisfies. */
module MachineInvariant {
  import opened Wire
  import opened Jobs
  import opened Machine

  predicate Increasing(s: seq<nat>) {
    forall i, j :: 0 <= i < j < |s| ==> s[i] < s[j]
  }

  /** An id that was handed out by a counter standing at `next`. */
  predicate Issued(id: u64, next: u64) {
    1 <= id && (next == 0 || id < next)
  }

  // ----- Shared state -----

  /** Nonterminal records are exactly the ones somebody must still settle. */
  predicate Owned(rec: Record, o: Owner) {
    && (o.NoOne? <==> Terminal(rec.state))
    && (o.InQueue? || o.OfCloser? ==> rec.state == Queued)
  }

  predicate RecordsOk(sh: Shared)
    requires |sh.owner| == |sh.heap|
  {
    forall r :: 0 <= r < |sh.heap| ==> Coherent(sh.heap[r]) && Owned(sh.heap[r], sh.owner[r])
  }

  predicate JobIdsOk(sh: Shared) {
    && (forall i, j :: 0 <= i < j < |sh.heap| ==> sh.heap[i].id < sh.heap[j].id)
    && (forall r :: 0 <= r < |sh.heap| ==>
          Issued(sh.heap[r].id, sh.nextJob) && Issued(sh.heap[r].session, sh.nextSession))
  }

  /** The session accepts lookups of its jobs: it exists and no close has taken its jobs. */
  predicate Live(sh: Shared, session: u64) {
    && session in sh.sessions && sh.sessions[session] < |sh.sessionHeap|
    && !sh.sessionHeap[sh.sessions[session]].detached
  }

  predicate QueueOk(sh: Shared)
    requires |sh.owner| == |sh.heap|
  {
    && Increasing(sh.queue)
    && (forall r :: r in sh.queue ==> r < |sh.heap| && sh.owner[r].InQueue? && Live(sh, sh.heap[r].session))
    && (forall r :: 0 <= r < |sh.heap| && sh.owner[r].InQueue? ==> r in sh.queue)
  }

  /** A retained entry leads to the record with that id, of a live session, not taken by a close. */
  predicate Retains(sh: Shared, id: u64, r: Ref)
    requires |sh.owner| == |sh.heap|
  {
    r < |sh.heap| && sh.heap[r].id == id && !sh.owner[r].OfCloser? && Live(sh, sh.heap[r].session)
  }

  predicate JobsOk(sh: Shared)
    requires |sh.owner| == |sh.heap|
  {
    forall id :: id in sh.jobs ==> Retains(sh, id, sh.jobs[id])
  }

  /** An unfinished record belongs to an existing session, and can be found while that session is live. */
  predicate Reachable(sh: Shared, r: Ref)
    requires r < |sh.heap|
  {
    var rec := sh.heap[r];
    !Terminal(rec.state) ==>
        rec.session in sh.sessions && (Live(sh, rec.session) ==> rec.id in sh.jobs && sh.jobs[rec.id] == r)
  }

  predicate SessionsOk(sh: Shared) {
    && (forall id :: id in sh.sessions ==>
          sh.sessions[id] < |sh.sessionHeap| && sh.sessionHeap[sh.sessions[id]].id == id)
    && (forall i :: 0 <= i < |sh.sessionHeap| ==> SessionOk(sh.sessionHeap[i], sh.nextSession))
    && (forall i, j :: 0 <= i < j < |sh.sessionHeap| ==> sh.sessionHeap[i].id < sh.sessionHeap[j].id)
  }

  predicate SessionOk(s: SessionRecord, next: u64) {
    Issued(s.id, next) && (s.closing <==> s.closer.Some?) && (s.detached ==> s.closing)
  }

  /** Jobs leave the queue in admission order, once: each record is queued, was popped, or was removed by a close. */
  predicate HistoryOk(sh: Shared)
    requires |sh.owner| == |sh.heap|
  {
    && Increasing(sh.popped)
    && (forall p, q :: p in sh.popped && q in sh.queue ==> p < q)
    && (forall r :: r in sh.popped ==> r < |sh.heap| && r !in sh.removed && !sh.owner[r].InQueue?)
    && (forall r :: r in sh.removed ==> r < |sh.heap| && !sh.owner[r].InQueue?)
    && (forall r :: 0 <= r < |sh.heap| ==> sh.owner[r].InQueue? || r in sh.popped || r in sh.removed)
  }

  predicate SharedOk(sh: Shared) {
    && |sh.owner| == |sh.heap|
    && RecordsOk(sh) && JobIdsOk(sh) && SessionsOk(sh) && QueueOk(sh) && JobsOk(sh) && HistoryOk(sh)
    && (forall r :: 0 <= r < |sh.heap| ==> Reachable(sh, r))
    && sh.fault.NoFault?
  }

  // ----- Handlers -----

  /** The number of queued records a close has settled. */
  function Done(call: CloseCall, phase: Phase): nat {
    match phase
    case Token(i) => i
    case Settle(i) => i
    case _ => |call.queued|
  }

  /** The number of running records a close has cancelled, and awaited. */
  function CancelledUpTo(call: CloseCall, phase: Phase): nat {
    match phase
    case Cancel(i) => i
    case Await(_) => |call.running|
    case Finish => |call.running|
    case _ => 0
  }

  function AwaitedUpTo(call: CloseCall, phase: Phase): nat {
    match phase
    case Await(i) => i
    case Finish => |call.running|
    case _ => 0
  }

  predicate ClosingBy(sh: Shared, t: Tid, session: u64, sref: Ref, detached: bool) {
    && session in sh.sessions && sh.sessions[session] == sref && sref < |sh.sessionHeap|
    && sh.sessionHeap[sref].closer == Some(t) && sh.sessionHeap[sref].detached == detached
  }

  /** A close holds every unfinished record of its session. */
  predicate Covers(sh: Shared, call: CloseCall) {
    forall r :: 0 <= r < |sh.heap| && sh.heap[r].session == call.session && !Terminal(sh.heap[r].state)
      ==> r in call.queued || r in call.running
  }

  /** A record taken from the queue is settled, or waits for this close to settle it. */
  predicate QueuedAt(sh: Shared, t: Tid, r: Ref, session: u64, done: bool)
    requires |sh.owner| == |sh.heap|
  {
    OfSession(sh, r, session) && (if done then sh.heap[r].state == Cancelled else sh.owner[r] == OfCloser(t))
  }

  predicate QueuedOk(sh: Shared, t: Tid, call: CloseCall, phase: Phase)
    requires |sh.owner| == |sh.heap|
  {
    && Increasing(call.queued) && Done(call, phase) <= |call.queued|
    && (forall i :: 0 <= i < |call.queued| ==> QueuedAt(sh, t, call.queued[i], call.session, i < Done(call, phase)))
    && (phase.Settle? ==> phase.i < |call.queued| && IsCancelled(sh, call.queued[phase.i]))
  }

  predicate IsCancelled(sh: Shared, r: Ref) {
    r < |sh.heap| && sh.heap[r].cancelled
  }

  /** Any other record was popped: a worker ends it, unless it has ended. */
  predicate RunningAt(sh: Shared, r: Ref, session: u64, asked: bool, awaited: bool)
    requires |sh.owner| == |sh.heap|
  {
    && OfSession(sh, r, session) && (sh.owner[r].OfWorker? || sh.owner[r].NoOne?)
    && (asked ==> sh.heap[r].cancelled || Terminal(sh.heap[r].state))
    && (awaited ==> Terminal(sh.heap[r].state))
  }

  predicate RunningOk(sh: Shared, call: CloseCall, phase: Phase)
    requires |sh.owner| == |sh.heap|
  {
    && CancelledUpTo(call, phase) <= |call.running| && AwaitedUpTo(call, phase) <= |call.running|
    && (forall i :: 0 <= i < |call.running| ==>
          RunningAt(sh, call.running[i], call.session, i < CancelledUpTo(call, phase), i < AwaitedUpTo(call, phase)))
  }

  predicate HandlerOk(sh: Shared, t: Tid, h: Handler)
    requires |sh.owner| == |sh.heap|
  {
    match h
    case CloseSnapshot(session, sref) => ClosingBy(sh, t, session, sref, false)
    case CloseReopen(session, sref) => ClosingBy(sh, t, session, sref, false)
    case CloseSettle(call, phase) =>
      && ClosingBy(sh, t, call.session, call.sref, true)
      && Covers(sh, call) && QueuedOk(sh, t, call, phase) && RunningOk(sh, call, phase)
    case SubmitAdmit(session, sref) =>
      && sh.lifecycle == Some(t) && session in sh.sessions && sh.sessions[session] == sref
      && sref < |sh.sessionHeap| && !sh.sessionHeap[sref].closing
    case Access(_, id, r) => r < |sh.heap| && sh.heap[r].id == id.value
    case ReleaseCheck(key, r) => sh.registry == Some(t) && key in sh.jobs && sh.jobs[key] == r
    case ReleaseErase(key, r) =>
      sh.registry == Some(t) && key in sh.jobs && sh.jobs[key] == r && r < |sh.heap| && Terminal(sh.heap[r].state)
    case _ => true
  }

  // ----- Workers -----

  /**
   * A busy worker owns its record, which is queued until it is started and then running; a failure to start skips that.
   */
  predicate WorkerOk(sh: Shared, w: nat, k: Worker)
    requires |sh.owner| == |sh.heap|
  {
    !k.Idle? ==>
      && k.ref < |sh.heap| && sh.owner[k.ref] == OfWorker(w)
      && (k.Popped? ==> sh.heap[k.ref].state == Queued)
      && (k.Publishing? ==> sh.heap[k.ref].state == Queued || sh.heap[k.ref].state == Running)
      && (!k.Popped? && !k.Publishing? ==> sh.heap[k.ref].state == Running)
      && (k.Publishing? && k.publication.PublishFailure? ==> k.publication.code != OK)
  }

  // ----- Whole state -----

  predicate Unsettled(h: Handler, r: Ref) {
    h.CloseSettle? && Done(h.call, h.phase) <= |h.call.queued| && r in h.call.queued[Done(h.call, h.phase)..]
  }

  predicate OwnerExists(st: State, r: Ref)
    requires r < |st.sh.owner|
  {
    match st.sh.owner[r]
    case OfWorker(w) => w < |st.workers| && !st.workers[w].Idle? && st.workers[w].ref == r
    case OfCloser(t) => t in st.handlers && Unsettled(st.handlers[t], r)
    case _ => true
  }

  predicate HoldsLifecycle(handlers: map<Tid, Handler>, t: Tid) {
    t in handlers && NeedsLifecycle(handlers[t])
  }

  predicate HoldsRegistry(handlers: map<Tid, Handler>, t: Tid) {
    t in handlers && (handlers[t].ReleaseCheck? || handlers[t].ReleaseErase?)
  }

  predicate LocksOk(st: State) {
    && (st.sh.lifecycle.Some? ==> HoldsLifecycle(st.handlers, st.sh.lifecycle.value))
    && (st.sh.registry.Some? ==> HoldsRegistry(st.handlers, st.sh.registry.value))
  }

  function Reservations(handlers: map<Tid, Handler>): set<Tid> {
    set t | t in handlers && Reserved(handlers[t])
  }

  predicate CapacityOk(c: Config, st: State) {
    && |Reservations(st.handlers)| == st.sh.pending
    && |st.sh.sessions| + st.sh.pending <= c.maximumSessions
    && |st.sh.jobs| <= c.maximumJobs
  }

  predicate HandlersOk(sh: Shared, handlers: map<Tid, Handler>)
    requires |sh.owner| == |sh.heap|
  {
    forall t :: t in handlers ==> HandlerOk(sh, t, handlers[t])
  }

  predicate WorkersOk(sh: Shared, workers: seq<Worker>)
    requires |sh.owner| == |sh.heap|
  {
    forall w :: 0 <= w < |workers| ==> WorkerOk(sh, w, workers[w])
  }

  predicate OwnersOk(st: State)
    requires |st.sh.owner| == |st.sh.heap|
  {
    forall r :: 0 <= r < |st.sh.owner| ==> OwnerExists(st, r)
  }

  predicate Invariant(c: Config, st: State) {
    && SharedOk(st.sh)
    && HandlersOk(st.sh, st.handlers)
    && WorkersOk(st.sh, st.workers)
    && OwnersOk(st)
    && LocksOk(st)
    && CapacityOk(c, st)
  }

  lemma InitialHolds(c: Config, workers: nat)
    ensures Invariant(c, Initial(workers))
  {
    assert Reservations(Initial(workers).handlers) == {};
  }
}
