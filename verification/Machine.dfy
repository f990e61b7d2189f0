/**
 * The orchestration protocol as a step machine: any number of request handlers, a fixed set of workers, and every
 * interleaving of their critical sections. A lock that is held across steps is a field (`lifecycle`, `registry`); the
 * session lock and the record locks are held only inside a step.
 */
module Machine {
  import opened Wire
  import opened Jobs
  import opened Messages

  type Ref = nat
  type Tid = nat

  datatype Config = Config(instance: u64, maximumJobs: nat, maximumSessions: nat)

  /** `closer` and `detached` are bookkeeping: who closes the session, and whether its jobs were taken away. */
  datatype SessionRecord = SessionRecord(id: u64, closing: bool, closer: Option<Tid>, detached: bool)

  /** Bookkeeping: who will bring a record to its end. */
  datatype Owner = InQueue | OfWorker(w: nat) | OfCloser(t: Tid) | NoOne

  /** Branches the source treats as impossible. */
  datatype Fault = NoFault | ReservationLost | CloseLost | DuplicateJob | DuplicateSession | LeftQueued

  datatype Shared = Shared(
    heap: seq<Record>, owner: seq<Owner>,
    jobs: map<u64, Ref>, queue: seq<Ref>, nextJob: u64,
    sessionHeap: seq<SessionRecord>, sessions: map<u64, Ref>, pending: nat, nextSession: u64,
    lifecycle: Option<Tid>, registry: Option<Tid>,
    popped: seq<Ref>, removed: set<Ref>,
    fault: Fault)

  datatype CloseCall = CloseCall(session: u64, sref: Ref, queued: seq<Ref>, running: seq<Ref>)

  /** Where a close is: cancelling and settling queued records, cancelling running ones, awaiting them, finishing. */
  datatype Phase = Token(i: nat) | Settle(i: nat) | Cancel(i: nat) | Await(i: nat) | Finish

  datatype Operation = ReadStatus | ReadResult | RequestCancel

  /** What a handler does next. */
  datatype Handler =
    | CreateAdmit | CreateBuild | CreatePublish | CreateRollback
    | CloseMark(id: Id) | CloseSnapshot(session: u64, sref: Ref) | CloseReopen(session: u64, sref: Ref)
    | CloseSettle(call: CloseCall, phase: Phase)
    | SubmitCheck(id: Id) | SubmitAdmit(session: u64, sref: Ref)
    | Lookup(op: Operation, id: Id) | Access(op: Operation, id: Id, ref: Ref)
    | ReleaseLookup(id: Id) | ReleaseCheck(key: u64, ref: Ref) | ReleaseErase(key: u64, ref: Ref)

  datatype Publication = PublishCancelled | PublishFailure(code: ErrorCode) | PublishResult(value: int)

  datatype Worker =
    | Idle | Popped(ref: Ref) | Started(ref: Ref) | Compiling(ref: Ref) | Compiled(ref: Ref) | Executing(ref: Ref)
    | Publishing(ref: Ref, publication: Publication)

  datatype State = State(sh: Shared, handlers: map<Tid, Handler>, workers: seq<Worker>)

  datatype Allocation = Succeeds | FailsBeforeId | FailsAfterId

  datatype Step =
    | Arrive(t: Tid, h: Handler) | AcquireLifecycle(t: Tid)
    | Admit(t: Tid) | Build(t: Tid, ok: bool) | Publish(t: Tid, throws: bool) | Rollback(t: Tid)
    | Mark(t: Tid) | TakeJobs(t: Tid, running: seq<Ref>) | TakeJobsFails(t: Tid) | Reopen(t: Tid)
    | CancelToken(t: Tid) | SettleQueued(t: Tid) | CancelRunning(t: Tid) | AwaitRunning(t: Tid) | NextPhase(t: Tid)
    | Finalize(t: Tid)
    | CheckSession(t: Tid) | Enqueue(t: Tid, allocation: Allocation)
    | Find(t: Tid) | AccessRecord(t: Tid)
    | FindForRelease(t: Tid) | CheckTerminal(t: Tid) | Erase(t: Tid)
    | Pop(w: nat) | Start(w: nat) | CheckBeforeCompile(w: nat) | Compile(w: nat, failure: Option<ErrorCode>)
    | CheckBeforeExecute(w: nat) | Execute(w: nat, outcome: Result<int>) | Throw(w: nat, code: ErrorCode)
    | PublishOutcome(w: nat)

  // ----- Vocabulary -----

  function Initial(workers: nat): State {
    State(Shared([], [], map[], [], 1, [], map[], 0, 1, None, None, [], {}, NoFault), map[], seq(workers, _ => Idle))
  }

  /** A counter that wraps to zero when it is exhausted. */
  function Increment(n: u64): u64 {
    (n + 1) % 0x1_0000_0000_0000_0000
  }

  /** Handlers that just arrived. */
  predicate Initiating(h: Handler) {
    h.CreateAdmit? || h.CloseMark? || h.SubmitCheck? || h.Lookup? || h.ReleaseLookup?
  }

  /** The next action of the handler is a critical section of the lifecycle lock. */
  predicate NeedsLifecycle(h: Handler) {
    || h.CreateAdmit? || h.CreatePublish? || h.CreateRollback? || h.CloseMark? || h.CloseReopen?
    || (h.CloseSettle? && h.phase.Finish?) || h.SubmitCheck? || h.SubmitAdmit?
  }

  predicate Reserved(h: Handler) {
    h.CreateBuild? || h.CreatePublish? || h.CreateRollback?
  }

  function Goto(st: State, t: Tid, h: Handler): State {
    st.(handlers := st.handlers[t := h])
  }

  /** Leaves a critical section of the lifecycle lock. */
  function Unlock(sh: Shared): Shared {
    sh.(lifecycle := None)
  }

  function Answer(st: State, t: Tid): State {
    st.(handlers := st.handlers - {t})
  }

  function Failing(st: State, fault: Fault): State {
    st.(sh := st.sh.(fault := fault))
  }

  predicate OpenSession(c: Config, sh: Shared, id: Id) {
    && id.instance == c.instance && id.value != 0 && id.value in sh.sessions
    && sh.sessions[id.value] < |sh.sessionHeap| && !sh.sessionHeap[sh.sessions[id.value]].closing
  }

  predicate Retained(c: Config, sh: Shared, id: Id) {
    id.instance == c.instance && id.value != 0 && id.value in sh.jobs
  }

  predicate OfSession(sh: Shared, r: Ref, session: u64) {
    r < |sh.heap| && sh.heap[r].session == session
  }

  /** The queue entries of a session, in queue order. */
  function OwnQueue(sh: Shared, queue: seq<Ref>, session: u64): seq<Ref> {
    if queue == [] then []
    else (if OfSession(sh, queue[0], session) then [queue[0]] else []) + OwnQueue(sh, queue[1..], session)
  }

  /** The queue entries of the other sessions, in queue order. */
  function OtherQueue(sh: Shared, queue: seq<Ref>, session: u64): seq<Ref> {
    if queue == [] then []
    else (if OfSession(sh, queue[0], session) then [] else [queue[0]]) + OtherQueue(sh, queue[1..], session)
  }

  /** The retained map without the entries of a session. */
  function OtherJobs(sh: Shared, jobs: map<u64, Ref>, session: u64): map<u64, Ref> {
    map k | k in jobs && !OfSession(sh, jobs[k], session) :: jobs[k]
  }

  /** `running` lists, by ascending id, the retained records of the session that are not in `queued`. */
  predicate LeftInMap(sh: Shared, session: u64, queued: seq<Ref>, running: seq<Ref>) {
    && (forall r :: r in running ==> r < |sh.heap| && r !in queued && OfSession(sh, r, session)
                                     && sh.heap[r].id in sh.jobs && sh.jobs[sh.heap[r].id] == r)
    && (forall k :: k in sh.jobs && OfSession(sh, sh.jobs[k], session) ==>
          sh.jobs[k] in queued || sh.jobs[k] in running)
    && (forall i, j :: 0 <= i < j < |running| ==> IdBefore(sh, running[i], running[j]))
  }

  predicate IdBefore(sh: Shared, a: Ref, b: Ref) {
    a < |sh.heap| && b < |sh.heap| && sh.heap[a].id < sh.heap[b].id
  }

  function SetOwner(owner: seq<Owner>, rs: seq<Ref>, o: Owner): (r: seq<Owner>)
    ensures |r| == |owner|
    ensures forall i :: 0 <= i < |owner| ==> r[i] == if i in rs then o else owner[i]
  {
    seq(|owner|, i requires 0 <= i < |owner| => if i in rs then o else owner[i])
  }

  /** Replaces one record. */
  function Put(sh: Shared, r: Ref, rec: Record, o: Owner): Shared
    requires r < |sh.heap| && r < |sh.owner|
  {
    sh.(heap := sh.heap[r := rec], owner := sh.owner[r := o])
  }

  predicate ValidRef(sh: Shared, r: Ref) {
    r < |sh.heap| && r < |sh.owner|
  }

  // ----- Guards -----

  predicate HandlerGuard(c: Config, st: State, step: Step)
    requires !WorkerStep(step) && !step.Arrive?
  {
    var sh := st.sh;
    step.t in st.handlers &&
    var h := st.handlers[step.t];
    match step
    case AcquireLifecycle(t) => NeedsLifecycle(h) && sh.lifecycle.None?
    case Admit(t) => h.CreateAdmit? && sh.lifecycle == Some(t)
    case Build(t, _) => h.CreateBuild?
    case Publish(t, _) => h.CreatePublish? && sh.lifecycle == Some(t)
    case Rollback(t) => h.CreateRollback? && sh.lifecycle == Some(t)
    case Mark(t) => h.CloseMark? && sh.lifecycle == Some(t)
    case TakeJobs(t, running) =>
      && h.CloseSnapshot? && sh.registry.None? && h.sref < |sh.sessionHeap|
      && LeftInMap(sh, h.session, OwnQueue(sh, sh.queue, h.session), running)
    case TakeJobsFails(t) => h.CloseSnapshot? && sh.registry.None?
    case Reopen(t) => h.CloseReopen? && sh.lifecycle == Some(t) && h.sref < |sh.sessionHeap|
    case CancelToken(t) => h.CloseSettle? && h.phase.Token? && h.phase.i < |h.call.queued|
        && ValidRef(sh, h.call.queued[h.phase.i])
    case SettleQueued(t) => h.CloseSettle? && h.phase.Settle? && h.phase.i < |h.call.queued|
        && ValidRef(sh, h.call.queued[h.phase.i])
    case CancelRunning(t) => h.CloseSettle? && h.phase.Cancel? && h.phase.i < |h.call.running|
        && ValidRef(sh, h.call.running[h.phase.i])
    case AwaitRunning(t) =>
      && h.CloseSettle? && h.phase.Await? && h.phase.i < |h.call.running|
      && ValidRef(sh, h.call.running[h.phase.i]) && Terminal(sh.heap[h.call.running[h.phase.i]].state)
    case NextPhase(t) =>
      && h.CloseSettle?
      && (match h.phase
          case Token(i) => i == |h.call.queued|
          case Cancel(i) => i == |h.call.running|
          case Await(i) => i == |h.call.running|
          case _ => false)
    case Finalize(t) => h.CloseSettle? && h.phase.Finish? && sh.lifecycle == Some(t) && h.call.sref < |sh.sessionHeap|
    case CheckSession(t) => h.SubmitCheck? && sh.lifecycle == Some(t)
    case Enqueue(t, _) => h.SubmitAdmit? && sh.lifecycle == Some(t) && sh.registry.None? && h.sref < |sh.sessionHeap|
    case Find(t) => h.Lookup? && sh.registry.None?
    case AccessRecord(t) => h.Access? && ValidRef(sh, h.ref)
    case FindForRelease(t) => h.ReleaseLookup? && sh.registry.None?
    case CheckTerminal(t) => h.ReleaseCheck? && sh.registry == Some(t) && ValidRef(sh, h.ref)
    case Erase(t) => h.ReleaseErase? && sh.registry == Some(t)
  }

  predicate WorkerStep(step: Step) {
    || step.Pop? || step.Start? || step.CheckBeforeCompile? || step.Compile? || step.CheckBeforeExecute?
    || step.Execute? || step.Throw? || step.PublishOutcome?
  }

  predicate WorkerGuard(st: State, step: Step)
    requires WorkerStep(step)
  {
    step.w < |st.workers| &&
    var k := st.workers[step.w];
    (k.Idle? || ValidRef(st.sh, k.ref)) &&
    match step
    case Pop(w) => k.Idle? && st.sh.registry.None? && st.sh.queue != [] && ValidRef(st.sh, st.sh.queue[0])
    case Start(w) => k.Popped?
    case CheckBeforeCompile(w) => k.Started?
    case Compile(w, failure) => k.Compiling? && (failure.Some? ==> failure.value != OK)
    case CheckBeforeExecute(w) => k.Compiled?
    case Execute(w, outcome) => k.Executing? && (outcome.Err? ==> outcome.code != OK)
    case Throw(w, code) =>
      !k.Idle? && !k.Publishing? && (code == RESOURCE_EXHAUSTED || code == INTERNAL)
    case PublishOutcome(w) => k.Publishing?
  }

  predicate Guard(c: Config, st: State, step: Step) {
    if step.Arrive? then step.t !in st.handlers && Initiating(step.h)
    else if WorkerStep(step) then WorkerGuard(st, step)
    else HandlerGuard(c, st, step)
  }

  // ----- Effects: creating a session -----

  function DoAdmit(c: Config, st: State, t: Tid): State {
    var sh := Unlock(st.sh);
    if |sh.sessions| >= c.maximumSessions || sh.pending >= c.maximumSessions - |sh.sessions| || sh.nextSession == 0
    then Answer(st.(sh := sh), t)
    else Goto(st.(sh := sh.(pending := sh.pending + 1)), t, CreateBuild)
  }

  function DoPublish(st: State, t: Tid, throws: bool): State {
    var sh := Unlock(st.sh);
    if sh.nextSession == 0 || throws then Goto(st.(sh := sh), t, CreateRollback)
    else if sh.nextSession in sh.sessions then Failing(Goto(st.(sh := sh), t, CreateRollback), DuplicateSession)
    else if sh.pending == 0 then Failing(st, ReservationLost)
    else
      Answer(st.(sh := sh.(
        sessionHeap := sh.sessionHeap + [SessionRecord(sh.nextSession, false, None, false)],
        sessions := sh.sessions[sh.nextSession := |sh.sessionHeap|],
        pending := sh.pending - 1,
        nextSession := Increment(sh.nextSession))), t)
  }

  function DoRollback(st: State, t: Tid): State {
    var sh := Unlock(st.sh);
    if sh.pending == 0 then Failing(st, ReservationLost)
    else Answer(st.(sh := sh.(pending := sh.pending - 1)), t)
  }

  // ----- Effects: closing a session -----

  function DoMark(c: Config, st: State, t: Tid, id: Id): State {
    var sh := Unlock(st.sh);
    if !OpenSession(c, sh, id) then Answer(st.(sh := sh), t)
    else
      var sref := sh.sessions[id.value];
      var s := sh.sessionHeap[sref].(closing := true, closer := Some(t));
      Goto(st.(sh := sh.(sessionHeap := sh.sessionHeap[sref := s])), t, CloseSnapshot(id.value, sref))
  }

  function DoTakeJobs(st: State, t: Tid, session: u64, sref: Ref, running: seq<Ref>): State
    requires sref < |st.sh.sessionHeap|
  {
    var sh := st.sh;
    var queued := OwnQueue(sh, sh.queue, session);
    var s := sh.sessionHeap[sref].(detached := true);
    Goto(st.(sh := sh.(
           queue := OtherQueue(sh, sh.queue, session),
           jobs := OtherJobs(sh, sh.jobs, session),
           owner := SetOwner(sh.owner, queued, OfCloser(t)),
           removed := sh.removed + (set r | r in queued),
           sessionHeap := sh.sessionHeap[sref := s])),
         t, CloseSettle(CloseCall(session, sref, queued, running), Token(0)))
  }

  function DoReopen(st: State, t: Tid, session: u64, sref: Ref): State
    requires sref < |st.sh.sessionHeap|
  {
    var sh := Unlock(st.sh);
    if session in sh.sessions && sh.sessions[session] == sref then
      var s := sh.sessionHeap[sref].(closing := false, closer := None);
      Answer(st.(sh := sh.(sessionHeap := sh.sessionHeap[sref := s])), t)
    else Answer(st.(sh := sh), t)
  }

  function DoFinalize(st: State, t: Tid, call: CloseCall): State
    requires call.sref < |st.sh.sessionHeap|
  {
    var sh := Unlock(st.sh);
    if call.session !in sh.sessions || sh.sessions[call.session] != call.sref || !sh.sessionHeap[call.sref].closing
    then Failing(st, CloseLost)
    else Answer(st.(sh := sh.(sessions := sh.sessions - {call.session})), t)
  }

  function AfterPhase(phase: Phase): Phase {
    match phase
    case Token(_) => Cancel(0)
    case Cancel(_) => Await(0)
    case _ => Finish
  }

  /** One record of a close: `rec` replaces it and the close moves to `phase`. */
  function DoSettle(st: State, t: Tid, call: CloseCall, r: Ref, rec: Record, o: Owner, phase: Phase): State
    requires ValidRef(st.sh, r)
  {
    Goto(st.(sh := Put(st.sh, r, rec, o)), t, CloseSettle(call, phase))
  }

  // ----- Effects: submitting a job -----

  function DoCheckSession(c: Config, st: State, t: Tid, id: Id): State {
    if OpenSession(c, st.sh, id) then Goto(st, t, SubmitAdmit(id.value, st.sh.sessions[id.value]))
    else Answer(st.(sh := Unlock(st.sh)), t)
  }

  function DoEnqueue(c: Config, st: State, t: Tid, sref: Ref, allocation: Allocation): State
    requires sref < |st.sh.sessionHeap|
  {
    var sh := Unlock(st.sh);
    if |sh.jobs| >= c.maximumJobs || sh.nextJob == 0 || allocation.FailsBeforeId? then Answer(st.(sh := sh), t)
    else
      var id := sh.nextJob;
      var counted := sh.(nextJob := Increment(id));
      if allocation.FailsAfterId? then Answer(st.(sh := counted), t)
      else if id in sh.jobs then Failing(Answer(st.(sh := counted), t), DuplicateJob)
      else
        Answer(st.(sh := counted.(
          heap := sh.heap + [Fresh(id, sh.sessionHeap[sref].id)],
          owner := sh.owner + [InQueue],
          jobs := sh.jobs[id := |sh.heap|],
          queue := sh.queue + [|sh.heap|])), t)
  }

  // ----- Effects: operations on one record -----

  function DoAccess(st: State, t: Tid, op: Operation, r: Ref): State
    requires ValidRef(st.sh, r)
  {
    if op.RequestCancel? then Answer(st.(sh := Put(st.sh, r, WithCancelRequested(st.sh.heap[r]), st.sh.owner[r])), t)
    else Answer(st, t)
  }

  function DoFindForRelease(c: Config, st: State, t: Tid, id: Id): State {
    if Retained(c, st.sh, id)
    then Goto(st.(sh := st.sh.(registry := Some(t))), t, ReleaseCheck(id.value, st.sh.jobs[id.value]))
    else Answer(st, t)
  }

  function DoCheckTerminal(st: State, t: Tid, key: u64, r: Ref): State
    requires ValidRef(st.sh, r)
  {
    if Terminal(st.sh.heap[r].state) then Goto(st, t, ReleaseErase(key, r))
    else Answer(st.(sh := st.sh.(registry := None)), t)
  }

  function DoErase(st: State, t: Tid, key: u64): State {
    Answer(st.(sh := st.sh.(jobs := st.sh.jobs - {key}, registry := None)), t)
  }

  // ----- Effects: workers -----

  function Become(st: State, w: nat, k: Worker): State
    requires w < |st.workers|
  {
    st.(workers := st.workers[w := k])
  }

  function DoPop(st: State, w: nat): State
    requires w < |st.workers| && st.sh.queue != [] && ValidRef(st.sh, st.sh.queue[0])
  {
    var sh := st.sh;
    var r := sh.queue[0];
    Become(st.(sh := sh.(queue := sh.queue[1..], owner := sh.owner[r := OfWorker(w)], popped := sh.popped + [r])),
           w, Popped(r))
  }

  function DoStart(st: State, w: nat, r: Ref): State
    requires w < |st.workers| && ValidRef(st.sh, r)
  {
    var rec := st.sh.heap[r];
    if rec.state != Queued then
      Failing(Become(st.(sh := Put(st.sh, r, rec.(state := Failed, outcome := INTERNAL), NoOne)), w, Idle), LeftQueued)
    else Become(st.(sh := Put(st.sh, r, rec.(state := Running), st.sh.owner[r])), w, Started(r))
  }

  /** A worker looks at the token without the record lock. */
  function DoCheck(st: State, w: nat, r: Ref, next: Worker): State
    requires w < |st.workers| && ValidRef(st.sh, r)
  {
    Become(st, w, if st.sh.heap[r].cancelled then Publishing(r, PublishCancelled) else next)
  }

  function DoExecute(st: State, w: nat, r: Ref, outcome: Result<int>): State
    requires w < |st.workers| && ValidRef(st.sh, r)
  {
    match outcome
    case Ok(v) => Become(st, w, Publishing(r, PublishResult(v)))
    case Err(code) =>
      Become(st, w, Publishing(r,
        if code == CANCELLED || st.sh.heap[r].cancelled then PublishCancelled else PublishFailure(code)))
  }

  function Published(r: Record, p: Publication): Record {
    match p
    case PublishCancelled => AsCancelled(r)
    case PublishFailure(code) => AsFailed(r, code)
    case PublishResult(v) => AsSucceeded(r, v)
  }

  function DoPublishOutcome(st: State, w: nat, r: Ref, p: Publication): State
    requires w < |st.workers| && ValidRef(st.sh, r)
  {
    Become(st.(sh := Put(st.sh, r, Published(st.sh.heap[r], p), NoOne)), w, Idle)
  }

  // ----- Steps -----

  function ApplyWorker(st: State, step: Step): State
    requires WorkerStep(step) && WorkerGuard(st, step)
  {
    var k := st.workers[step.w];
    match step
    case Pop(w) => DoPop(st, w)
    case Start(w) => DoStart(st, w, k.ref)
    case CheckBeforeCompile(w) => DoCheck(st, w, k.ref, Compiling(k.ref))
    case Compile(w, failure) =>
      Become(st, w, match failure
                    case None => Compiled(k.ref)
                    case Some(code) => Publishing(k.ref, PublishFailure(code)))
    case CheckBeforeExecute(w) => DoCheck(st, w, k.ref, Executing(k.ref))
    case Execute(w, outcome) => DoExecute(st, w, k.ref, outcome)
    case Throw(w, code) => Become(st, w, Publishing(k.ref, PublishFailure(code)))
    case PublishOutcome(w) => DoPublishOutcome(st, w, k.ref, k.publication)
  }

  function ApplyHandler(c: Config, st: State, step: Step): State
    requires !step.Arrive? && !WorkerStep(step) && HandlerGuard(c, st, step)
  {
    var sh := st.sh;
    var h := st.handlers[step.t];
    match step
    case AcquireLifecycle(t) => st.(sh := sh.(lifecycle := Some(t)))
    case Admit(t) => DoAdmit(c, st, t)
    case Build(t, ok) => Goto(st, t, if ok then CreatePublish else CreateRollback)
    case Publish(t, throws) => DoPublish(st, t, throws)
    case Rollback(t) => DoRollback(st, t)
    case Mark(t) => DoMark(c, st, t, h.id)
    case TakeJobs(t, running) => DoTakeJobs(st, t, h.session, h.sref, running)
    case TakeJobsFails(t) => Goto(st, t, CloseReopen(h.session, h.sref))
    case Reopen(t) => DoReopen(st, t, h.session, h.sref)
    case CancelToken(t) =>
      var r := h.call.queued[h.phase.i];
      DoSettle(st, t, h.call, r, sh.heap[r].(cancelled := true), sh.owner[r], Settle(h.phase.i))
    case SettleQueued(t) =>
      var r := h.call.queued[h.phase.i];
      DoSettle(st, t, h.call, r, AsCancelled(sh.heap[r]), NoOne, Token(h.phase.i + 1))
    case CancelRunning(t) =>
      var r := h.call.running[h.phase.i];
      DoSettle(st, t, h.call, r, WithCancelRequested(sh.heap[r]), sh.owner[r], Cancel(h.phase.i + 1))
    case AwaitRunning(t) => Goto(st, t, h.(phase := Await(h.phase.i + 1)))
    case NextPhase(t) => Goto(st, t, h.(phase := AfterPhase(h.phase)))
    case Finalize(t) => DoFinalize(st, t, h.call)
    case CheckSession(t) => DoCheckSession(c, st, t, h.id)
    case Enqueue(t, allocation) => DoEnqueue(c, st, t, h.sref, allocation)
    case Find(t) =>
      if Retained(c, sh, h.id) then Goto(st, t, Access(h.op, h.id, sh.jobs[h.id.value])) else Answer(st, t)
    case AccessRecord(t) => DoAccess(st, t, h.op, h.ref)
    case FindForRelease(t) => DoFindForRelease(c, st, t, h.id)
    case CheckTerminal(t) => DoCheckTerminal(st, t, h.key, h.ref)
    case Erase(t) => DoErase(st, t, h.key)
  }

  function Apply(c: Config, st: State, step: Step): State
    requires Guard(c, st, step)
  {
    if step.Arrive? then Goto(st, step.t, step.h)
    else if WorkerStep(step) then ApplyWorker(st, step)
    else ApplyHandler(c, st, step)
  }
}
