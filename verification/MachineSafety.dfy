/** Submitting, observing, releasing and working keep the invariant too; so every reachable state satisfies it. */
module MachineSafety {
  import opened Wire
  import opened Jobs
  import opened Machine
  import opened MachineInvariant
  import opened MachineSteps
  import Messages

  // ----- Submitting a job -----

  lemma CheckSessionKeeps(c: Config, st: State, t: Tid, id: Messages.Id)
    requires Invariant(c, st) && At(st, t, SubmitCheck(id)) && st.sh.lifecycle == Some(t)
    ensures Invariant(c, DoCheckSession(c, st, t, id))
  {
    hide RecordsOk, JobIdsOk, SessionsOk, QueueOk, JobsOk, HistoryOk, HandlersOk, WorkersOk, OwnersOk, Reservations;
    if OpenSession(c, st.sh, id) {
      GotoKeeps(c, st, st.sh, t, SubmitAdmit(id.value, st.sh.sessions[id.value]));
    } else {
      AnswerKeeps(c, st, Unlock(st.sh), t);
    }
  }

  function Admitted(sh: Shared, session: u64): Shared {
    sh.(nextJob := Increment(sh.nextJob),
        heap := sh.heap + [Fresh(sh.nextJob, session)],
        owner := sh.owner + [InQueue],
        jobs := sh.jobs[sh.nextJob := |sh.heap|],
        queue := sh.queue + [|sh.heap|])
  }

  /** Counting an id without using it. */
  lemma SkippedShared(sh: Shared)
    requires SharedOk(sh) && sh.nextJob != 0
    ensures SharedOk(sh.(nextJob := Increment(sh.nextJob)))
  {
    var b := sh.(nextJob := Increment(sh.nextJob));
    forall r | 0 <= r < |b.heap| ensures Reachable(b, r) {
      assert Reachable(sh, r);
    }
    forall r | r in b.queue ensures Live(b, b.heap[r].session) {
      assert Live(sh, sh.heap[r].session);
    }
    forall id | id in b.jobs ensures Retains(b, id, b.jobs[id]) {
      assert Retains(sh, id, sh.jobs[id]);
    }
  }

  lemma FreshId(sh: Shared)
    requires |sh.owner| == |sh.heap| && JobsOk(sh) && JobIdsOk(sh) && sh.nextJob != 0
    ensures sh.nextJob !in sh.jobs
  {
  }

  lemma AdmittedQueue(sh: Shared, session: u64)
    requires |sh.owner| == |sh.heap| && QueueOk(sh) && HistoryOk(sh) && Live(sh, session)
    ensures var b := Admitted(sh, session); QueueOk(b) && HistoryOk(b)
  {
    var b := Admitted(sh, session);
    forall i, j | 0 <= i < j < |b.queue| ensures b.queue[i] < b.queue[j] {
      assert sh.queue[i] in sh.queue;
    }
    forall r | r in b.queue ensures r < |b.heap| && b.owner[r].InQueue? && Live(b, b.heap[r].session) {
      assert r in sh.queue ==> Live(sh, sh.heap[r].session);
    }
  }

  lemma AdmittedRecords(sh: Shared, session: u64)
    requires |sh.owner| == |sh.heap| && RecordsOk(sh) && JobIdsOk(sh) && SessionsOk(sh) && sh.nextJob != 0
    requires Live(sh, session)
    ensures var b := Admitted(sh, session); RecordsOk(b) && JobIdsOk(b) && SessionsOk(b)
  {
    assert SessionOk(sh.sessionHeap[sh.sessions[session]], sh.nextSession);
  }

  lemma AdmittedShared(sh: Shared, session: u64)
    requires SharedOk(sh) && sh.nextJob != 0 && Live(sh, session)
    ensures SharedOk(Admitted(sh, session))
  {
    hide QueueOk, HistoryOk, RecordsOk, JobIdsOk, SessionsOk, JobsOk, Reachable;
    FreshId(sh);
    AdmittedQueue(sh, session);
    AdmittedRecords(sh, session);
    AdmittedJobs(sh, session);
  }

  lemma AdmittedJobs(sh: Shared, session: u64)
    requires |sh.owner| == |sh.heap| && JobsOk(sh) && sh.nextJob !in sh.jobs && Live(sh, session)
    requires forall r :: 0 <= r < |sh.heap| ==> Reachable(sh, r)
    ensures var b := Admitted(sh, session); JobsOk(b) && forall r :: 0 <= r < |b.heap| ==> Reachable(b, r)
  {
    var b := Admitted(sh, session);
    forall r | 0 <= r < |b.heap| ensures Reachable(b, r) {
      assert r < |sh.heap| ==> Reachable(sh, r);
    }
    forall id | id in b.jobs ensures Retains(b, id, b.jobs[id]) {
      assert id != sh.nextJob ==> Retains(sh, id, sh.jobs[id]);
    }
  }

  /** A handler does not notice a job admitted to a session it is not closing. */
  lemma AdmittedHandler(sh: Shared, session: u64, u: Tid, h: Handler)
    requires |sh.owner| == |sh.heap| && HandlerOk(sh, u, h)
    requires h.CloseSettle? ==> h.call.session != session
    requires !h.ReleaseCheck? && !h.ReleaseErase?
    ensures HandlerOk(Admitted(sh, session), u, h)
  {
    var b := Admitted(sh, session);
    if h.CloseSettle? {
      var call, phase := h.call, h.phase;
      forall i | 0 <= i < |call.queued| ensures QueuedAt(b, u, call.queued[i], call.session, i < Done(call, phase)) {
        assert QueuedAt(sh, u, call.queued[i], call.session, i < Done(call, phase));
      }
      forall i | 0 <= i < |call.running|
        ensures RunningAt(b, call.running[i], call.session, i < CancelledUpTo(call, phase),
                          i < AwaitedUpTo(call, phase))
      {
        assert RunningAt(sh, call.running[i], call.session, i < CancelledUpTo(call, phase),
                         i < AwaitedUpTo(call, phase));
      }
    }
  }

  lemma AdmittedWorkers(st: State, session: u64, st': State)
    requires |st.sh.owner| == |st.sh.heap| && WorkersOk(st.sh, st.workers) && OwnersOk(st)
    requires st'.sh.heap == st.sh.heap + [Fresh(st.sh.nextJob, session)] && st'.sh.owner == st.sh.owner + [InQueue]
    requires st'.workers == st.workers
    requires forall u :: u in st.handlers && st.handlers[u].CloseSettle? ==>
              u in st'.handlers && st'.handlers[u] == st.handlers[u]
    ensures WorkersOk(st'.sh, st'.workers) && OwnersOk(st')
  {
    forall w | 0 <= w < |st'.workers| ensures WorkerOk(st'.sh, w, st'.workers[w]) {
      assert WorkerOk(st.sh, w, st.workers[w]);
    }
    forall r | 0 <= r < |st'.sh.owner| ensures OwnerExists(st', r) {
      assert r < |st.sh.owner| ==> OwnerExists(st, r);
    }
  }

  lemma AdmittedHandlers(st: State, t: Tid, session: u64, sref: Ref)
    requires SharedOk(st.sh) && HandlersOk(st.sh, st.handlers) && At(st, t, SubmitAdmit(session, sref))
    requires st.sh.registry.None?
    ensures |Admitted(st.sh, session).owner| == |Admitted(st.sh, session).heap|
    ensures HandlersOk(Unlock(Admitted(st.sh, session)), st.handlers - {t})
  {
    hide RecordsOk, JobIdsOk, QueueOk, JobsOk, HistoryOk;
    var sh := Admitted(st.sh, session);
    assert HandlerOk(st.sh, t, SubmitAdmit(session, sref));
    assert SessionOk(st.sh.sessionHeap[sref], st.sh.nextSession);
    forall u | u in st.handlers - {t} ensures HandlerOk(Unlock(sh), u, st.handlers[u]) {
      assert HandlerOk(st.sh, u, st.handlers[u]);
      AdmittedHandler(st.sh, session, u, st.handlers[u]);
      Unmoved(sh, Unlock(sh), t, u, st.handlers[u]);
    }
  }

  lemma AdmitJobKeeps(c: Config, st: State, t: Tid, session: u64, sref: Ref)
    requires Invariant(c, st) && At(st, t, SubmitAdmit(session, sref)) && st.sh.registry.None?
    requires st.sh.nextJob != 0 && |st.sh.jobs| < c.maximumJobs
    ensures Invariant(c, Answer(st.(sh := Unlock(Admitted(st.sh, session))), t))
  {
    hide RecordsOk, JobIdsOk, QueueOk, JobsOk, HistoryOk, WorkersOk, OwnersOk, Reservations;
    var sh := Admitted(st.sh, session);
    var st' := Answer(st.(sh := Unlock(sh)), t);
    assert HandlerOk(st.sh, t, SubmitAdmit(session, sref));
    assert SessionOk(st.sh.sessionHeap[sref], st.sh.nextSession);
    AdmittedShared(st.sh, session);
    TablesOk(sh, Unlock(sh));
    AdmittedHandlers(st, t, session, sref);
    hide HandlersOk, SessionsOk;
    AdmittedWorkers(st, session, st');
    Counted(st.handlers, st'.handlers, t);
  }

  lemma EnqueueKeeps(c: Config, st: State, t: Tid, session: u64, sref: Ref, allocation: Allocation)
    requires Invariant(c, st) && At(st, t, SubmitAdmit(session, sref)) && st.sh.lifecycle == Some(t)
    requires st.sh.registry.None?
    requires sref < |st.sh.sessionHeap|
    ensures Invariant(c, DoEnqueue(c, st, t, sref, allocation))
  {
    hide RecordsOk, JobIdsOk, QueueOk, JobsOk, HistoryOk, WorkersOk, OwnersOk, Reservations;
    var sh := Unlock(st.sh);
    assert HandlerOk(st.sh, t, SubmitAdmit(session, sref));
    if |sh.jobs| >= c.maximumJobs || sh.nextJob == 0 || allocation.FailsBeforeId? {
      AnswerKeeps(c, st, sh, t);
    } else if allocation.FailsAfterId? {
      TablesOk(st.sh, sh);
      SkippedShared(sh);
      AnswerSessionKeeps(c, st, sh.(nextJob := Increment(sh.nextJob)), t);
    } else {
      FreshId(st.sh);
      AdmitJobKeeps(c, st, t, session, sref);
    }
  }

  // ----- Operations on one record -----

  lemma FindKeeps(c: Config, st: State, t: Tid, op: Operation, id: Messages.Id)
    requires Invariant(c, st) && At(st, t, Lookup(op, id))
    ensures Invariant(c, if Retained(c, st.sh, id) then Goto(st, t, Access(op, id, st.sh.jobs[id.value]))
                      else Answer(st, t))
  {
    hide RecordsOk, JobIdsOk, SessionsOk, QueueOk, HistoryOk, HandlersOk, WorkersOk, OwnersOk, Reservations;
    if Retained(c, st.sh, id) {
      assert Retains(st.sh, id.value, st.sh.jobs[id.value]);
      GotoKeeps(c, st, st.sh, t, Access(op, id, st.sh.jobs[id.value]));
    } else {
      AnswerKeeps(c, st, st.sh, t);
    }
  }

  lemma AccessKeeps(c: Config, st: State, t: Tid, op: Operation, id: Messages.Id, r: Ref)
    requires Invariant(c, st) && At(st, t, Access(op, id, r)) && ValidRef(st.sh, r)
    ensures Invariant(c, DoAccess(st, t, op, r))
  {
    hide JobIdsOk, SessionsOk, QueueOk, JobsOk, HistoryOk, HandlersOk, WorkersOk, OwnersOk, Reservations;
    if op.RequestCancel? {
      var rec := WithCancelRequested(st.sh.heap[r]);
      ReplaceKeeps(c, st, r, rec);
      var cancelled := st.(sh := Put(st.sh, r, rec, st.sh.owner[r]));
      AnswerKeeps(c, cancelled, cancelled.sh, t);
    } else {
      AnswerKeeps(c, st, st.sh, t);
    }
  }

  /** Setting a token, or anything else that keeps a record's state and owner. */
  lemma ReplaceKeeps(c: Config, st: State, r: Ref, rec: Record)
    requires Invariant(c, st) && ValidRef(st.sh, r) && Continues(st.sh, r, rec, st.sh.owner[r])
    requires rec.state == st.sh.heap[r].state
    ensures Invariant(c, st.(sh := Put(st.sh, r, rec, st.sh.owner[r])))
  {
    hide RecordsOk, JobIdsOk, SessionsOk, QueueOk, JobsOk, HistoryOk, HandlersOk, WorkersOk;
    var st' := st.(sh := Put(st.sh, r, rec, st.sh.owner[r]));
    PutShared(st.sh, r, rec, st.sh.owner[r]);
    PutHandlers(st.sh, r, rec, st.sh.owner[r], st.handlers);
    PutWorkers(st.sh, r, rec, st.sh.owner[r], st.workers);
    forall q | 0 <= q < |st'.sh.owner| ensures OwnerExists(st', q) {
      assert OwnerExists(st, q);
    }
  }

  lemma FindForReleaseKeeps(c: Config, st: State, t: Tid, id: Messages.Id)
    requires Invariant(c, st) && At(st, t, ReleaseLookup(id)) && st.sh.registry.None?
    ensures Invariant(c, DoFindForRelease(c, st, t, id))
  {
    hide RecordsOk, JobIdsOk, SessionsOk, QueueOk, JobsOk, HistoryOk, HandlersOk, WorkersOk, OwnersOk, Reservations;
    if Retained(c, st.sh, id) {
      GotoKeeps(c, st, st.sh.(registry := Some(t)), t, ReleaseCheck(id.value, st.sh.jobs[id.value]));
    } else {
      AnswerKeeps(c, st, st.sh, t);
    }
  }

  lemma CheckTerminalKeeps(c: Config, st: State, t: Tid, key: u64, r: Ref)
    requires Invariant(c, st) && At(st, t, ReleaseCheck(key, r)) && ValidRef(st.sh, r)
    ensures Invariant(c, DoCheckTerminal(st, t, key, r))
  {
    hide RecordsOk, JobIdsOk, SessionsOk, QueueOk, JobsOk, HistoryOk, WorkersOk, OwnersOk, Reservations;
    assert HandlerOk(st.sh, t, ReleaseCheck(key, r));
    if Terminal(st.sh.heap[r].state) {
      GotoKeeps(c, st, st.sh, t, ReleaseErase(key, r));
    } else {
      AnswerKeeps(c, st, st.sh.(registry := None), t);
    }
  }

  /** A terminal record may leave the map: nothing unfinished is lost with it. */
  lemma ErasedShared(sh: Shared, key: u64, r: Ref)
    requires SharedOk(sh) && key in sh.jobs && sh.jobs[key] == r && r < |sh.heap| && Terminal(sh.heap[r].state)
    ensures SharedOk(sh.(jobs := sh.jobs - {key}, registry := None))
  {
    hide QueueOk, SessionsOk, HistoryOk, JobIdsOk, RecordsOk;
    var b := sh.(jobs := sh.jobs - {key}, registry := None);
    assert Retains(sh, key, r);
    assert QueueOk(b) && HistoryOk(b) && SessionsOk(b) && JobIdsOk(b) && RecordsOk(b) by {
      SameRecordTables(sh, b);
    }
    forall q | 0 <= q < |b.heap| ensures Reachable(b, q) {
      assert Reachable(sh, q);
    }
    forall id | id in b.jobs ensures Retains(b, id, b.jobs[id]) {
      assert Retains(sh, id, sh.jobs[id]);
    }
  }

  lemma SameRecordTables(a: Shared, b: Shared)
    requires b == a.(jobs := b.jobs, registry := b.registry) && |a.owner| == |a.heap|
    requires QueueOk(a) && HistoryOk(a) && SessionsOk(a) && JobIdsOk(a) && RecordsOk(a)
    ensures QueueOk(b) && HistoryOk(b) && SessionsOk(b) && JobIdsOk(b) && RecordsOk(b)
  {
    forall r | r in b.queue ensures Live(b, b.heap[r].session) {
      assert Live(a, a.heap[r].session);
    }
  }

  lemma EraseKeeps(c: Config, st: State, t: Tid, key: u64, r: Ref)
    requires Invariant(c, st) && At(st, t, ReleaseErase(key, r)) && st.sh.registry == Some(t)
    ensures Invariant(c, DoErase(st, t, key))
  {
    hide RecordsOk, JobIdsOk, SessionsOk, QueueOk, JobsOk, HistoryOk, WorkersOk, OwnersOk, CapacityOk, HandlersOk,
         Reachable, HandlerOk;
    var st' := DoErase(st, t, key);
    EraseShared(st, t, key, r);
    ErasedHandlers(st.sh, st.handlers, key, t);
    LocalOwners(st, st', t);
    LocalWorkers(st, st');
    ErasedCapacity(c, st, t, key);
  }

  lemma EraseShared(st: State, t: Tid, key: u64, r: Ref)
    requires SharedOk(st.sh) && HandlersOk(st.sh, st.handlers) && At(st, t, ReleaseErase(key, r))
    ensures SharedOk(DoErase(st, t, key).sh)
  {
    hide RecordsOk, JobIdsOk, SessionsOk, QueueOk, JobsOk, HistoryOk, HandlersOk, Reachable;
    OneHandler(st.sh, st.handlers, t);
    ErasedShared(st.sh, key, r);
  }

  lemma ErasedCapacity(c: Config, st: State, t: Tid, key: u64)
    requires CapacityOk(c, st) && t in st.handlers && st.handlers[t].ReleaseErase?
    ensures CapacityOk(c, DoErase(st, t, key))
  {
    var st' := DoErase(st, t, key);
    Counted(st.handlers, st'.handlers, t);
    Fewer(st'.sh.jobs.Keys, st.sh.jobs.Keys);
  }

  lemma OneHandler(sh: Shared, handlers: map<Tid, Handler>, t: Tid)
    requires |sh.owner| == |sh.heap| && HandlersOk(sh, handlers) && t in handlers
    ensures HandlerOk(sh, t, handlers[t])
  {
  }

  lemma ErasedHandlers(sh: Shared, handlers: map<Tid, Handler>, key: u64, t: Tid)
    requires |sh.owner| == |sh.heap| && HandlersOk(sh, handlers) && sh.registry == Some(t)
    ensures HandlersOk(sh.(jobs := sh.jobs - {key}, registry := None), handlers - {t})
  {
    hide HandlerOk;
    forall u | u in handlers - {t} ensures HandlerOk(sh.(jobs := sh.jobs - {key}, registry := None), u, handlers[u]) {
      assert HandlerOk(sh, u, handlers[u]);
      ErasedHandler(sh, key, t, u, handlers[u]);
    }
  }

  lemma ErasedHandler(sh: Shared, key: u64, t: Tid, u: Tid, h: Handler)
    requires |sh.owner| == |sh.heap| && HandlerOk(sh, u, h) && sh.registry == Some(t) && u != t
    ensures HandlerOk(sh.(jobs := sh.jobs - {key}, registry := None), u, h)
  {
    if h.CloseSettle? {
      SameRecordsClose(sh, sh.(jobs := sh.jobs - {key}, registry := None), u, h.call, h.phase);
    }
  }

  // ----- Workers -----

  /** A worker that touches no shared state. */
  lemma WorkerMoves(c: Config, st: State, w: nat, k: Worker)
    requires Invariant(c, st) && w < |st.workers| && !st.workers[w].Idle? && !st.workers[w].Publishing?
    requires st.workers[w].Popped? ==> k.Publishing?
    requires !k.Idle? && !k.Popped? && k.ref == st.workers[w].ref
    requires k.Publishing? && k.publication.PublishFailure? ==> k.publication.code != OK
    ensures Invariant(c, Become(st, w, k))
  {
    hide RecordsOk, JobIdsOk, SessionsOk, QueueOk, JobsOk, HistoryOk, HandlersOk, Reservations;
    forall v | 0 <= v < |st.workers| ensures WorkerOk(st.sh, v, Become(st, w, k).workers[v]) {
      assert WorkerOk(st.sh, v, st.workers[v]);
    }
    forall r | 0 <= r < |st.sh.owner| ensures OwnerExists(Become(st, w, k), r) {
      assert OwnerExists(st, r);
    }
  }

  /** A worker replaces its record, keeping it or, when it is finished, letting it go. */
  lemma WorkerReplaces(c: Config, st: State, w: nat, rec: Record, o: Owner, k: Worker)
    requires Invariant(c, st) && w < |st.workers| && !st.workers[w].Idle? && ValidRef(st.sh, st.workers[w].ref)
    requires Continues(st.sh, st.workers[w].ref, rec, o)
    requires if o.NoOne? then k.Idle? else k == Started(st.workers[w].ref) && o == OfWorker(w) && rec.state == Running
    ensures Invariant(c, Become(st.(sh := Put(st.sh, st.workers[w].ref, rec, o)), w, k))
  {
    hide RecordsOk, JobIdsOk, SessionsOk, QueueOk, JobsOk, HistoryOk, HandlersOk, Reservations;
    var r := st.workers[w].ref;
    var b := Put(st.sh, r, rec, o);
    var st' := Become(st.(sh := b), w, k);
    assert WorkerOk(st.sh, w, st.workers[w]);
    PutShared(st.sh, r, rec, o);
    PutHandlers(st.sh, r, rec, o, st.handlers);
    forall v | 0 <= v < |st'.workers| ensures WorkerOk(b, v, st'.workers[v]) {
      assert WorkerOk(st.sh, v, st.workers[v]);
    }
    forall q | 0 <= q < |b.owner| ensures OwnerExists(st', q) {
      assert OwnerExists(st, q);
    }
  }

  lemma StartKeeps(c: Config, st: State, w: nat, r: Ref)
    requires Invariant(c, st) && w < |st.workers| && st.workers[w] == Popped(r) && ValidRef(st.sh, r)
    ensures Invariant(c, DoStart(st, w, r))
  {
    hide JobIdsOk, SessionsOk, QueueOk, JobsOk, HistoryOk, HandlersOk, OwnersOk, Reservations;
    assert WorkerOk(st.sh, w, st.workers[w]);
    WorkerReplaces(c, st, w, st.sh.heap[r].(state := Running), OfWorker(w), Started(r));
  }

  lemma PublishOutcomeKeeps(c: Config, st: State, w: nat, r: Ref, p: Publication)
    requires Invariant(c, st) && w < |st.workers| && st.workers[w] == Publishing(r, p) && ValidRef(st.sh, r)
    ensures Invariant(c, DoPublishOutcome(st, w, r, p))
  {
    hide JobIdsOk, SessionsOk, QueueOk, JobsOk, HistoryOk, HandlersOk, OwnersOk, Reservations;
    assert WorkerOk(st.sh, w, st.workers[w]);
    WorkerReplaces(c, st, w, Published(st.sh.heap[r], p), NoOne, Idle);
  }

  function PoppedBy(sh: Shared, w: nat): Shared
    requires sh.queue != [] && ValidRef(sh, sh.queue[0])
  {
    sh.(queue := sh.queue[1..], owner := sh.owner[sh.queue[0] := OfWorker(w)], popped := sh.popped + [sh.queue[0]])
  }

  lemma PoppedQueue(sh: Shared, w: nat)
    requires |sh.owner| == |sh.heap| && QueueOk(sh) && HistoryOk(sh) && sh.queue != [] && ValidRef(sh, sh.queue[0])
    ensures QueueOk(PoppedBy(sh, w)) && HistoryOk(PoppedBy(sh, w))
  {
    var b := PoppedBy(sh, w);
    var r := sh.queue[0];
    assert sh.queue == [r] + b.queue;
    IncreasingTail(sh.queue);
    forall q | q in b.queue ensures q < |b.heap| && b.owner[q].InQueue? && Live(b, b.heap[q].session) {
      assert q in sh.queue;
      assert Live(sh, sh.heap[q].session);
    }
    forall i, j | 0 <= i < j < |b.popped| ensures b.popped[i] < b.popped[j] {
      assert sh.popped[i] in sh.popped && r in sh.queue;
    }
  }

  lemma PoppedShared(sh: Shared, w: nat)
    requires SharedOk(sh) && sh.queue != [] && ValidRef(sh, sh.queue[0])
    ensures SharedOk(PoppedBy(sh, w))
  {
    PoppedQueue(sh, w);
    assert sh.queue[0] in sh.queue;
    hide HistoryOk, JobIdsOk, SessionsOk;
    var b := PoppedBy(sh, w);
    assert JobIdsOk(b) && SessionsOk(b) by {
      PoppedIds(sh, w);
    }
    forall q | 0 <= q < |b.heap| ensures Reachable(b, q) && Coherent(b.heap[q]) && Owned(b.heap[q], b.owner[q]) {
      assert Reachable(sh, q);
    }
    forall id | id in b.jobs ensures Retains(b, id, b.jobs[id]) {
      assert Retains(sh, id, sh.jobs[id]);
    }
  }

  lemma PoppedIds(sh: Shared, w: nat)
    requires JobIdsOk(sh) && SessionsOk(sh) && sh.queue != [] && ValidRef(sh, sh.queue[0])
    ensures JobIdsOk(PoppedBy(sh, w)) && SessionsOk(PoppedBy(sh, w))
  {
  }

  lemma PoppedHandler(sh: Shared, w: nat, t: Tid, h: Handler)
    requires SharedOk(sh) && HandlerOk(sh, t, h) && sh.queue != [] && ValidRef(sh, sh.queue[0])
    ensures HandlerOk(PoppedBy(sh, w), t, h)
  {
    hide HistoryOk, JobIdsOk, SessionsOk, JobsOk, RecordsOk;
    assert sh.queue[0] in sh.queue;
    var b := PoppedBy(sh, w);
    if h.CloseSettle? {
      var call, phase := h.call, h.phase;
      forall i | 0 <= i < |call.queued| ensures QueuedAt(b, t, call.queued[i], call.session, i < Done(call, phase)) {
        assert QueuedAt(sh, t, call.queued[i], call.session, i < Done(call, phase));
      }
      forall i | 0 <= i < |call.running|
        ensures RunningAt(b, call.running[i], call.session, i < CancelledUpTo(call, phase),
                          i < AwaitedUpTo(call, phase))
      {
        assert RunningAt(sh, call.running[i], call.session, i < CancelledUpTo(call, phase),
                         i < AwaitedUpTo(call, phase));
      }
    }
  }

  lemma PopKeeps(c: Config, st: State, w: nat)
    requires Invariant(c, st) && w < |st.workers| && st.workers[w].Idle? && st.sh.queue != []
    requires ValidRef(st.sh, st.sh.queue[0])
    ensures Invariant(c, DoPop(st, w))
  {
    hide HistoryOk, JobIdsOk, SessionsOk, JobsOk, Reservations;
    var st' := DoPop(st, w);
    assert st'.sh == PoppedBy(st.sh, w);
    assert st.sh.queue[0] in st.sh.queue;
    PoppedShared(st.sh, w);
    forall t | t in st'.handlers ensures HandlerOk(st'.sh, t, st'.handlers[t]) {
      PoppedHandler(st.sh, w, t, st.handlers[t]);
    }
    hide HandlersOk, QueueOk;
    forall v | 0 <= v < |st'.workers| ensures WorkerOk(st'.sh, v, st'.workers[v]) {
      assert WorkerOk(st.sh, v, st.workers[v]);
    }
    forall r | 0 <= r < |st'.sh.owner| ensures OwnerExists(st', r) {
      assert OwnerExists(st, r);
    }
  }

  // ----- Every step, every run -----

  lemma CloseStepKeeps(c: Config, st: State, step: Step)
    requires Invariant(c, st) && !step.Arrive? && !WorkerStep(step) && HandlerGuard(c, st, step)
    requires st.handlers[step.t].CloseSettle?
    ensures Invariant(c, ApplyHandler(c, st, step))
  {
    hide Invariant, LeftInMap, OpenSession, Retained;
    var call, phase := st.handlers[step.t].call, st.handlers[step.t].phase;
    match step
    case AcquireLifecycle(t) => AcquireStepKeeps(c, st, t);
    case CancelToken(t) => CancelTokenKeeps(c, st, t, call, phase.i);
    case SettleQueued(t) => SettleQueuedKeeps(c, st, t, call, phase.i);
    case CancelRunning(t) => CancelRunningKeeps(c, st, t, call, phase.i);
    case AwaitRunning(t) => AwaitKeeps(c, st, t, call, phase.i);
    case NextPhase(t) => NextPhaseKeeps(c, st, t, call, phase);
    case Finalize(t) => FinalizeKeeps(c, st, t, call);
  }

  lemma AcquireStepKeeps(c: Config, st: State, t: Tid)
    requires Invariant(c, st) && HandlerGuard(c, st, AcquireLifecycle(t))
    ensures Invariant(c, ApplyHandler(c, st, AcquireLifecycle(t)))
  {
    hide Invariant;
    AcquireKeeps(c, st, t);
  }

  lemma HandlerStepKeeps(c: Config, st: State, step: Step)
    requires Invariant(c, st) && !step.Arrive? && !WorkerStep(step) && HandlerGuard(c, st, step)
    requires !st.handlers[step.t].CloseSettle?
    ensures Invariant(c, ApplyHandler(c, st, step))
  {
    hide Invariant, LeftInMap, OpenSession, Retained, OwnQueue;
    var h := st.handlers[step.t];
    match step
    case AcquireLifecycle(t) => AcquireStepKeeps(c, st, t);
    case Admit(t) => AdmitKeeps(c, st, t);
    case Build(t, ok) => BuildKeeps(c, st, t, if ok then CreatePublish else CreateRollback);
    case Publish(t, throws) => PublishKeeps(c, st, t, throws);
    case Rollback(t) => RollbackKeeps(c, st, t);
    case Mark(t) => MarkKeeps(c, st, t, h.id);
    case TakeJobs(t, running) => TakeJobsKeeps(c, st, t, h.session, h.sref, running);
    case TakeJobsFails(t) => TakeJobsFailsKeeps(c, st, t, h.session, h.sref);
    case Reopen(t) => ReopenKeeps(c, st, t, h.session, h.sref);
    case CheckSession(t) => CheckSessionKeeps(c, st, t, h.id);
    case Enqueue(t, allocation) => EnqueueKeeps(c, st, t, h.session, h.sref, allocation);
    case Find(t) => FindKeeps(c, st, t, h.op, h.id);
    case AccessRecord(t) => AccessKeeps(c, st, t, h.op, h.id, h.ref);
    case FindForRelease(t) => FindForReleaseKeeps(c, st, t, h.id);
    case CheckTerminal(t) => CheckTerminalKeeps(c, st, t, h.key, h.ref);
    case Erase(t) => EraseKeeps(c, st, t, h.key, h.ref);
  }

  lemma WorkerStepKeeps(c: Config, st: State, step: Step)
    requires Invariant(c, st) && WorkerStep(step) && WorkerGuard(st, step)
    ensures Invariant(c, ApplyWorker(st, step))
  {
    hide Invariant;
    var k := st.workers[step.w];
    match step
    case Pop(w) => PopKeeps(c, st, w);
    case Start(w) => StartKeeps(c, st, w, k.ref);
    case CheckBeforeCompile(w) => WorkerMoves(c, st, w, ApplyWorker(st, step).workers[w]);
    case Compile(w, failure) => WorkerMoves(c, st, w, ApplyWorker(st, step).workers[w]);
    case CheckBeforeExecute(w) => WorkerMoves(c, st, w, ApplyWorker(st, step).workers[w]);
    case Execute(w, outcome) => WorkerMoves(c, st, w, ApplyWorker(st, step).workers[w]);
    case Throw(w, code) => WorkerMoves(c, st, w, ApplyWorker(st, step).workers[w]);
    case PublishOutcome(w) => PublishOutcomeKeeps(c, st, w, k.ref, k.publication);
  }

  /** The invariant is inductive. */
  lemma StepKeeps(c: Config, st: State, step: Step)
    requires Invariant(c, st) && Guard(c, st, step)
    ensures Invariant(c, Apply(c, st, step))
  {
    hide Invariant, HandlerGuard, WorkerGuard, ApplyHandler, ApplyWorker;
    if step.Arrive? {
      ArriveKeeps(c, st, step.t, step.h);
    } else if WorkerStep(step) {
      WorkerStepKeeps(c, st, step);
    } else {
      StepHasHandler(c, st, step);
      if st.handlers[step.t].CloseSettle? {
        CloseStepKeeps(c, st, step);
      } else {
        HandlerStepKeeps(c, st, step);
      }
    }
  }

  lemma StepHasHandler(c: Config, st: State, step: Step)
    requires !step.Arrive? && !WorkerStep(step) && HandlerGuard(c, st, step)
    ensures step.t in st.handlers
  {
  }

  /** The handler that takes a step is in order. */
  lemma ActorIsOk(c: Config, st: State, step: Step)
    requires Invariant(c, st) && !step.Arrive? && !WorkerStep(step) && HandlerGuard(c, st, step)
    ensures step.t in st.handlers && |st.sh.owner| == |st.sh.heap| && HandlerOk(st.sh, step.t, st.handlers[step.t])
  {
    hide RecordsOk, JobIdsOk, SessionsOk, QueueOk, JobsOk, HistoryOk, WorkersOk, OwnersOk, CapacityOk, LeftInMap,
         OwnQueue, HandlerOk;
  }

  /** A schedule that is possible from `st`: any interleaving of handlers and workers. */
  predicate Possible(c: Config, st: State, steps: seq<Step>)
    decreases |steps|
  {
    steps == [] || (Guard(c, st, steps[0]) && Possible(c, Apply(c, st, steps[0]), steps[1..]))
  }

  function After(c: Config, st: State, steps: seq<Step>): State
    requires Possible(c, st, steps)
    decreases |steps|
  {
    if steps == [] then st else After(c, Apply(c, st, steps[0]), steps[1..])
  }

  /** Runs can be put together. */
  lemma {:induction false} Concat(c: Config, st: State, a: seq<Step>, b: seq<Step>)
    requires Possible(c, st, a) && Possible(c, After(c, st, a), b)
    ensures Possible(c, st, a + b) && After(c, st, a + b) == After(c, After(c, st, a), b)
    decreases |a|
  {
    hide Guard, Apply;
    if a == [] {
      assert a + b == b;
    } else {
      Concat(c, Apply(c, st, a[0]), a[1..], b);
      assert (a + b)[1..] == a[1..] + b;
    }
  }

  lemma OneStep(c: Config, st: State, step: Step)
    requires Guard(c, st, step)
    ensures Possible(c, st, [step]) && After(c, st, [step]) == Apply(c, st, step)
  {
    hide Guard, Apply;
    assert [step][1..] == [];
    assert Possible(c, Apply(c, st, step), []);
  }

  /** A step, and a run from where it leads. */
  lemma StepThen(c: Config, st: State, step: Step, rest: seq<Step>)
    requires Guard(c, st, step) && Possible(c, Apply(c, st, step), rest)
    ensures Possible(c, st, [step] + rest) && After(c, st, [step] + rest) == After(c, Apply(c, st, step), rest)
  {
    hide Guard, Apply;
    assert ([step] + rest)[1..] == rest;
  }

  /** Every state of every run satisfies the invariant. */
  lemma {:induction false} RunKeeps(c: Config, st: State, steps: seq<Step>)
    requires Invariant(c, st) && Possible(c, st, steps)
    ensures Invariant(c, After(c, st, steps))
    decreases |steps|
  {
    hide Invariant, Guard, Apply;
    if steps != [] {
      StepKeeps(c, st, steps[0]);
      RunKeeps(c, Apply(c, st, steps[0]), steps[1..]);
    }
  }
}
