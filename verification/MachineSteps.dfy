/** Every step of the orchestration machine keeps the invariant. */
module MachineSteps {
  import opened Wire
  import opened Jobs
  import opened Machine
  import opened MachineInvariant
  import Messages

  // ----- Steps that touch no record, queue or session -----

  predicate SameTables(a: Shared, b: Shared) {
    && a.heap == b.heap && a.owner == b.owner && a.jobs == b.jobs && a.queue == b.queue
    && a.sessionHeap == b.sessionHeap && a.sessions == b.sessions && a.popped == b.popped && a.removed == b.removed
    && a.fault == b.fault && a.nextSession == b.nextSession && a.nextJob == b.nextJob
  }

  /** A lock changes hands only from or to the acting handler. */
  predicate LockStep(a: Option<Tid>, b: Option<Tid>, t: Tid) {
    a == b || ((a.None? || a == Some(t)) && (b.None? || b == Some(t)))
  }

  /** Only the entry of `t` differs. */
  ghost predicate OnlyHandler(a: map<Tid, Handler>, b: map<Tid, Handler>, t: Tid) {
    && (forall u :: u in a && u != t ==> u in b && b[u] == a[u])
    && (forall u :: u in b && u != t ==> u in a)
  }

  /** A close that has records to settle still has them. */
  predicate KeepsUnsettled(a: map<Tid, Handler>, b: map<Tid, Handler>, t: Tid) {
    t in a && a[t].CloseSettle? && Done(a[t].call, a[t].phase) < |a[t].call.queued| ==>
      && t in b && b[t].CloseSettle? && b[t].call == a[t].call
      && Done(b[t].call, b[t].phase) == Done(a[t].call, a[t].phase)
  }

  lemma Local(c: Config, st: State, st': State, t: Tid)
    requires Invariant(c, st)
    requires SameTables(st.sh, st'.sh) && st'.workers == st.workers && OnlyHandler(st.handlers, st'.handlers, t)
    requires LockStep(st.sh.lifecycle, st'.sh.lifecycle, t) && LockStep(st.sh.registry, st'.sh.registry, t)
    requires t in st'.handlers ==> HandlerOk(st'.sh, t, st'.handlers[t])
    requires KeepsUnsettled(st.handlers, st'.handlers, t)
    requires LocksOk(st') && CapacityOk(c, st')
    ensures Invariant(c, st')
  {
    hide RecordsOk, JobIdsOk, SessionsOk, QueueOk, JobsOk, HistoryOk, HandlerOk, WorkersOk, OwnersOk;
    TablesOk(st.sh, st'.sh);
    forall u | u in st'.handlers ensures HandlerOk(st'.sh, u, st'.handlers[u]) {
      if u != t {
        Unmoved(st.sh, st'.sh, t, u, st.handlers[u]);
      }
    }
    LocalOwners(st, st', t);
    LocalWorkers(st, st');
  }

  lemma LocalOwners(st: State, st': State, t: Tid)
    requires st.sh.owner == st'.sh.owner && st'.workers == st.workers && OnlyHandler(st.handlers, st'.handlers, t)
    requires |st.sh.owner| == |st.sh.heap| == |st'.sh.heap| && OwnersOk(st)
    requires KeepsUnsettled(st.handlers, st'.handlers, t)
    ensures OwnersOk(st')
  {
    forall r | 0 <= r < |st'.sh.owner| ensures OwnerExists(st', r) {
      assert OwnerExists(st, r);
    }
  }

  lemma LocalWorkers(st: State, st': State)
    requires st.sh.heap == st'.sh.heap && st.sh.owner == st'.sh.owner && st'.workers == st.workers
    requires |st.sh.owner| == |st.sh.heap| && WorkersOk(st.sh, st.workers)
    ensures WorkersOk(st'.sh, st'.workers)
  {
    forall w | 0 <= w < |st'.workers| ensures WorkerOk(st'.sh, w, st'.workers[w]) {
      assert WorkerOk(st.sh, w, st.workers[w]);
    }
  }

  lemma TablesOk(a: Shared, b: Shared)
    requires SharedOk(a) && SameTables(a, b)
    ensures SharedOk(b)
  {
    forall r | 0 <= r < |b.heap| ensures Reachable(b, r) {
      assert Reachable(a, r);
    }
    forall r | r in b.queue ensures Live(b, b.heap[r].session) {
      assert Live(a, a.heap[r].session);
    }
    forall id | id in b.jobs ensures Retains(b, id, b.jobs[id]) {
      assert Retains(a, id, a.jobs[id]);
    }
  }

  lemma Unmoved(a: Shared, b: Shared, t: Tid, u: Tid, h: Handler)
    requires |a.owner| == |a.heap| && SameTables(a, b) && HandlerOk(a, u, h) && u != t
    requires LockStep(a.lifecycle, b.lifecycle, t) && LockStep(a.registry, b.registry, t)
    ensures HandlerOk(b, u, h)
  {
    if h.CloseSettle? {
      SameRecordsClose(a, b, u, h.call, h.phase);
    }
  }

  lemma SameRecordsClose(a: Shared, b: Shared, u: Tid, call: CloseCall, phase: Phase)
    requires |a.owner| == |a.heap| && a.heap == b.heap && a.owner == b.owner
    requires Covers(a, call) && QueuedOk(a, u, call, phase) && RunningOk(a, call, phase)
    ensures Covers(b, call) && QueuedOk(b, u, call, phase) && RunningOk(b, call, phase)
  {
    forall i | 0 <= i < |call.queued| ensures QueuedAt(b, u, call.queued[i], call.session, i < Done(call, phase)) {
      assert QueuedAt(a, u, call.queued[i], call.session, i < Done(call, phase));
    }
    forall i | 0 <= i < |call.running|
      ensures RunningAt(b, call.running[i], call.session, i < CancelledUpTo(call, phase), i < AwaitedUpTo(call, phase))
    {
      assert RunningAt(a, call.running[i], call.session, i < CancelledUpTo(call, phase), i < AwaitedUpTo(call, phase));
    }
  }

  // ----- Reservations -----

  function Slots(handlers: map<Tid, Handler>, t: Tid): nat {
    if t in handlers && Reserved(handlers[t]) then 1 else 0
  }

  lemma Counted(a: map<Tid, Handler>, b: map<Tid, Handler>, t: Tid)
    requires OnlyHandler(a, b, t)
    ensures |Reservations(b)| == |Reservations(a)| + Slots(b, t) - Slots(a, t)
  {
    assert Reservations(a) - {t} == Reservations(b) - {t};
    CountedWithout(a, t);
    CountedWithout(b, t);
  }

  lemma CountedWithout(a: map<Tid, Handler>, t: Tid)
    ensures |Reservations(a)| == |Reservations(a) - {t}| + Slots(a, t)
  {
    if t in Reservations(a) {
      assert Reservations(a) == (Reservations(a) - {t}) + {t};
    } else {
      assert Reservations(a) == Reservations(a) - {t};
    }
  }

  // ----- Steps that replace one record -----

  /** `rec` continues the record `r`, and its owner stays or lets go of a finished record. */
  predicate Continues(sh: Shared, r: Ref, rec: Record, o: Owner)
    requires ValidRef(sh, r)
  {
    var was := sh.heap[r];
    && rec.id == was.id && rec.session == was.session && Coherent(rec) && Owned(rec, o)
    && (o == sh.owner[r] || o.NoOne?)
    && (sh.owner[r].InQueue? ==> o == sh.owner[r])
    && (Terminal(was.state) ==> rec == was)
    && (was.cancelled ==> rec.cancelled)
  }

  lemma PutShared(sh: Shared, r: Ref, rec: Record, o: Owner)
    requires SharedOk(sh) && ValidRef(sh, r) && Continues(sh, r, rec, o)
    ensures SharedOk(Put(sh, r, rec, o))
  {
    var b := Put(sh, r, rec, o);
    forall i | 0 <= i < |b.heap| ensures Reachable(b, i) && Coherent(b.heap[i]) && Owned(b.heap[i], b.owner[i]) {
      assert Reachable(sh, i);
    }
    PutQueue(sh, r, rec, o);
    PutJobs(sh, r, rec, o);
  }

  lemma PutQueue(sh: Shared, r: Ref, rec: Record, o: Owner)
    requires |sh.owner| == |sh.heap| && QueueOk(sh) && HistoryOk(sh) && ValidRef(sh, r) && Continues(sh, r, rec, o)
    requires |sh.heap| == |sh.owner|
    ensures QueueOk(Put(sh, r, rec, o)) && HistoryOk(Put(sh, r, rec, o))
  {
    var b := Put(sh, r, rec, o);
    forall q | q in b.queue ensures q < |b.heap| && b.owner[q].InQueue? && Live(b, b.heap[q].session) {
      assert Live(sh, sh.heap[q].session);
    }
  }

  lemma PutJobs(sh: Shared, r: Ref, rec: Record, o: Owner)
    requires |sh.owner| == |sh.heap| && JobsOk(sh) && ValidRef(sh, r) && Continues(sh, r, rec, o)
    ensures JobsOk(Put(sh, r, rec, o))
  {
    var b := Put(sh, r, rec, o);
    forall id | id in b.jobs ensures Retains(b, id, b.jobs[id]) {
      assert Retains(sh, id, sh.jobs[id]);
    }
  }

  lemma PutClose(sh: Shared, r: Ref, rec: Record, o: Owner, t: Tid, call: CloseCall, phase: Phase)
    requires |sh.owner| == |sh.heap| && RecordsOk(sh) && ValidRef(sh, r) && Continues(sh, r, rec, o)
    requires QueuedOk(sh, t, call, phase) && RunningOk(sh, call, phase) && Covers(sh, call)
    requires o == sh.owner[r] || sh.owner[r] != OfCloser(t)
    ensures var b := Put(sh, r, rec, o); QueuedOk(b, t, call, phase) && RunningOk(b, call, phase) && Covers(b, call)
  {
    var b := Put(sh, r, rec, o);
    forall i | 0 <= i < |call.queued| ensures QueuedAt(b, t, call.queued[i], call.session, i < Done(call, phase)) {
      assert QueuedAt(sh, t, call.queued[i], call.session, i < Done(call, phase));
    }
    forall i | 0 <= i < |call.running|
      ensures RunningAt(b, call.running[i], call.session, i < CancelledUpTo(call, phase), i < AwaitedUpTo(call, phase))
    {
      assert RunningAt(sh, call.running[i], call.session, i < CancelledUpTo(call, phase), i < AwaitedUpTo(call, phase));
    }
  }

  lemma PutHandler(sh: Shared, r: Ref, rec: Record, o: Owner, t: Tid, h: Handler)
    requires |sh.owner| == |sh.heap| && RecordsOk(sh) && ValidRef(sh, r) && Continues(sh, r, rec, o)
    requires HandlerOk(sh, t, h)
    requires o == sh.owner[r] || sh.owner[r] != OfCloser(t)
    ensures HandlerOk(Put(sh, r, rec, o), t, h)
  {
    if h.CloseSettle? {
      PutClose(sh, r, rec, o, t, h.call, h.phase);
    }
  }

  lemma PutHandlers(sh: Shared, r: Ref, rec: Record, o: Owner, handlers: map<Tid, Handler>)
    requires SharedOk(sh) && ValidRef(sh, r) && Continues(sh, r, rec, o) && HandlersOk(sh, handlers)
    requires o == sh.owner[r] || !sh.owner[r].OfCloser?
    ensures HandlersOk(Put(sh, r, rec, o), handlers)
  {
    forall t | t in handlers ensures HandlerOk(Put(sh, r, rec, o), t, handlers[t]) {
      PutHandler(sh, r, rec, o, t, handlers[t]);
    }
  }

  /** Replacing a record disturbs no worker, unless it changes the state of the record that worker holds. */
  lemma PutWorkers(sh: Shared, r: Ref, rec: Record, o: Owner, workers: seq<Worker>)
    requires |sh.owner| == |sh.heap| && RecordsOk(sh) && ValidRef(sh, r) && Continues(sh, r, rec, o)
    requires WorkersOk(sh, workers)
    requires sh.owner[r].OfWorker? ==> o == sh.owner[r] && rec.state == sh.heap[r].state
    ensures WorkersOk(Put(sh, r, rec, o), workers)
  {
    forall w | 0 <= w < |workers| ensures WorkerOk(Put(sh, r, rec, o), w, workers[w]) {
      assert WorkerOk(sh, w, workers[w]);
    }
  }

  // ----- Creating a session -----

  lemma ArriveKeeps(c: Config, st: State, t: Tid, h: Handler)
    requires Invariant(c, st) && t !in st.handlers && Initiating(h)
    ensures Invariant(c, Goto(st, t, h))
  {
    hide SharedOk, HandlersOk, WorkersOk, OwnersOk;
    Counted(st.handlers, Goto(st, t, h).handlers, t);
    Local(c, st, Goto(st, t, h), t);
  }

  lemma AcquireKeeps(c: Config, st: State, t: Tid)
    requires Invariant(c, st) && t in st.handlers && NeedsLifecycle(st.handlers[t]) && st.sh.lifecycle.None?
    ensures Invariant(c, st.(sh := st.sh.(lifecycle := Some(t))))
  {
    hide RecordsOk, JobIdsOk, SessionsOk, QueueOk, JobsOk, HistoryOk, WorkersOk, OwnersOk;
    var st' := st.(sh := st.sh.(lifecycle := Some(t)));
    assert HandlerOk(st.sh, t, st.handlers[t]);
    if st.handlers[t].CloseSettle? {
      SameRecordsClose(st.sh, st'.sh, t, st.handlers[t].call, st.handlers[t].phase);
    }
    Local(c, st, st', t);
  }

  predicate At(st: State, t: Tid, h: Handler) {
    t in st.handlers && st.handlers[t] == h
  }

  /** Handlers that hold no unsettled record may leave or move on freely. */
  lemma MoveKeeps(c: Config, st: State, st': State, t: Tid)
    requires Invariant(c, st) && t in st.handlers && !st.handlers[t].CloseSettle?
    requires SameTables(st.sh, st'.sh) && st'.workers == st.workers && OnlyHandler(st.handlers, st'.handlers, t)
    requires LockStep(st.sh.lifecycle, st'.sh.lifecycle, t) && LockStep(st.sh.registry, st'.sh.registry, t)
    requires st'.sh.lifecycle == Some(t) ==> HoldsLifecycle(st'.handlers, t)
    requires st'.sh.registry == Some(t) ==> HoldsRegistry(st'.handlers, t)
    requires t in st'.handlers ==> HandlerOk(st'.sh, t, st'.handlers[t])
    requires st'.sh.pending == st.sh.pending + Slots(st'.handlers, t) - Slots(st.handlers, t)
    requires |st'.sh.sessions| + st'.sh.pending <= c.maximumSessions
    ensures Invariant(c, st')
  {
    hide SharedOk, HandlersOk, WorkersOk, OwnersOk;
    Counted(st.handlers, st'.handlers, t);
    Local(c, st, st', t);
  }

  /** A handler answers, leaving the tables as they are. */
  lemma AnswerKeeps(c: Config, st: State, sh: Shared, t: Tid)
    requires Invariant(c, st) && t in st.handlers && !st.handlers[t].CloseSettle? && SameTables(st.sh, sh)
    requires LockStep(st.sh.lifecycle, sh.lifecycle, t) && LockStep(st.sh.registry, sh.registry, t)
    requires sh.lifecycle != Some(t) && sh.registry != Some(t)
    requires sh.pending == st.sh.pending - Slots(st.handlers, t)
    ensures Invariant(c, Answer(st.(sh := sh), t))
  {
    hide SharedOk, HandlersOk, WorkersOk, OwnersOk;
    MoveKeeps(c, st, Answer(st.(sh := sh), t), t);
  }

  /** A handler moves on, leaving the tables as they are. */
  lemma GotoKeeps(c: Config, st: State, sh: Shared, t: Tid, h: Handler)
    requires Invariant(c, st) && t in st.handlers && !st.handlers[t].CloseSettle? && SameTables(st.sh, sh)
    requires LockStep(st.sh.lifecycle, sh.lifecycle, t) && LockStep(st.sh.registry, sh.registry, t)
    requires sh.lifecycle == Some(t) ==> NeedsLifecycle(h)
    requires sh.registry == Some(t) ==> h.ReleaseCheck? || h.ReleaseErase?
    requires HandlerOk(sh, t, h)
    requires sh.pending == st.sh.pending + (if Reserved(h) then 1 else 0) - Slots(st.handlers, t)
    requires |sh.sessions| + sh.pending <= c.maximumSessions
    ensures Invariant(c, Goto(st.(sh := sh), t, h))
  {
    hide SharedOk, HandlersOk, WorkersOk, OwnersOk;
    MoveKeeps(c, st, Goto(st.(sh := sh), t, h), t);
  }

  lemma AdmitKeeps(c: Config, st: State, t: Tid)
    requires Invariant(c, st) && At(st, t, CreateAdmit) && st.sh.lifecycle == Some(t)
    ensures Invariant(c, DoAdmit(c, st, t))
  {
    hide RecordsOk, JobIdsOk, SessionsOk, QueueOk, JobsOk, HistoryOk, HandlersOk, WorkersOk, OwnersOk;
    var sh := Unlock(st.sh);
    if |sh.sessions| >= c.maximumSessions || sh.pending >= c.maximumSessions - |sh.sessions| || sh.nextSession == 0 {
      AnswerKeeps(c, st, sh, t);
    } else {
      GotoKeeps(c, st, sh.(pending := sh.pending + 1), t, CreateBuild);
    }
  }

  lemma BuildKeeps(c: Config, st: State, t: Tid, h: Handler)
    requires Invariant(c, st) && At(st, t, CreateBuild) && (h.CreatePublish? || h.CreateRollback?)
    ensures Invariant(c, Goto(st, t, h))
  {
    hide RecordsOk, JobIdsOk, SessionsOk, QueueOk, JobsOk, HistoryOk, HandlersOk, WorkersOk, OwnersOk;
    GotoKeeps(c, st, st.sh, t, h);
  }

  lemma RollbackKeeps(c: Config, st: State, t: Tid)
    requires Invariant(c, st) && At(st, t, CreateRollback) && st.sh.lifecycle == Some(t)
    ensures Invariant(c, DoRollback(st, t))
  {
    hide RecordsOk, JobIdsOk, SessionsOk, QueueOk, JobsOk, HistoryOk, HandlersOk, WorkersOk, OwnersOk;
    assert t in Reservations(st.handlers);
    AnswerKeeps(c, st, Unlock(st.sh).(pending := st.sh.pending - 1), t);
  }

  /** The session table grows by a fresh open session. */
  lemma NewSessionShared(sh: Shared)
    requires SharedOk(sh) && sh.nextSession != 0
    ensures sh.nextSession !in sh.sessions && SharedOk(WithNewSession(sh))
  {
    var b := WithNewSession(sh);
    forall s | Live(sh, s) ensures Live(b, s) {}
    forall r | 0 <= r < |b.heap| ensures Reachable(b, r) {
      assert Reachable(sh, r);
    }
    forall r | r in b.queue ensures Live(b, b.heap[r].session) {
      assert Live(sh, sh.heap[r].session);
    }
    forall id | id in b.jobs ensures Retains(b, id, b.jobs[id]) {
      assert Retains(sh, id, sh.jobs[id]);
    }
    forall i | 0 <= i < |b.sessionHeap| ensures SessionOk(b.sessionHeap[i], b.nextSession) {
      assert i < |sh.sessionHeap| ==> SessionOk(sh.sessionHeap[i], sh.nextSession);
    }
  }

  function WithNewSession(sh: Shared): Shared {
    sh.(sessionHeap := sh.sessionHeap + [SessionRecord(sh.nextSession, false, None, false)],
        sessions := sh.sessions[sh.nextSession := |sh.sessionHeap|],
        nextSession := Increment(sh.nextSession))
  }

  predicate ClosedBy(sh: Shared, s: u64, u: Tid)
    requires s in sh.sessions
  {
    sh.sessions[s] < |sh.sessionHeap| && sh.sessionHeap[sh.sessions[s]].closer == Some(u)
  }

  /** Tables of records and jobs agree, and every session `u` could rely on is as it was. */
  lemma SessionsMoved(a: Shared, b: Shared, u: Tid, h: Handler)
    requires |a.owner| == |a.heap| && HandlerOk(a, u, h)
    requires a.heap == b.heap && a.owner == b.owner && a.jobs == b.jobs && a.registry == b.registry
    requires forall s :: s in a.sessions && ClosedBy(a, s, u) ==>
               && s in b.sessions && b.sessions[s] == a.sessions[s] && b.sessions[s] < |b.sessionHeap|
               && b.sessionHeap[b.sessions[s]] == a.sessionHeap[a.sessions[s]]
    requires !h.SubmitAdmit?
    ensures HandlerOk(b, u, h)
  {
    if h.CloseSettle? {
      SameRecordsClose(a, b, u, h.call, h.phase);
    }
  }

  predicate ClosedByOther(s: SessionRecord, t: Tid) {
    s.closer.Some? && s.closer != Some(t)
  }

  ghost predicate KeepsClosings(a: Shared, b: Shared, t: Tid) {
    forall s :: (s in a.sessions && a.sessions[s] < |a.sessionHeap|
                 && ClosedByOther(a.sessionHeap[a.sessions[s]], t)) ==>
        && s in b.sessions && b.sessions[s] == a.sessions[s] && b.sessions[s] < |b.sessionHeap|
        && b.sessionHeap[b.sessions[s]] == a.sessionHeap[a.sessions[s]]
  }

  /** A lifecycle section of `t` that changes sessions, but none that another handler is closing. */
  lemma SessionStepKeeps(c: Config, st: State, st': State, t: Tid)
    requires Invariant(c, st) && st.sh.lifecycle == Some(t) && st'.sh.lifecycle == None
    requires st.sh.heap == st'.sh.heap && st.sh.owner == st'.sh.owner && st.sh.jobs == st'.sh.jobs
    requires st.sh.registry == st'.sh.registry && SharedOk(st'.sh)
    requires st'.workers == st.workers && OnlyHandler(st.handlers, st'.handlers, t)
    requires t in st'.handlers ==> HandlerOk(st'.sh, t, st'.handlers[t]) && !st'.handlers[t].CloseSettle?
    requires KeepsUnsettled(st.handlers, st'.handlers, t) && KeepsClosings(st.sh, st'.sh, t)
    requires st'.sh.pending == st.sh.pending + Slots(st'.handlers, t) - Slots(st.handlers, t)
    requires |st'.sh.sessions| + st'.sh.pending <= c.maximumSessions
    ensures Invariant(c, st')
  {
    hide RecordsOk, JobIdsOk, SessionsOk, QueueOk, JobsOk, HistoryOk, WorkersOk, OwnersOk;
    Counted(st.handlers, st'.handlers, t);
    forall u | u in st'.handlers ensures HandlerOk(st'.sh, u, st'.handlers[u]) {
      if u != t {
        SessionsMoved(st.sh, st'.sh, u, st.handlers[u]);
      }
    }
    LocalOwners(st, st', t);
    LocalWorkers(st, st');
  }

  lemma AnswerSessionKeeps(c: Config, st: State, sh: Shared, t: Tid)
    requires Invariant(c, st) && t in st.handlers && st.sh.lifecycle == Some(t) && sh.lifecycle == None
    requires st.sh.heap == sh.heap && st.sh.owner == sh.owner && st.sh.jobs == sh.jobs && st.sh.registry == sh.registry
    requires SharedOk(sh) && KeepsClosings(st.sh, sh, t)
    requires st.handlers[t].CloseSettle? ==>
              Done(st.handlers[t].call, st.handlers[t].phase) == |st.handlers[t].call.queued|
    requires sh.pending == st.sh.pending - Slots(st.handlers, t)
    requires |sh.sessions| + sh.pending <= c.maximumSessions
    ensures Invariant(c, Answer(st.(sh := sh), t))
  {
    hide SharedOk, HandlersOk, WorkersOk, OwnersOk, KeepsClosings;
    SessionStepKeeps(c, st, Answer(st.(sh := sh), t), t);
  }

  lemma Pending(c: Config, st: State, t: Tid)
    requires CapacityOk(c, st) && Slots(st.handlers, t) == 1
    ensures st.sh.pending > 0
  {
    assert t in Reservations(st.handlers);
  }

  lemma PublishKeeps(c: Config, st: State, t: Tid, throws: bool)
    requires Invariant(c, st) && At(st, t, CreatePublish) && st.sh.lifecycle == Some(t)
    ensures Invariant(c, DoPublish(st, t, throws))
  {
    hide RecordsOk, JobIdsOk, SessionsOk, QueueOk, JobsOk, HistoryOk, WorkersOk, OwnersOk, HandlersOk, Reservations;
    var sh := Unlock(st.sh);
    Pending(c, st, t);
    if sh.nextSession == 0 || throws {
      GotoKeeps(c, st, sh, t, CreateRollback);
    } else {
      var reserved := sh.(pending := sh.pending - 1);
      TablesOk(st.sh, reserved);
      NewSessionShared(reserved);
      AnswerSessionKeeps(c, st, WithNewSession(reserved), t);
    }
  }

  // ----- Closing a session -----

  /** A session record changes hands without changing its identity or losing its jobs. */
  lemma FlagShared(sh: Shared, sref: Ref, s: SessionRecord)
    requires SharedOk(sh) && sref < |sh.sessionHeap| && s.id == sh.sessionHeap[sref].id
    requires s.detached == sh.sessionHeap[sref].detached && SessionOk(s, sh.nextSession)
    ensures SharedOk(sh.(sessionHeap := sh.sessionHeap[sref := s]))
  {
    var b := sh.(sessionHeap := sh.sessionHeap[sref := s]);
    forall r | 0 <= r < |b.heap| ensures Reachable(b, r) {
      assert Reachable(sh, r);
    }
    forall r | r in b.queue ensures Live(b, b.heap[r].session) {
      assert Live(sh, sh.heap[r].session);
    }
    forall id | id in b.jobs ensures Retains(b, id, b.jobs[id]) {
      assert Retains(sh, id, sh.jobs[id]);
    }
  }

  lemma MarkKeeps(c: Config, st: State, t: Tid, id: Messages.Id)
    requires Invariant(c, st) && At(st, t, CloseMark(id)) && st.sh.lifecycle == Some(t)
    ensures Invariant(c, DoMark(c, st, t, id))
  {
    hide RecordsOk, JobIdsOk, QueueOk, JobsOk, HistoryOk, WorkersOk, OwnersOk, HandlersOk, Reservations;
    var sh := Unlock(st.sh);
    TablesOk(st.sh, sh);
    if !OpenSession(c, sh, id) {
      AnswerKeeps(c, st, sh, t);
    } else {
      var sref := sh.sessions[id.value];
      assert SessionOk(sh.sessionHeap[sref], sh.nextSession);
      FlagShared(sh, sref, sh.sessionHeap[sref].(closing := true, closer := Some(t)));
      SessionStepKeeps(c, st, DoMark(c, st, t, id), t);
    }
  }

  lemma ReopenKeeps(c: Config, st: State, t: Tid, session: u64, sref: Ref)
    requires Invariant(c, st) && At(st, t, CloseReopen(session, sref)) && st.sh.lifecycle == Some(t)
    requires sref < |st.sh.sessionHeap|
    ensures Invariant(c, DoReopen(st, t, session, sref))
  {
    hide RecordsOk, JobIdsOk, QueueOk, JobsOk, HistoryOk, WorkersOk, OwnersOk, Reservations;
    var sh := Unlock(st.sh);
    TablesOk(st.sh, sh);
    assert HandlerOk(st.sh, t, CloseReopen(session, sref));
    assert SessionOk(sh.sessionHeap[sref], sh.nextSession);
    var s := sh.sessionHeap[sref].(closing := false, closer := None);
    FlagShared(sh, sref, s);
    AnswerSessionKeeps(c, st, sh.(sessionHeap := sh.sessionHeap[sref := s]), t);
  }

  /** Removing a session none of whose records is unfinished, and whose jobs were taken. */
  lemma EraseSessionShared(sh: Shared, session: u64)
    requires SharedOk(sh) && session in sh.sessions && !Live(sh, session)
    requires forall r :: 0 <= r < |sh.heap| && sh.heap[r].session == session ==> Terminal(sh.heap[r].state)
    ensures SharedOk(sh.(sessions := sh.sessions - {session}))
  {
    var b := sh.(sessions := sh.sessions - {session});
    forall s | Live(sh, s) ensures Live(b, s) {}
    forall r | 0 <= r < |b.heap| ensures Reachable(b, r) {
      assert Reachable(sh, r);
    }
    forall r | r in b.queue ensures Live(b, b.heap[r].session) {
      assert Live(sh, sh.heap[r].session);
    }
    forall id | id in b.jobs ensures Retains(b, id, b.jobs[id]) {
      assert Retains(sh, id, sh.jobs[id]);
    }
  }

  /** A close that reached its end has brought every record of the session to an end. */
  lemma CloseIsComplete(sh: Shared, t: Tid, call: CloseCall, r: Ref)
    requires |sh.owner| == |sh.heap| && HandlerOk(sh, t, CloseSettle(call, Finish))
    requires OfSession(sh, r, call.session)
    ensures Terminal(sh.heap[r].state)
  {
    if r in call.queued {
      var i :| 0 <= i < |call.queued| && call.queued[i] == r;
      assert QueuedAt(sh, t, call.queued[i], call.session, i < Done(call, Finish));
    } else if r in call.running {
      var i :| 0 <= i < |call.running| && call.running[i] == r;
      assert RunningAt(sh, call.running[i], call.session, i < CancelledUpTo(call, Finish),
                       i < AwaitedUpTo(call, Finish));
    }
  }

  lemma FinalizeShared(sh: Shared, t: Tid, call: CloseCall)
    requires SharedOk(sh) && HandlerOk(sh, t, CloseSettle(call, Finish))
    ensures SharedOk(sh.(sessions := sh.sessions - {call.session}))
    ensures sh.sessionHeap[call.sref].closing
  {
    hide RecordsOk, JobIdsOk, QueueOk, JobsOk, HistoryOk, Covers, QueuedOk, RunningOk;
    assert SessionOk(sh.sessionHeap[call.sref], sh.nextSession);
    forall r | 0 <= r < |sh.heap| && sh.heap[r].session == call.session ensures Terminal(sh.heap[r].state) {
      CloseIsComplete(sh, t, call, r);
    }
    EraseSessionShared(sh, call.session);
  }

  lemma FinalizeKeeps(c: Config, st: State, t: Tid, call: CloseCall)
    requires Invariant(c, st) && At(st, t, CloseSettle(call, Finish)) && st.sh.lifecycle == Some(t)
    requires call.sref < |st.sh.sessionHeap|
    ensures Invariant(c, DoFinalize(st, t, call))
  {
    hide RecordsOk, JobIdsOk, SessionsOk, QueueOk, JobsOk, HistoryOk, WorkersOk, OwnersOk, Covers, QueuedOk, RunningOk,
         Reservations;
    assert HandlerOk(st.sh, t, CloseSettle(call, Finish));
    FinalizeShared(st.sh, t, call);
    var erased := st.sh.(sessions := st.sh.sessions - {call.session});
    TablesOk(erased, Unlock(erased));
    assert erased.sessions.Keys == st.sh.sessions.Keys - {call.session};
    AnswerSessionKeeps(c, st, Unlock(erased), t);
  }

  // ----- Taking the jobs of a session -----

  lemma {:induction false} OwnQueueIs(sh: Shared, queue: seq<Ref>, session: u64)
    ensures forall r :: r in OwnQueue(sh, queue, session) <==> r in queue && OfSession(sh, r, session)
    ensures forall r :: r in OtherQueue(sh, queue, session) <==> r in queue && !OfSession(sh, r, session)
  {
    if queue != [] {
      OwnQueueIs(sh, queue[1..], session);
      assert queue == [queue[0]] + queue[1..];
    }
  }

  lemma IncreasingTail(s: seq<nat>)
    requires Increasing(s) && s != []
    ensures Increasing(s[1..]) && forall x :: x in s[1..] ==> s[0] < x
  {
  }

  lemma IncreasingCons(x: nat, s: seq<nat>)
    requires Increasing(s) && forall y :: y in s ==> x < y
    ensures Increasing([x] + s)
  {
    forall i, j | 0 <= i < j < |s| + 1 ensures ([x] + s)[i] < ([x] + s)[j] {
      assert ([x] + s)[j] == s[j - 1] && s[j - 1] in s;
    }
  }

  lemma {:induction false} OwnQueueIncreases(sh: Shared, queue: seq<Ref>, session: u64)
    requires Increasing(queue)
    ensures Increasing(OwnQueue(sh, queue, session)) && Increasing(OtherQueue(sh, queue, session))
  {
    if queue != [] {
      IncreasingTail(queue);
      OwnQueueIncreases(sh, queue[1..], session);
      OwnQueueIs(sh, queue[1..], session);
      if OfSession(sh, queue[0], session) {
        IncreasingCons(queue[0], OwnQueue(sh, queue[1..], session));
        assert [] + OtherQueue(sh, queue[1..], session) == OtherQueue(sh, queue[1..], session);
      } else {
        IncreasingCons(queue[0], OtherQueue(sh, queue[1..], session));
        assert [] + OwnQueue(sh, queue[1..], session) == OwnQueue(sh, queue[1..], session);
      }
    }
  }

  function Taken(sh: Shared, t: Tid, session: u64, sref: Ref): Shared
    requires sref < |sh.sessionHeap|
  {
    sh.(queue := OtherQueue(sh, sh.queue, session),
        jobs := OtherJobs(sh, sh.jobs, session),
        owner := SetOwner(sh.owner, OwnQueue(sh, sh.queue, session), OfCloser(t)),
        removed := sh.removed + (set r | r in OwnQueue(sh, sh.queue, session)),
        sessionHeap := sh.sessionHeap[sref := sh.sessionHeap[sref].(detached := true)])
  }

  /** Only queued records of the session change owner. */
  lemma TakenOwner(sh: Shared, t: Tid, session: u64, sref: Ref, r: Ref)
    requires |sh.owner| == |sh.heap| && QueueOk(sh) && sref < |sh.sessionHeap| && r < |sh.heap|
    ensures Taken(sh, t, session, sref).owner[r]
         == if sh.owner[r].InQueue? && sh.heap[r].session == session then OfCloser(t) else sh.owner[r]
  {
    OwnQueueIs(sh, sh.queue, session);
  }

  lemma TakenLive(sh: Shared, t: Tid, session: u64, sref: Ref, s: u64)
    requires SharedOk(sh) && ClosingBy(sh, t, session, sref, false)
    ensures Live(Taken(sh, t, session, sref), s) <==> Live(sh, s) && s != session
  {
    hide RecordsOk, JobIdsOk, QueueOk, JobsOk, HistoryOk, OwnQueue, OtherQueue;
  }

  lemma TakenQueue(sh: Shared, t: Tid, session: u64, sref: Ref)
    requires SharedOk(sh) && ClosingBy(sh, t, session, sref, false)
    ensures var b := Taken(sh, t, session, sref); QueueOk(b) && HistoryOk(b)
  {
    hide RecordsOk, JobIdsOk, SessionsOk, JobsOk;
    var b := Taken(sh, t, session, sref);
    OwnQueueIs(sh, sh.queue, session);
    OwnQueueIncreases(sh, sh.queue, session);
    forall r | r in b.queue ensures r < |b.heap| && b.owner[r].InQueue? && Live(b, b.heap[r].session) {
      TakenOwner(sh, t, session, sref, r);
      TakenLive(sh, t, session, sref, sh.heap[r].session);
    }
    forall r | 0 <= r < |b.heap| ensures b.owner[r].InQueue? ==> r in b.queue {
      TakenOwner(sh, t, session, sref, r);
    }
    forall r | 0 <= r < |b.heap| ensures b.owner[r].InQueue? || r in b.popped || r in b.removed {
      TakenOwner(sh, t, session, sref, r);
    }
  }

  lemma TakenShared(sh: Shared, t: Tid, session: u64, sref: Ref)
    requires SharedOk(sh) && ClosingBy(sh, t, session, sref, false)
    ensures SharedOk(Taken(sh, t, session, sref))
  {
    hide JobIdsOk, QueueOk, HistoryOk, OwnQueue, OtherQueue;
    var b := Taken(sh, t, session, sref);
    TakenQueue(sh, t, session, sref);
    TakenIds(sh, t, session, sref);
    forall r | 0 <= r < |b.heap| ensures Reachable(b, r) && Coherent(b.heap[r]) && Owned(b.heap[r], b.owner[r]) {
      assert Reachable(sh, r);
      TakenOwner(sh, t, session, sref, r);
      TakenLive(sh, t, session, sref, sh.heap[r].session);
    }
    forall id | id in b.jobs ensures Retains(b, id, b.jobs[id]) {
      assert Retains(sh, id, sh.jobs[id]);
      TakenOwner(sh, t, session, sref, sh.jobs[id]);
      TakenLive(sh, t, session, sref, sh.heap[sh.jobs[id]].session);
    }
  }

  lemma TakenIds(sh: Shared, t: Tid, session: u64, sref: Ref)
    requires JobIdsOk(sh) && SessionsOk(sh) && ClosingBy(sh, t, session, sref, false)
    ensures JobIdsOk(Taken(sh, t, session, sref)) && SessionsOk(Taken(sh, t, session, sref))
  {
  }

  lemma TakenQueued(sh: Shared, t: Tid, session: u64, sref: Ref, call: CloseCall)
    requires SharedOk(sh) && sref < |sh.sessionHeap| && call.session == session
    requires call.queued == OwnQueue(sh, sh.queue, session)
    ensures QueuedOk(Taken(sh, t, session, sref), t, call, Token(0))
  {
    hide JobIdsOk, SessionsOk, HistoryOk, JobsOk, RecordsOk, OtherQueue, OwnQueue;
    OwnQueueIs(sh, sh.queue, session);
    OwnQueueIncreases(sh, sh.queue, session);
    forall i | 0 <= i < |call.queued| ensures QueuedAt(Taken(sh, t, session, sref), t, call.queued[i], session, false) {
      assert call.queued[i] in call.queued;
      TakenOwner(sh, t, session, sref, call.queued[i]);
    }
  }

  lemma TakenRunning(sh: Shared, t: Tid, session: u64, sref: Ref, call: CloseCall)
    requires SharedOk(sh) && sref < |sh.sessionHeap| && call.session == session
    requires LeftInMap(sh, session, OwnQueue(sh, sh.queue, session), call.running)
    ensures RunningOk(Taken(sh, t, session, sref), call, Token(0))
  {
    hide JobIdsOk, SessionsOk, HistoryOk, RecordsOk, OtherQueue, OwnQueue;
    OwnQueueIs(sh, sh.queue, session);
    forall i | 0 <= i < |call.running|
      ensures RunningAt(Taken(sh, t, session, sref), call.running[i], session, false, false)
    {
      var r := call.running[i];
      assert r in call.running;
      assert Retains(sh, sh.heap[r].id, r);
      TakenOwner(sh, t, session, sref, r);
    }
  }

  /** The close now holds every unfinished record of its session. */
  lemma TakenCall(sh: Shared, t: Tid, session: u64, sref: Ref, running: seq<Ref>)
    requires SharedOk(sh) && ClosingBy(sh, t, session, sref, false)
    requires LeftInMap(sh, session, OwnQueue(sh, sh.queue, session), running)
    ensures HandlerOk(Taken(sh, t, session, sref), t,
                      CloseSettle(CloseCall(session, sref, OwnQueue(sh, sh.queue, session), running), Token(0)))
  {
    hide JobIdsOk, SessionsOk, HistoryOk, JobsOk, RecordsOk, QueueOk, OtherQueue, OwnQueue, QueuedOk, RunningOk;
    var b := Taken(sh, t, session, sref);
    var call := CloseCall(session, sref, OwnQueue(sh, sh.queue, session), running);
    TakenQueued(sh, t, session, sref, call);
    TakenRunning(sh, t, session, sref, call);
    forall r | 0 <= r < |b.heap| && b.heap[r].session == session && !Terminal(b.heap[r].state)
      ensures r in call.queued || r in call.running
    {
      assert Reachable(sh, r);
      assert OfSession(sh, sh.jobs[sh.heap[r].id], session);
    }
  }

  lemma TakenHandler(sh: Shared, t: Tid, session: u64, sref: Ref, u: Tid, h: Handler)
    requires SharedOk(sh) && ClosingBy(sh, t, session, sref, false) && sh.registry.None?
    requires u != t && HandlerOk(sh, u, h)
    ensures HandlerOk(Taken(sh, t, session, sref), u, h)
  {
    hide JobIdsOk, SessionsOk, HistoryOk, JobsOk, RecordsOk, OwnQueue, OtherQueue;
    var b := Taken(sh, t, session, sref);
    if h.CloseSettle? {
      var call, phase := h.call, h.phase;
      forall i | 0 <= i < |call.queued| ensures QueuedAt(b, u, call.queued[i], call.session, i < Done(call, phase)) {
        assert QueuedAt(sh, u, call.queued[i], call.session, i < Done(call, phase));
        TakenOwner(sh, t, session, sref, call.queued[i]);
      }
      forall i | 0 <= i < |call.running|
        ensures RunningAt(b, call.running[i], call.session, i < CancelledUpTo(call, phase),
                          i < AwaitedUpTo(call, phase))
      {
        assert RunningAt(sh, call.running[i], call.session, i < CancelledUpTo(call, phase),
                         i < AwaitedUpTo(call, phase));
        TakenOwner(sh, t, session, sref, call.running[i]);
      }
    }
  }

  lemma TakenRest(c: Config, st: State, t: Tid, session: u64, sref: Ref, call: CloseCall)
    requires Invariant(c, st) && ClosingBy(st.sh, t, session, sref, false) && At(st, t, CloseSnapshot(session, sref))
    requires call.queued == OwnQueue(st.sh, st.sh.queue, session)
    ensures var st' := Goto(st.(sh := Taken(st.sh, t, session, sref)), t, CloseSettle(call, Token(0)));
            WorkersOk(st'.sh, st'.workers) && OwnersOk(st') && LocksOk(st') && CapacityOk(c, st')
  {
    hide JobIdsOk, SessionsOk, HistoryOk, JobsOk, RecordsOk, OwnQueue, OtherQueue, HandlersOk;
    var sh := st.sh;
    var b := Taken(sh, t, session, sref);
    var st' := Goto(st.(sh := b), t, CloseSettle(call, Token(0)));
    forall w | 0 <= w < |st'.workers| ensures WorkerOk(b, w, st'.workers[w]) {
      assert WorkerOk(sh, w, st.workers[w]);
      if !st.workers[w].Idle? {
        TakenOwner(sh, t, session, sref, st.workers[w].ref);
      }
    }
    forall r | 0 <= r < |b.owner| ensures OwnerExists(st', r) {
      assert OwnerExists(st, r);
      TakenOwner(sh, t, session, sref, r);
      OwnQueueIs(sh, sh.queue, session);
      assert call.queued[0..] == call.queued;
    }
    Counted(st.handlers, st'.handlers, t);
    Fewer(b.jobs.Keys, sh.jobs.Keys);
  }

  lemma {:induction false} Fewer<T>(a: set<T>, b: set<T>)
    requires a <= b
    ensures |a| <= |b|
  {
    if a != {} {
      var x :| x in a;
      Fewer(a - {x}, b - {x});
    }
  }

  lemma TakeJobsKeeps(c: Config, st: State, t: Tid, session: u64, sref: Ref, running: seq<Ref>)
    requires Invariant(c, st) && At(st, t, CloseSnapshot(session, sref)) && st.sh.registry.None?
    requires LeftInMap(st.sh, session, OwnQueue(st.sh, st.sh.queue, session), running) && sref < |st.sh.sessionHeap|
    ensures Invariant(c, DoTakeJobs(st, t, session, sref, running))
  {
    hide RecordsOk, JobIdsOk, SessionsOk, HistoryOk, JobsOk, QueueOk, WorkersOk, OwnersOk, CapacityOk, OwnQueue,
         OtherQueue;
    var st' := DoTakeJobs(st, t, session, sref, running);
    assert HandlerOk(st.sh, t, st.handlers[t]);
    TakenShared(st.sh, t, session, sref);
    TakenCall(st.sh, t, session, sref, running);
    TakenRest(c, st, t, session, sref, st'.handlers[t].call);
    assert st'.sh == Taken(st.sh, t, session, sref);
    forall u | u in st'.handlers ensures HandlerOk(st'.sh, u, st'.handlers[u]) {
      if u != t {
        TakenHandler(st.sh, t, session, sref, u, st.handlers[u]);
      }
    }
  }

  lemma TakeJobsFailsKeeps(c: Config, st: State, t: Tid, session: u64, sref: Ref)
    requires Invariant(c, st) && At(st, t, CloseSnapshot(session, sref))
    ensures Invariant(c, Goto(st, t, CloseReopen(session, sref)))
  {
    hide RecordsOk, JobIdsOk, SessionsOk, QueueOk, JobsOk, HistoryOk, WorkersOk, OwnersOk;
    assert HandlerOk(st.sh, t, st.handlers[t]);
    GotoKeeps(c, st, st.sh, t, CloseReopen(session, sref));
  }

  // ----- Settling the taken records -----

  /** A close replaces one record and moves on. */
  lemma SettleKeeps(c: Config, st: State, t: Tid, call: CloseCall, r: Ref, rec: Record, o: Owner, phase: Phase,
                    next: Phase)
    requires Invariant(c, st) && At(st, t, CloseSettle(call, phase)) && ValidRef(st.sh, r)
    requires Continues(st.sh, r, rec, o)
    requires st.sh.owner[r].OfWorker? ==> o == st.sh.owner[r] && rec.state == st.sh.heap[r].state
    requires o == st.sh.owner[r] || st.sh.owner[r] == OfCloser(t)
    requires HandlerOk(Put(st.sh, r, rec, o), t, CloseSettle(call, next))
    requires !phase.Finish?
    requires Done(call, next) == Done(call, phase) + (if o == st.sh.owner[r] then 0 else 1) <= |call.queued|
    requires o != st.sh.owner[r] ==> r == call.queued[Done(call, phase)]
    ensures Invariant(c, DoSettle(st, t, call, r, rec, o, next))
  {
    hide RecordsOk, JobIdsOk, SessionsOk, HistoryOk, JobsOk, QueueOk, WorkersOk, OwnersOk, HandlerOk;
    var st' := DoSettle(st, t, call, r, rec, o, next);
    PutShared(st.sh, r, rec, o);
    PutWorkers(st.sh, r, rec, o, st.workers);
    Counted(st.handlers, st'.handlers, t);
    forall u | u in st'.handlers ensures HandlerOk(st'.sh, u, st'.handlers[u]) {
      if u != t {
        PutHandler(st.sh, r, rec, o, u, st.handlers[u]);
      }
    }
    SettleOwners(st, t, call, r, rec, o, phase, next);
  }

  lemma SettleOwners(st: State, t: Tid, call: CloseCall, r: Ref, rec: Record, o: Owner, phase: Phase, next: Phase)
    requires |st.sh.owner| == |st.sh.heap| && OwnersOk(st) && At(st, t, CloseSettle(call, phase)) && ValidRef(st.sh, r)
    requires o == st.sh.owner[r] || (o.NoOne? && st.sh.owner[r] == OfCloser(t))
    requires Done(call, next) == Done(call, phase) + (if o == st.sh.owner[r] then 0 else 1) <= |call.queued|
    requires o != st.sh.owner[r] ==> r == call.queued[Done(call, phase)]
    ensures OwnersOk(DoSettle(st, t, call, r, rec, o, next))
  {
    var st' := DoSettle(st, t, call, r, rec, o, next);
    forall q | 0 <= q < |st'.sh.owner| ensures OwnerExists(st', q) {
      assert OwnerExists(st, q);
      var d, e := Done(call, phase), Done(call, next);
      if st'.sh.owner[q] == OfCloser(t) && e == d + 1 {
        assert call.queued[d..] == [call.queued[d]] + call.queued[e..];
      }
    }
  }

  lemma CancelTokenKeeps(c: Config, st: State, t: Tid, call: CloseCall, i: nat)
    requires Invariant(c, st) && At(st, t, CloseSettle(call, Token(i))) && i < |call.queued|
    requires ValidRef(st.sh, call.queued[i])
    ensures var r := call.queued[i];
            Invariant(c, DoSettle(st, t, call, r, st.sh.heap[r].(cancelled := true), st.sh.owner[r], Settle(i)))
  {
    hide JobIdsOk, SessionsOk, HistoryOk, JobsOk, QueueOk, WorkersOk, OwnersOk, CapacityOk;
    var r := call.queued[i];
    var rec := st.sh.heap[r].(cancelled := true);
    assert HandlerOk(st.sh, t, CloseSettle(call, Token(i)));
    assert QueuedAt(st.sh, t, call.queued[i], call.session, i < Done(call, Token(i)));
    PutClose(st.sh, r, rec, st.sh.owner[r], t, call, Token(i));
    SettleKeeps(c, st, t, call, r, rec, st.sh.owner[r], Token(i), Settle(i));
  }

  lemma SettledHandler(sh: Shared, t: Tid, call: CloseCall, i: nat)
    requires |sh.owner| == |sh.heap| && RecordsOk(sh) && HandlerOk(sh, t, CloseSettle(call, Settle(i)))
    requires ValidRef(sh, call.queued[i])
    ensures HandlerOk(Put(sh, call.queued[i], AsCancelled(sh.heap[call.queued[i]]), NoOne), t,
                      CloseSettle(call, Token(i + 1)))
  {
    var b := Put(sh, call.queued[i], AsCancelled(sh.heap[call.queued[i]]), NoOne);
    forall j | 0 <= j < |call.queued| ensures QueuedAt(b, t, call.queued[j], call.session, j < i + 1) {
      assert QueuedAt(sh, t, call.queued[j], call.session, j < i);
      assert j > i ==> call.queued[j] > call.queued[i];
    }
    forall j | 0 <= j < |call.running| ensures RunningAt(b, call.running[j], call.session, false, false) {
      assert RunningAt(sh, call.running[j], call.session, false, false);
    }
  }

  lemma SettleQueuedKeeps(c: Config, st: State, t: Tid, call: CloseCall, i: nat)
    requires Invariant(c, st) && At(st, t, CloseSettle(call, Settle(i))) && i < |call.queued|
    requires ValidRef(st.sh, call.queued[i])
    ensures Invariant(c,
                      DoSettle(st, t, call, call.queued[i], AsCancelled(st.sh.heap[call.queued[i]]), NoOne,
                               Token(i + 1)))
  {
    hide JobIdsOk, SessionsOk, HistoryOk, JobsOk, QueueOk, WorkersOk, OwnersOk, CapacityOk;
    assert HandlerOk(st.sh, t, CloseSettle(call, Settle(i)));
    assert QueuedAt(st.sh, t, call.queued[i], call.session, i < Done(call, Settle(i)));
    SettledHandler(st.sh, t, call, i);
    SettleKeeps(c, st, t, call, call.queued[i], AsCancelled(st.sh.heap[call.queued[i]]), NoOne, Settle(i),
                Token(i + 1));
  }

  lemma CancelRunningKeeps(c: Config, st: State, t: Tid, call: CloseCall, i: nat)
    requires Invariant(c, st) && At(st, t, CloseSettle(call, Cancel(i))) && i < |call.running|
    requires ValidRef(st.sh, call.running[i])
    ensures var r := call.running[i];
            Invariant(c, DoSettle(st, t, call, r, WithCancelRequested(st.sh.heap[r]), st.sh.owner[r], Cancel(i + 1)))
  {
    hide JobIdsOk, SessionsOk, HistoryOk, JobsOk, QueueOk, WorkersOk, OwnersOk, CapacityOk;
    var r := call.running[i];
    var rec := WithCancelRequested(st.sh.heap[r]);
    assert HandlerOk(st.sh, t, CloseSettle(call, Cancel(i)));
    PutClose(st.sh, r, rec, st.sh.owner[r], t, call, Cancel(i));
    AskedHandler(Put(st.sh, r, rec, st.sh.owner[r]), t, call, i);
    SettleKeeps(c, st, t, call, r, rec, st.sh.owner[r], Cancel(i), Cancel(i + 1));
  }

  lemma AskedHandler(sh: Shared, t: Tid, call: CloseCall, i: nat)
    requires |sh.owner| == |sh.heap| && HandlerOk(sh, t, CloseSettle(call, Cancel(i))) && i < |call.running|
    requires IsCancelled(sh, call.running[i])
               || (call.running[i] < |sh.heap| && Terminal(sh.heap[call.running[i]].state))
    ensures HandlerOk(sh, t, CloseSettle(call, Cancel(i + 1)))
  {
    forall j | 0 <= j < |call.running| ensures RunningAt(sh, call.running[j], call.session, j < i + 1, false) {
      assert RunningAt(sh, call.running[j], call.session, j < i, false);
    }
    forall j | 0 <= j < |call.queued| ensures QueuedAt(sh, t, call.queued[j], call.session, true) {
      assert QueuedAt(sh, t, call.queued[j], call.session, j < Done(call, Cancel(i)));
    }
  }

  lemma AwaitKeeps(c: Config, st: State, t: Tid, call: CloseCall, i: nat)
    requires Invariant(c, st) && At(st, t, CloseSettle(call, Await(i))) && i < |call.running|
    requires ValidRef(st.sh, call.running[i]) && Terminal(st.sh.heap[call.running[i]].state)
    ensures Invariant(c, Goto(st, t, CloseSettle(call, Await(i + 1))))
  {
    hide RecordsOk, JobIdsOk, SessionsOk, HistoryOk, JobsOk, QueueOk, WorkersOk, OwnersOk;
    assert HandlerOk(st.sh, t, CloseSettle(call, Await(i)));
    AwaitedHandler(st.sh, t, call, i);
    Counted(st.handlers, Goto(st, t, CloseSettle(call, Await(i + 1))).handlers, t);
    Local(c, st, Goto(st, t, CloseSettle(call, Await(i + 1))), t);
  }

  lemma AwaitedHandler(sh: Shared, t: Tid, call: CloseCall, i: nat)
    requires |sh.owner| == |sh.heap| && HandlerOk(sh, t, CloseSettle(call, Await(i))) && i < |call.running|
    requires call.running[i] < |sh.heap| && Terminal(sh.heap[call.running[i]].state)
    ensures HandlerOk(sh, t, CloseSettle(call, Await(i + 1)))
  {
    forall j | 0 <= j < |call.running| ensures RunningAt(sh, call.running[j], call.session, true, j < i + 1) {
      assert RunningAt(sh, call.running[j], call.session, j < CancelledUpTo(call, Await(i)), j < i);
    }
    forall j | 0 <= j < |call.queued| ensures QueuedAt(sh, t, call.queued[j], call.session, true) {
      assert QueuedAt(sh, t, call.queued[j], call.session, j < Done(call, Await(i)));
    }
  }

  predicate PhaseEnds(call: CloseCall, phase: Phase) {
    match phase
    case Token(i) => i == |call.queued|
    case Cancel(i) => i == |call.running|
    case Await(i) => i == |call.running|
    case _ => false
  }

  lemma NextPhaseKeeps(c: Config, st: State, t: Tid, call: CloseCall, phase: Phase)
    requires Invariant(c, st) && At(st, t, CloseSettle(call, phase)) && PhaseEnds(call, phase)
    ensures Invariant(c, Goto(st, t, CloseSettle(call, AfterPhase(phase))))
  {
    hide RecordsOk, JobIdsOk, SessionsOk, HistoryOk, JobsOk, QueueOk, WorkersOk, OwnersOk;
    assert HandlerOk(st.sh, t, CloseSettle(call, phase));
    NextPhaseHandler(st.sh, t, call, phase);
    Counted(st.handlers, Goto(st, t, CloseSettle(call, AfterPhase(phase))).handlers, t);
    Local(c, st, Goto(st, t, CloseSettle(call, AfterPhase(phase))), t);
  }

  lemma NextPhaseHandler(sh: Shared, t: Tid, call: CloseCall, phase: Phase)
    requires |sh.owner| == |sh.heap| && HandlerOk(sh, t, CloseSettle(call, phase)) && PhaseEnds(call, phase)
    ensures HandlerOk(sh, t, CloseSettle(call, AfterPhase(phase)))
  {
    var next := AfterPhase(phase);
    forall j | 0 <= j < |call.running|
      ensures RunningAt(sh, call.running[j], call.session, j < CancelledUpTo(call, next), j < AwaitedUpTo(call, next))
    {
      assert RunningAt(sh, call.running[j], call.session, j < CancelledUpTo(call, phase), j < AwaitedUpTo(call, phase));
    }
    forall j | 0 <= j < |call.queued| ensures QueuedAt(sh, t, call.queued[j], call.session, j < Done(call, next)) {
      assert QueuedAt(sh, t, call.queued[j], call.session, j < Done(call, phase));
    }
  }
}
