/** Status snapshots, freedom from deadlock, and termination of a close. */
module MachineProgress {
  import opened Wire
  import opened Jobs
  import opened Machine
  import opened MachineInvariant
  import opened MachineSteps
  import opened MachineSafety
  import opened MachineTheorems
  import Messages

  // ----- What an observer is told -----

  /** No failure carries the category reserved for cancellation. */
  predicate Unforged(st: State) {
    && (forall r :: 0 <= r < |st.sh.heap| ==> !(st.sh.heap[r].state == Failed && st.sh.heap[r].outcome == CANCELLED))
    && (forall w :: 0 <= w < |st.workers| ==> !ReportsCancelled(st.workers[w]))
  }

  predicate ReportsCancelled(k: Worker) {
    k.Publishing? && k.publication == PublishFailure(CANCELLED)
  }

  /** The compiler, which has no token, reports that it was cancelled. */
  predicate CompilerForges(step: Step) {
    step.Compile? && step.failure == Some(CANCELLED)
  }

  lemma WorkerStepUnforged(c: Config, st: State, step: Step)
    requires Invariant(c, st) && WorkerStep(step) && WorkerGuard(st, step) && Unforged(st) && !CompilerForges(step)
    ensures Unforged(ApplyWorker(st, step))
  {
    hide RecordsOk, JobIdsOk, SessionsOk, QueueOk, JobsOk, HistoryOk, HandlersOk, OwnersOk, CapacityOk;
    assert WorkerOk(st.sh, step.w, st.workers[step.w]);
    assert !ReportsCancelled(st.workers[step.w]);
  }

  lemma HandlerStepUnforged(c: Config, st: State, step: Step)
    requires !step.Arrive? && !WorkerStep(step) && HandlerGuard(c, st, step) && Unforged(st)
    ensures Unforged(ApplyHandler(c, st, step))
  {
    hide LeftInMap, OpenSession, Retained, OwnQueue, OtherQueue, OtherJobs;
    if InSection(step) {
      hide DoSettle, DoFinalize, DoTakeJobs, DoAccess, DoFindForRelease, DoCheckTerminal, DoErase;
    } else if InClose(step) {
      hide DoAdmit, DoPublish, DoRollback, DoMark, DoReopen, DoCheckSession, DoEnqueue, DoAccess, DoFindForRelease,
           DoCheckTerminal, DoErase;
    } else {
      hide DoAdmit, DoPublish, DoRollback, DoMark, DoReopen, DoCheckSession, DoEnqueue, DoSettle, DoFinalize,
           DoTakeJobs;
    }
  }

  lemma {:induction false} RunUnforged(c: Config, st: State, steps: seq<Step>)
    requires Invariant(c, st) && Unforged(st) && Possible(c, st, steps)
    requires forall i :: 0 <= i < |steps| ==> !CompilerForges(steps[i])
    ensures Unforged(After(c, st, steps))
    decreases |steps|
  {
    hide Invariant, Unforged, HandlerGuard, WorkerGuard, ApplyHandler, ApplyWorker;
    if steps != [] {
      var step := steps[0];
      assert !CompilerForges(step);
      StepKeeps(c, st, step);
      if WorkerStep(step) {
        WorkerStepUnforged(c, st, step);
      } else if !step.Arrive? {
        HandlerStepUnforged(c, st, step);
      } else {
        ArriveUnforged(st, step.t, step.h);
      }
      RunUnforged(c, Apply(c, st, step), steps[1..]);
    }
  }

  lemma ArriveUnforged(st: State, t: Tid, h: Handler)
    requires Unforged(st)
    ensures Unforged(Goto(st, t, h))
  {
  }

  /** Every status snapshot of every run is one a client accepts, as long as the compiler never claims cancellation. */
  lemma SnapshotsAreValid(c: Config, workers: nat, steps: seq<Step>, r: Ref, message: Bytes)
    requires c.instance != 0 && Possible(c, Initial(workers), steps)
    requires forall i :: 0 <= i < |steps| ==> !CompilerForges(steps[i])
    requires r < |After(c, Initial(workers), steps).sh.heap|
    ensures Messages.ValidJobStatus(Snapshot(c.instance, After(c, Initial(workers), steps).sh.heap[r], message))
  {
    hide Possible, After;
    var st := After(c, Initial(workers), steps);
    InitialHolds(c, workers);
    RunKeeps(c, Initial(workers), steps);
    RunUnforged(c, Initial(workers), steps);
    SnapshotIsValid(c, st, r, message);
  }

  lemma SnapshotIsValid(c: Config, st: State, r: Ref, message: Bytes)
    requires Invariant(c, st) && Unforged(st) && c.instance != 0 && r < |st.sh.heap|
    ensures Messages.ValidJobStatus(Snapshot(c.instance, st.sh.heap[r], message))
  {
    hide SessionsOk, QueueOk, JobsOk, HistoryOk, HandlersOk, OwnersOk, CapacityOk, WorkersOk;
    assert Reachable(st.sh, r) && Coherent(st.sh.heap[r]);
    SessionIsIssued(c, st, r);
  }

  /** The session of a record is a real one. */
  lemma SessionIsIssued(c: Config, st: State, r: Ref)
    requires Invariant(c, st) && r < |st.sh.heap|
    ensures st.sh.heap[r].session != 0
  {
  }

  /** The one way to a snapshot that no client accepts: the compiler claims cancellation of a job nobody cancelled. */
  lemma PublicationIsValid(c: Config, st: State, w: nat, message: Bytes)
    requires Invariant(c, st) && c.instance != 0 && w < |st.workers| && st.workers[w].Publishing?
    ensures var r, p := st.workers[w].ref, st.workers[w].publication;
            && ValidRef(st.sh, r)
            && (Messages.ValidJobStatus(Snapshot(c.instance, Published(st.sh.heap[r], p), message))
                <==> !(p == PublishFailure(CANCELLED) && !st.sh.heap[r].cancelled))
  {
    hide SessionsOk, QueueOk, JobsOk, HistoryOk, HandlersOk, OwnersOk, CapacityOk;
    assert WorkerOk(st.sh, w, st.workers[w]);
    SessionIsIssued(c, st, st.workers[w].ref);
  }

  // ----- Somebody can always move -----

  /**
   * Locks are taken in order: who holds the registry lock neither holds nor wants the lifecycle lock; who settles waits
   * with neither.
   */
  lemma LocksAreOrdered(c: Config, st: State, t: Tid)
    requires Invariant(c, st) && t in st.handlers
    ensures st.sh.registry == Some(t) ==> st.sh.lifecycle != Some(t) && !NeedsLifecycle(st.handlers[t])
    ensures st.sh.lifecycle == Some(t) ==> st.sh.registry != Some(t) && NeedsLifecycle(st.handlers[t])
    ensures st.handlers[t].CloseSettle? && !st.handlers[t].phase.Finish? ==>
              st.sh.lifecycle != Some(t) && st.sh.registry != Some(t)
    ensures st.handlers[t].CreateBuild? || st.handlers[t].CloseSnapshot? ==>
              st.sh.lifecycle != Some(t) && st.sh.registry != Some(t)
  {
    hide SharedOk, HandlersOk, WorkersOk, OwnersOk, CapacityOk;
  }

  predicate Moves(c: Config, st: State, step: Step) {
    !step.Arrive? && Guard(c, st, step)
  }

  /** The steps a worker still has to take for its record. */
  function Stages(k: Worker): nat {
    match k
    case Idle => 0
    case Popped(_) => 6
    case Started(_) => 5
    case Compiling(_) => 4
    case Compiled(_) => 3
    case Executing(_) => 2
    case Publishing(_, _) => 1
  }

  /** A busy worker waits for nobody. */
  lemma WorkerMovesOn(c: Config, st: State, w: nat) returns (step: Step)
    requires Invariant(c, st) && w < |st.workers| && !st.workers[w].Idle?
    ensures Moves(c, st, step) && WorkerStep(step) && step.w == w
    ensures Stages(Apply(c, st, step).workers[w]) < Stages(st.workers[w])
  {
    hide RecordsOk, JobIdsOk, SessionsOk, QueueOk, JobsOk, HistoryOk, HandlersOk, OwnersOk, CapacityOk;
    assert WorkerOk(st.sh, w, st.workers[w]);
    match st.workers[w]
    case Popped(_) => step := Start(w);
    case Started(_) => step := CheckBeforeCompile(w);
    case Compiling(_) => step := Compile(w, None);
    case Compiled(_) => step := CheckBeforeExecute(w);
    case Executing(_) => step := Execute(w, Ok(0));
    case Publishing(_, _) => step := PublishOutcome(w);
  }

  /** The retained records of a session that were popped, by ascending id. */
  function LeftList(sh: Shared, session: u64, queued: seq<Ref>, n: nat): seq<Ref>
    requires n <= |sh.heap|
  {
    if n == 0 then []
    else LeftList(sh, session, queued, n - 1) +
         (if IsLeft(sh, session, queued, n - 1) then [n - 1] else [])
  }

  predicate IsLeft(sh: Shared, session: u64, queued: seq<Ref>, r: Ref) {
    r < |sh.heap| && r !in queued && sh.heap[r].session == session && sh.heap[r].id in sh.jobs
        && sh.jobs[sh.heap[r].id] == r
  }

  lemma {:induction false} LeftListIs(sh: Shared, session: u64, queued: seq<Ref>, n: nat)
    requires n <= |sh.heap| && JobIdsOk(sh)
    ensures var left := LeftList(sh, session, queued, n);
            && (forall r: nat :: r in left <==> r < n && IsLeft(sh, session, queued, r))
            && (forall i, j :: 0 <= i < j < |left| ==> IdBefore(sh, left[i], left[j]))
  {
    if n > 0 {
      var rest := LeftList(sh, session, queued, n - 1);
      var left := LeftList(sh, session, queued, n);
      LeftListIs(sh, session, queued, n - 1);
      forall i, j | 0 <= i < j < |left| ensures IdBefore(sh, left[i], left[j]) {
        assert i < |rest| && rest[i] in rest;
      }
    }
  }

  /** A close can always take its snapshot. */
  lemma SnapshotMovesOn(c: Config, st: State, t: Tid, session: u64, sref: Ref) returns (step: Step)
    requires Invariant(c, st) && At(st, t, CloseSnapshot(session, sref)) && st.sh.registry.None?
    ensures Moves(c, st, step) && step.TakeJobs? && step.t == t
  {
    hide RecordsOk, SessionsOk, QueueOk, HistoryOk, WorkersOk, OwnersOk, CapacityOk, OwnQueue;
    var sh := st.sh;
    var queued := OwnQueue(sh, sh.queue, session);
    var left := LeftList(sh, session, queued, |sh.heap|);
    assert HandlerOk(sh, t, st.handlers[t]);
    LeftListIs(sh, session, queued, |sh.heap|);
    forall id | id in sh.jobs && OfSession(sh, sh.jobs[id], session)
      ensures sh.jobs[id] in queued || sh.jobs[id] in left
    {
      assert Retains(sh, id, sh.jobs[id]);
    }
    step := TakeJobs(t, left);
  }

  /** What a close does next by itself. */
  function CloseStep(t: Tid, call: CloseCall, phase: Phase): Step {
    match phase
    case Token(i) => if i < |call.queued| then CancelToken(t) else NextPhase(t)
    case Settle(_) => SettleQueued(t)
    case Cancel(i) => if i < |call.running| then CancelRunning(t) else NextPhase(t)
    case Await(i) => if i < |call.running| then AwaitRunning(t) else NextPhase(t)
    case Finish => Finalize(t)
  }

  /** The records a close turns to next are there. */
  lemma CloseRefsAre(c: Config, st: State, t: Tid, call: CloseCall, phase: Phase)
    requires Invariant(c, st) && At(st, t, CloseSettle(call, phase))
    ensures (phase.Token? || phase.Settle?) && phase.i < |call.queued| ==> ValidRef(st.sh, call.queued[phase.i])
    ensures (phase.Cancel? || phase.Await?) && phase.i < |call.running| ==> ValidRef(st.sh, call.running[phase.i])
    ensures phase.Token? ==> phase.i <= |call.queued|
    ensures phase.Settle? ==> phase.i < |call.queued|
    ensures phase.Cancel? || phase.Await? ==> phase.i <= |call.running|
    ensures call.sref < |st.sh.sessionHeap|
  {
    hide RecordsOk, JobIdsOk, SessionsOk, QueueOk, JobsOk, HistoryOk, WorkersOk, OwnersOk, CapacityOk, Covers;
    assert HandlerOk(st.sh, t, st.handlers[t]);
    if (phase.Token? || phase.Settle?) && phase.i < |call.queued| {
      assert QueuedAt(st.sh, t, call.queued[phase.i], call.session, phase.i < Done(call, phase));
    }
    if (phase.Cancel? || phase.Await?) && phase.i < |call.running| {
      CloseRefs(c, st, t, call, phase, phase.i);
    }
  }

  /** A close that is not waiting for a worker can go on by itself. */
  lemma CloseMovesOn(c: Config, st: State, t: Tid, call: CloseCall, phase: Phase) returns (step: Step)
    requires Invariant(c, st) && At(st, t, CloseSettle(call, phase)) && (phase.Finish? ==> st.sh.lifecycle == Some(t))
    requires phase.Await? && phase.i < |call.running| && call.running[phase.i] < |st.sh.heap| ==>
               Terminal(st.sh.heap[call.running[phase.i]].state)
    ensures Moves(c, st, step) && !WorkerStep(step) && step.t == t && !step.AcquireLifecycle?
  {
    hide Invariant, LeftInMap, OwnQueue, OpenSession, Retained;
    CloseRefsAre(c, st, t, call, phase);
    step := CloseStep(t, call, phase);
  }

  /** The steps left in the critical sections that are now open. */
  function SectionWork(st: State): nat {
    (match st.sh.registry
     case None => 0
     case Some(t) => if t in st.handlers && st.handlers[t].ReleaseCheck? then 2 else 1) +
    (match st.sh.lifecycle
     case None => 0
     case Some(t) => if t in st.handlers && st.handlers[t].SubmitCheck? then 2 else 1)
  }

  /**
   * A lock that is held is on its way to being free: the registry holder waits for nobody, the lifecycle holder at most
   * for it.
   */
  lemma SectionsEnd(c: Config, st: State) returns (step: Step)
    requires Invariant(c, st) && (st.sh.registry.Some? || st.sh.lifecycle.Some?)
    ensures Moves(c, st, step) && !WorkerStep(step) && step.t in st.handlers
    ensures Some(step.t) == (if st.sh.registry.Some? then st.sh.registry else st.sh.lifecycle)
    ensures SectionWork(Apply(c, st, step)) < SectionWork(st)
  {
    hide RecordsOk, JobIdsOk, SessionsOk, QueueOk, HistoryOk, WorkersOk, OwnersOk, CapacityOk, Covers, QueuedOk,
         RunningOk;
    if st.sh.registry.Some? {
      var t := st.sh.registry.value;
      assert HandlerOk(st.sh, t, st.handlers[t]);
      if st.handlers[t].ReleaseCheck? {
        assert Retains(st.sh, st.handlers[t].key, st.handlers[t].ref);
      }
      step := if st.handlers[t].ReleaseCheck? then CheckTerminal(t) else Erase(t);
    } else {
      var t := st.sh.lifecycle.value;
      SectionStepMoves(c, st, t);
      SectionStepUnlocks(c, st, t);
      step := SectionStep(t, st.handlers[t]);
    }
  }

  /** What the holder of the lifecycle lock does next. */
  function SectionStep(t: Tid, h: Handler): Step
    requires NeedsLifecycle(h)
  {
    match h
    case CreateAdmit => Admit(t)
    case CreatePublish => Publish(t, false)
    case CreateRollback => Rollback(t)
    case CloseMark(_) => Mark(t)
    case CloseReopen(_, _) => Reopen(t)
    case CloseSettle(_, _) => Finalize(t)
    case SubmitCheck(_) => CheckSession(t)
    case SubmitAdmit(_, _) => Enqueue(t, Succeeds)
  }

  lemma SectionStepMoves(c: Config, st: State, t: Tid)
    requires Invariant(c, st) && st.sh.registry.None? && st.sh.lifecycle == Some(t)
    ensures t in st.handlers && NeedsLifecycle(st.handlers[t]) && Moves(c, st, SectionStep(t, st.handlers[t]))
  {
    hide RecordsOk, JobIdsOk, SessionsOk, QueueOk, JobsOk, HistoryOk, WorkersOk, OwnersOk, CapacityOk, Covers, QueuedOk,
         RunningOk;
    assert HandlerOk(st.sh, t, st.handlers[t]);
  }

  /** A lifecycle section is one step, except for a submission, which goes on to the registry. */
  lemma SectionStepUnlocks(c: Config, st: State, t: Tid)
    requires Invariant(c, st) && st.sh.registry.None? && st.sh.lifecycle == Some(t)
    requires t in st.handlers && NeedsLifecycle(st.handlers[t]) && Moves(c, st, SectionStep(t, st.handlers[t]))
    ensures SectionWork(Apply(c, st, SectionStep(t, st.handlers[t]))) < SectionWork(st)
  {
    hide RecordsOk, JobIdsOk, SessionsOk, QueueOk, JobsOk, HistoryOk, WorkersOk, OwnersOk, Covers, QueuedOk, RunningOk,
         Reservations, OpenSession, HandlerGuard;
    assert HandlerOk(st.sh, t, st.handlers[t]);
    if Reserved(st.handlers[t]) {
      Pending(c, st, t);
    } else if st.handlers[t].CloseSettle? {
      FinalizeShared(st.sh, t, st.handlers[t].call);
    }
  }
}
