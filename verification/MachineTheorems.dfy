/** What the orchestration promises, over every run. */
module MachineTheorems {
  import opened Wire
  import opened Jobs
  import opened Machine
  import opened MachineInvariant
  import opened MachineSteps
  import opened MachineSafety
  import Messages

  // ----- One settler for each unfinished record -----

  /** The places from which a record can be brought to its end. */
  datatype Settler = InPosition(i: nat) | HeldBy(w: nat) | TakenBy(t: Tid, i: nat)

  predicate Settles(st: State, s: Settler, r: Ref) {
    match s
    case InPosition(i) => i < |st.sh.queue| && st.sh.queue[i] == r
    case HeldBy(w) => w < |st.workers| && !st.workers[w].Idle? && st.workers[w].ref == r
    case TakenBy(t, i) =>
      && t in st.handlers && st.handlers[t].CloseSettle? && i < |st.handlers[t].call.queued|
      && Done(st.handlers[t].call, st.handlers[t].phase) <= i && st.handlers[t].call.queued[i] == r
  }

  function KindOf(s: Settler): Owner {
    match s
    case InPosition(_) => InQueue
    case HeldBy(w) => OfWorker(w)
    case TakenBy(t, _) => OfCloser(t)
  }

  /** Whoever settles a record owns it. */
  lemma SettlerOwns(c: Config, st: State, s: Settler, r: Ref)
    requires Invariant(c, st) && Settles(st, s, r)
    ensures ValidRef(st.sh, r) && st.sh.owner[r] == KindOf(s) && !Terminal(st.sh.heap[r].state)
  {
    hide JobIdsOk, SessionsOk, JobsOk, HistoryOk, OwnersOk, CapacityOk;
    match s
    case InPosition(i) => assert r in st.sh.queue;
    case HeldBy(w) => assert WorkerOk(st.sh, w, st.workers[w]);
    case TakenBy(t, i) =>
      var call, phase := st.handlers[t].call, st.handlers[t].phase;
      assert HandlerOk(st.sh, t, st.handlers[t]);
      assert QueuedAt(st.sh, t, call.queued[i], call.session, i < Done(call, phase));
  }

  lemma SettlerIsUnique(c: Config, st: State, a: Settler, b: Settler, r: Ref)
    requires Invariant(c, st) && Settles(st, a, r) && Settles(st, b, r)
    ensures a == b
  {
    hide JobIdsOk, SessionsOk, JobsOk, HistoryOk, OwnersOk, CapacityOk, RecordsOk, WorkersOk;
    SettlerOwns(c, st, a, r);
    SettlerOwns(c, st, b, r);
    if a.TakenBy? {
      assert HandlerOk(st.sh, a.t, st.handlers[a.t]);
    }
  }

  /** Exactly the unfinished records have a settler. */
  lemma SettlerExists(c: Config, st: State, r: Ref)
    requires Invariant(c, st) && r < |st.sh.heap|
    ensures !Terminal(st.sh.heap[r].state) <==> exists s :: Settles(st, s, r)
  {
    hide JobIdsOk, SessionsOk, JobsOk, HistoryOk, CapacityOk, WorkersOk, HandlersOk;
    if !Terminal(st.sh.heap[r].state) {
      assert OwnerExists(st, r);
      match st.sh.owner[r]
      case InQueue =>
        var i :| 0 <= i < |st.sh.queue| && st.sh.queue[i] == r;
        assert Settles(st, InPosition(i), r);
      case OfWorker(w) => assert Settles(st, HeldBy(w), r);
      case OfCloser(t) =>
        var call, d := st.handlers[t].call, Done(st.handlers[t].call, st.handlers[t].phase);
        var i :| 0 <= i < |call.queued[d..]| && call.queued[d..][i] == r;
        assert Settles(st, TakenBy(t, d + i), r);
    } else {
      forall s | Settles(st, s, r) ensures false {
        SettlerOwns(c, st, s, r);
      }
    }
  }

  /** A close only ever waits for a record that a worker holds, that was told to stop, while holding no lock. */
  lemma CloseWaitsOnWorker(c: Config, st: State, t: Tid, call: CloseCall, i: nat)
    requires Invariant(c, st) && At(st, t, CloseSettle(call, Await(i))) && i < |call.running|
    requires call.running[i] < |st.sh.heap| && !Terminal(st.sh.heap[call.running[i]].state)
    ensures st.sh.lifecycle != Some(t) && st.sh.registry != Some(t)
    ensures st.sh.heap[call.running[i]].cancelled
    ensures st.sh.owner[call.running[i]].OfWorker?
    ensures Settles(st, HeldBy(st.sh.owner[call.running[i]].w), call.running[i])
  {
    hide JobIdsOk, SessionsOk, JobsOk, HistoryOk, CapacityOk, QueueOk, WorkersOk;
    assert HandlerOk(st.sh, t, st.handlers[t]);
    assert RunningAt(st.sh, call.running[i], call.session, i < CancelledUpTo(call, Await(i)),
                     i < AwaitedUpTo(call, Await(i)));
    assert OwnerExists(st, call.running[i]);
  }

  /** No branch the source treats as impossible is ever taken. */
  lemma NoFaults(c: Config, workers: nat, steps: seq<Step>)
    requires Possible(c, Initial(workers), steps)
    ensures After(c, Initial(workers), steps).sh.fault == NoFault
  {
    hide Possible, After;
    InitialHolds(c, workers);
    RunKeeps(c, Initial(workers), steps);
  }

  // ----- Records only move forward -----

  /** How a record may look later. */
  predicate Evolves(a: Record, b: Record) {
    && b.id == a.id && b.session == a.session && Rank(a.state) <= Rank(b.state)
    && (Terminal(a.state) ==> b == a)
    && (a.cancelled ==> b.cancelled)
  }

  predicate HeapEvolves(a: seq<Record>, b: seq<Record>) {
    |a| <= |b| && forall r :: 0 <= r < |a| ==> Evolves(a[r], b[r])
  }

  lemma WorkerStepEvolves(c: Config, st: State, step: Step)
    requires Invariant(c, st) && WorkerStep(step) && WorkerGuard(st, step)
    ensures HeapEvolves(st.sh.heap, ApplyWorker(st, step).sh.heap)
  {
    hide JobIdsOk, SessionsOk, QueueOk, JobsOk, HistoryOk, HandlersOk, OwnersOk, CapacityOk, RecordsOk;
    var k := st.workers[step.w];
    assert WorkerOk(st.sh, step.w, k);
  }

  /** The sections of the lifecycle lock change no record, and add one only in an admission. */
  lemma SectionKeepsRecords(c: Config, st: State, step: Step)
    requires InSection(step) && HandlerGuard(c, st, step)
    ensures st.sh.heap <= ApplyHandler(c, st, step).sh.heap
  {
    hide OpenSession;
  }

  lemma SectionEvolves(c: Config, st: State, step: Step)
    requires InSection(step) && HandlerGuard(c, st, step)
    ensures HeapEvolves(st.sh.heap, ApplyHandler(c, st, step).sh.heap)
  {
    SectionKeepsRecords(c, st, step);
    hide HandlerGuard, ApplyHandler;
  }

  lemma CloseEvolves(c: Config, st: State, step: Step)
    requires InClose(step) && HandlerGuard(c, st, step)
    requires Invariant(c, st)
    ensures HeapEvolves(st.sh.heap, ApplyHandler(c, st, step).sh.heap)
  {
    hide JobIdsOk, SessionsOk, QueueOk, JobsOk, HistoryOk, WorkersOk, OwnersOk, CapacityOk, LeftInMap, OwnQueue,
         OtherQueue;
    if step.CancelToken? || step.SettleQueued? {
      var call, phase := st.handlers[step.t].call, st.handlers[step.t].phase;
      assert HandlerOk(st.sh, step.t, st.handlers[step.t]);
      assert QueuedAt(st.sh, step.t, call.queued[phase.i], call.session, false);
    }
  }

  lemma RestEvolves(c: Config, st: State, step: Step)
    requires !InSection(step) && !InClose(step) && !step.Arrive? && !WorkerStep(step) && HandlerGuard(c, st, step)
    ensures HeapEvolves(st.sh.heap, ApplyHandler(c, st, step).sh.heap)
  {
    hide Retained;
  }

  lemma HandlerStepEvolves(c: Config, st: State, step: Step)
    requires Invariant(c, st) && !step.Arrive? && !WorkerStep(step) && HandlerGuard(c, st, step)
    ensures HeapEvolves(st.sh.heap, ApplyHandler(c, st, step).sh.heap)
  {
    hide Invariant, HandlerGuard, ApplyHandler, HeapEvolves;
    if InSection(step) {
      SectionEvolves(c, st, step);
    } else if InClose(step) {
      CloseEvolves(c, st, step);
    } else {
      RestEvolves(c, st, step);
    }
  }

  lemma StepEvolves(c: Config, st: State, step: Step)
    requires Invariant(c, st) && Guard(c, st, step)
    ensures HeapEvolves(st.sh.heap, Apply(c, st, step).sh.heap)
  {
    hide Invariant, HandlerGuard, WorkerGuard, ApplyHandler, ApplyWorker;
    if WorkerStep(step) {
      WorkerStepEvolves(c, st, step);
    } else if !step.Arrive? {
      HandlerStepEvolves(c, st, step);
    }
  }

  /** Over every run a record's state never goes back and a terminal record never changes. */
  lemma {:induction false} RunEvolves(c: Config, st: State, steps: seq<Step>)
    requires Invariant(c, st) && Possible(c, st, steps)
    ensures HeapEvolves(st.sh.heap, After(c, st, steps).sh.heap)
    decreases |steps|
  {
    hide Invariant, Guard, Apply;
    if steps != [] {
      StepKeeps(c, st, steps[0]);
      StepEvolves(c, st, steps[0]);
      RunEvolves(c, Apply(c, st, steps[0]), steps[1..]);
    }
  }

  /** Once a job was told to stop before it ended, it never succeeds, never fails, and never holds a result. */
  lemma CancelledNeverSucceeds(c: Config, st: State, r: Ref, steps: seq<Step>)
    requires Invariant(c, st) && Possible(c, st, steps) && r < |st.sh.heap| && st.sh.heap[r].cancelled
    ensures r < |After(c, st, steps).sh.heap|
    ensures var later := After(c, st, steps).sh.heap[r];
            later.result.None? && later.state != Succeeded && (Terminal(later.state) ==> later.state == Cancelled)
  {
    hide Possible, After, JobIdsOk, SessionsOk, QueueOk, JobsOk, HistoryOk, WorkersOk, OwnersOk, CapacityOk, HandlersOk;
    RunKeeps(c, st, steps);
    RunEvolves(c, st, steps);
    assert Coherent(After(c, st, steps).sh.heap[r]);
  }

  /**
   * What a cancellation request decides about the record it finds: an ended job keeps its end, another ends cancelled.
   */
  predicate Arbitrated(found: Record, later: Record) {
    if Terminal(found.state) then later == found
    else later.result.None? && (Terminal(later.state) ==> later.state == Cancelled)
  }

  lemma RequestDecides(c: Config, st: State, step: Step, r: Ref, steps: seq<Step>)
    requires Invariant(c, st) && Guard(c, st, step) && Possible(c, Apply(c, st, step), steps)
    requires r < |st.sh.heap| && r < |Apply(c, st, step).sh.heap|
    requires Apply(c, st, step).sh.heap[r] == WithCancelRequested(st.sh.heap[r])
    ensures r < |After(c, Apply(c, st, step), steps).sh.heap|
    ensures Arbitrated(st.sh.heap[r], After(c, Apply(c, st, step), steps).sh.heap[r])
  {
    hide Invariant, Guard, Apply, Possible, After;
    var next := Apply(c, st, step);
    StepKeeps(c, st, step);
    RunEvolves(c, next, steps);
    assert Evolves(next.sh.heap[r], After(c, next, steps).sh.heap[r]);
    if !Terminal(st.sh.heap[r].state) {
      CancelledNeverSucceeds(c, next, r, steps);
    }
  }

  /** `job.cancel` arbitrates with the worker at the record lock. */
  lemma CancelDecides(c: Config, st: State, t: Tid, id: Messages.Id, r: Ref, steps: seq<Step>)
    requires Invariant(c, st) && At(st, t, Access(RequestCancel, id, r)) && ValidRef(st.sh, r)
    requires Possible(c, DoAccess(st, t, RequestCancel, r), steps)
    ensures r < |After(c, DoAccess(st, t, RequestCancel, r), steps).sh.heap|
    ensures Arbitrated(st.sh.heap[r], After(c, DoAccess(st, t, RequestCancel, r), steps).sh.heap[r])
  {
    hide Invariant, Possible, After;
    assert Guard(c, st, AccessRecord(t)) && Apply(c, st, AccessRecord(t)) == DoAccess(st, t, RequestCancel, r);
    RequestDecides(c, st, AccessRecord(t), r, steps);
  }

  lemma CloseStepDecides(c: Config, st: State, t: Tid, call: CloseCall, i: nat, steps: seq<Step>)
    requires Invariant(c, st) && At(st, t, CloseSettle(call, Cancel(i))) && i < |call.running|
    requires ValidRef(st.sh, call.running[i])
    requires Guard(c, st, CancelRunning(t)) && Possible(c, Apply(c, st, CancelRunning(t)), steps)
    ensures call.running[i] < |After(c, Apply(c, st, CancelRunning(t)), steps).sh.heap|
    ensures Arbitrated(st.sh.heap[call.running[i]],
                       After(c, Apply(c, st, CancelRunning(t)), steps).sh.heap[call.running[i]])
  {
    hide Invariant, Possible, After;
    RequestDecides(c, st, CancelRunning(t), call.running[i], steps);
  }

  /** One step of a run leaves a close where it is, or takes the next of its steps. */
  lemma CloseStepsAre(c: Config, st: State, t: Tid, call: CloseCall, phase: Phase, i: nat, step: Step)
    requires Invariant(c, st) && Guard(c, st, step) && At(st, t, CloseSettle(call, phase))
    requires i < |call.running| && CancelledUpTo(call, phase) <= i
    ensures var next := Apply(c, st, step);
            || (step == CancelRunning(t) && phase == Cancel(i))
            || (t in next.handlers && next.handlers[t].CloseSettle? && next.handlers[t].call == call
                && CancelledUpTo(call, next.handlers[t].phase) <= i)
  {
    hide Invariant, HandlerGuard, ApplyHandler, WorkerGuard, ApplyWorker;
    if step.Arrive? || WorkerStep(step) || step.t != t {
      OthersStay(c, st, step, t);
    } else {
      OwnCloseStep(c, st, t, call, phase, i, step);
    }
  }

  /** A step changes the program counter of the handler that takes it, and of no other. */
  lemma OthersStay(c: Config, st: State, step: Step, t: Tid)
    requires Guard(c, st, step) && t in st.handlers && (step.Arrive? || WorkerStep(step) || step.t != t)
    ensures t in Apply(c, st, step).handlers && Apply(c, st, step).handlers[t] == st.handlers[t]
  {
    hide LeftInMap, OpenSession, Retained, OwnQueue, OtherQueue, HandlerGuard, ApplyHandler;
    if !step.Arrive? && !WorkerStep(step) {
      OtherHandlersStay(c, st, step, t);
    }
  }

  lemma OtherHandlersStay(c: Config, st: State, step: Step, t: Tid)
    requires !step.Arrive? && !WorkerStep(step) && HandlerGuard(c, st, step) && t in st.handlers && step.t != t
    ensures t in ApplyHandler(c, st, step).handlers && ApplyHandler(c, st, step).handlers[t] == st.handlers[t]
  {
    hide LeftInMap, OpenSession, Retained, OwnQueue, OtherQueue, OtherJobs, WithCancelRequested;
  }

  lemma OwnCloseStep(c: Config, st: State, t: Tid, call: CloseCall, phase: Phase, i: nat, step: Step)
    requires !step.Arrive? && !WorkerStep(step) && step.t == t && HandlerGuard(c, st, step)
    requires At(st, t, CloseSettle(call, phase))
    requires i < |call.running| && CancelledUpTo(call, phase) <= i
    ensures var next := ApplyHandler(c, st, step);
            || (step == CancelRunning(t) && phase == Cancel(i))
            || (t in next.handlers && next.handlers[t].CloseSettle? && next.handlers[t].call == call
                && CancelledUpTo(call, next.handlers[t].phase) <= i)
  {
    hide LeftInMap, OpenSession, Retained, OwnQueue, OtherQueue;
  }

  /** Over a whole close: each popped record has a moment at which the close took its lock, and that moment decided. */
  lemma {:induction false} CloseDecides(c: Config, st: State, t: Tid, call: CloseCall, phase: Phase, i: nat,
                                        steps: seq<Step>)
    returns (k: nat)
    requires Invariant(c, st) && At(st, t, CloseSettle(call, phase)) && i < |call.running|
    requires CancelledUpTo(call, phase) <= i
    requires Possible(c, st, steps) && At(After(c, st, steps), t, CloseSettle(call, Finish))
    ensures k < |steps| && Possible(c, st, steps[..k]) && steps[k] == CancelRunning(t)
    ensures At(After(c, st, steps[..k]), t, CloseSettle(call, Cancel(i)))
    ensures call.running[i] < |After(c, st, steps[..k]).sh.heap| && call.running[i] < |After(c, st, steps).sh.heap|
    ensures Arbitrated(After(c, st, steps[..k]).sh.heap[call.running[i]], After(c, st, steps).sh.heap[call.running[i]])
    decreases |steps|
  {
    hide Invariant, Guard, Apply, Arbitrated;
    var step := steps[0];
    CloseStepsAre(c, st, t, call, phase, i, step);
    if step == CancelRunning(t) && phase == Cancel(i) {
      k := 0;
      assert steps[..0] == [];
      CloseRefs(c, st, t, call, phase, i);
      CloseStepDecides(c, st, t, call, i, steps[1..]);
    } else {
      var next := Apply(c, st, step);
      StepKeeps(c, st, step);
      var j := CloseDecides(c, next, t, call, next.handlers[t].phase, i, steps[1..]);
      k := j + 1;
      assert steps[..k][1..] == steps[1..][..j];
    }
  }

  lemma CloseRefs(c: Config, st: State, t: Tid, call: CloseCall, phase: Phase, i: nat)
    requires Invariant(c, st) && At(st, t, CloseSettle(call, phase)) && i < |call.running|
    ensures ValidRef(st.sh, call.running[i])
  {
    hide RecordsOk, JobIdsOk, SessionsOk, QueueOk, JobsOk, HistoryOk, WorkersOk, OwnersOk, CapacityOk;
    assert HandlerOk(st.sh, t, st.handlers[t]);
    assert RunningAt(st.sh, call.running[i], call.session, i < CancelledUpTo(call, phase),
                     i < AwaitedUpTo(call, phase));
  }

  /**
   * When a close is about to finish, every record it took has ended, and those it took from the queue are cancelled.
   */
  lemma CloseEnds(c: Config, st: State, t: Tid, call: CloseCall)
    requires Invariant(c, st) && At(st, t, CloseSettle(call, Finish))
    ensures forall r :: r in call.queued ==>
              r < |st.sh.heap| && st.sh.heap[r].state == Cancelled && st.sh.heap[r].result.None?
    ensures forall r :: r in call.running ==> r < |st.sh.heap| && Terminal(st.sh.heap[r].state)
    ensures forall r :: 0 <= r < |st.sh.heap| && st.sh.heap[r].session == call.session ==> Terminal(st.sh.heap[r].state)
  {
    hide JobIdsOk, SessionsOk, QueueOk, JobsOk, HistoryOk, WorkersOk, OwnersOk, CapacityOk;
    var sh := st.sh;
    assert HandlerOk(sh, t, st.handlers[t]);
    forall r | r in call.queued ensures r < |sh.heap| && sh.heap[r].state == Cancelled {
      var i :| 0 <= i < |call.queued| && call.queued[i] == r;
      assert QueuedAt(sh, t, call.queued[i], call.session, i < Done(call, Finish));
    }
    forall r | r in call.running ensures r < |sh.heap| && Terminal(sh.heap[r].state) {
      var i :| 0 <= i < |call.running| && call.running[i] == r;
      assert RunningAt(sh, call.running[i], call.session, i < CancelledUpTo(call, Finish),
                       i < AwaitedUpTo(call, Finish));
    }
    forall r | 0 <= r < |sh.heap| && sh.heap[r].session == call.session ensures Terminal(sh.heap[r].state) {
      CloseIsComplete(sh, t, call, r);
    }
  }

  // ----- A closed session stays closed -----

  /** The session was created, is gone, and has no unfinished record. */
  predicate Closed(sh: Shared, session: u64) {
    && Issued(session, sh.nextSession) && session !in sh.sessions
    && (forall r :: 0 <= r < |sh.heap| && sh.heap[r].session == session ==> Terminal(sh.heap[r].state))
  }

  lemma FinalizeCloses(c: Config, st: State, t: Tid, call: CloseCall)
    requires Invariant(c, st) && At(st, t, CloseSettle(call, Finish)) && call.sref < |st.sh.sessionHeap|
    ensures Closed(DoFinalize(st, t, call).sh, call.session)
  {
    hide RecordsOk, JobIdsOk, QueueOk, JobsOk, HistoryOk, WorkersOk, OwnersOk, CapacityOk, Covers, QueuedOk, RunningOk;
    CloseEnds(c, st, t, call);
    assert HandlerOk(st.sh, t, st.handlers[t]);
    assert SessionOk(st.sh.sessionHeap[call.sref], st.sh.nextSession);
  }

  /** Sessions appear only under the next id, and jobs only in existing sessions. */
  predicate Grows(a: Shared, b: Shared) {
    && (forall s :: s in b.sessions && s !in a.sessions ==> s == a.nextSession != 0)
    && (b.nextSession == a.nextSession || (a.nextSession != 0 && b.nextSession == Increment(a.nextSession)))
    && (forall r :: |a.heap| <= r < |b.heap| ==> b.heap[r].session in a.sessions)
  }

  /**
   * What a handler's step leaves alone: what was popped; the session table, unless it publishes or finishes a close;
   * the number of records, unless it admits a job.
   */
  predicate Leaves(a: Shared, b: Shared, step: Step) {
    && b.popped == a.popped
    && (step.Publish? || step.Finalize? || (b.sessions == a.sessions && b.nextSession == a.nextSession))
    && (step.Enqueue? || |b.heap| == |a.heap|)
  }

  predicate InSection(step: Step) {
    step.Admit? || step.Publish? || step.Rollback? || step.Mark? || step.Reopen? || step.CheckSession? || step.Enqueue?
  }

  predicate InClose(step: Step) {
    || step.CancelToken? || step.SettleQueued? || step.CancelRunning? || step.AwaitRunning? || step.NextPhase?
    || step.Finalize? || step.TakeJobs?
  }

  lemma SectionLeaves(c: Config, st: State, step: Step)
    requires InSection(step) && HandlerGuard(c, st, step)
    ensures Leaves(st.sh, ApplyHandler(c, st, step).sh, step)
  {
    hide OpenSession;
  }

  lemma CloseLeaves(c: Config, st: State, step: Step)
    requires InClose(step) && HandlerGuard(c, st, step)
    ensures Leaves(st.sh, ApplyHandler(c, st, step).sh, step)
  {
    hide LeftInMap, OwnQueue, OtherQueue, OtherJobs, WithCancelRequested, SetOwner;
  }

  lemma RestLeaves(c: Config, st: State, step: Step)
    requires !InSection(step) && !InClose(step) && !step.Arrive? && !WorkerStep(step) && HandlerGuard(c, st, step)
    ensures Leaves(st.sh, ApplyHandler(c, st, step).sh, step)
  {
    hide Retained, WithCancelRequested;
  }

  lemma HandlerStepLeaves(c: Config, st: State, step: Step)
    requires !step.Arrive? && !WorkerStep(step) && HandlerGuard(c, st, step)
    ensures Leaves(st.sh, ApplyHandler(c, st, step).sh, step)
  {
    hide HandlerGuard, ApplyHandler, Leaves;
    if InSection(step) {
      SectionLeaves(c, st, step);
    } else if InClose(step) {
      CloseLeaves(c, st, step);
    } else {
      RestLeaves(c, st, step);
    }
  }

  lemma EnqueueGrows(c: Config, st: State, t: Tid, session: u64, sref: Ref, allocation: Allocation)
    requires Invariant(c, st) && At(st, t, SubmitAdmit(session, sref)) && sref < |st.sh.sessionHeap|
    ensures Grows(st.sh, DoEnqueue(c, st, t, sref, allocation).sh)
  {
    hide RecordsOk, JobIdsOk, QueueOk, JobsOk, HistoryOk, WorkersOk, OwnersOk, CapacityOk;
    assert HandlerOk(st.sh, t, st.handlers[t]);
  }

  lemma PublishGrows(st: State, t: Tid, throws: bool)
    ensures Grows(st.sh, DoPublish(st, t, throws).sh)
  {
  }

  lemma FinalizeGrows(st: State, t: Tid, call: CloseCall)
    requires call.sref < |st.sh.sessionHeap|
    ensures Grows(st.sh, DoFinalize(st, t, call).sh)
  {
  }

  lemma HandlerStepGrows(c: Config, st: State, step: Step)
    requires Invariant(c, st) && !step.Arrive? && !WorkerStep(step) && HandlerGuard(c, st, step)
    ensures Grows(st.sh, ApplyHandler(c, st, step).sh)
  {
    hide Invariant, LeftInMap, OwnQueue, OtherQueue;
    if step.Publish? {
      hide Grows, DoPublish;
      PublishGrows(st, step.t, step.throws);
    } else if step.Finalize? {
      hide Grows, DoFinalize;
      FinalizeGrows(st, step.t, st.handlers[step.t].call);
    } else if step.Enqueue? {
      hide Grows, DoEnqueue;
      EnqueueGrows(c, st, step.t, st.handlers[step.t].session, st.handlers[step.t].sref, step.allocation);
    } else {
      HandlerStepLeaves(c, st, step);
      hide HandlerGuard, ApplyHandler;
    }
  }

  lemma StepGrows(c: Config, st: State, step: Step)
    requires Invariant(c, st) && Guard(c, st, step)
    ensures Grows(st.sh, Apply(c, st, step).sh)
  {
    hide Invariant, HandlerGuard, ApplyHandler;
    if !WorkerStep(step) && !step.Arrive? {
      HandlerStepGrows(c, st, step);
    }
  }

  lemma GrowsKeepsClosed(a: Shared, b: Shared, session: u64)
    requires Closed(a, session) && Grows(a, b) && HeapEvolves(a.heap, b.heap)
    ensures Closed(b, session)
    ensures forall r :: |a.heap| <= r < |b.heap| ==> b.heap[r].session != session
    ensures forall r :: 0 <= r < |a.heap| && a.heap[r].session == session ==> b.heap[r] == a.heap[r]
  {
    forall r | 0 <= r < |b.heap| && b.heap[r].session == session ensures Terminal(b.heap[r].state) {
      assert r < |a.heap| && Evolves(a.heap[r], b.heap[r]);
    }
    forall r | 0 <= r < |a.heap| && a.heap[r].session == session ensures b.heap[r] == a.heap[r] {
      assert Evolves(a.heap[r], b.heap[r]);
    }
  }

  /** After a close succeeded no record of the session changes or appears. */
  lemma {:induction false} ClosedStaysClosed(c: Config, st: State, session: u64, steps: seq<Step>)
    requires Invariant(c, st) && Possible(c, st, steps) && Closed(st.sh, session)
    ensures var later := After(c, st, steps).sh;
            && Closed(later, session) && |st.sh.heap| <= |later.heap|
            && (forall r :: 0 <= r < |st.sh.heap| && st.sh.heap[r].session == session ==>
                  later.heap[r] == st.sh.heap[r])
            && (forall r :: |st.sh.heap| <= r < |later.heap| ==> later.heap[r].session != session)
    decreases |steps|
  {
    hide Invariant, Guard, Apply, Grows, Closed;
    if steps != [] {
      var next := Apply(c, st, steps[0]);
      StepKeeps(c, st, steps[0]);
      StepGrows(c, st, steps[0]);
      StepEvolves(c, st, steps[0]);
      GrowsKeepsClosed(st.sh, next.sh, session);
      ClosedStaysClosed(c, next, session, steps[1..]);
      RunEvolves(c, next, steps[1..]);
    }
  }

  /** A closed session has nothing in the queue and nothing in the retained map. */
  lemma ClosedHoldsNothing(c: Config, st: State, session: u64)
    requires Invariant(c, st) && Closed(st.sh, session)
    ensures forall r :: r in st.sh.queue ==> !OfSession(st.sh, r, session)
    ensures forall id :: id in st.sh.jobs ==> !OfSession(st.sh, st.sh.jobs[id], session)
  {
    hide RecordsOk, JobIdsOk, HistoryOk, WorkersOk, OwnersOk, CapacityOk, HandlersOk;
    forall r | r in st.sh.queue ensures !OfSession(st.sh, r, session) {
      assert Live(st.sh, st.sh.heap[r].session);
    }
    forall id | id in st.sh.jobs ensures !OfSession(st.sh, st.sh.jobs[id], session) {
      assert Retains(st.sh, id, st.sh.jobs[id]);
    }
  }

  // ----- A close disturbs no other session -----

  lemma {:induction false} OtherQueueKeeps(a: Shared, b: Shared, queue: seq<Ref>, session: u64, other: u64)
    requires a.heap == b.heap && session != other
    ensures OwnQueue(b, OtherQueue(a, queue, session), other) == OwnQueue(a, queue, other)
  {
    if queue != [] {
      OtherQueueKeeps(a, b, queue[1..], session, other);
      var rest := OtherQueue(a, queue[1..], session);
      if OfSession(a, queue[0], session) {
        assert OtherQueue(a, queue, session) == rest;
        assert OwnQueue(a, queue, other) == OwnQueue(a, queue[1..], other);
      } else {
        assert OtherQueue(a, queue, session) == [queue[0]] + rest;
        assert ([queue[0]] + rest)[1..] == rest;
      }
    }
  }

  /** `a` stands before `b`. */
  predicate Precedes(queue: seq<Ref>, a: Ref, b: Ref) {
    queue != [] && ((queue[0] == a && b in queue[1..]) || Precedes(queue[1..], a, b))
  }

  /** The records of all other sessions together stay in the order in which they stood. */
  lemma {:induction false} OthersKeepOrder(sh: Shared, queue: seq<Ref>, session: u64, a: Ref, b: Ref)
    requires !OfSession(sh, a, session) && !OfSession(sh, b, session)
    ensures Precedes(OtherQueue(sh, queue, session), a, b) <==> Precedes(queue, a, b)
  {
    if queue != [] {
      var rest := OtherQueue(sh, queue[1..], session);
      OthersKeepOrder(sh, queue[1..], session, a, b);
      OwnQueueIs(sh, queue[1..], session);
      if OfSession(sh, queue[0], session) {
        assert OtherQueue(sh, queue, session) == rest;
      } else {
        assert OtherQueue(sh, queue, session) == [queue[0]] + rest && ([queue[0]] + rest)[1..] == rest;
      }
    }
  }

  /** Taking the jobs of a session keeps every other session's queue order, retained jobs, owners and records. */
  lemma TakeJobsIsolates(c: Config, st: State, t: Tid, session: u64, sref: Ref, running: seq<Ref>, other: u64)
    requires Invariant(c, st) && At(st, t, CloseSnapshot(session, sref)) && sref < |st.sh.sessionHeap|
    requires other != session
    ensures var next := DoTakeJobs(st, t, session, sref, running).sh;
            && next.heap == st.sh.heap
            && OwnQueue(next, next.queue, other) == OwnQueue(st.sh, st.sh.queue, other)
            && (forall a, b :: !OfSession(st.sh, a, session) && !OfSession(st.sh, b, session) ==>
                  (Precedes(next.queue, a, b) <==> Precedes(st.sh.queue, a, b)))
            && (forall r :: 0 <= r < |st.sh.heap| && st.sh.heap[r].session == other ==> next.owner[r] == st.sh.owner[r])
            && (forall id :: id in st.sh.jobs && OfSession(st.sh, st.sh.jobs[id], other) ==>
                  id in next.jobs && next.jobs[id] == st.sh.jobs[id])
  {
    hide RecordsOk, JobIdsOk, SessionsOk, QueueOk, JobsOk, HistoryOk, WorkersOk, OwnersOk, CapacityOk, HandlersOk;
    var next := DoTakeJobs(st, t, session, sref, running).sh;
    OtherQueueKeeps(st.sh, next, st.sh.queue, session, other);
    OwnQueueIs(st.sh, st.sh.queue, session);
    forall a, b | !OfSession(st.sh, a, session) && !OfSession(st.sh, b, session)
      ensures Precedes(next.queue, a, b) <==> Precedes(st.sh.queue, a, b)
    {
      OthersKeepOrder(st.sh, st.sh.queue, session, a, b);
    }
  }

  /** And no later step of the close touches a record of another session, the queue, or the retained map. */
  lemma SettlingIsolates(c: Config, st: State, t: Tid, call: CloseCall, phase: Phase, step: Step)
    requires !step.Arrive? && !WorkerStep(step) && step.t == t && HandlerGuard(c, st, step)
    requires At(st, t, CloseSettle(call, phase)) && Invariant(c, st)
    ensures var next := ApplyHandler(c, st, step).sh;
            && next.queue == st.sh.queue && next.jobs == st.sh.jobs && |next.heap| == |st.sh.heap|
            && (forall r :: 0 <= r < |next.heap| && st.sh.heap[r].session != call.session ==>
                  next.heap[r] == st.sh.heap[r])
  {
    hide RecordsOk, JobIdsOk, SessionsOk, QueueOk, JobsOk, HistoryOk, WorkersOk, OwnersOk, CapacityOk, Covers,
         LeftInMap, OwnQueue, OtherQueue, OpenSession, Retained;
    assert HandlerOk(st.sh, t, st.handlers[t]);
    if (step.CancelToken? || step.SettleQueued?) && phase.i < |call.queued| {
      assert QueuedAt(st.sh, t, call.queued[phase.i], call.session, phase.i < Done(call, phase));
    } else if step.CancelRunning? && phase.i < |call.running| {
      assert RunningAt(st.sh, call.running[phase.i], call.session, phase.i < CancelledUpTo(call, phase),
                       phase.i < AwaitedUpTo(call, phase));
    }
  }

  // ----- Order, identity, capacity -----

  /**
   * Jobs are popped in strictly increasing id order, and each admitted job is queued, popped or removed: exactly one.
   */
  lemma PopsInOrder(c: Config, st: State)
    requires Invariant(c, st)
    ensures forall i, j :: 0 <= i < j < |st.sh.popped| ==> IdBefore(st.sh, st.sh.popped[i], st.sh.popped[j])
    ensures forall r :: 0 <= r < |st.sh.heap| ==> r in st.sh.queue || r in st.sh.popped || r in st.sh.removed
    ensures forall r :: r in st.sh.queue ==> r !in st.sh.popped && r !in st.sh.removed
    ensures forall r :: r in st.sh.popped ==> r !in st.sh.removed
  {
    hide RecordsOk, SessionsOk, JobsOk, WorkersOk, OwnersOk, CapacityOk, HandlersOk;
    forall i, j | 0 <= i < j < |st.sh.popped| ensures IdBefore(st.sh, st.sh.popped[i], st.sh.popped[j]) {
      assert st.sh.popped[i] in st.sh.popped && st.sh.popped[j] in st.sh.popped;
    }
  }

  /** An id names the same record for ever, whether or not the record is still retained. */
  lemma IdNamesOneRecord(c: Config, st: State, steps: seq<Step>, id: u64)
    requires Invariant(c, st) && Possible(c, st, steps) && id in st.sh.jobs
    ensures var later := After(c, st, steps).sh;
            && st.sh.jobs[id] < |later.heap| && later.heap[st.sh.jobs[id]].id == id
            && (id in later.jobs ==> later.jobs[id] == st.sh.jobs[id])
  {
    hide Possible, After, RecordsOk, SessionsOk, QueueOk, HistoryOk, WorkersOk, OwnersOk, CapacityOk, HandlersOk;
    RunKeeps(c, st, steps);
    RunEvolves(c, st, steps);
    var later := After(c, st, steps).sh;
    assert Retains(st.sh, id, st.sh.jobs[id]);
    assert Evolves(st.sh.heap[st.sh.jobs[id]], later.heap[st.sh.jobs[id]]);
    if id in later.jobs {
      assert Retains(later, id, later.jobs[id]);
    }
  }

  /**
   * A reader that found a job reads the same result as every other reader, although the job may be erased meanwhile.
   */
  lemma ResultsAgree(c: Config, st: State, steps: seq<Step>, r: Ref)
    requires Invariant(c, st) && Possible(c, st, steps) && r < |st.sh.heap| && ResultOf(st.sh.heap[r]).Ok?
    ensures r < |After(c, st, steps).sh.heap|
    ensures ResultOf(After(c, st, steps).sh.heap[r]) == ResultOf(st.sh.heap[r])
  {
    hide Invariant, Possible, After;
    RunEvolves(c, st, steps);
    assert Evolves(st.sh.heap[r], After(c, st, steps).sh.heap[r]);
  }

  /** A session id is spent exactly when a session is published under it. */
  lemma SessionIdsAreSpentOnSessions(c: Config, st: State, step: Step)
    requires Invariant(c, st) && Guard(c, st, step)
    ensures var next := Apply(c, st, step).sh;
            if next.nextSession == st.sh.nextSession then next.sessions.Keys <= st.sh.sessions.Keys
            else && next.nextSession == Increment(st.sh.nextSession) && st.sh.nextSession !in st.sh.sessions
                 && next.sessions.Keys == st.sh.sessions.Keys + {st.sh.nextSession}
  {
    hide RecordsOk, JobIdsOk, QueueOk, JobsOk, HistoryOk, WorkersOk, OwnersOk, CapacityOk, HandlersOk, LeftInMap,
         OwnQueue, OtherQueue, HandlerGuard;
    if WorkerStep(step) || step.Arrive? {
    } else {
      SpentByHandler(c, st, step);
    }
  }

  lemma SpentByHandler(c: Config, st: State, step: Step)
    requires Invariant(c, st) && !step.Arrive? && !WorkerStep(step) && HandlerGuard(c, st, step)
    ensures var next := ApplyHandler(c, st, step).sh;
            if next.nextSession == st.sh.nextSession then next.sessions.Keys <= st.sh.sessions.Keys
            else && next.nextSession == Increment(st.sh.nextSession) && st.sh.nextSession !in st.sh.sessions
                 && next.sessions.Keys == st.sh.sessions.Keys + {st.sh.nextSession}
  {
    hide Invariant, LeftInMap, OwnQueue, OtherQueue;
    if !step.Publish? && !step.Finalize? {
      HandlerStepLeaves(c, st, step);
      hide HandlerGuard, ApplyHandler;
    }
  }

  /**
   * What a result request answers in every reachable state: the result exactly of a success, else why there is none.
   */
  lemma ResultObservation(c: Config, st: State, r: Ref)
    requires Invariant(c, st) && r < |st.sh.heap|
    ensures var rec := st.sh.heap[r];
            match rec.state
            case Succeeded => rec.result.Some? && ResultOf(rec) == Ok(rec.result.value)
            case Failed => rec.result.None? && rec.outcome != OK && ResultOf(rec) == Err(rec.outcome)
            case Cancelled => rec.result.None? && ResultOf(rec) == Err(CANCELLED)
            case _ => rec.result.None? && ResultOf(rec) == Err(INVALID_ARGUMENT)
  {
    hide JobIdsOk, SessionsOk, QueueOk, JobsOk, HistoryOk, WorkersOk, OwnersOk, CapacityOk, HandlersOk;
    assert Coherent(st.sh.heap[r]);
  }

  /** What was popped stays popped, in the same order. */
  lemma StepExtendsPopped(c: Config, st: State, step: Step)
    requires Guard(c, st, step)
    ensures st.sh.popped <= Apply(c, st, step).sh.popped
  {
    hide HandlerGuard, ApplyHandler;
    if !step.Arrive? && !WorkerStep(step) {
      HandlerStepLeaves(c, st, step);
    }
  }

  lemma {:induction false} RunExtendsPopped(c: Config, st: State, steps: seq<Step>)
    requires Possible(c, st, steps)
    ensures st.sh.popped <= After(c, st, steps).sh.popped
    decreases |steps|
  {
    hide Guard, Apply;
    if steps != [] {
      StepExtendsPopped(c, st, steps[0]);
      RunExtendsPopped(c, Apply(c, st, steps[0]), steps[1..]);
    }
  }
}
