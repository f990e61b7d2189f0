/** No reachable state is stuck, and every close comes to its end. */
module MachineLiveness {
  import opened Wire
  import opened Jobs
  import opened Machine
  import opened MachineInvariant
  import opened MachineSteps
  import opened MachineSafety
  import opened MachineTheorems
  import opened MachineProgress

  // ----- Freedom from deadlock -----

  /** Something is unfinished: a request, a worker's record, or a queued job that some worker can take. */
  ghost predicate Unfinished(st: State) {
    || st.handlers != map[]
    || (exists w :: 0 <= w < |st.workers| && !st.workers[w].Idle?)
    || (st.sh.queue != [] && |st.workers| > 0)
  }

  /** With the locks free and the workers idle, every handler can move. */
  lemma HandlerMovesOn(c: Config, st: State, t: Tid) returns (step: Step)
    requires Invariant(c, st) && t in st.handlers && st.sh.registry.None? && st.sh.lifecycle.None?
    requires forall w :: 0 <= w < |st.workers| ==> st.workers[w].Idle?
    ensures Moves(c, st, step)
  {
    hide RecordsOk, JobIdsOk, SessionsOk, QueueOk, JobsOk, HistoryOk, WorkersOk, OwnersOk, CapacityOk, Covers, QueuedOk,
         RunningOk;
    var h := st.handlers[t];
    assert HandlerOk(st.sh, t, h);
    if NeedsLifecycle(h) {
      step := AcquireLifecycle(t);
    } else {
      match h
      case CreateBuild => step := Build(t, true);
      case CloseSnapshot(session, sref) => step := SnapshotMovesOn(c, st, t, session, sref);
      case CloseSettle(call, phase) =>
        if phase.Await? && phase.i < |call.running| {
          CloseWaitsForNone(c, st, t, call, phase.i);
        }
        step := CloseMovesOn(c, st, t, call, phase);
      case Lookup(_, _) => step := Find(t);
      case Access(_, _, _) => step := AccessRecord(t);
      case ReleaseLookup(_) => step := FindForRelease(t);
    }
  }

  lemma CloseWaitsForNone(c: Config, st: State, t: Tid, call: CloseCall, i: nat)
    requires Invariant(c, st) && At(st, t, CloseSettle(call, Await(i))) && i < |call.running|
    requires forall w :: 0 <= w < |st.workers| ==> st.workers[w].Idle?
    ensures call.running[i] < |st.sh.heap| && Terminal(st.sh.heap[call.running[i]].state)
  {
    hide Invariant;
    CloseRefs(c, st, t, call, Await(i), i);
    if !Terminal(st.sh.heap[call.running[i]].state) {
      CloseWaitsOnWorker(c, st, t, call, i);
      assert false;
    }
  }

  /** As long as something is unfinished, some thread can take a step. */
  lemma NoDeadlock(c: Config, st: State) returns (step: Step)
    requires Invariant(c, st) && Unfinished(st)
    ensures Moves(c, st, step)
  {
    hide Invariant, Guard;
    if w :| 0 <= w < |st.workers| && !st.workers[w].Idle? {
      step := WorkerMovesOn(c, st, w);
    } else if st.sh.registry.Some? || st.sh.lifecycle.Some? {
      step := SectionsEnd(c, st);
    } else if t :| t in st.handlers {
      step := HandlerMovesOn(c, st, t);
    } else {
      step := Pop(0);
      PopMoves(c, st);
    }
  }

  lemma PopMoves(c: Config, st: State)
    requires Invariant(c, st) && st.sh.registry.None? && st.sh.queue != [] && |st.workers| > 0 && st.workers[0].Idle?
    ensures Moves(c, st, Pop(0))
  {
    hide RecordsOk, JobIdsOk, SessionsOk, JobsOk, HistoryOk, WorkersOk, OwnersOk, CapacityOk, HandlersOk;
    assert st.sh.queue[0] in st.sh.queue;
  }

  // ----- The work that is left of a close -----

  /** The worker steps left before a record ends. */
  function RecordWork(st: State, r: Ref): nat {
    if r < |st.sh.owner| && st.sh.owner[r].OfWorker? && st.sh.owner[r].w < |st.workers|
        then Stages(st.workers[st.sh.owner[r].w])
    else 0
  }

  function RunningWork(st: State, rs: seq<Ref>): nat {
    if rs == [] then 0 else RecordWork(st, rs[0]) + RunningWork(st, rs[1..])
  }

  /** The steps a close takes by itself. */
  function OwnWork(call: CloseCall, phase: Phase): int {
    var running := |call.running|;
    match phase
    case Token(i) => 2 * (|call.queued| - i) + 2 * running + 4
    case Settle(i) => 2 * (|call.queued| - i) + 2 * running + 3
    case Cancel(i) => 2 * running - i + 3
    case Await(i) => running - i + 2
    case Finish => 1
  }

  function CloseWork(st: State, call: CloseCall, phase: Phase): int {
    OwnWork(call, phase) + RunningWork(st, call.running)
  }

  lemma {:induction false} RunningWorkShrinks(a: State, b: State, rs: seq<Ref>)
    requires forall r :: r in rs ==> RecordWork(b, r) <= RecordWork(a, r)
    ensures RunningWork(b, rs) <= RunningWork(a, rs)
    ensures (exists r :: r in rs && RecordWork(b, r) < RecordWork(a, r)) ==> RunningWork(b, rs) < RunningWork(a, rs)
  {
    if rs != [] {
      assert rs == [rs[0]] + rs[1..];
      RunningWorkShrinks(a, b, rs[1..]);
    }
  }

  /** No step of anybody adds to the work of a record that was already popped. */
  lemma WorkerStepShrinks(c: Config, st: State, step: Step, r: Ref)
    requires Invariant(c, st) && WorkerStep(step) && WorkerGuard(st, step) && r < |st.sh.owner|
    requires st.sh.owner[r].OfWorker? || st.sh.owner[r].NoOne?
    ensures RecordWork(ApplyWorker(st, step), r) <= RecordWork(st, r)
    ensures st.sh.owner[r] == OfWorker(step.w) ==> RecordWork(ApplyWorker(st, step), r) < RecordWork(st, r)
  {
    hide RecordsOk, JobIdsOk, SessionsOk, JobsOk, HistoryOk, HandlersOk, CapacityOk;
    assert OwnerExists(st, r);
    assert WorkerOk(st.sh, step.w, st.workers[step.w]);
    if step.Pop? {
      assert st.sh.queue[0] in st.sh.queue;
    }
  }

  lemma HandlerStepShrinks(c: Config, st: State, step: Step, r: Ref)
    requires Invariant(c, st) && !step.Arrive? && !WorkerStep(step) && HandlerGuard(c, st, step) && r < |st.sh.owner|
    requires st.sh.owner[r].OfWorker? || st.sh.owner[r].NoOne?
    ensures RecordWork(ApplyHandler(c, st, step), r) <= RecordWork(st, r)
  {
    hide RecordsOk, JobIdsOk, SessionsOk, JobsOk, HistoryOk, HandlersOk, CapacityOk, WorkersOk, OwnersOk, LeftInMap;
    if step.TakeJobs? {
      hide OwnQueue, OtherQueue, OtherJobs;
      var h := st.handlers[step.t];
      TakenOwner(st.sh, step.t, h.session, h.sref, r);
    } else {
      hide OwnQueue, OtherQueue, OtherJobs, OpenSession, Retained;
    }
  }

  /** The step is one of the worker that holds the record. */
  predicate HeldForStep(st: State, step: Step, r: Ref) {
    WorkerStep(step) && r < |st.sh.owner| && st.sh.owner[r] == OfWorker(step.w)
  }

  lemma StepShrinks(c: Config, st: State, step: Step, t: Tid, call: CloseCall, phase: Phase)
    requires Invariant(c, st) && Guard(c, st, step) && At(st, t, CloseSettle(call, phase))
    ensures RunningWork(Apply(c, st, step), call.running) <= RunningWork(st, call.running)
    ensures forall r :: r in call.running && HeldForStep(st, step, r) ==>
              RunningWork(Apply(c, st, step), call.running) < RunningWork(st, call.running)
  {
    hide Invariant, HandlerGuard, WorkerGuard, ApplyHandler, ApplyWorker, RunningWork, RecordWork;
    var next := Apply(c, st, step);
    forall r | r in call.running
      ensures RecordWork(next, r) <= RecordWork(st, r) && r < |st.sh.owner|
      ensures WorkerStep(step) && st.sh.owner[r] == OfWorker(step.w) ==> RecordWork(next, r) < RecordWork(st, r)
    {
      RunningOwner(c, st, t, call, phase, r);
      if WorkerStep(step) {
        WorkerStepShrinks(c, st, step, r);
      } else if step.Arrive? {
        assert RecordWork(next, r) == RecordWork(st, r) by { ArriveShrinks(st, step.t, step.h, r); }
      } else {
        HandlerStepShrinks(c, st, step, r);
      }
    }
    RunningWorkShrinks(st, next, call.running);
  }

  lemma ArriveShrinks(st: State, t: Tid, h: Handler, r: Ref)
    ensures RecordWork(Goto(st, t, h), r) == RecordWork(st, r)
  {
  }

  lemma RunningOwner(c: Config, st: State, t: Tid, call: CloseCall, phase: Phase, r: Ref)
    requires Invariant(c, st) && At(st, t, CloseSettle(call, phase)) && r in call.running
    ensures r < |st.sh.heap| == |st.sh.owner| && (st.sh.owner[r].OfWorker? || st.sh.owner[r].NoOne?)
  {
    hide RecordsOk, JobIdsOk, SessionsOk, QueueOk, JobsOk, HistoryOk, WorkersOk, OwnersOk, CapacityOk;
    assert HandlerOk(st.sh, t, st.handlers[t]);
    var i :| 0 <= i < |call.running| && call.running[i] == r;
    assert RunningAt(st.sh, call.running[i], call.session, i < CancelledUpTo(call, phase),
                     i < AwaitedUpTo(call, phase));
  }

  /** A step of the close itself uses up some of its work, unless it only takes the lock for its last step. */
  lemma OwnStepShrinks(c: Config, st: State, t: Tid, call: CloseCall, phase: Phase, step: Step)
    requires !step.Arrive? && !WorkerStep(step) && step.t == t && HandlerGuard(c, st, step)
    requires At(st, t, CloseSettle(call, phase))
    ensures var next := ApplyHandler(c, st, step);
            && (t !in next.handlers ==> step == Finalize(t))
            && (t in next.handlers ==>
                  && next.handlers[t].CloseSettle? && next.handlers[t].call == call
                  && OwnWork(call, next.handlers[t].phase) <= OwnWork(call, phase)
                  && (step == AcquireLifecycle(t) || step == Finalize(t)
                      || OwnWork(call, next.handlers[t].phase) < OwnWork(call, phase)))
  {
    hide LeftInMap, OpenSession, Retained, OwnQueue, OtherQueue;
  }

  /** Whatever anybody does, a close in progress has no more work left after it than before. */
  lemma CloseNeverRetreats(c: Config, st: State, t: Tid, call: CloseCall, phase: Phase, step: Step)
    requires Invariant(c, st) && Guard(c, st, step) && At(st, t, CloseSettle(call, phase))
    ensures var next := Apply(c, st, step);
            && (t !in next.handlers ==> step == Finalize(t))
            && (t in next.handlers ==>
                  && next.handlers[t].CloseSettle? && next.handlers[t].call == call
                  && CloseWork(next, call, next.handlers[t].phase) <= CloseWork(st, call, phase))
  {
    hide Invariant, HandlerGuard, WorkerGuard, ApplyHandler, ApplyWorker, RunningWork, OwnWork;
    StepShrinks(c, st, step, t, call, phase);
    if step.Arrive? || WorkerStep(step) || step.t != t {
      OthersStay(c, st, step, t);
    } else {
      OwnStepShrinks(c, st, t, call, phase, step);
    }
  }

  /** A close that is not at its last step has a step, its own or a worker's, that leaves less work. */
  lemma CloseAdvances(c: Config, st: State, t: Tid, call: CloseCall, phase: Phase) returns (step: Step)
    requires Invariant(c, st) && At(st, t, CloseSettle(call, phase)) && !phase.Finish?
    ensures Moves(c, st, step)
    ensures var next := Apply(c, st, step);
            && t in next.handlers && next.handlers[t].CloseSettle? && next.handlers[t].call == call
            && CloseWork(next, call, next.handlers[t].phase) < CloseWork(st, call, phase)
  {
    hide Invariant, HandlerGuard, WorkerGuard, ApplyHandler, ApplyWorker, RunningWork, OwnWork;
    if phase.Await? && phase.i < |call.running| {
      CloseRefs(c, st, t, call, phase, phase.i);
    }
    if phase.Await? && phase.i < |call.running| && !Terminal(st.sh.heap[call.running[phase.i]].state) {
      var r := call.running[phase.i];
      CloseWaitsOnWorker(c, st, t, call, phase.i);
      step := WorkerMovesOn(c, st, st.sh.owner[r].w);
      assert HeldForStep(st, step, r);
      StepShrinks(c, st, step, t, call, phase);
      OthersStay(c, st, step, t);
    } else {
      step := CloseMovesOn(c, st, t, call, phase);
      StepShrinks(c, st, step, t, call, phase);
      OwnStepShrinks(c, st, t, call, phase, step);
      NotFinalizing(c, st, t, call, phase, step);
    }
  }

  lemma NotFinalizing(c: Config, st: State, t: Tid, call: CloseCall, phase: Phase, step: Step)
    requires !WorkerStep(step) && Moves(c, st, step) && step.t == t && At(st, t, CloseSettle(call, phase))
    requires !phase.Finish?
    ensures !step.Finalize?
  {
  }

  lemma OwnWorkIsPositive(c: Config, st: State, t: Tid, call: CloseCall, phase: Phase)
    requires Invariant(c, st) && At(st, t, CloseSettle(call, phase))
    ensures OwnWork(call, phase) > 0
  {
    hide RecordsOk, JobIdsOk, SessionsOk, QueueOk, JobsOk, HistoryOk, WorkersOk, OwnersOk, CapacityOk;
    assert HandlerOk(st.sh, t, st.handlers[t]);
  }

  /** From every reachable state every close can be brought to its end, by steps that are possible right now. */
  lemma {:induction false} CloseCompletes(c: Config, st: State, t: Tid, call: CloseCall, phase: Phase)
    returns (steps: seq<Step>)
    requires Invariant(c, st) && At(st, t, CloseSettle(call, phase))
    ensures Possible(c, st, steps) && (forall i :: 0 <= i < |steps| ==> !steps[i].Arrive?)
    ensures t !in After(c, st, steps).handlers && call.session !in After(c, st, steps).sh.sessions
    decreases CloseWork(st, call, phase), SectionWork(st)
  {
    hide Invariant, HandlerGuard, WorkerGuard, ApplyHandler, ApplyWorker, OwnWork, RunningWork, SectionWork;
    OwnWorkIsPositive(c, st, t, call, phase);
    if phase.Finish? && (st.sh.lifecycle == Some(t) || (st.sh.lifecycle.None? && st.sh.registry.None?)) {
      steps := LastSteps(c, st, t, call);
    } else {
      var step;
      if phase.Finish? {
        step := SectionsEnd(c, st);
        CloseNeverRetreats(c, st, t, call, phase, step);
        SectionStepIsNotFinal(c, st, t, step);
      } else {
        step := CloseAdvances(c, st, t, call, phase);
      }
      StepKeeps(c, st, step);
      var next := Apply(c, st, step);
      var rest := CloseCompletes(c, next, t, call, next.handlers[t].phase);
      steps := [step] + rest;
      assert steps[1..] == rest;
    }
  }

  lemma SectionStepIsNotFinal(c: Config, st: State, t: Tid, step: Step)
    requires Moves(c, st, step) && st.sh.lifecycle != Some(t)
    ensures step != Finalize(t)
  {
  }

  lemma LastSteps(c: Config, st: State, t: Tid, call: CloseCall) returns (steps: seq<Step>)
    requires Invariant(c, st) && At(st, t, CloseSettle(call, Finish))
    requires st.sh.lifecycle == Some(t) || st.sh.lifecycle.None?
    ensures Possible(c, st, steps) && (forall i :: 0 <= i < |steps| ==> !steps[i].Arrive?)
    ensures t !in After(c, st, steps).handlers && call.session !in After(c, st, steps).sh.sessions
  {
    hide RecordsOk, JobIdsOk, SessionsOk, QueueOk, JobsOk, HistoryOk, WorkersOk, OwnersOk, CapacityOk, Covers, QueuedOk,
         RunningOk;
    assert HandlerOk(st.sh, t, st.handlers[t]);
    FinalizeShared(st.sh, t, call);
    var locked := st.(sh := st.sh.(lifecycle := Some(t)));
    var done := Answer(locked.(sh := Unlock(locked.sh).(sessions := locked.sh.sessions - {call.session})), t);
    assert Guard(c, locked, Finalize(t)) && Apply(c, locked, Finalize(t)) == done;
    assert Possible(c, done, []) && After(c, done, []) == done;
    var last := [Finalize(t)];
    assert last[1..] == [];
    assert Possible(c, locked, last) && After(c, locked, last) == done;
    if st.sh.lifecycle == Some(t) {
      assert locked == st;
      steps := last;
    } else {
      assert Guard(c, st, AcquireLifecycle(t)) && Apply(c, st, AcquireLifecycle(t)) == locked;
      steps := [AcquireLifecycle(t)] + last;
      assert steps[1..] == last;
    }
  }
}
