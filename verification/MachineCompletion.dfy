/** Every request can be answered, a close does a bounded amount of work in every run, and a failed snapshot reopens. */
module MachineCompletion {
  import opened Wire
  import opened Jobs
  import opened Machine
  import opened MachineInvariant
  import opened MachineSteps
  import opened MachineSafety
  import opened MachineTheorems
  import opened MachineProgress
  import opened MachineLiveness
  import Messages

  // ----- Every handler can be brought to its answer -----

  /** The critical sections and other own steps a handler has left, apart from settling a close. */
  function Todo(h: Handler): nat {
    match h
    case CreateAdmit => 4
    case CreateBuild => 3
    case CreatePublish => 2
    case CreateRollback => 1
    case CloseMark(_) => 3
    case CloseSnapshot(_, _) => 2
    case CloseReopen(_, _) => 1
    case CloseSettle(_, _) => 0
    case SubmitCheck(_) => 2
    case SubmitAdmit(_, _) => 1
    case Lookup(_, _) => 2
    case Access(_, _, _) => 1
    case ReleaseLookup(_) => 3
    case ReleaseCheck(_, _) => 2
    case ReleaseErase(_, _) => 1
  }

  /**
   * What a close has come to when its handler answers: its session is gone, or could not be found, or is open again.
   */
  predicate Fate(c: Config, h: Handler, sh: Shared) {
    match h
    case CloseMark(id) => !OpenSession(c, sh, id)
    case CloseSnapshot(session, _) => session !in sh.sessions
    case CloseSettle(call, _) => call.session !in sh.sessions
    case CloseReopen(session, _) => OpenSession(c, sh, Messages.Id(c.instance, session))
    case _ => true
  }

  /** A close goes on with the same session. */
  predicate Follows(h: Handler, next: Handler) {
    && (h.CloseMark? ==> next.CloseSnapshot? && next.session == h.id.value)
    && (h.CloseSnapshot? ==> next.CloseSettle? && next.call.session == h.session)
    && !h.CloseReopen?
  }

  /** An own step answers, or leaves less to do. */
  predicate Advances(c: Config, st: State, next: State, t: Tid)
    requires t in st.handlers
  {
    var h := st.handlers[t];
    if t in next.handlers then Todo(next.handlers[t]) < Todo(h) && Follows(h, next.handlers[t])
    else Fate(c, h, next.sh)
  }

  lemma FateFollows(c: Config, h: Handler, next: Handler, sh: Shared)
    requires !h.CloseSettle? && Follows(h, next) && Fate(c, next, sh)
    ensures Fate(c, h, sh)
  {
  }

  lemma CreateAdvances(c: Config, st: State, t: Tid)
    requires Invariant(c, st) && t in st.handlers && st.sh.lifecycle == Some(t) && st.sh.registry.None?
    requires st.handlers[t].CreateAdmit? || Reserved(st.handlers[t]) || st.handlers[t].SubmitCheck?
               || st.handlers[t].SubmitAdmit?
    requires NeedsLifecycle(st.handlers[t]) && Moves(c, st, SectionStep(t, st.handlers[t]))
    ensures Advances(c, st, Apply(c, st, SectionStep(t, st.handlers[t])), t)
  {
    hide RecordsOk, JobIdsOk, SessionsOk, QueueOk, JobsOk, HistoryOk, WorkersOk, OwnersOk, Reservations, OpenSession,
         HandlersOk, HandlerGuard;
    if Reserved(st.handlers[t]) {
      Pending(c, st, t);
    }
  }

  lemma MarkAdvances(c: Config, st: State, t: Tid, id: Messages.Id)
    requires At(st, t, CloseMark(id)) && st.sh.lifecycle == Some(t)
    ensures Moves(c, st, Mark(t)) && Advances(c, st, Apply(c, st, Mark(t)), t)
  {
  }

  lemma ReopenAdvances(c: Config, st: State, t: Tid, session: u64, sref: Ref)
    requires Invariant(c, st) && At(st, t, CloseReopen(session, sref)) && st.sh.lifecycle == Some(t)
    ensures Moves(c, st, Reopen(t)) && Advances(c, st, Apply(c, st, Reopen(t)), t)
  {
    hide RecordsOk, JobIdsOk, QueueOk, JobsOk, HistoryOk, WorkersOk, OwnersOk, CapacityOk;
    assert HandlerOk(st.sh, t, st.handlers[t]);
    assert SessionOk(st.sh.sessionHeap[sref], st.sh.nextSession);
  }

  lemma SnapshotAdvances(c: Config, st: State, t: Tid, session: u64, sref: Ref) returns (step: Step)
    requires Invariant(c, st) && At(st, t, CloseSnapshot(session, sref)) && st.sh.registry.None?
    ensures Moves(c, st, step) && !WorkerStep(step) && step.t == t && Advances(c, st, Apply(c, st, step), t)
  {
    hide Invariant, LeftInMap, OwnQueue, OtherQueue, OtherJobs;
    step := SnapshotMovesOn(c, st, t, session, sref);
  }

  /** A handler that found a record can reach it, and one that releases it holds the registry lock. */
  lemma RefIsThere(c: Config, st: State, t: Tid)
    requires Invariant(c, st) && t in st.handlers
    ensures st.handlers[t].Access? || st.handlers[t].ReleaseCheck? ==> ValidRef(st.sh, st.handlers[t].ref)
    ensures st.handlers[t].ReleaseCheck? || st.handlers[t].ReleaseErase? ==> st.sh.registry == Some(t)
  {
    hide RecordsOk, JobIdsOk, SessionsOk, QueueOk, HistoryOk, WorkersOk, OwnersOk, CapacityOk, Covers, QueuedOk,
         RunningOk;
    var h := st.handlers[t];
    assert HandlerOk(st.sh, t, h);
    if h.ReleaseCheck? {
      assert Retains(st.sh, h.key, h.ref);
    }
  }

  /** What a handler does next outside the lifecycle lock, other than in a close. */
  function RestStep(t: Tid, h: Handler): Step {
    match h
    case CreateBuild => Build(t, true)
    case Lookup(_, _) => Find(t)
    case Access(_, _, _) => AccessRecord(t)
    case ReleaseLookup(_) => FindForRelease(t)
    case ReleaseCheck(_, _) => CheckTerminal(t)
    case _ => Erase(t)
  }

  lemma RestAdvances(c: Config, st: State, t: Tid) returns (step: Step)
    requires Invariant(c, st) && t in st.handlers && (st.sh.registry.None? || st.sh.registry == Some(t))
    requires !NeedsLifecycle(st.handlers[t]) && !st.handlers[t].CloseSettle? && !st.handlers[t].CloseSnapshot?
    requires st.handlers[t].Lookup? || st.handlers[t].ReleaseLookup? ==> st.sh.registry.None?
    ensures Moves(c, st, step) && !WorkerStep(step) && step.t == t && Advances(c, st, Apply(c, st, step), t)
  {
    hide Invariant, Retained, LeftInMap, OwnQueue, OpenSession;
    RefIsThere(c, st, t);
    step := RestStep(t, st.handlers[t]);
  }

  lemma RegistryHolder(c: Config, st: State, t: Tid)
    requires Invariant(c, st) && t in st.handlers && st.sh.registry == Some(t)
    ensures st.handlers[t].ReleaseCheck? || st.handlers[t].ReleaseErase?
  {
    hide SharedOk, HandlersOk, WorkersOk, OwnersOk, CapacityOk;
  }

  /** A handler that holds what it needs can take a step of its own. */
  lemma OwnStepAdvances(c: Config, st: State, t: Tid) returns (step: Step)
    requires Invariant(c, st) && t in st.handlers && !st.handlers[t].CloseSettle?
    requires st.sh.registry.None? || st.sh.registry == Some(t)
    requires NeedsLifecycle(st.handlers[t]) ==> st.sh.lifecycle == Some(t) && st.sh.registry.None?
    requires st.handlers[t].CloseSnapshot? ==> st.sh.registry.None?
    ensures Moves(c, st, step) && !WorkerStep(step) && step.t == t && Advances(c, st, Apply(c, st, step), t)
  {
    hide Invariant, Guard, Apply, Advances;
    var h := st.handlers[t];
    if NeedsLifecycle(h) {
      SectionStepMoves(c, st, t);
      step := SectionStep(t, h);
      match h
      case CloseMark(id) => MarkAdvances(c, st, t, id);
      case CloseReopen(session, sref) => ReopenAdvances(c, st, t, session, sref);
      case _ => CreateAdvances(c, st, t);
    } else if h.CloseSnapshot? {
      step := SnapshotAdvances(c, st, t, h.session, h.sref);
    } else {
      if st.sh.registry == Some(t) {
        RegistryHolder(c, st, t);
      }
      step := RestAdvances(c, st, t);
    }
  }

  /** The other handler stays where it is. */
  lemma OtherSection(c: Config, st: State, step: Step, t: Tid)
    requires Invariant(c, st) && Moves(c, st, step) && !WorkerStep(step) && t in st.handlers && step.t != t
    requires Some(step.t) == (if st.sh.registry.Some? then st.sh.registry else st.sh.lifecycle)
    ensures var next := Apply(c, st, step);
            && t in next.handlers && next.handlers[t] == st.handlers[t]
            && (next.sh.lifecycle == Some(t) <==> st.sh.lifecycle == Some(t))
  {
    hide Invariant, HandlerGuard, ApplyHandler;
    OthersStay(c, st, step, t);
    StepKeepsForeignLock(c, st, step, t);
  }

  lemma StepKeepsForeignLock(c: Config, st: State, step: Step, t: Tid)
    requires Moves(c, st, step) && !WorkerStep(step) && step.t != t
    ensures Apply(c, st, step).sh.lifecycle == Some(t) ==> st.sh.lifecycle == Some(t)
    ensures st.sh.lifecycle == Some(t) ==> Apply(c, st, step).sh.lifecycle == Some(t)
  {
    hide LeftInMap, OpenSession, Retained, OwnQueue, OtherQueue, OtherJobs, WithCancelRequested;
  }

  /**
   * From every reachable state every request can be run to its answer, without any new request: in particular a close
   * at whatever stage, whose session is then gone, was not to be found, or, after a failed snapshot, is open again.
   */
  lemma {:induction false} HandlerCompletes(c: Config, st: State, t: Tid) returns (steps: seq<Step>)
    requires Invariant(c, st) && t in st.handlers
    ensures Possible(c, st, steps) && (forall i :: 0 <= i < |steps| ==> !steps[i].Arrive?)
    ensures t !in After(c, st, steps).handlers && Fate(c, st.handlers[t], After(c, st, steps).sh)
    decreases 2 * Todo(st.handlers[t]) + (if st.sh.lifecycle == Some(t) then 0 else 1), SectionWork(st)
  {
    hide Invariant, Guard, Apply, Possible, After, SectionWork, Fate, Follows, NeedsLifecycle, CloseWork;
    var h := st.handlers[t];
    if h.CloseSettle? {
      steps := CloseCompletes(c, st, t, h.call, h.phase);
      SettledFate(c, h, After(c, st, steps).sh);
    } else {
      var step := NextStep(c, st, t);
      var next := Apply(c, st, step);
      StepKeeps(c, st, step);
      if t in next.handlers {
        var rest := HandlerCompletes(c, next, t);
        StepThen(c, st, step, rest);
        if next.handlers[t] != h {
          FateFollows(c, h, next.handlers[t], After(c, next, rest).sh);
        }
        steps := [step] + rest;
      } else {
        OneStep(c, st, step);
        steps := [step];
      }
    }
  }

  lemma SettledFate(c: Config, h: Handler, sh: Shared)
    requires h.CloseSettle? && h.call.session !in sh.sessions
    ensures Fate(c, h, sh)
  {
  }

  /** How near a handler is to its next own step. */
  function Ahead(st: State, t: Tid): nat
    requires t in st.handlers
  {
    2 * Todo(st.handlers[t]) + (if st.sh.lifecycle == Some(t) then 0 else 1)
  }

  /** A step, of this handler or of one that holds a lock, after which this one is nearer to its answer. */
  lemma NextStep(c: Config, st: State, t: Tid) returns (step: Step)
    requires Invariant(c, st) && t in st.handlers && !st.handlers[t].CloseSettle?
    ensures Moves(c, st, step)
    ensures var next := Apply(c, st, step); var h := st.handlers[t];
            if t !in next.handlers then Fate(c, h, next.sh)
            else if next.handlers[t] == h
            then Ahead(next, t) < Ahead(st, t)
                || (Ahead(next, t) == Ahead(st, t) && SectionWork(next) < SectionWork(st))
            else Follows(h, next.handlers[t]) && Ahead(next, t) < Ahead(st, t)
  {
    hide Invariant, Guard, Apply, SectionWork, Fate, Follows;
    var h := st.handlers[t];
    if st.sh.registry.Some? && st.sh.registry != Some(t) {
      step := SectionsEnd(c, st);
      OtherSection(c, st, step, t);
    } else if NeedsLifecycle(h) && st.sh.lifecycle != Some(t) {
      RegistryIsFree(c, st, t);
      if st.sh.lifecycle.None? {
        step := AcquireLifecycle(t);
        AcquireIs(c, st, t);
      } else {
        step := SectionsEnd(c, st);
        OtherSection(c, st, step, t);
      }
    } else {
      if NeedsLifecycle(h) || h.CloseSnapshot? {
        RegistryIsFree(c, st, t);
      }
      step := OwnStepAdvances(c, st, t);
    }
  }

  lemma RegistryIsFree(c: Config, st: State, t: Tid)
    requires Invariant(c, st) && t in st.handlers && (st.sh.registry.None? || st.sh.registry == Some(t))
    requires NeedsLifecycle(st.handlers[t]) || st.handlers[t].CloseSnapshot?
    ensures st.sh.registry.None?
  {
    hide SharedOk, HandlersOk, WorkersOk, OwnersOk, CapacityOk;
  }

  lemma AcquireIs(c: Config, st: State, t: Tid)
    requires t in st.handlers && NeedsLifecycle(st.handlers[t]) && st.sh.lifecycle.None?
    ensures Moves(c, st, AcquireLifecycle(t))
    ensures Apply(c, st, AcquireLifecycle(t)) == st.(sh := st.sh.(lifecycle := Some(t)))
  {
  }

  // ----- A close does a bounded amount of work, whatever the others do -----

  predicate InCall(st: State, t: Tid, call: CloseCall) {
    t in st.handlers && st.handlers[t].CloseSettle? && st.handlers[t].call == call
  }

  /** A step of the close, other than taking the lock for its last step and that step, or of a worker it waits for. */
  predicate WorksFor(st: State, t: Tid, call: CloseCall, step: Step) {
    if WorkerStep(step) then exists r :: r in call.running && r < |st.sh.owner| && st.sh.owner[r] == OfWorker(step.w)
    else !step.Arrive? && step.t == t && !step.AcquireLifecycle? && !step.Finalize?
  }

  /** How many such steps a run has until the close is over. */
  function WorkDone(c: Config, st: State, t: Tid, call: CloseCall, steps: seq<Step>): nat
    requires Possible(c, st, steps)
    decreases |steps|
  {
    if steps == [] || !InCall(st, t, call) then 0
    else (if WorksFor(st, t, call, steps[0]) then 1 else 0) + WorkDone(c, Apply(c, st, steps[0]), t, call, steps[1..])
  }

  lemma WorkIsSpent(c: Config, st: State, t: Tid, call: CloseCall, phase: Phase, step: Step)
    requires Invariant(c, st) && Guard(c, st, step) && At(st, t, CloseSettle(call, phase))
    requires WorksFor(st, t, call, step)
    ensures var next := Apply(c, st, step);
            && t in next.handlers && next.handlers[t].CloseSettle? && next.handlers[t].call == call
            && CloseWork(next, call, next.handlers[t].phase) < CloseWork(st, call, phase)
  {
    hide Invariant, HandlerGuard, WorkerGuard, ApplyHandler, ApplyWorker, RunningWork, OwnWork;
    StepShrinks(c, st, step, t, call, phase);
    if WorkerStep(step) {
      OthersStay(c, st, step, t);
    } else {
      OwnStepShrinks(c, st, t, call, phase, step);
    }
  }

  lemma WorkIsLeft(c: Config, st: State, t: Tid, call: CloseCall, phase: Phase)
    requires Invariant(c, st) && At(st, t, CloseSettle(call, phase))
    ensures CloseWork(st, call, phase) >= 0
  {
    hide Invariant, OwnWork, RunningWork;
    OwnWorkIsPositive(c, st, t, call, phase);
  }

  /**
   * A close terminates: in every run, fair or not, its own steps and those of the workers it waits for are at most as
   * many as the work it has left now, which counts the unfinished records that workers hold for it.
   */
  lemma {:induction false} CloseIsBounded(c: Config, st: State, t: Tid, call: CloseCall, phase: Phase, steps: seq<Step>)
    requires Invariant(c, st) && At(st, t, CloseSettle(call, phase)) && Possible(c, st, steps)
    ensures WorkDone(c, st, t, call, steps) <= CloseWork(st, call, phase)
    decreases |steps|
  {
    hide Invariant, Guard, Apply, CloseWork, WorksFor;
    WorkIsLeft(c, st, t, call, phase);
    if steps != [] {
      var next := Apply(c, st, steps[0]);
      StepKeeps(c, st, steps[0]);
      CloseNeverRetreats(c, st, t, call, phase, steps[0]);
      if WorksFor(st, t, call, steps[0]) {
        WorkIsSpent(c, st, t, call, phase, steps[0]);
      }
      if InCall(next, t, call) {
        CloseIsBounded(c, next, t, call, next.handlers[t].phase, steps[1..]);
      }
    }
  }

  // ----- A close whose snapshot failed -----

  predicate Foreign(t: Tid, step: Step) {
    WorkerStep(step) || step.t != t
  }

  /** Handlers that swap the order of their entries do not notice. */
  lemma EntriesCommute(handlers: map<Tid, Handler>, t: Tid, h: Handler, u: Tid, k: Handler)
    requires u != t
    ensures handlers[t := h][u := k] == handlers[u := k][t := h]
    ensures handlers[t := h] - {u} == (handlers - {u})[t := h]
  {
  }

  lemma ForeignGuard(c: Config, st: State, step: Step, t: Tid, h: Handler)
    requires Foreign(t, step) && t in st.handlers
    ensures Guard(c, Goto(st, t, h), step) <==> Guard(c, st, step)
  {
    hide LeftInMap, OwnQueue;
  }

  predicate InCreation(step: Step) {
    step.Admit? || step.Publish? || step.Rollback?
  }

  lemma ForeignCreation(c: Config, st: State, step: Step, t: Tid, h: Handler)
    requires InCreation(step) && step.t != t && HandlerGuard(c, st, step) && HandlerGuard(c, Goto(st, t, h), step)
    ensures ApplyHandler(c, Goto(st, t, h), step) == Goto(ApplyHandler(c, st, step), t, h)
  {
    var next := ApplyHandler(c, st, step);
    EntriesCommute(st.handlers, t, h, step.t, if step.t in next.handlers then next.handlers[step.t] else h);
  }

  lemma ForeignSection(c: Config, st: State, step: Step, t: Tid, h: Handler)
    requires InSection(step) && !InCreation(step) && step.t != t
    requires HandlerGuard(c, st, step) && HandlerGuard(c, Goto(st, t, h), step)
    ensures ApplyHandler(c, Goto(st, t, h), step) == Goto(ApplyHandler(c, st, step), t, h)
  {
    hide OpenSession;
    var next := ApplyHandler(c, st, step);
    EntriesCommute(st.handlers, t, h, step.t, if step.t in next.handlers then next.handlers[step.t] else h);
  }

  lemma ForeignClose(c: Config, st: State, step: Step, t: Tid, h: Handler)
    requires InClose(step) && step.t != t && HandlerGuard(c, st, step) && HandlerGuard(c, Goto(st, t, h), step)
    ensures ApplyHandler(c, Goto(st, t, h), step) == Goto(ApplyHandler(c, st, step), t, h)
  {
    hide LeftInMap, OwnQueue, OtherQueue, OtherJobs, SetOwner, WithCancelRequested;
    var next := ApplyHandler(c, st, step);
    EntriesCommute(st.handlers, t, h, step.t, if step.t in next.handlers then next.handlers[step.t] else h);
  }

  lemma ForeignRest(c: Config, st: State, step: Step, t: Tid, h: Handler)
    requires !InSection(step) && !InClose(step) && !step.Arrive? && !WorkerStep(step) && step.t != t
    requires HandlerGuard(c, st, step) && HandlerGuard(c, Goto(st, t, h), step) && t in st.handlers
    ensures ApplyHandler(c, Goto(st, t, h), step) == Goto(ApplyHandler(c, st, step), t, h)
  {
    hide Retained, WithCancelRequested;
    var next := ApplyHandler(c, st, step);
    EntriesCommute(st.handlers, t, h, step.t, if step.t in next.handlers then next.handlers[step.t] else h);
  }

  /** A step of anybody else neither depends on where a handler is nor changes it. */
  lemma ForeignStep(c: Config, st: State, step: Step, t: Tid, h: Handler)
    requires Foreign(t, step) && t in st.handlers && Guard(c, Goto(st, t, h), step)
    ensures Guard(c, st, step) && Apply(c, Goto(st, t, h), step) == Goto(Apply(c, st, step), t, h)
  {
    hide HandlerGuard, ApplyHandler;
    ForeignGuard(c, st, step, t, h);
    if step.Arrive? {
      EntriesCommute(st.handlers, t, h, step.t, step.h);
    } else if !WorkerStep(step) {
      if InCreation(step) {
        ForeignCreation(c, st, step, t, h);
      } else if InSection(step) {
        ForeignSection(c, st, step, t, h);
      } else if InClose(step) {
        ForeignClose(c, st, step, t, h);
      } else {
        ForeignRest(c, st, step, t, h);
      }
    }
  }

  lemma {:induction false} ForeignRun(c: Config, st: State, steps: seq<Step>, t: Tid, h: Handler)
    requires t in st.handlers && Possible(c, Goto(st, t, h), steps)
    requires forall i :: 0 <= i < |steps| ==> Foreign(t, steps[i])
    ensures Possible(c, st, steps) && t in After(c, st, steps).handlers
    ensures After(c, Goto(st, t, h), steps) == Goto(After(c, st, steps), t, h)
    decreases |steps|
  {
    hide Guard, Apply;
    if steps != [] {
      ForeignStep(c, st, steps[0], t, h);
      OthersStay(c, st, steps[0], t);
      ForeignRun(c, Apply(c, st, steps[0]), steps[1..], t, h);
    }
  }

  /**
   * A close whose snapshot fails has done nothing: whatever the others do after it, they could have done had it not
   * been tried, with the same effect on everything shared. The close is then still to reopen the session, and can.
   */
  lemma SnapshotFailureReopens(c: Config, st: State, t: Tid, session: u64, sref: Ref, steps: seq<Step>)
    returns (rest: seq<Step>)
    requires Invariant(c, st) && At(st, t, CloseSnapshot(session, sref)) && Guard(c, st, TakeJobsFails(t))
    requires Possible(c, Apply(c, st, TakeJobsFails(t)), steps) && forall i :: 0 <= i < |steps| ==> Foreign(t, steps[i])
    ensures Possible(c, st, steps)
    ensures var later := After(c, Apply(c, st, TakeJobsFails(t)), steps);
            && later.sh == After(c, st, steps).sh && later.workers == After(c, st, steps).workers
            && At(later, t, CloseReopen(session, sref))
            && Possible(c, later, rest) && t !in After(c, later, rest).handlers
            && OpenSession(c, After(c, later, rest).sh, Messages.Id(c.instance, session))
  {
    hide Invariant, Possible, After, HandlerGuard;
    var failed := Goto(st, t, CloseReopen(session, sref));
    assert Apply(c, st, TakeJobsFails(t)) == failed;
    StepKeeps(c, st, TakeJobsFails(t));
    ForeignRun(c, st, steps, t, CloseReopen(session, sref));
    var later := After(c, failed, steps);
    RunKeeps(c, failed, steps);
    rest := HandlerCompletes(c, later, t);
  }

  /** The reopening itself leaves jobs, queue and records alone. */
  lemma ReopenTouchesNoJob(c: Config, st: State, t: Tid, session: u64, sref: Ref)
    requires Invariant(c, st) && At(st, t, CloseReopen(session, sref)) && st.sh.lifecycle == Some(t)
    ensures Guard(c, st, Reopen(t))
    ensures var next := Apply(c, st, Reopen(t)).sh;
            && next.jobs == st.sh.jobs && next.queue == st.sh.queue && next.heap == st.sh.heap
            && next.sessions == st.sh.sessions && OpenSession(c, next, Messages.Id(c.instance, session))
  {
    hide RecordsOk, JobIdsOk, QueueOk, JobsOk, HistoryOk, WorkersOk, OwnersOk, CapacityOk;
    assert HandlerOk(st.sh, t, st.handlers[t]);
    assert SessionOk(st.sh.sessionHeap[sref], st.sh.nextSession);
  }
}
