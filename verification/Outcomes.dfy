/** Where the end of a job comes from, in every run: what its worker was told, and that a stop is heeded. */
module Outcomes {
  import opened Wire
  import opened Jobs
  import opened Machine
  import opened MachineInvariant
  import opened MachineSteps
  import opened MachineSafety
  import opened MachineTheorems

  predicate Holds(k: Worker, r: Ref) {
    !k.Idle? && k.ref == r
  }

  // ----- Workers move by themselves -----

  lemma WorkerMovesAlone(st: State, step: Step, w: nat)
    requires WorkerStep(step) && WorkerGuard(st, step) && w < |st.workers| && step.w != w
    ensures |ApplyWorker(st, step).workers| == |st.workers| && ApplyWorker(st, step).workers[w] == st.workers[w]
  {
  }

  lemma HandlersMoveNoWorker(c: Config, st: State, step: Step)
    requires !step.Arrive? && !WorkerStep(step) && HandlerGuard(c, st, step)
    ensures ApplyHandler(c, st, step).workers == st.workers
  {
    hide LeftInMap, OpenSession, Retained, OwnQueue, OtherQueue, OtherJobs, SetOwner, WithCancelRequested;
  }

  lemma OtherWorkersStay(c: Config, st: State, step: Step, w: nat)
    requires Guard(c, st, step) && w < |st.workers| && !(WorkerStep(step) && step.w == w)
    ensures |Apply(c, st, step).workers| == |st.workers| && Apply(c, st, step).workers[w] == st.workers[w]
  {
    hide HandlerGuard, ApplyHandler, WorkerGuard, ApplyWorker;
    if WorkerStep(step) {
      WorkerMovesAlone(st, step, w);
    } else if !step.Arrive? {
      HandlersMoveNoWorker(c, st, step);
    }
  }

  // ----- Every end has a report -----

  /** What a report makes of a job that nobody cancelled. */
  predicate Reports(k: Worker, step: Step, r: Ref, end: Record) {
    Holds(k, r) &&
    match step
    case Compile(_, failure) => k.Compiling? && end.state == Failed && failure == Some(end.outcome)
    case Execute(_, outcome) =>
      && k.Executing?
      && (match end.state
          case Succeeded => end.result.Some? && outcome == Ok(end.result.value)
          case Cancelled => outcome == Err(CANCELLED)
          case Failed => outcome == Err(end.outcome) && end.outcome != CANCELLED
          case _ => false)
    case Throw(_, code) => end.state == Failed && end.outcome == code
    case _ => false
  }

  predicate ReportsAt(st: State, step: Step, r: Ref, end: Record) {
    WorkerStep(step) && step.w < |st.workers| && Reports(st.workers[step.w], step, r, end)
  }

  /** Some step of the run reports that end. */
  predicate Reported(c: Config, st: State, steps: seq<Step>, r: Ref, end: Record)
    requires Possible(c, st, steps)
    decreases |steps|
  {
    steps != [] && (ReportsAt(st, steps[0], r, end) || Reported(c, Apply(c, st, steps[0]), steps[1..], r, end))
  }

  /** What the publication of a worker makes of a record that nobody cancelled. */
  predicate Matches(p: Publication, end: Record) {
    match p
    case PublishCancelled => end.state == Cancelled
    case PublishFailure(code) => end.state == Failed && end.outcome == code
    case PublishResult(value) => end.state == Succeeded && end.result == Some(value)
  }

  /** The job has not ended and no worker is about to publish its end. */
  predicate Undecided(st: State, r: Ref) {
    && r < |st.sh.heap| && !Terminal(st.sh.heap[r].state)
    && (forall w :: 0 <= w < |st.workers| && Holds(st.workers[w], r) ==> !st.workers[w].Publishing?)
  }

  lemma PublishStep(c: Config, st: State, w: nat, r: Ref, p: Publication)
    requires Invariant(c, st) && w < |st.workers| && st.workers[w] == Publishing(r, p)
    ensures Guard(c, st, PublishOutcome(w)) && r < |st.sh.heap|
    ensures var b := Apply(c, st, PublishOutcome(w)).sh;
            && r < |b.heap| && Terminal(b.heap[r].state) && b.heap[r].cancelled == st.sh.heap[r].cancelled
            && (!b.heap[r].cancelled ==> Matches(p, b.heap[r]))
  {
    hide RecordsOk, JobIdsOk, SessionsOk, QueueOk, JobsOk, HistoryOk, HandlersOk, OwnersOk, CapacityOk;
    assert WorkerOk(st.sh, w, st.workers[w]);
  }

  lemma PublishesOnly(st: State, step: Step, w: nat, r: Ref, p: Publication)
    requires WorkerStep(step) && WorkerGuard(st, step) && step.w == w && st.workers[w] == Publishing(r, p)
    ensures step == PublishOutcome(w)
  {
  }

  /** What a worker is about to publish is how its job ends, unless it is cancelled first. */
  lemma {:induction false} PublicationDecides(c: Config, st: State, steps: seq<Step>, w: nat, r: Ref, p: Publication)
    requires Invariant(c, st) && Possible(c, st, steps) && w < |st.workers| && st.workers[w] == Publishing(r, p)
    ensures r < |After(c, st, steps).sh.heap|
    ensures var later := After(c, st, steps).sh.heap[r];
            Terminal(later.state) && !later.cancelled ==> Matches(p, later)
    decreases |steps|
  {
    hide Invariant, HandlerGuard, WorkerGuard, ApplyHandler, ApplyWorker, Matches;
    PublishStep(c, st, w, r, p);
    if steps == [] {
      Unfinished(c, st, w, r);
    } else {
      var next := Apply(c, st, steps[0]);
      StepKeeps(c, st, steps[0]);
      if WorkerStep(steps[0]) && steps[0].w == w {
        PublishesOnly(st, steps[0], w, r, p);
        RunEvolves(c, next, steps[1..]);
        assert Evolves(next.sh.heap[r], After(c, next, steps[1..]).sh.heap[r]);
      } else {
        OtherWorkersStay(c, st, steps[0], w);
        PublicationDecides(c, next, steps[1..], w, r, p);
      }
    }
  }

  lemma Unfinished(c: Config, st: State, w: nat, r: Ref)
    requires Invariant(c, st) && w < |st.workers| && Holds(st.workers[w], r)
    ensures r < |st.sh.heap| && !Terminal(st.sh.heap[r].state) && st.sh.owner[r] == OfWorker(w)
  {
    hide RecordsOk, JobIdsOk, SessionsOk, QueueOk, JobsOk, HistoryOk, HandlersOk, OwnersOk, CapacityOk;
    assert WorkerOk(st.sh, w, st.workers[w]);
  }

  /** A worker comes to publish only what a report says, if nobody cancelled. */
  lemma ReportIsPublished(st: State, step: Step, r: Ref, end: Record)
    requires WorkerStep(step) && WorkerGuard(st, step) && r < |st.sh.heap|
    requires !(st.workers[step.w].Publishing?) && ApplyWorker(st, step).workers[step.w].Publishing?
    requires ApplyWorker(st, step).workers[step.w].ref == r && !st.sh.heap[r].cancelled
    requires Matches(ApplyWorker(st, step).workers[step.w].publication, end)
    ensures ReportsAt(st, step, r, end)
  {
  }

  predicate EndsOnlyCancelled(sh: Shared, r: Ref) {
    r < |sh.heap| && Terminal(sh.heap[r].state) ==> sh.heap[r].cancelled
  }

  /** The only way for a record to end undecided is the settling of a close, which cancels it first. */
  lemma HandlerEndsCancelled(c: Config, st: State, step: Step, r: Ref)
    requires Invariant(c, st) && !step.Arrive? && !WorkerStep(step) && HandlerGuard(c, st, step)
    requires r < |st.sh.heap| && !Terminal(st.sh.heap[r].state)
    ensures EndsOnlyCancelled(ApplyHandler(c, st, step).sh, r)
  {
    hide Invariant, HandlerGuard, ApplyHandler;
    if InSection(step) {
      SectionKeepsRecords(c, st, step);
    } else if InClose(step) {
      ActorIsOk(c, st, step);
      CloseEndsCancelled(c, st, step, r);
    } else {
      RestEndsNothing(c, st, step, r);
    }
  }

  lemma CloseEndsCancelled(c: Config, st: State, step: Step, r: Ref)
    requires InClose(step) && HandlerGuard(c, st, step) && |st.sh.owner| == |st.sh.heap|
    requires HandlerOk(st.sh, step.t, st.handlers[step.t])
    requires r < |st.sh.heap| && !Terminal(st.sh.heap[r].state)
    ensures EndsOnlyCancelled(ApplyHandler(c, st, step).sh, r)
  {
    hide LeftInMap, OwnQueue, OtherQueue, OtherJobs, SetOwner, Covers, RunningOk;
  }

  lemma RestEndsNothing(c: Config, st: State, step: Step, r: Ref)
    requires !InSection(step) && !InClose(step) && !step.Arrive? && !WorkerStep(step) && HandlerGuard(c, st, step)
    requires r < |st.sh.heap| && !Terminal(st.sh.heap[r].state)
    ensures EndsOnlyCancelled(ApplyHandler(c, st, step).sh, r)
  {
    hide Retained;
  }

  /** The worker is about to publish the end of the job. */
  predicate PublishesNow(workers: seq<Worker>, w: nat, r: Ref) {
    w < |workers| && Holds(workers[w], r) && workers[w].Publishing?
  }

  predicate BringsToPublish(c: Config, st: State, step: Step, r: Ref)
    requires Guard(c, st, step) && WorkerStep(step)
  {
    PublishesNow(Apply(c, st, step).workers, step.w, r)
  }

  /** A step of a worker that does not bring it to publish the job leaves the job undecided. */
  lemma WorkerLeavesUndecided(c: Config, st: State, step: Step, r: Ref)
    requires Invariant(c, st) && WorkerStep(step) && WorkerGuard(st, step) && Undecided(st, r)
    requires !PublishesNow(ApplyWorker(st, step).workers, step.w, r)
    ensures Undecided(ApplyWorker(st, step), r)
  {
    hide RecordsOk, JobIdsOk, SessionsOk, QueueOk, JobsOk, HistoryOk, HandlersOk, OwnersOk, CapacityOk;
    assert WorkerOk(st.sh, step.w, st.workers[step.w]);
    var next := ApplyWorker(st, step);
    forall w | 0 <= w < |next.workers| && Holds(next.workers[w], r) ensures !next.workers[w].Publishing? {
      assert w != step.w ==> next.workers[w] == st.workers[w];
    }
  }

  lemma StepLeavesUndecided(c: Config, st: State, step: Step, r: Ref)
    requires Invariant(c, st) && Guard(c, st, step) && Undecided(st, r)
    requires WorkerStep(step) ==> !BringsToPublish(c, st, step, r)
    ensures var next := Apply(c, st, step);
            r < |next.sh.heap| && (Undecided(next, r) || (Terminal(next.sh.heap[r].state) && next.sh.heap[r].cancelled))
  {
    hide Invariant, HandlerGuard, ApplyHandler, WorkerGuard, ApplyWorker;
    StepEvolves(c, st, step);
    if WorkerStep(step) {
      WorkerLeavesUndecided(c, st, step, r);
    } else if !step.Arrive? {
      HandlersMoveNoWorker(c, st, step);
      HandlerEndsCancelled(c, st, step, r);
    }
  }

  /**
   * Every end of a job that nobody cancelled was reported in the run: a result is the one the kernel returned for this
   * job, a failure is the one the compiler or the kernel reported or an exception of its worker, and a cancellation is
   * the kernel's.
   */
  lemma {:induction false} EndIsReported(c: Config, st: State, steps: seq<Step>, r: Ref)
    requires Invariant(c, st) && Possible(c, st, steps) && Undecided(st, r)
    ensures r < |After(c, st, steps).sh.heap|
    ensures var later := After(c, st, steps).sh.heap[r];
            Terminal(later.state) && !later.cancelled ==> Reported(c, st, steps, r, later)
    decreases |steps|
  {
    hide Invariant, Guard, Apply, Undecided, ReportsAt, Matches;
    if steps == [] {
      UndecidedIs(st, r);
    } else {
      var step, next := steps[0], Apply(c, st, steps[0]);
      StepKeeps(c, st, step);
      UndecidedIs(st, r);
      var later := After(c, next, steps[1..]).sh.heap;
      RunEvolves(c, st, steps);
      assert Evolves(st.sh.heap[r], later[r]);
      if WorkerStep(step) && BringsToPublish(c, st, step, r) {
        PublicationDecides(c, next, steps[1..], step.w, r, next.workers[step.w].publication);
        if Terminal(later[r].state) && !later[r].cancelled {
          BroughtByReport(c, st, step, r, later[r]);
        }
      } else {
        StepLeavesUndecided(c, st, step, r);
        if !Undecided(next, r) {
          RunEvolves(c, next, steps[1..]);
          assert Evolves(next.sh.heap[r], later[r]);
        } else {
          EndIsReported(c, next, steps[1..], r);
        }
      }
    }
  }

  lemma UndecidedIs(st: State, r: Ref)
    requires Undecided(st, r)
    ensures r < |st.sh.heap| && !Terminal(st.sh.heap[r].state)
  {
  }

  lemma BroughtByReport(c: Config, st: State, step: Step, r: Ref, end: Record)
    requires Guard(c, st, step) && WorkerStep(step) && BringsToPublish(c, st, step, r) && Undecided(st, r)
    requires !st.sh.heap[r].cancelled && Matches(Apply(c, st, step).workers[step.w].publication, end)
    ensures ReportsAt(st, step, r, end)
  {
    ReportIsPublished(st, step, r, end);
  }

  // ----- A stop is heeded -----

  /** How far a worker has gone with the kernel: not at all, to compilation, to execution. */
  function Kernel(k: Worker): nat {
    if k.Compiling? || k.Compiled? then 1 else if k.Executing? then 2 else 0
  }

  /** The job was told to stop, and its worker has gone no further than `limit`. */
  predicate StoppedAt(st: State, r: Ref, limit: nat) {
    && r < |st.sh.heap| && st.sh.heap[r].cancelled
    && (forall w :: 0 <= w < |st.workers| && Holds(st.workers[w], r) ==> Kernel(st.workers[w]) <= limit)
  }

  lemma WorkerHeeds(st: State, step: Step, r: Ref, limit: nat)
    requires WorkerStep(step) && WorkerGuard(st, step) && StoppedAt(st, r, limit)
    ensures StoppedAt(ApplyWorker(st, step), r, limit)
  {
    var next := ApplyWorker(st, step);
    forall w | 0 <= w < |next.workers| && Holds(next.workers[w], r) ensures Kernel(next.workers[w]) <= limit {
      assert w != step.w ==> next.workers[w] == st.workers[w];
    }
  }

  lemma StepHeeds(c: Config, st: State, step: Step, r: Ref, limit: nat)
    requires Invariant(c, st) && Guard(c, st, step) && StoppedAt(st, r, limit)
    ensures StoppedAt(Apply(c, st, step), r, limit)
  {
    hide Invariant, HandlerGuard, ApplyHandler, WorkerGuard, ApplyWorker;
    StepEvolves(c, st, step);
    if WorkerStep(step) {
      WorkerHeeds(st, step, r, limit);
    } else if !step.Arrive? {
      HandlersMoveNoWorker(c, st, step);
    }
  }

  /**
   * A stop is heeded: in every run after a job was told to stop, its worker goes no further with the kernel than it had
   * gone by then. A job stopped before compilation is never compiled, and one stopped before execution never executed.
   */
  lemma {:induction false} StopIsHeeded(c: Config, st: State, steps: seq<Step>, r: Ref, limit: nat)
    requires Invariant(c, st) && Possible(c, st, steps) && StoppedAt(st, r, limit)
    ensures StoppedAt(After(c, st, steps), r, limit)
    decreases |steps|
  {
    hide Invariant, Guard, Apply, StoppedAt;
    if steps != [] {
      StepKeeps(c, st, steps[0]);
      StepHeeds(c, st, steps[0], r, limit);
      StopIsHeeded(c, Apply(c, st, steps[0]), steps[1..], r, limit);
    }
  }
}
