/** Below its maximum the server takes every connection and comes to serve it; an accepted shutdown stops it. */
module ServerAdmission {
  import opened Wire
  import opened Server
  import opened ServerSafety
  import opened ServerShutdown

  // ----- A connection is turned away exactly at the maximum -----

  lemma CapacityDecides(maximum: nat, st: State)
    requires Invariant(maximum, st) && st.runner.Checking?
    ensures Guard(st, CheckCapacity)
    ensures Apply(maximum, st, CheckCapacity) ==
              if |st.holding| < maximum then st.(runner := Reserving(st.runner.fd))
              else st.(open := st.open - {st.runner.fd}, runner := Waiting)
  {
    hide ThreadsOk, ActiveOk, RecordsOk, StopOk;
  }

  // ----- Below it, it is served -----

  /** What reaping leaves alone. */
  predicate OnlyReaped(a: State, b: State) {
    && b.stop == a.stop && b.open == a.open && b.nextHandler == a.nextHandler && b.activeHandlers <= a.activeHandlers
    && b.threads.Keys == a.threads.Keys
    && (forall h :: h in a.threads ==> b.threads[h] == a.threads[h] || b.threads[h].Exited?)
  }

  predicate ReapsOn(r: Runner, next: Runner) {
    r.Reaping? && next.Reaping? && next.fd == r.fd && |next.rest| < |r.rest|
  }

  lemma ReapStepIs(maximum: nat, st: State)
    requires Invariant(maximum, st) && st.runner.Reaping? && !Blocked(st)
    ensures var step := if st.runner.rest == [] then ReapDone else ReapOne;
            && Guard(st, step)
            && var next := Apply(maximum, st, step);
               && OnlyReaped(st, next)
               && if st.runner.rest == [] then next.runner == Checking(st.runner.fd)
                  else ReapsOn(st.runner, next.runner)
  {
    hide ThreadsOk, ActiveOk, StopOk, RecordsOk, SlotsOk, RunnerOk;
  }

  lemma ReleaseIs(maximum: nat, st: State)
    requires Invariant(maximum, st) && Blocked(st)
    ensures var h := st.runner.rest[0];
            && Guard(st, Release(h)) && OnlyReaped(st, Apply(maximum, st, Release(h)))
            && Apply(maximum, st, Release(h)).runner == st.runner && !Blocked(Apply(maximum, st, Release(h)))
  {
    hide ActiveOk, StopOk, RunnerGuard, ApplyRunner, StopGuard, ApplyStop;
    var h := st.runner.rest[0];
    BlockedReleases(maximum, st);
    assert h in st.records;
    assert ThreadOk(st, h, st.threads[h]);
  }

  lemma {:induction false} ReapingCanEnd(maximum: nat, st: State) returns (steps: seq<Step>)
    requires Invariant(maximum, st) && st.runner.Reaping?
    ensures Possible(maximum, st, steps) && Unaided(steps)
    ensures var later := Later(maximum, st, steps);
            Invariant(maximum, later) && later.runner == Checking(st.runner.fd) && OnlyReaped(st, later)
    decreases |st.runner.rest|, (if Blocked(st) then 1 else 0)
  {
    hide Possible, Later, Invariant, Guard, Apply, Blocked;
    var step := if st.runner.rest == [] then ReapDone else ReapOne;
    if Blocked(st) {
      BlockedHas(st);
      step := Release(st.runner.rest[0]);
      ReleaseIs(maximum, st);
    } else {
      ReapStepIs(maximum, st);
    }
    var next := Apply(maximum, st, step);
    StepKeeps(maximum, st, step);
    if next.runner.Reaping? {
      var rest := ReapingCanEnd(maximum, next);
      StepThen(maximum, st, step, rest);
      UnaidedConcat([step], rest);
      steps := [step] + rest;
    } else {
      OneStep(maximum, st, step);
      steps := [step];
    }
  }

  lemma BlockedHas(st: State)
    requires Blocked(st)
    ensures st.runner.Reaping? && st.runner.rest != []
  {
  }

  /** The handler of a new connection, on its way to its first request. */
  predicate Newcomer(st: State, h: Hid, k: Thread) {
    At(st, h, k) && HasDescriptor(k) && k.fd in st.open && st.open[k.fd].owner == Some(h) && st.stop.Up?
  }

  lemma CheckIs(maximum: nat, st: State)
    requires st.runner.Checking? && st.runner.fd in st.open && st.activeHandlers < maximum
    ensures Guard(st, CheckCapacity) && Apply(maximum, st, CheckCapacity) == st.(runner := Reserving(st.runner.fd))
  {
  }

  lemma ReserveIs(maximum: nat, st: State)
    requires st.runner.Reserving? && st.runner.fd in st.open
    ensures Guard(st, Reserve(true))
    ensures Apply(maximum, st, Reserve(true))
         == st.(activeHandlers := st.activeHandlers + 1, holding := st.holding + {st.nextHandler},
                nextHandler := st.nextHandler + 1, runner := Pushing(st.runner.fd, st.nextHandler))
  {
  }

  lemma PushIs(maximum: nat, st: State)
    requires st.runner.Pushing?
    ensures Guard(st, Push(true))
    ensures Apply(maximum, st, Push(true))
         == st.(records := st.records + [st.runner.h], runner := Spawning(st.runner.fd, st.runner.h))
  {
  }

  lemma SpawnIs(maximum: nat, st: State)
    requires st.runner.Spawning? && st.runner.fd in st.open && st.records != [] && st.stop.Up?
    ensures Guard(st, Spawn(true))
    ensures Newcomer(Apply(maximum, st, Spawn(true)), st.runner.h, Starting(st.runner.fd))
  {
  }

  lemma Created(maximum: nat, st: State) returns (steps: seq<Step>)
    requires st.runner.Checking? && st.runner.fd in st.open && st.activeHandlers < maximum && st.stop.Up?
    ensures steps == [CheckCapacity] + ([Reserve(true)] + ([Push(true)] + [Spawn(true)]))
    ensures Possible(maximum, st, steps)
    ensures Newcomer(Later(maximum, st, steps), st.nextHandler, Starting(st.runner.fd))
  {
    hide Possible, Later, Guard, Apply, Newcomer;
    CheckIs(maximum, st);
    var s1 := Apply(maximum, st, CheckCapacity);
    ReserveIs(maximum, s1);
    var s2 := Apply(maximum, s1, Reserve(true));
    PushIs(maximum, s2);
    var s3 := Apply(maximum, s2, Push(true));
    SpawnIs(maximum, s3);
    OneStep(maximum, s3, Spawn(true));
    StepThen(maximum, s2, Push(true), [Spawn(true)]);
    StepThen(maximum, s1, Reserve(true), [Push(true)] + [Spawn(true)]);
    StepThen(maximum, st, CheckCapacity, [Reserve(true)] + ([Push(true)] + [Spawn(true)]));
    steps := [CheckCapacity] + ([Reserve(true)] + ([Push(true)] + [Spawn(true)]));
  }

  /** One step of a newcomer. */
  lemma NewcomerMoves(maximum: nat, st: State, h: Hid, k: Thread, step: Step, next: Thread)
    requires Newcomer(st, h, k)
    requires || (k.Starting? && step == Register(h, true) && next == LoopHead(k.fd))
             || (k.LoopHead? && step == CheckLoop(h) && next == Reading(k.fd))
             || (k.Reading? && step == Read(h, true) && next == Serving(k.fd) && st.open[k.fd].arrived > 0)
             || (k.Reading? && step == PeerSends(k.fd) && next == k)
    ensures Guard(st, step) && Newcomer(Apply(maximum, st, step), h, next)
    ensures step.PeerSends? ==> Apply(maximum, st, step).open[k.fd].arrived > 0
  {
    hide RunnerGuard, ApplyRunner, StopGuard, ApplyStop;
  }

  lemma FirstRequest(maximum: nat, st: State, h: Hid, fd: Fd) returns (steps: seq<Step>)
    requires Newcomer(st, h, Starting(fd))
    ensures steps == [Register(h, true)] + ([CheckLoop(h)] + ([PeerSends(fd)] + [Read(h, true)]))
    ensures Possible(maximum, st, steps) && Newcomer(Later(maximum, st, steps), h, Serving(fd))
  {
    hide Possible, Later, Guard, Apply, Newcomer;
    NewcomerMoves(maximum, st, h, Starting(fd), Register(h, true), LoopHead(fd));
    var s1 := Apply(maximum, st, Register(h, true));
    NewcomerMoves(maximum, s1, h, LoopHead(fd), CheckLoop(h), Reading(fd));
    var s2 := Apply(maximum, s1, CheckLoop(h));
    NewcomerMoves(maximum, s2, h, Reading(fd), PeerSends(fd), Reading(fd));
    var s3 := Apply(maximum, s2, PeerSends(fd));
    NewcomerMoves(maximum, s3, h, Reading(fd), Read(h, true), Serving(fd));
    OneStep(maximum, s3, Read(h, true));
    StepThen(maximum, s2, PeerSends(fd), [Read(h, true)]);
    StepThen(maximum, s1, CheckLoop(h), [PeerSends(fd)] + [Read(h, true)]);
    StepThen(maximum, st, Register(h, true), [CheckLoop(h)] + ([PeerSends(fd)] + [Read(h, true)]));
    steps := [Register(h, true)] + ([CheckLoop(h)] + ([PeerSends(fd)] + [Read(h, true)]));
  }

  lemma AcceptIs(maximum: nat, st: State, fd: Fd)
    requires st.runner.Waiting? && st.stop.Up? && fd !in st.open
    ensures Guard(st, Accept(fd))
    ensures var a := Apply(maximum, st, Accept(fd));
            && Guard(a, CheckStop)
            && Apply(maximum, a, CheckStop)
                 == st.(open := st.open[fd := Descriptor(None, false, 0, false)],
                        runner := Reaping(fd, [], st.records, st.holding))
  {
  }

  /**
   * From every reachable state in which the server waits for a connection, has not been told to stop and runs fewer
   * handlers than its maximum, a peer that connects and sends one request can be brought to a new handler of its own
   * that serves it.
   */
  lemma ConnectionIsServed(maximum: nat, st: State, fd: Fd) returns (steps: seq<Step>)
    requires Invariant(maximum, st) && st.runner.Waiting? && st.stop.Up? && fd !in st.open
    requires |st.holding| < maximum
    ensures Possible(maximum, st, steps) && Newcomer(Later(maximum, st, steps), st.nextHandler, Serving(fd))
  {
    hide Possible, Later, Guard, Apply, Newcomer, ThreadsOk, ActiveOk, RecordsOk, StopOk;
    AcceptIs(maximum, st, fd);
    var s1 := Apply(maximum, st, Accept(fd));
    var s2 := Apply(maximum, s1, CheckStop);
    StepKeeps(maximum, st, Accept(fd));
    StepKeeps(maximum, s1, CheckStop);
    var reap := ReapingCanEnd(maximum, s2);
    var s3 := Later(maximum, s2, reap);
    var create := Created(maximum, s3);
    var s4 := Later(maximum, s3, create);
    var first := FirstRequest(maximum, s4, st.nextHandler, fd);
    Concat(maximum, s3, create, first);
    Concat(maximum, s2, reap, create + first);
    StepThen(maximum, s1, CheckStop, reap + (create + first));
    StepThen(maximum, st, Accept(fd), [CheckStop] + (reap + (create + first)));
    steps := [Accept(fd)] + ([CheckStop] + (reap + (create + first)));
  }

  // ----- A stopped server accepts nobody -----

  lemma ListenerStaysClosed(maximum: nat, st: State, step: Step)
    requires Guard(st, step) && !Listening(st)
    ensures !step.Accept? && !Listening(Apply(maximum, st, step))
  {
  }

  /** Once the first stop has closed the listener, nobody connects in any run. */
  lemma {:induction false} NobodyIsAccepted(maximum: nat, st: State, steps: seq<Step>)
    requires Possible(maximum, st, steps) && !Listening(st)
    ensures forall i :: 0 <= i < |steps| ==> !steps[i].Accept?
    decreases |steps|
  {
    hide Guard, Apply, Listening;
    if steps != [] {
      ListenerStaysClosed(maximum, st, steps[0]);
      NobodyIsAccepted(maximum, Apply(maximum, st, steps[0]), steps[1..]);
      assert forall i :: 0 < i < |steps| ==> steps[i] == steps[1..][i - 1];
    }
  }

  // ----- An accepted shutdown stops the server -----

  lemma HandlerStepOwes(st: State, step: Step, h: Hid)
    requires HandlerStep(step) && HandlerGuard(st, step) && h in st.threads && st.threads[h].StopCalled?
    ensures At(ApplyHandler(st, step), h, st.threads[h]) && ApplyHandler(st, step).stop == st.stop
  {
  }

  lemma RunnerStepOwes(maximum: nat, st: State, step: Step, h: Hid)
    requires Invariant(maximum, st) && RunnerGuard(st, step) && h in st.threads
    ensures At(ApplyRunner(maximum, st, step), h, st.threads[h]) && ApplyRunner(maximum, st, step).stop == st.stop
  {
    hide ThreadsOk, ActiveOk, RecordsOk, StopOk, SlotsOk;
  }

  lemma StopStepOwes(maximum: nat, st: State, step: Step, h: Hid)
    requires Invariant(maximum, st) && StopGuard(st, step) && h in st.threads && st.threads[h].StopCalled?
    ensures At(ApplyStop(st, step), h, st.threads[h]) || Stopping(ApplyStop(st, step))
    ensures Stopping(st) ==> Stopping(ApplyStop(st, step))
  {
    hide RunnerOk, ActiveOk, RecordsOk, StopOk, SlotsOk;
  }

  lemma StoppingStays(maximum: nat, st: State, step: Step)
    requires Guard(st, step) && Stopping(st)
    ensures Stopping(Apply(maximum, st, step))
  {
  }

  lemma StepOwes(maximum: nat, st: State, step: Step, h: Hid)
    requires Invariant(maximum, st) && Guard(st, step) && h in st.threads && st.threads[h].StopCalled?
    ensures var next := Apply(maximum, st, step); At(next, h, st.threads[h]) || Stopping(next)
  {
    hide Invariant, HandlerGuard, ApplyHandler, RunnerGuard, ApplyRunner, StopGuard, ApplyStop;
    if HandlerStep(step) {
      HandlerStepOwes(st, step, h);
    } else if PeerStep(step) {
    } else if RunnerGuard(st, step) {
      RunnerStepOwes(maximum, st, step, h);
    } else {
      StopStepOwes(maximum, st, step, h);
    }
  }

  /**
   * The handler that accepted a shutdown goes no further before the server is stopping: whatever happens after it
   * served that request, either it is still about to stop the server or the server was told to stop.
   */
  lemma {:induction false} ShutdownStops(maximum: nat, st: State, steps: seq<Step>, h: Hid, fd: Fd)
    requires Invariant(maximum, st) && Possible(maximum, st, steps) && (At(st, h, StopCalled(fd)) || Stopping(st))
    ensures At(Later(maximum, st, steps), h, StopCalled(fd)) || Stopping(Later(maximum, st, steps))
    decreases |steps|
  {
    hide Invariant, Guard, Apply;
    if steps != [] {
      var next := Apply(maximum, st, steps[0]);
      StepKeeps(maximum, st, steps[0]);
      if Stopping(st) {
        StoppingStays(maximum, st, steps[0]);
      } else {
        StepOwes(maximum, st, steps[0], h);
      }
      ShutdownStops(maximum, next, steps[1..], h, fd);
    }
  }

  lemma ShutdownIsCalled(maximum: nat, st: State, h: Hid, fd: Fd, steps: seq<Step>)
    requires Invariant(maximum, st) && At(st, h, Serving(fd)) && Guard(st, Serve(h, Shutdown))
    requires Possible(maximum, Apply(maximum, st, Serve(h, Shutdown)), steps)
    ensures var later := Later(maximum, Apply(maximum, st, Serve(h, Shutdown)), steps);
            At(later, h, StopCalled(fd)) || Stopping(later)
  {
    hide Invariant, Possible, Later, RunnerGuard, ApplyRunner, StopGuard, ApplyStop;
    StepKeeps(maximum, st, Serve(h, Shutdown));
    ShutdownStops(maximum, Apply(maximum, st, Serve(h, Shutdown)), steps, h, fd);
  }

  // ----- So does a failure of the accept loop -----

  lemma StepOwesStop(maximum: nat, st: State, step: Step)
    requires Guard(st, step) && st.runner.StopNext?
    ensures Apply(maximum, st, step).runner.StopNext? || Stopping(Apply(maximum, st, step))
  {
  }

  lemma {:induction false} RunnerStops(maximum: nat, st: State, steps: seq<Step>)
    requires Possible(maximum, st, steps) && (st.runner.StopNext? || Stopping(st))
    ensures Later(maximum, st, steps).runner.StopNext? || Stopping(Later(maximum, st, steps))
    decreases |steps|
  {
    hide Guard, Apply, Stopping;
    if steps != [] {
      if Stopping(st) {
        StoppingStays(maximum, st, steps[0]);
      } else {
        StepOwesStop(maximum, st, steps[0]);
      }
      RunnerStops(maximum, Apply(maximum, st, steps[0]), steps[1..]);
    }
  }

  /** A step of the accept loop that fails for good: accepting, or creating the handler after its slot was taken. */
  predicate FailsForGood(step: Step) {
    step.AcceptFails? || step == Reserve(false) || step.Undo?
  }

  /** Whatever happens after the accept loop failed for good, it is about to stop the server, or that is stopping. */
  lemma LoopFailureStops(maximum: nat, st: State, step: Step, steps: seq<Step>)
    requires Guard(st, step) && FailsForGood(step) && Possible(maximum, Apply(maximum, st, step), steps)
    ensures var later := Later(maximum, Apply(maximum, st, step), steps);
            later.runner.StopNext? || Stopping(later)
  {
    hide Possible, Later, HandlerGuard, ApplyHandler, ApplyStop;
    RunnerStops(maximum, Apply(maximum, st, step), steps);
  }

  // ----- A connection goes on until it fails -----

  /** After an answered request the handler can come to serve the next one of the same connection. */
  lemma ConnectionGoesOn(maximum: nat, st: State, h: Hid, fd: Fd) returns (steps: seq<Step>)
    requires Newcomer(st, h, Serving(fd))
    ensures steps == [Serve(h, NextRequest)] + ([CheckLoop(h)] + ([PeerSends(fd)] + [Read(h, true)]))
    ensures Possible(maximum, st, steps) && Newcomer(Later(maximum, st, steps), h, Serving(fd))
  {
    hide Possible, Later, Guard, Apply, Newcomer;
    NextRequestIs(maximum, st, h, fd);
    var s1 := Apply(maximum, st, Serve(h, NextRequest));
    NewcomerMoves(maximum, s1, h, LoopHead(fd), CheckLoop(h), Reading(fd));
    var s2 := Apply(maximum, s1, CheckLoop(h));
    NewcomerMoves(maximum, s2, h, Reading(fd), PeerSends(fd), Reading(fd));
    var s3 := Apply(maximum, s2, PeerSends(fd));
    NewcomerMoves(maximum, s3, h, Reading(fd), Read(h, true), Serving(fd));
    OneStep(maximum, s3, Read(h, true));
    StepThen(maximum, s2, PeerSends(fd), [Read(h, true)]);
    StepThen(maximum, s1, CheckLoop(h), [PeerSends(fd)] + [Read(h, true)]);
    StepThen(maximum, st, Serve(h, NextRequest), [CheckLoop(h)] + ([PeerSends(fd)] + [Read(h, true)]));
    steps := [Serve(h, NextRequest)] + ([CheckLoop(h)] + ([PeerSends(fd)] + [Read(h, true)]));
  }

  lemma NextRequestIs(maximum: nat, st: State, h: Hid, fd: Fd)
    requires Newcomer(st, h, Serving(fd))
    ensures Guard(st, Serve(h, NextRequest))
    ensures Newcomer(Apply(maximum, st, Serve(h, NextRequest)), h, LoopHead(fd))
  {
    hide RunnerGuard, ApplyRunner, StopGuard, ApplyStop;
  }

  /** The handler serves no more requests. */
  predicate Gone(st: State, h: Hid) {
    h in st.threads && Distance(st.threads[h]) <= 4
  }

  lemma HandlerStaysGone(st: State, step: Step, h: Hid)
    requires HandlerStep(step) && HandlerGuard(st, step) && Gone(st, h)
    ensures Gone(ApplyHandler(st, step), h)
  {
  }

  lemma StopStaysGone(st: State, step: Step, h: Hid)
    requires StopGuard(st, step) && Gone(st, h)
    ensures Gone(ApplyStop(st, step), h)
  {
  }

  lemma StepStaysGone(maximum: nat, st: State, step: Step, h: Hid)
    requires Invariant(maximum, st) && Guard(st, step) && Gone(st, h)
    ensures Gone(Apply(maximum, st, step), h)
  {
    hide Invariant, HandlerGuard, ApplyHandler, RunnerGuard, ApplyRunner, StopGuard, ApplyStop;
    if HandlerStep(step) {
      HandlerStaysGone(st, step, h);
    } else if PeerStep(step) {
    } else if RunnerGuard(st, step) {
      RunnerStepOwes(maximum, st, step, h);
    } else {
      StopStaysGone(st, step, h);
    }
  }

  lemma {:induction false} RunStaysGone(maximum: nat, st: State, steps: seq<Step>, h: Hid)
    requires Invariant(maximum, st) && Possible(maximum, st, steps) && Gone(st, h)
    ensures Gone(Later(maximum, st, steps), h)
    decreases |steps|
  {
    hide Invariant, Guard, Apply, Gone;
    if steps != [] {
      StepKeeps(maximum, st, steps[0]);
      StepStaysGone(maximum, st, steps[0], h);
      RunStaysGone(maximum, Apply(maximum, st, steps[0]), steps[1..], h);
    }
  }

  /** A handler whose read, registration or answer failed serves nothing more, in any run. */
  lemma FailureEnds(maximum: nat, st: State, step: Step, steps: seq<Step>)
    requires Invariant(maximum, st) && Guard(st, step)
    requires (step.Read? && !step.ok) || (step.Register? && !step.ok) || (step.Serve? && step.next.Failure?)
    requires Possible(maximum, Apply(maximum, st, step), steps)
    ensures Gone(Later(maximum, Apply(maximum, st, step), steps), step.h)
  {
    hide Invariant, Possible, Later, RunnerGuard, ApplyRunner, StopGuard, ApplyStop;
    StepKeeps(maximum, st, step);
    RunStaysGone(maximum, Apply(maximum, st, step), steps, step.h);
  }
}
