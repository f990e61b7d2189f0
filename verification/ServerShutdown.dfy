/** A server that was told to stop can always be run to its end: every handler gone, every record joined. */
module ServerShutdown {
  import opened Wire
  import opened Server
  import opened ServerSafety
  import ServerTables

  /** Nobody connects and no peer does anything: the server ends by itself. */
  ghost predicate Unaided(steps: seq<Step>) {
    forall i :: 0 <= i < |steps| ==> !steps[i].Accept? && !PeerStep(steps[i])
  }

  lemma UnaidedConcat(a: seq<Step>, b: seq<Step>)
    requires Unaided(a) && Unaided(b)
    ensures Unaided(a + b)
  {
  }

  // ----- The sweep ends -----

  lemma SweepCanEnd(maximum: nat, st: State) returns (steps: seq<Step>)
    requires Invariant(maximum, st) && Stopping(st)
    ensures Possible(maximum, st, steps) && Unaided(steps) && Later(maximum, st, steps).stop.Swept?
  {
    hide Possible, Later;
    if st.stop.Won? {
      BeginIs(maximum, st);
      var next := Apply(maximum, st, BeginSweep);
      StepKeeps(maximum, st, BeginSweep);
      var rest := SweepRest(maximum, next);
      StepThen(maximum, st, BeginSweep, rest);
      UnaidedConcat([BeginSweep], rest);
      steps := [BeginSweep] + rest;
    } else if st.stop.Sweeping? {
      steps := SweepRest(maximum, st);
    } else {
      NoSteps(maximum, st);
      steps := [];
    }
  }

  lemma BeginIs(maximum: nat, st: State)
    requires st.stop.Won?
    ensures Guard(st, BeginSweep) && Apply(maximum, st, BeginSweep).stop.Sweeping?
  {
  }

  lemma NoSteps(maximum: nat, st: State)
    ensures Possible(maximum, st, []) && Later(maximum, st, []) == st
  {
  }

  lemma TodoIsOpen(maximum: nat, st: State)
    requires Invariant(maximum, st) && st.stop.Sweeping?
    ensures forall fd :: fd in st.stop.todo ==> fd in st.open
  {
    hide ThreadsOk, RunnerOk, RecordsOk, SlotsOk;
    forall fd | fd in st.stop.todo ensures fd in st.open {
      assert Listed(st, fd);
    }
  }

  lemma SweepRest(maximum: nat, st: State) returns (steps: seq<Step>)
    requires Invariant(maximum, st) && st.stop.Sweeping?
    ensures Possible(maximum, st, steps) && Unaided(steps) && Later(maximum, st, steps).stop.Swept?
  {
    hide Possible, Later, Invariant;
    TodoIsOpen(maximum, st);
    var sweep := ServerTables.SweepIsSteps(maximum, st);
    var swept := Later(maximum, st, sweep);
    OneStep(maximum, swept, EndSweep);
    Concat(maximum, st, sweep, [EndSweep]);
    steps := sweep + [EndSweep];
  }

  // ----- The accept loop ends -----

  /** The steps the accept loop has left before it joins. */
  function RunnerDistance(r: Runner): nat {
    match r
    case Reaping(_, _, rest, _) => 12 + |rest|
    case Checking(_) => 11
    case Reserving(_) => 10
    case Pushing(_, _) => 9
    case Spawning(_, _) => 8
    case Waiting => 7
    case Accepted(_) => 6
    case Undoing(_, _) => 5
    case StopNext => 2
    case StopBusy => 1
    case _ => 0
  }

  /** The accept loop waits to join a handler that has finished but not exited. */
  predicate Blocked(st: State) {
    st.runner.Reaping? && st.runner.rest != [] && st.runner.rest[0] in st.finished && !At(st, st.runner.rest[0], Exited)
  }

  function RunnerStep(st: State): Step {
    match st.runner
    case Waiting => AcceptEnds
    case Accepted(_) => CheckStop
    case Reaping(_, _, rest, _) => if rest == [] then ReapDone else ReapOne
    case Checking(_) => CheckCapacity
    case Reserving(_) => Reserve(true)
    case Pushing(_, _) => Push(true)
    case Spawning(_, _) => Spawn(true)
    case Undoing(_, _) => Undo
    case StopNext => CallStop(Accepting)
    case _ => StopReturns
  }

  lemma RunnerAdvances(maximum: nat, st: State)
    requires Invariant(maximum, st) && st.stop.Swept? && RunnerDistance(st.runner) > 0 && !Blocked(st)
    ensures Guard(st, RunnerStep(st))
    ensures RunnerDistance(Apply(maximum, st, RunnerStep(st)).runner) < RunnerDistance(st.runner)
  {
    hide ThreadsOk, ActiveOk, StopOk, HandlerGuard, ApplyHandler;
    if st.runner.StopNext? || st.runner.StopBusy? {
      hide RunnerGuard, ApplyRunner;
    } else {
      hide StopGuard, ApplyStop;
    }
  }

  /** A handler that has finished is about to give back its slot. */
  lemma BlockedReleases(maximum: nat, st: State)
    requires Invariant(maximum, st) && Blocked(st)
    ensures var h := st.runner.rest[0];
            && Guard(st, Release(h)) && Apply(maximum, st, Release(h)).runner == st.runner
            && !Blocked(Apply(maximum, st, Release(h)))
  {
    hide ActiveOk, StopOk, RunnerGuard, ApplyRunner, StopGuard, ApplyStop;
    var h := st.runner.rest[0];
    assert h in st.records;
    assert ThreadOk(st, h, st.threads[h]);
  }

  lemma {:induction false} RunnerCanEnd(maximum: nat, st: State) returns (steps: seq<Step>)
    requires Invariant(maximum, st) && st.stop.Swept?
    ensures Possible(maximum, st, steps) && Unaided(steps)
    ensures Later(maximum, st, steps).stop.Swept? && RunnerDistance(Later(maximum, st, steps).runner) == 0
    decreases RunnerDistance(st.runner), (if Blocked(st) then 1 else 0)
  {
    hide Possible, Later, Invariant, Guard, Apply, Blocked, RunnerDistance;
    if RunnerDistance(st.runner) == 0 {
      NoSteps(maximum, st);
      steps := [];
    } else {
      var step := RunnerStep(st);
      if Blocked(st) {
        step := BlockedStep(maximum, st);
      } else {
        RunnerAdvances(maximum, st);
      }
      StepKeeps(maximum, st, step);
      SweptStays(maximum, st, step);
      var rest := RunnerCanEnd(maximum, Apply(maximum, st, step));
      StepThen(maximum, st, step, rest);
      UnaidedConcat([step], rest);
      steps := [step] + rest;
    }
  }

  lemma BlockedStep(maximum: nat, st: State) returns (step: Step)
    requires Invariant(maximum, st) && Blocked(st)
    ensures Guard(st, step) && step.Release? && Apply(maximum, st, step).runner == st.runner
    ensures !Blocked(Apply(maximum, st, step))
  {
    hide Invariant, Guard, Apply;
    BlockedReleases(maximum, st);
    step := Release(st.runner.rest[0]);
  }

  // ----- The handlers end -----

  function Live(st: State): set<Hid> {
    set h | h in st.threads && !st.threads[h].Exited?
  }

  /** One handler leaves, the others stay where they are. */
  lemma {:induction false} HandlerDrains(maximum: nat, st: State, h: Hid) returns (steps: seq<Step>)
    requires Invariant(maximum, st) && st.stop.Swept? && h in st.threads
    ensures Possible(maximum, st, steps) && Unaided(steps)
    ensures var later := Later(maximum, st, steps);
            && later.stop.Swept? && later.threads.Keys == st.threads.Keys && later.threads[h].Exited?
            && (forall g :: g in st.threads && g != h ==> later.threads[g] == st.threads[g])
            && later.runner == st.runner && later.records == st.records
    decreases Distance(st.threads[h])
  {
    hide Possible, Later, Invariant, Guard, Apply;
    if st.threads[h].Exited? {
      NoSteps(maximum, st);
      steps := [];
    } else {
      var step := LeavingStep(h, st.threads[h]);
      HandlersCanLeave(maximum, st, h);
      StepKeeps(maximum, st, step);
      SweptStays(maximum, st, step);
      var rest := HandlerDrains(maximum, Apply(maximum, st, step), h);
      StepThen(maximum, st, step, rest);
      UnaidedConcat([step], rest);
      steps := [step] + rest;
    }
  }

  lemma {:induction false} AllDrain(maximum: nat, st: State) returns (steps: seq<Step>)
    requires Invariant(maximum, st) && st.stop.Swept?
    ensures Possible(maximum, st, steps) && Unaided(steps)
    ensures var later := Later(maximum, st, steps);
            later.stop.Swept? && later.runner == st.runner && later.records == st.records && Live(later) == {}
    decreases |Live(st)|
  {
    hide Possible, Later, Invariant;
    if Live(st) == {} {
      NoSteps(maximum, st);
      steps := [];
    } else {
      var h :| h in Live(st);
      var one := HandlerDrains(maximum, st, h);
      var next := Later(maximum, st, one);
      RunKeeps(maximum, st, one);
      assert Live(next) == Live(st) - {h};
      var rest := AllDrain(maximum, next);
      Concat(maximum, st, one, rest);
      UnaidedConcat(one, rest);
      steps := one + rest;
    }
  }

  // ----- Together -----

  lemma JoinIs(maximum: nat, st: State)
    requires Invariant(maximum, st) && st.runner.Joining? && Live(st) == {}
    ensures Guard(st, Join) && Apply(maximum, st, Join) == st.(records := [], runner := Over)
  {
    hide ThreadsOk, ActiveOk, StopOk, SlotsOk, StopGuard, ApplyStop, HandlerGuard, ApplyHandler;
    forall h | h in st.records ensures At(st, h, Exited) {
      assert h in st.threads && h !in Live(st);
    }
  }

  /**
   * Joining ends: from every reachable state in which stop was called, at whatever stage the sweep, the accept loop and
   * the handlers are, the server can be run to its end, where the accept loop is over and every handler has exited.
   */
  lemma ShutdownCompletes(maximum: nat, st: State) returns (steps: seq<Step>)
    requires Invariant(maximum, st) && Stopping(st)
    ensures Possible(maximum, st, steps) && Unaided(steps)
    ensures var later := Later(maximum, st, steps);
            later.runner == Over && forall h :: h in later.threads ==> later.threads[h].Exited?
  {
    hide Possible, Later, Invariant, Guard, Apply;
    var s1 := SweepCanEnd(maximum, st);
    var st1 := Later(maximum, st, s1);
    RunKeeps(maximum, st, s1);
    var s2 := RunnerCanEnd(maximum, st1);
    var st2 := Later(maximum, st1, s2);
    RunKeeps(maximum, st1, s2);
    var s3 := AllDrain(maximum, st2);
    var st3 := Later(maximum, st2, s3);
    RunKeeps(maximum, st2, s3);
    Concat(maximum, st, s1, s2);
    Concat(maximum, st, s1 + s2, s3);
    UnaidedConcat(s1, s2);
    UnaidedConcat(s1 + s2, s3);
    steps := s1 + s2 + s3;
    forall h | h in st3.threads ensures st3.threads[h].Exited? {
      assert h !in Live(st3);
    }
    if st3.runner.Joining? {
      JoinIs(maximum, st3);
      OneStep(maximum, st3, Join);
      Concat(maximum, st, steps, [Join]);
      UnaidedConcat(steps, [Join]);
      steps := steps + [Join];
    }
  }
}
