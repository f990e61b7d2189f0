/** No descriptor is lost: every open one is on its way to being closed. */
module ServerDescriptors {
  import opened Wire
  import opened Server
  import opened ServerSafety
  import opened ServerShutdown

  /** Somebody will close the descriptor: the accept loop that holds it, or the handler that owns it. */
  predicate Kept(st: State, fd: Fd)
    requires fd in st.open
  {
    match st.open[fd].owner
    case None => RunnerHolds(st.runner) && st.runner.fd == fd
    case Some(h) => h in st.threads && HasDescriptor(st.threads[h]) && st.threads[h].fd == fd
  }

  predicate NoneLost(st: State) {
    forall fd :: fd in st.open ==> Kept(st, fd)
  }

  lemma HandlerLosesNone(maximum: nat, st: State, step: Step)
    requires Invariant(maximum, st) && NoneLost(st) && HandlerStep(step) && HandlerGuard(st, step)
    ensures NoneLost(ApplyHandler(st, step))
  {
    hide ActiveOk, RecordsOk, StopOk, SlotsOk, RunnerOk;
    assert ThreadOk(st, step.h, st.threads[step.h]);
    var next := ApplyHandler(st, step);
    forall fd | fd in next.open ensures Kept(next, fd) {
      assert Kept(st, fd);
    }
  }

  lemma RunnerLosesNone(maximum: nat, st: State, step: Step)
    requires Invariant(maximum, st) && NoneLost(st) && RunnerGuard(st, step)
    ensures NoneLost(ApplyRunner(maximum, st, step))
  {
    hide ActiveOk, RecordsOk, StopOk, SlotsOk, ThreadsOk;
    var next := ApplyRunner(maximum, st, step);
    forall fd | fd in next.open ensures Kept(next, fd) {
      assert fd in st.open ==> Kept(st, fd);
    }
  }

  lemma StopLosesNone(maximum: nat, st: State, step: Step)
    requires Invariant(maximum, st) && NoneLost(st) && StopGuard(st, step)
    ensures NoneLost(ApplyStop(st, step))
  {
    hide ActiveOk, RecordsOk, SlotsOk;
    var next := ApplyStop(st, step);
    forall fd | fd in next.open ensures Kept(next, fd) {
      assert Kept(st, fd);
    }
  }

  lemma PeerLosesNone(st: State, step: Step)
    requires NoneLost(st) && PeerStep(step) && step.fd in st.open
    ensures NoneLost(ApplyPeer(st, step))
  {
    var next := ApplyPeer(st, step);
    forall fd | fd in next.open ensures Kept(next, fd) {
      assert Kept(st, fd);
    }
  }

  lemma StepLosesNone(maximum: nat, st: State, step: Step)
    requires Invariant(maximum, st) && NoneLost(st) && Guard(st, step)
    ensures NoneLost(Apply(maximum, st, step))
  {
    hide Invariant, NoneLost, HandlerGuard, ApplyHandler, RunnerGuard, ApplyRunner, StopGuard, ApplyStop, ApplyPeer;
    if HandlerStep(step) {
      HandlerLosesNone(maximum, st, step);
    } else if PeerStep(step) {
      PeerLosesNone(st, step);
    } else if RunnerGuard(st, step) {
      RunnerLosesNone(maximum, st, step);
    } else {
      StopLosesNone(maximum, st, step);
    }
  }

  /** Over every run no descriptor is lost. */
  lemma {:induction false} RunLosesNone(maximum: nat, st: State, steps: seq<Step>)
    requires Invariant(maximum, st) && NoneLost(st) && Possible(maximum, st, steps)
    ensures NoneLost(Later(maximum, st, steps))
    decreases |steps|
  {
    hide Invariant, NoneLost, Guard, Apply;
    if steps != [] {
      StepKeeps(maximum, st, steps[0]);
      StepLosesNone(maximum, st, steps[0]);
      RunLosesNone(maximum, Apply(maximum, st, steps[0]), steps[1..]);
    }
  }

  /** So a server that was told to stop can be run to an end at which nothing is left open. */
  lemma EverythingIsClosed(maximum: nat, before: seq<Step>) returns (steps: seq<Step>)
    requires Possible(maximum, Initial(), before) && Stopping(Later(maximum, Initial(), before))
    ensures var st := Later(maximum, Initial(), before);
            && Possible(maximum, st, steps) && Unaided(steps)
            && Later(maximum, st, steps).runner.Over? && Later(maximum, st, steps).open == map[]
  {
    hide Possible, Later, Invariant;
    var st := Later(maximum, Initial(), before);
    InitialHolds(maximum);
    RunKeeps(maximum, Initial(), before);
    RunLosesNone(maximum, Initial(), before);
    steps := ShutdownCompletes(maximum, st);
    RunLosesNone(maximum, st, steps);
    NothingIsKept(Later(maximum, st, steps));
  }

  lemma NothingIsKept(st: State)
    requires NoneLost(st) && st.runner.Over? && forall h :: h in st.threads ==> st.threads[h].Exited?
    ensures st.open == map[]
  {
    assert forall fd :: fd in st.open ==> !Kept(st, fd);
  }
}
