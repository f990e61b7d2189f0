/** What every reachable state of the server satisfies, and what that means for stopping and for capacity. */
module ServerSafety {
  import opened Wire
  import opened Server

  // ----- The invariant -----

  predicate Distinct(s: seq<Hid>) {
    forall i, j :: 0 <= i < j < |s| ==> s[i] != s[j]
  }

  /** A handler owns its descriptor; it is listed while it is registered; it holds a slot until it exits. */
  predicate ThreadOk(st: State, h: Hid, k: Thread) {
    && (HasDescriptor(k) ==>
          k.fd in st.open && st.open[k.fd].owner == Some(h) && (Registered(k) <==> k.fd in st.active))
    && (h in st.holding <==> !k.Exited?)
    && (h in st.finished <==> k.Releasing? || k.Exited?)
    && h < st.nextHandler
    && (k.Reading? && st.stop.Swept? ==> st.open[k.fd].shut)
    && (k.StopWorking? ==> Stopping(st) && st.stop.who == Handling(h))
  }

  predicate ThreadsOk(st: State) {
    forall h :: h in st.threads ==> ThreadOk(st, h, st.threads[h])
  }

  /** A listed descriptor is open and belongs to a handler that registered it. */
  predicate Listed(st: State, fd: Fd) {
    && fd in st.open && st.open[fd].owner.Some? && st.open[fd].owner.value in st.threads
    && Registered(st.threads[st.open[fd].owner.value]) && st.threads[st.open[fd].owner.value].fd == fd
  }

  predicate ActiveOk(st: State) {
    forall fd :: fd in st.active ==> Listed(st, fd)
  }

  /** The handler that the accept loop is creating. */
  predicate Creating(r: Runner) {
    r.Pushing? || r.Spawning? || r.Undoing?
  }

  predicate RunnerOk(maximum: nat, st: State) {
    var r := st.runner;
    && (RunnerHolds(r) ==> r.fd in st.open && st.open[r.fd].owner == None)
    && (Creating(r) ==> r.h in st.holding && r.h !in st.threads && r.h < st.nextHandler && r.h !in st.finished)
    && (r.Reaping? ==>
          && st.records == r.kept + r.rest && (forall h :: h in r.kept ==> h in r.held)
          && st.holding <= r.held && |r.held| <= maximum)
    && (r.Reserving? ==> st.activeHandlers < maximum)
    && |st.records| <= maximum + 1
    && (r.Checking? || r.Reserving? || r.Pushing? || r.Undoing? ==> |st.records| <= maximum)
    && (r.Spawning? ==> st.records != [] && st.records[|st.records| - 1] == r.h)
    && (r.StopBusy? ==> Stopping(st) && st.stop.who == Accepting)
  }

  /** Every retained record belongs to a handler, or to the one being created. */
  predicate RecordsOk(st: State) {
    && Distinct(st.records)
    && (forall h :: h in st.records ==> h in st.threads || (st.runner.Spawning? && h == st.runner.h))
  }

  predicate SlotsOk(maximum: nat, st: State) {
    && st.activeHandlers == |st.holding| <= maximum
    && (forall h :: h in st.holding ==> h in st.threads || (Creating(st.runner) && h == st.runner.h))
    && (forall h :: h in st.finished ==> h in st.threads)
  }

  predicate StopOk(st: State) {
    st.stop.Sweeping? ==>
      && st.stop.todo <= st.active
      && (forall fd :: fd in st.active ==> fd in st.stop.todo || (fd in st.open && st.open[fd].shut))
  }

  predicate Invariant(maximum: nat, st: State) {
    && ThreadsOk(st) && ActiveOk(st) && RunnerOk(maximum, st) && RecordsOk(st) && SlotsOk(maximum, st) && StopOk(st)
    && st.fault == NoFault
  }

  lemma InitialHolds(maximum: nat)
    ensures Invariant(maximum, Initial())
  {
  }

  // ----- Handlers -----

  /** A handler step touches its own thread, descriptor, slot and listing, and nothing else. */
  lemma HandlerStepKeeps(maximum: nat, st: State, step: Step)
    requires Invariant(maximum, st) && HandlerStep(step) && HandlerGuard(st, step)
    ensures Invariant(maximum, ApplyHandler(st, step))
  {
    var next := ApplyHandler(st, step);
    assert ThreadOk(st, step.h, st.threads[step.h]);
    HandlerThreads(maximum, st, step);
    HandlerActive(maximum, st, step);
    HandlerRest(maximum, st, step);
  }

  lemma HandlerThreads(maximum: nat, st: State, step: Step)
    requires Invariant(maximum, st) && HandlerStep(step) && HandlerGuard(st, step)
    ensures ThreadsOk(ApplyHandler(st, step)) && ApplyHandler(st, step).fault == NoFault
  {
    hide RunnerOk, RecordsOk, StopOk;
    var next := ApplyHandler(st, step);
    assert ThreadOk(st, step.h, st.threads[step.h]);
    forall h | h in next.threads ensures ThreadOk(next, h, next.threads[h]) {
      assert ThreadOk(st, h, st.threads[h]);
    }
  }

  lemma HandlerActive(maximum: nat, st: State, step: Step)
    requires Invariant(maximum, st) && HandlerStep(step) && HandlerGuard(st, step)
    ensures ActiveOk(ApplyHandler(st, step)) && StopOk(ApplyHandler(st, step))
  {
    hide RunnerOk, RecordsOk, SlotsOk;
    var next := ApplyHandler(st, step);
    assert ThreadOk(st, step.h, st.threads[step.h]);
    forall fd | fd in next.active ensures Listed(next, fd) {
      assert fd in st.active ==> Listed(st, fd);
    }
  }

  lemma HandlerRest(maximum: nat, st: State, step: Step)
    requires Invariant(maximum, st) && HandlerStep(step) && HandlerGuard(st, step)
    ensures RunnerOk(maximum, ApplyHandler(st, step)) && RecordsOk(ApplyHandler(st, step))
    ensures SlotsOk(maximum, ApplyHandler(st, step))
  {
    hide ActiveOk, StopOk;
    assert ThreadOk(st, step.h, st.threads[step.h]);
  }

  // ----- The accept loop -----

  /** What a thread relies on, apart from its own entry. */
  predicate SameForThreads(a: State, b: State) {
    a.active == b.active && a.finished == b.finished && a.stop == b.stop && a.nextHandler <= b.nextHandler
  }

  lemma ThreadStays(st: State, next: State, h: Hid, k: Thread)
    requires ThreadOk(st, h, k) && SameForThreads(st, next) && (h in st.holding <==> h in next.holding)
    requires HasDescriptor(k) ==> k.fd in next.open && next.open[k.fd] == st.open[k.fd]
    ensures ThreadOk(next, h, k)
  {
  }

  /** Except for a new thread, the accept loop touches no handler, nor its descriptor or slot. */
  lemma RunnerTouchesNoThread(maximum: nat, st: State, step: Step, h: Hid)
    requires Invariant(maximum, st) && RunnerGuard(st, step) && h in st.threads
    ensures var next := ApplyRunner(maximum, st, step); var k := st.threads[h];
            && SameForThreads(st, next) && At(next, h, k) && (h in st.holding <==> h in next.holding)
            && (HasDescriptor(k) ==> k.fd in next.open && next.open[k.fd] == st.open[k.fd])
  {
    hide RecordsOk, StopOk, ActiveOk, SlotsOk, ThreadsOk;
    assert ThreadOk(st, h, st.threads[h]) by { OneThread(st, h); }
  }

  lemma OneThread(st: State, h: Hid)
    requires ThreadsOk(st) && h in st.threads
    ensures ThreadOk(st, h, st.threads[h])
  {
  }

  lemma SpawnThread(maximum: nat, st: State, step: Step, h: Hid)
    requires Invariant(maximum, st) && RunnerGuard(st, step)
    requires h !in st.threads && h in ApplyRunner(maximum, st, step).threads
    ensures ThreadOk(ApplyRunner(maximum, st, step), h, ApplyRunner(maximum, st, step).threads[h])
  {
    hide RecordsOk, StopOk, SlotsOk, ThreadsOk;
    assert step.Spawn? && h == st.runner.h;
    assert st.runner.fd in st.active ==> Listed(st, st.runner.fd);
  }

  lemma RunnerThreads(maximum: nat, st: State, step: Step)
    requires Invariant(maximum, st) && RunnerGuard(st, step)
    ensures ThreadsOk(ApplyRunner(maximum, st, step)) && ApplyRunner(maximum, st, step).fault == NoFault
  {
    hide RecordsOk, StopOk, ActiveOk, RunnerGuard, ApplyRunner;
    var next := ApplyRunner(maximum, st, step);
    forall h | h in next.threads ensures ThreadOk(next, h, next.threads[h]) {
      if h in st.threads {
        RunnerTouchesNoThread(maximum, st, step, h);
        ThreadStays(st, next, h, st.threads[h]);
      } else {
        SpawnThread(maximum, st, step, h);
      }
    }
    RunnerNoFault(maximum, st, step);
  }

  lemma RunnerNoFault(maximum: nat, st: State, step: Step)
    requires Invariant(maximum, st) && RunnerGuard(st, step)
    ensures ApplyRunner(maximum, st, step).fault == NoFault
  {
    hide RecordsOk, StopOk, ActiveOk, ThreadsOk;
    assert Creating(st.runner) ==> st.runner.h in st.holding;
  }

  lemma RunnerActive(maximum: nat, st: State, step: Step)
    requires Invariant(maximum, st) && RunnerGuard(st, step)
    ensures ActiveOk(ApplyRunner(maximum, st, step)) && StopOk(ApplyRunner(maximum, st, step))
  {
    hide RecordsOk, ThreadsOk;
    var next := ApplyRunner(maximum, st, step);
    forall fd | fd in next.active ensures Listed(next, fd) {
      assert Listed(st, fd);
    }
    assert next.active == st.active && next.stop == st.stop;
    forall fd | fd in next.active && next.stop.Sweeping?
      ensures fd in next.stop.todo || (fd in next.open && next.open[fd].shut)
    {
      assert Listed(st, fd);
    }
  }

  lemma RunnerSlots(maximum: nat, st: State, step: Step)
    requires Invariant(maximum, st) && RunnerGuard(st, step)
    ensures SlotsOk(maximum, ApplyRunner(maximum, st, step))
  {
    hide Invariant, SlotsOk, RunnerGuard, ApplyRunner;
    match step
    case Reserve(ok) => ReserveSlots(maximum, st, ok);
    case Undo => UndoSlots(maximum, st);
    case _ => OtherSlots(maximum, st, step);
  }

  lemma ReserveSlots(maximum: nat, st: State, ok: bool)
    requires Invariant(maximum, st) && RunnerGuard(st, Reserve(ok))
    ensures SlotsOk(maximum, ApplyRunner(maximum, st, Reserve(ok)))
  {
    hide RecordsOk, ActiveOk, StopOk, ThreadsOk;
    NextIsFresh(maximum, st);
  }

  lemma UndoSlots(maximum: nat, st: State)
    requires Invariant(maximum, st) && RunnerGuard(st, Undo)
    ensures SlotsOk(maximum, ApplyRunner(maximum, st, Undo))
  {
    hide RecordsOk, ActiveOk, StopOk, ThreadsOk;
    assert st.runner.h in st.holding;
  }

  lemma OtherSlots(maximum: nat, st: State, step: Step)
    requires Invariant(maximum, st) && RunnerGuard(st, step) && !step.Reserve? && !step.Undo?
    ensures SlotsOk(maximum, ApplyRunner(maximum, st, step))
  {
    hide RecordsOk, ActiveOk, StopOk, ThreadsOk;
  }

  lemma NextIsFresh(maximum: nat, st: State)
    requires Invariant(maximum, st)
    ensures st.nextHandler !in st.threads && st.nextHandler !in st.holding
  {
    hide RecordsOk, ActiveOk, StopOk;
  }

  lemma {:induction false} DistinctFits(s: seq<Hid>, held: set<Hid>)
    requires Distinct(s) && forall h :: h in s ==> h in held
    ensures |s| <= |held|
  {
    if s != [] {
      assert forall h :: h in s[1..] ==> h in s && h != s[0];
      assert s[0] in held;
      DistinctFits(s[1..], held - {s[0]});
    }
  }

  /** A record that survives a reaping was unfinished when it was looked at, so its handler held a slot throughout. */
  lemma RunnerRecords(maximum: nat, st: State, step: Step)
    requires Invariant(maximum, st) && RunnerGuard(st, step) && (step.ReapOne? || step.ReapDone?)
    ensures RunnerOk(maximum, ApplyRunner(maximum, st, step)) && RecordsOk(ApplyRunner(maximum, st, step))
  {
    hide ActiveOk, StopOk;
    var r := st.runner;
    var next := ApplyRunner(maximum, st, step);
    if step.ReapOne? {
      var h := r.rest[0];
      assert r.rest == [h] + r.rest[1..];
      assert h in st.records;
      assert ThreadOk(st, h, st.threads[h]);
      if h in st.finished {
        DropOne(r.kept, h, r.rest[1..]);
      } else {
        assert (r.kept + [h]) + r.rest[1..] == r.kept + r.rest;
      }
    } else {
      assert r.kept + [] == r.kept;
      DistinctFits(r.kept, r.held);
    }
  }

  lemma DropOne(a: seq<Hid>, h: Hid, b: seq<Hid>)
    requires Distinct(a + ([h] + b))
    ensures Distinct(a + b) && forall x :: x in a + b ==> x in a + ([h] + b)
  {
    var s, t := a + ([h] + b), a + b;
    forall i, j | 0 <= i < j < |t| ensures t[i] != t[j] {
      assert t[i] == s[if i < |a| then i else i + 1] && t[j] == s[if j < |a| then j else j + 1];
    }
  }

  predicate CreatingStep(step: Step) {
    step.Reserve? || step.Push? || step.Spawn? || step.Undo?
  }

  lemma ReserveKeeps(maximum: nat, st: State, ok: bool)
    requires Invariant(maximum, st) && RunnerGuard(st, Reserve(ok))
    ensures var next := ApplyRunner(maximum, st, Reserve(ok)); RunnerOk(maximum, next) && RecordsOk(next)
  {
    hide ActiveOk, StopOk;
    assert st.nextHandler in st.threads ==> ThreadOk(st, st.nextHandler, st.threads[st.nextHandler]);
  }

  lemma PushKeeps(maximum: nat, st: State, ok: bool)
    requires Invariant(maximum, st) && RunnerGuard(st, Push(ok))
    ensures var next := ApplyRunner(maximum, st, Push(ok)); RunnerOk(maximum, next) && RecordsOk(next)
  {
    hide ActiveOk, StopOk, ThreadsOk, SlotsOk;
    assert st.runner.h !in st.records;
  }

  lemma SpawnKeeps(maximum: nat, st: State, ok: bool)
    requires Invariant(maximum, st) && RunnerGuard(st, Spawn(ok))
    ensures var next := ApplyRunner(maximum, st, Spawn(ok)); RunnerOk(maximum, next) && RecordsOk(next)
  {
    hide ActiveOk, StopOk, ThreadsOk, SlotsOk;
    var n := |st.records| - 1;
    assert st.records == st.records[..n] + [st.records[n]];
    assert st.records[n] == st.runner.h && Distinct(st.records[..n]);
    assert forall h :: h in st.records[..n] ==> h in st.records && h != st.records[n];
  }

  lemma UndoKeeps(maximum: nat, st: State)
    requires Invariant(maximum, st) && RunnerGuard(st, Undo)
    ensures var next := ApplyRunner(maximum, st, Undo); RunnerOk(maximum, next) && RecordsOk(next)
  {
    hide ActiveOk, StopOk, ThreadsOk;
  }

  lemma RunnerWaits(maximum: nat, st: State, step: Step)
    requires Invariant(maximum, st) && RunnerGuard(st, step) && !CreatingStep(step) && !step.ReapOne? && !step.ReapDone?
    ensures RunnerOk(maximum, ApplyRunner(maximum, st, step)) && RecordsOk(ApplyRunner(maximum, st, step))
  {
    hide ActiveOk, StopOk, ThreadsOk;
    if step.CheckStop? {
      assert [] + st.records == st.records;
    }
  }

  lemma RunnerStepKeeps(maximum: nat, st: State, step: Step)
    requires Invariant(maximum, st) && RunnerGuard(st, step)
    ensures Invariant(maximum, ApplyRunner(maximum, st, step))
  {
    hide ThreadsOk, ActiveOk, StopOk, SlotsOk, RunnerOk, RecordsOk;
    RunnerThreads(maximum, st, step);
    RunnerActive(maximum, st, step);
    RunnerSlots(maximum, st, step);
    if step.ReapOne? || step.ReapDone? {
      RunnerRecords(maximum, st, step);
    } else if CreatingStep(step) {
      match step
      case Reserve(ok) => ReserveKeeps(maximum, st, ok);
      case Push(ok) => PushKeeps(maximum, st, ok);
      case Spawn(ok) => SpawnKeeps(maximum, st, ok);
      case Undo => UndoKeeps(maximum, st);
    } else {
      RunnerWaits(maximum, st, step);
    }
  }

  // ----- Stopping -----

  lemma StopThreads(maximum: nat, st: State, step: Step)
    requires Invariant(maximum, st) && StopGuard(st, step)
    ensures ThreadsOk(ApplyStop(st, step)) && ApplyStop(st, step).fault == NoFault
  {
    hide RunnerOk, RecordsOk, SlotsOk;
    var next := ApplyStop(st, step);
    if step.SweepOne? {
      assert Listed(st, step.fd);
    }
    forall h | h in next.threads ensures ThreadOk(next, h, next.threads[h]) {
      assert ThreadOk(st, h, st.threads[h]);
    }
  }

  lemma StopActive(maximum: nat, st: State, step: Step)
    requires Invariant(maximum, st) && StopGuard(st, step)
    ensures ActiveOk(ApplyStop(st, step)) && StopOk(ApplyStop(st, step))
  {
    hide RunnerOk, RecordsOk, SlotsOk, ThreadsOk;
    var next := ApplyStop(st, step);
    if step.SweepOne? {
      assert Listed(st, step.fd);
    }
    forall fd | fd in next.active ensures Listed(next, fd) {
      assert Listed(st, fd);
    }
  }

  lemma StopRest(maximum: nat, st: State, step: Step)
    requires Invariant(maximum, st) && StopGuard(st, step)
    ensures RunnerOk(maximum, ApplyStop(st, step)) && RecordsOk(ApplyStop(st, step))
    ensures SlotsOk(maximum, ApplyStop(st, step))
  {
    hide ThreadsOk;
    if step.SweepOne? {
      assert Listed(st, step.fd);
    }
  }

  // ----- Peers -----

  /** What a peer does to its end changes no owner and shuts nothing down. */
  lemma PeerStepKeeps(maximum: nat, st: State, step: Step)
    requires Invariant(maximum, st) && PeerStep(step) && step.fd in st.open
    ensures Invariant(maximum, ApplyPeer(st, step))
  {
    var next := ApplyPeer(st, step);
    assert forall fd :: fd in st.open ==>
        fd in next.open && next.open[fd].owner == st.open[fd].owner && next.open[fd].shut == st.open[fd].shut;
    forall h | h in next.threads ensures ThreadOk(next, h, next.threads[h]) {
      assert ThreadOk(st, h, st.threads[h]);
    }
    forall fd | fd in next.active ensures Listed(next, fd) {
      assert Listed(st, fd);
    }
  }

  // ----- Every step, every run -----

  /** The invariant is inductive. */
  lemma StepKeeps(maximum: nat, st: State, step: Step)
    requires Invariant(maximum, st) && Guard(st, step)
    ensures Invariant(maximum, Apply(maximum, st, step))
  {
    hide ThreadsOk, ActiveOk, StopOk, SlotsOk, RunnerOk, RecordsOk, HandlerGuard, RunnerGuard, StopGuard, ApplyHandler,
         ApplyRunner, ApplyStop, ApplyPeer;
    if HandlerStep(step) {
      HandlerStepKeeps(maximum, st, step);
    } else if PeerStep(step) {
      PeerStepKeeps(maximum, st, step);
    } else if RunnerGuard(st, step) {
      RunnerStepKeeps(maximum, st, step);
    } else {
      StopThreads(maximum, st, step);
      StopActive(maximum, st, step);
      StopRest(maximum, st, step);
    }
  }

  predicate Possible(maximum: nat, st: State, steps: seq<Step>)
    decreases |steps|
  {
    steps == [] || (Guard(st, steps[0]) && Possible(maximum, Apply(maximum, st, steps[0]), steps[1..]))
  }

  function Later(maximum: nat, st: State, steps: seq<Step>): State
    requires Possible(maximum, st, steps)
    decreases |steps|
  {
    if steps == [] then st else Later(maximum, Apply(maximum, st, steps[0]), steps[1..])
  }

  lemma {:induction false} RunKeeps(maximum: nat, st: State, steps: seq<Step>)
    requires Invariant(maximum, st) && Possible(maximum, st, steps)
    ensures Invariant(maximum, Later(maximum, st, steps))
    decreases |steps|
  {
    hide Invariant, Guard, Apply;
    if steps != [] {
      StepKeeps(maximum, st, steps[0]);
      RunKeeps(maximum, Apply(maximum, st, steps[0]), steps[1..]);
    }
  }

  /** Runs can be put together. */
  lemma {:induction false} Concat(maximum: nat, st: State, a: seq<Step>, b: seq<Step>)
    requires Possible(maximum, st, a) && Possible(maximum, Later(maximum, st, a), b)
    ensures Possible(maximum, st, a + b) && Later(maximum, st, a + b) == Later(maximum, Later(maximum, st, a), b)
    decreases |a|
  {
    hide Guard, Apply;
    if a == [] {
      assert a + b == b;
    } else {
      Concat(maximum, Apply(maximum, st, a[0]), a[1..], b);
      assert (a + b)[1..] == a[1..] + b;
    }
  }

  lemma OneStep(maximum: nat, st: State, step: Step)
    requires Guard(st, step)
    ensures Possible(maximum, st, [step]) && Later(maximum, st, [step]) == Apply(maximum, st, step)
  {
    hide Guard, Apply;
    assert [step][1..] == [];
    assert Possible(maximum, Apply(maximum, st, step), []);
  }

  /** A step, and a run from where it leads. */
  lemma StepThen(maximum: nat, st: State, step: Step, rest: seq<Step>)
    requires Guard(st, step) && Possible(maximum, Apply(maximum, st, step), rest)
    ensures Possible(maximum, st, [step] + rest)
    ensures Later(maximum, st, [step] + rest) == Later(maximum, Apply(maximum, st, step), rest)
  {
    hide Guard, Apply;
    assert ([step] + rest)[1..] == rest;
  }

  // ----- Stopping reaches every reader -----

  /** The sweep only ever shuts down descriptors that are open and still belong to the handler that listed them. */
  lemma SweepHitsOwned(maximum: nat, st: State, fd: Fd)
    requires Invariant(maximum, st) && Guard(st, SweepOne(fd))
    ensures Listed(st, fd) && Apply(maximum, st, SweepOne(fd)).open == st.open[fd := st.open[fd].(shut := true)]
  {
    hide ThreadsOk, RunnerOk, RecordsOk, SlotsOk;
    assert Listed(st, fd);
  }

  /** Once a stop has begun, nobody starts to read. */
  lemma NobodyStartsReading(maximum: nat, st: State, step: Step, h: Hid)
    requires Guard(st, step) && Stopping(st) && h in Apply(maximum, st, step).threads
    requires Apply(maximum, st, step).threads[h].Reading?
    ensures At(st, h, Apply(maximum, st, step).threads[h])
  {
    if HandlerStep(step) {
      hide RunnerGuard, ApplyRunner, StopGuard, ApplyStop;
    } else if RunnerGuard(st, step) {
      hide HandlerGuard, ApplyHandler, StopGuard, ApplyStop;
    } else {
      hide HandlerGuard, ApplyHandler, ApplyRunner;
    }
  }

  lemma SweptStays(maximum: nat, st: State, step: Step)
    requires Guard(st, step) && st.stop.Swept?
    ensures Apply(maximum, st, step).stop == st.stop
  {
  }

  /**
   * After the sweep, in every later state, whoever reads was reading before and reads from a descriptor that was shut
   * down.
   */
  lemma {:induction false} ReadersWereInterrupted(maximum: nat, st: State, steps: seq<Step>, h: Hid)
    requires Invariant(maximum, st) && st.stop.Swept? && Possible(maximum, st, steps)
    requires h in Later(maximum, st, steps).threads && Later(maximum, st, steps).threads[h].Reading?
    ensures var later := Later(maximum, st, steps); var k := later.threads[h];
            At(st, h, k) && k.fd in later.open && later.open[k.fd].owner == Some(h) && later.open[k.fd].shut
    decreases |steps|
  {
    hide Guard, Apply, RunnerOk, RecordsOk, SlotsOk, ActiveOk, StopOk;
    if steps == [] {
      assert ThreadOk(st, h, st.threads[h]);
    } else {
      var next := Apply(maximum, st, steps[0]);
      StepKeeps(maximum, st, steps[0]);
      SweptStays(maximum, st, steps[0]);
      ReadersWereInterrupted(maximum, next, steps[1..], h);
      NobodyStartsReading(maximum, st, steps[0], h);
    }
  }

  /** How far a handler is from its exit, once a stop has begun. */
  function Distance(k: Thread): nat {
    match k
    case Exited => 0
    case Releasing => 1
    case Finishing => 2
    case Closing(_) => 3
    case Leaving(_) => 4
    case StopCalled(_) => 5
    case StopWorking(_) => 5
    case LoopHead(_) => 6
    case Serving(_) => 7
    case Reading(_) => 8
    case Starting(_) => 9
  }

  lemma HandlersOnlyLeave(maximum: nat, st: State, step: Step, h: Hid)
    requires Invariant(maximum, st) && Guard(st, step) && Stopping(st) && h in st.threads
    ensures h in Apply(maximum, st, step).threads
    ensures Distance(Apply(maximum, st, step).threads[h]) <= Distance(st.threads[h])
  {
    hide ThreadsOk, ActiveOk, RecordsOk, SlotsOk, StopOk;
    if HandlerStep(step) {
      hide RunnerGuard, ApplyRunner, StopGuard, ApplyStop, RunnerOk;
    } else if RunnerGuard(st, step) {
      hide HandlerGuard, ApplyHandler, StopGuard, ApplyStop;
    } else {
      hide HandlerGuard, ApplyHandler, ApplyRunner, RunnerOk;
    }
  }

  /** What a handler does next on its way out, once the sweep is over. */
  function LeavingStep(h: Hid, k: Thread): Step
    requires !k.Exited?
  {
    match k
    case Starting(_) => Register(h, true)
    case LoopHead(_) => CheckLoop(h)
    case Reading(_) => Read(h, false)
    case Serving(_) => Serve(h, NextRequest)
    case StopCalled(_) => CallStop(Handling(h))
    case StopWorking(_) => StopReturns
    case Leaving(_) => Unregister(h)
    case Closing(_) => Close(h)
    case Finishing => Finish(h)
    case Releasing => Release(h)
  }

  /**
   * After the sweep every handler can go on towards its exit by itself: a reader because its descriptor was shut down,
   * which is what lets its read return.
   */
  lemma HandlersCanLeave(maximum: nat, st: State, h: Hid)
    requires Invariant(maximum, st) && st.stop.Swept? && h in st.threads && !st.threads[h].Exited?
    ensures var step := LeavingStep(h, st.threads[h]);
            && Guard(st, step)
            && var next := Apply(maximum, st, step);
               && next.threads.Keys == st.threads.Keys && Distance(next.threads[h]) < Distance(st.threads[h])
               && (forall g :: g in st.threads && g != h ==> next.threads[g] == st.threads[g])
               && next.runner == st.runner && next.records == st.records
  {
    hide ActiveOk, RecordsOk, SlotsOk, StopOk, RunnerOk;
    assert ThreadOk(st, h, st.threads[h]);
    if st.threads[h].StopCalled? || st.threads[h].StopWorking? {
      hide HandlerGuard, ApplyHandler, ApplyRunner;
    } else {
      hide RunnerGuard, ApplyRunner, StopGuard, ApplyStop;
    }
  }

  // ----- Slots and records -----

  /** Handlers never outnumber the slots, and at most one record more than that is retained. */
  lemma CapacityHolds(maximum: nat, steps: seq<Step>)
    requires Possible(maximum, Initial(), steps)
    ensures var st := Later(maximum, Initial(), steps);
            && st.activeHandlers <= maximum && st.activeHandlers == |st.holding| && |st.records| <= maximum + 1
            && st.fault == NoFault
  {
    hide Possible, Later;
    InitialHolds(maximum);
    RunKeeps(maximum, Initial(), steps);
  }

  /** A slot that was given back stays free. */
  lemma SlotStaysFree(maximum: nat, st: State, step: Step, h: Hid)
    requires Guard(st, step) && h < st.nextHandler && h !in st.holding
    ensures h !in Apply(maximum, st, step).holding && h < Apply(maximum, st, step).nextHandler
  {
    if HandlerStep(step) {
      hide RunnerGuard, ApplyRunner, StopGuard, ApplyStop;
    } else if RunnerGuard(st, step) {
      hide HandlerGuard, ApplyHandler, StopGuard, ApplyStop;
    } else {
      hide HandlerGuard, ApplyHandler, ApplyRunner;
    }
  }

  /** The step gives back the slot of `h`: at the handler's end, or because it could not be created. */
  predicate GivesBack(st: State, step: Step, h: Hid) {
    step == Release(h) || (step.Undo? && st.runner.Undoing? && st.runner.h == h)
  }

  function Releases(maximum: nat, st: State, steps: seq<Step>, h: Hid): nat
    requires Possible(maximum, st, steps)
    decreases |steps|
  {
    if steps == [] then 0
    else (if GivesBack(st, steps[0], h) then 1 else 0) + Releases(maximum, Apply(maximum, st, steps[0]), steps[1..], h)
  }

  lemma GivingBackFrees(maximum: nat, st: State, step: Step, h: Hid)
    requires Invariant(maximum, st) && Guard(st, step) && GivesBack(st, step, h)
    ensures h in st.holding && h < st.nextHandler
    ensures h !in Apply(maximum, st, step).holding && h < Apply(maximum, st, step).nextHandler
  {
    hide ActiveOk, RecordsOk, StopOk;
    if step.Release? {
      hide RunnerGuard, ApplyRunner, StopGuard, ApplyStop;
      assert ThreadOk(st, h, st.threads[h]);
    } else {
      hide HandlerGuard, ApplyHandler, StopGuard, ApplyStop;
    }
  }

  /** Over every run each slot is given back at most once; one that was given back before, never. */
  lemma {:induction false} SlotIsReleasedOnce(maximum: nat, st: State, steps: seq<Step>, h: Hid)
    requires Invariant(maximum, st) && Possible(maximum, st, steps)
    ensures Releases(maximum, st, steps, h) <= if h < st.nextHandler && h !in st.holding then 0 else 1
    decreases |steps|
  {
    hide Invariant, Guard, Apply, GivesBack;
    if steps != [] {
      StepKeeps(maximum, st, steps[0]);
      if GivesBack(st, steps[0], h) {
        GivingBackFrees(maximum, st, steps[0], h);
      } else if h < st.nextHandler && h !in st.holding {
        SlotStaysFree(maximum, st, steps[0], h);
      }
      SlotIsReleasedOnce(maximum, Apply(maximum, st, steps[0]), steps[1..], h);
    }
  }
}
