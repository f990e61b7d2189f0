/**
 * The server's threads as a step machine: the accept loop, one handler per connection, and anybody who calls stop.
 * `connections_mutex` is held across steps only by the sweep of the first stop.
 */
module Server {
  import opened Wire

  type Fd = nat
  type Hid = nat

  /**
   * Who owns an open descriptor, whether it was shut down for reading and writing, how many frames have arrived that
   * were not read, and whether the peer has closed its end.
   */
  datatype Descriptor = Descriptor(owner: Option<Hid>, shut: bool, arrived: nat, ended: bool)

  datatype Actor = Handling(h: Hid) | Accepting | Outside

  /** The first stop: not called, past the exchange, sweeping under the mutex, done. */
  datatype Stop = Up | Won(who: Actor) | Sweeping(who: Actor, todo: set<Fd>) | Swept(who: Actor)

  /** A handler thread. */
  datatype Thread =
    | Starting(fd: Fd) | LoopHead(fd: Fd) | Reading(fd: Fd) | Serving(fd: Fd) | StopCalled(fd: Fd) | StopWorking(fd: Fd)
    | Leaving(fd: Fd) | Closing(fd: Fd) | Finishing | Releasing | Exited

  /** The thread that runs the accept loop. */
  datatype Runner =
    | Waiting | Accepted(fd: Fd) | Reaping(fd: Fd, kept: seq<Hid>, rest: seq<Hid>, held: set<Hid>) | Checking(fd: Fd)
    | Reserving(fd: Fd) | Pushing(fd: Fd, h: Hid) | Spawning(fd: Fd, h: Hid) | Undoing(fd: Fd, h: Hid)
    | StopNext | StopBusy | Joining | Over

  /** Outcomes the source counts on never happening. */
  datatype Fault = NoFault | DescriptorTaken | SweptClosed | SlotUnderflow

  datatype State = State(
    stop: Stop, open: map<Fd, Descriptor>, active: set<Fd>,
    records: seq<Hid>, finished: set<Hid>, holding: set<Hid>, activeHandlers: nat,
    threads: map<Hid, Thread>, runner: Runner, nextHandler: Hid, fault: Fault)

  datatype Step =
    | Accept(fd: Fd) | AcceptEnds | AcceptFails | CheckStop | ReapOne | ReapDone | CheckCapacity
    | Reserve(ok: bool) | Push(ok: bool) | Spawn(ok: bool) | Undo | Join
    | Register(h: Hid, ok: bool) | CheckLoop(h: Hid) | Read(h: Hid, ok: bool) | Serve(h: Hid, next: After)
    | CallStop(who: Actor) | BeginSweep | SweepOne(fd: Fd) | EndSweep | StopReturns
    | Unregister(h: Hid) | Close(h: Hid) | Finish(h: Hid) | Release(h: Hid)
    | PeerSends(fd: Fd) | PeerCloses(fd: Fd)

  /** How serving one request ends. */
  datatype After = NextRequest | Shutdown | Failure

  function Initial(): State {
    State(Up, map[], {}, [], {}, {}, 0, map[], Waiting, 0, NoFault)
  }

  predicate Stopping(st: State) {
    !st.stop.Up?
  }

  /** The first stop closes the listener before it sweeps. */
  predicate Listening(st: State) {
    st.stop.Up? || st.stop.Won?
  }

  predicate MutexFree(st: State) {
    !st.stop.Sweeping?
  }

  /** The descriptor of a thread that is in `active_connections`. */
  predicate Registered(k: Thread) {
    k.LoopHead? || k.Reading? || k.Serving? || k.StopCalled? || k.StopWorking? || k.Leaving?
  }

  predicate HasDescriptor(k: Thread) {
    Registered(k) || k.Starting? || k.Closing?
  }

  predicate RunnerHolds(r: Runner) {
    r.Accepted? || r.Reaping? || r.Checking? || r.Reserving? || r.Pushing? || r.Spawning? || r.Undoing?
  }

  // ----- Guards -----

  predicate At(st: State, h: Hid, k: Thread) {
    h in st.threads && st.threads[h] == k
  }

  predicate RunnerGuard(st: State, step: Step) {
    match step
    case Accept(fd) => st.runner.Waiting? && Listening(st) && fd !in st.open
    case AcceptEnds => st.runner.Waiting? && !Listening(st)
    case AcceptFails => st.runner.Waiting?
    case CheckStop => st.runner.Accepted? && st.runner.fd in st.open
    case ReapOne =>
      && st.runner.Reaping? && st.runner.rest != []
      && (st.runner.rest[0] in st.finished ==> At(st, st.runner.rest[0], Exited))
    case ReapDone => st.runner.Reaping? && st.runner.rest == []
    case CheckCapacity => st.runner.Checking? && st.runner.fd in st.open
    case Reserve(_) => st.runner.Reserving? && st.runner.fd in st.open
    case Push(_) => st.runner.Pushing?
    case Spawn(_) => st.runner.Spawning? && st.runner.fd in st.open && st.records != []
    case Undo => st.runner.Undoing? && st.runner.fd in st.open
    case Join => st.runner.Joining? && forall h :: h in st.records ==> At(st, h, Exited)
    case _ => false
  }

  predicate HandlerStep(step: Step) {
    || step.Register? || step.CheckLoop? || step.Read? || step.Serve? || step.Unregister? || step.Close? || step.Finish?
    || step.Release?
  }

  /**
   * A read returns without a frame: the connection was shut down or closed by the peer, or what arrived is malformed.
   */
  predicate CanFail(d: Descriptor) {
    d.shut || d.ended || d.arrived > 0
  }

  predicate HandlerGuard(st: State, step: Step)
    requires HandlerStep(step)
  {
    step.h in st.threads &&
    var k := st.threads[step.h];
    match step
    case Register(_, _) => k.Starting? && MutexFree(st)
    case CheckLoop(_) => k.LoopHead?
    case Read(_, ok) => k.Reading? && k.fd in st.open
        && (if ok then st.open[k.fd].arrived > 0 else CanFail(st.open[k.fd]))
    case Serve(_, _) => k.Serving?
    case Unregister(_) => k.Leaving? && MutexFree(st)
    case Close(_) => k.Closing?
    case Finish(_) => k.Finishing?
    case Release(_) => k.Releasing?
  }

  predicate StopGuard(st: State, step: Step) {
    match step
    case CallStop(who) =>
      (match who
       case Handling(h) => h in st.threads && st.threads[h].StopCalled?
       case Accepting => st.runner.StopNext?
       case Outside => true)
    case BeginSweep => st.stop.Won?
    case SweepOne(fd) => st.stop.Sweeping? && fd in st.stop.todo
    case EndSweep => st.stop.Sweeping? && st.stop.todo == {}
    case StopReturns =>
      st.stop.Swept? &&
      (match st.stop.who
       case Handling(h) => h in st.threads && st.threads[h].StopWorking?
       case Accepting => st.runner.StopBusy?
       case Outside => false)
    case _ => false
  }

  predicate PeerStep(step: Step) {
    step.PeerSends? || step.PeerCloses?
  }

  predicate Guard(st: State, step: Step) {
    if HandlerStep(step) then HandlerGuard(st, step)
    else if PeerStep(step) then step.fd in st.open
    else RunnerGuard(st, step) || StopGuard(st, step)
  }

  // ----- Effects -----

  function Goto(st: State, h: Hid, k: Thread): State {
    st.(threads := st.threads[h := k])
  }

  function CloseFd(st: State, fd: Fd): State {
    st.(open := st.open - {fd})
  }

  function ApplyRunner(maximum: nat, st: State, step: Step): State
    requires RunnerGuard(st, step)
  {
    var r := st.runner;
    match step
    case Accept(fd) => st.(open := st.open[fd := Descriptor(None, false, 0, false)], runner := Accepted(fd))
    case AcceptEnds => st.(runner := StopNext)
    case AcceptFails => st.(runner := StopNext)
    case CheckStop =>
      if Stopping(st) then CloseFd(st, r.fd).(runner := StopNext)
      else st.(runner := Reaping(r.fd, [], st.records, st.holding))
    case ReapOne =>
      var h := r.rest[0];
      if h in st.finished then
        st.(records := r.kept + r.rest[1..], runner := Reaping(r.fd, r.kept, r.rest[1..], r.held))
      else st.(runner := Reaping(r.fd, r.kept + [h], r.rest[1..], r.held))
    case ReapDone => st.(runner := Checking(r.fd))
    case CheckCapacity =>
      if st.activeHandlers >= maximum then CloseFd(st, r.fd).(runner := Waiting) else st.(runner := Reserving(r.fd))
    case Reserve(ok) =>
      if !ok then CloseFd(st, r.fd).(runner := StopNext)
      else
        st.(activeHandlers := st.activeHandlers + 1, holding := st.holding + {st.nextHandler},
            nextHandler := st.nextHandler + 1, runner := Pushing(r.fd, st.nextHandler))
    case Push(ok) =>
      if !ok then st.(runner := Undoing(r.fd, r.h))
          else st.(records := st.records + [r.h], runner := Spawning(r.fd, r.h))
    case Spawn(ok) =>
      if !ok then st.(records := st.records[..|st.records| - 1], runner := Undoing(r.fd, r.h))
      else
        st.(threads := st.threads[r.h := Starting(r.fd)],
            open := st.open[r.fd := st.open[r.fd].(owner := Some(r.h))], runner := Waiting)
    case Undo => Released(CloseFd(st, r.fd), r.h).(runner := StopNext)
    case Join => st.(records := [], runner := Over)
  }

  /** Gives back a slot. */
  function Released(st: State, h: Hid): State {
    if st.activeHandlers == 0 then st.(fault := SlotUnderflow)
    else st.(activeHandlers := st.activeHandlers - 1, holding := st.holding - {h})
  }

  function ApplyHandler(st: State, step: Step): State
    requires HandlerStep(step) && HandlerGuard(st, step)
  {
    var k := st.threads[step.h];
    match step
    case Register(h, ok) =>
      if !ok then Goto(st, h, Closing(k.fd))
      else if k.fd in st.active then Goto(st.(fault := DescriptorTaken), h, LoopHead(k.fd))
      else Goto(st.(active := st.active + {k.fd}), h, LoopHead(k.fd))
    case CheckLoop(h) => Goto(st, h, if Stopping(st) then Leaving(k.fd) else Reading(k.fd))
    case Read(h, ok) =>
      if ok then Goto(st.(open := st.open[k.fd := st.open[k.fd].(arrived := st.open[k.fd].arrived - 1)]), h,
                      Serving(k.fd))
      else Goto(st, h, Leaving(k.fd))
    case Serve(h, next) =>
      Goto(st, h, match next
                  case NextRequest => LoopHead(k.fd)
                  case Shutdown => StopCalled(k.fd)
                  case Failure => Leaving(k.fd))
    case Unregister(h) => Goto(st.(active := st.active - {k.fd}), h, Closing(k.fd))
    case Close(h) => Goto(CloseFd(st, k.fd), h, Finishing)
    case Finish(h) => Goto(st.(finished := st.finished + {h}), h, Releasing)
    case Release(h) => Goto(Released(st, h), h, Exited)
  }

  /** The caller of stop goes on. */
  function Returned(st: State, who: Actor): State {
    match who
    case Handling(h) =>
      if h in st.threads && (st.threads[h].StopCalled? || st.threads[h].StopWorking?)
      then Goto(st, h, Leaving(st.threads[h].fd)) else st
    case Accepting => st.(runner := Joining)
    case Outside => st
  }

  function ApplyStop(st: State, step: Step): State
    requires StopGuard(st, step)
  {
    match step
    case CallStop(who) =>
      if Stopping(st) then Returned(st, who)
      else
        var won := st.(stop := Won(who));
        (match who
         case Handling(h) => Goto(won, h, StopWorking(st.threads[h].fd))
         case Accepting => won.(runner := StopBusy)
         case Outside => won)
    case BeginSweep => st.(stop := Sweeping(st.stop.who, st.active))
    case SweepOne(fd) =>
      var rest := st.(stop := Sweeping(st.stop.who, st.stop.todo - {fd}));
      if fd !in st.open then rest.(fault := SweptClosed)
      else rest.(open := st.open[fd := st.open[fd].(shut := true)])
    case EndSweep => st.(stop := Swept(st.stop.who))
    case StopReturns => Returned(st, st.stop.who)
  }

  function ApplyPeer(st: State, step: Step): State
    requires PeerStep(step) && step.fd in st.open
  {
    var d := st.open[step.fd];
    st.(open := st.open[step.fd := if step.PeerSends? then d.(arrived := d.arrived + 1) else d.(ended := true)])
  }

  function Apply(maximum: nat, st: State, step: Step): State
    requires Guard(st, step)
  {
    if HandlerStep(step) then ApplyHandler(st, step)
    else if PeerStep(step) then ApplyPeer(st, step)
    else if RunnerGuard(st, step) then ApplyRunner(maximum, st, step)
    else ApplyStop(st, step)
  }
}
