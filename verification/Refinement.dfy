/** What the methods do at once, the machine does in steps: an execution, and the settling of a close. */
module Refinement {
  import opened Wire
  import opened Jobs
  import opened Machine
  import opened MachineInvariant
  import opened MachineSteps
  import opened MachineSafety
  import opened MachineTheorems
  import Messages
  import Records
  import Registry

  // ----- An execution, as steps of its worker -----

  /** The worker has published `rec` and is free again. */
  function Finished(st: State, w: nat, r: Ref, rec: Record): State
    requires w < |st.workers| && ValidRef(st.sh, r)
  {
    Become(st.(sh := Put(st.sh, r, rec, NoOne)), w, Idle)
  }

  /**
   * The steps follow the environment: a compilation or an execution reports what it makes them report, a failure is the
   * exception it raises, and the token is set only if it sets it.
   */
  predicate Follows(e: Records.Environment, cancelled: bool, step: Step) {
    && (step.Compile? ==> step.failure == e.compiled)
    && (step.Execute? ==> step.outcome == e.executed)
    && (step.Throw? ==> Records.Escaping(e, Records.CourseOf(e, cancelled)) == Some(step.code))
    && (step.AccessRecord? ==> Records.TokenAtEnd(e, cancelled))
  }

  /** Steps of the worker, or of the one handler that sets the token. */
  predicate BelongsTo(w: nat, t: Tid, step: Step) {
    if WorkerStep(step) then step.w == w else step.t == t && (step.Arrive? || step.Find? || step.AccessRecord?)
  }

  ghost predicate GoodRun(e: Records.Environment, cancelled: bool, w: nat, t: Tid, steps: seq<Step>) {
    forall i :: 0 <= i < |steps| ==> Follows(e, cancelled, steps[i]) && BelongsTo(w, t, steps[i])
  }

  ghost predicate Holds(st: State, w: nat, k: Worker) {
    w < |st.workers| && st.workers[w] == k && !k.Idle? && ValidRef(st.sh, k.ref)
  }

  /** The worker publishes what it has. */
  lemma PublishRun(c: Config, st: State, w: nat, r: Ref, p: Publication)
    requires Holds(st, w, Worker.Publishing(r, p))
    ensures Possible(c, st, [PublishOutcome(w)])
    ensures After(c, st, [PublishOutcome(w)]) == Finished(st, w, r, Published(st.sh.heap[r], p))
  {
    OneStep(c, st, PublishOutcome(w));
  }

  /** A failure that stops the worker where it stands. */
  lemma ThrowRun(c: Config, st: State, w: nat, r: Ref, code: ErrorCode)
    requires Holds(st, w, Popped(r)) && Records.IsThrown(code)
    ensures var steps := [Throw(w, code), PublishOutcome(w)];
            Possible(c, st, steps) && After(c, st, steps) == Finished(st, w, r, AsFailed(st.sh.heap[r], code))
  {
    var thrown := Become(st, w, Worker.Publishing(r, PublishFailure(code)));
    assert Guard(c, st, Throw(w, code)) && Apply(c, st, Throw(w, code)) == thrown;
    PublishRun(c, thrown, w, r, PublishFailure(code));
    StepThen(c, st, Throw(w, code), [PublishOutcome(w)]);
    assert [Throw(w, code)] + [PublishOutcome(w)] == [Throw(w, code), PublishOutcome(w)];
    assert thrown.workers[w := Idle] == st.workers[w := Idle];
  }

  /** Running, with the worker at `k`. */
  function RunningAs(st: State, w: nat, r: Ref, k: Worker): State
    requires w < |st.workers| && ValidRef(st.sh, r)
  {
    Become(st.(sh := Put(st.sh, r, st.sh.heap[r].(state := Running), st.sh.owner[r])), w, k)
  }

  /** Where a worker that has started its record goes with `step`. */
  function NextWorker(rec: Record, from: Worker, step: Step): Worker
    requires !from.Idle?
  {
    var r := from.ref;
    match step
    case CheckBeforeCompile(_) => if rec.cancelled then Worker.Publishing(r, PublishCancelled) else Compiling(r)
    case Compile(_, failure) =>
      if failure.None? then Compiled(r) else Worker.Publishing(r, PublishFailure(failure.value))
    case CheckBeforeExecute(_) => if rec.cancelled then Worker.Publishing(r, PublishCancelled) else Executing(r)
    case Execute(_, outcome) =>
      Worker.Publishing(r,
        if outcome.Ok? then PublishResult(outcome.value)
        else if outcome.code == CANCELLED || rec.cancelled then PublishCancelled else PublishFailure(outcome.code))
    case _ => from
  }

  predicate MayTake(from: Worker, step: Step) {
    || (from.Started? && step.CheckBeforeCompile?) || (from.Compiling? && step.Compile? && step.failure != Some(OK))
    || (from.Compiled? && step.CheckBeforeExecute?) || (from.Executing? && step.Execute? && step.outcome != Err(OK))
  }

  lemma MoveRun(c: Config, st: State, w: nat, r: Ref, from: Worker, step: Step, rest: seq<Step>)
    requires w < |st.workers| && ValidRef(st.sh, r) && WorkerStep(step) && step.w == w
    requires MayTake(from, step) && from.ref == r
    requires Possible(c, RunningAs(st, w, r, NextWorker(st.sh.heap[r], from, step)), rest)
    ensures Possible(c, RunningAs(st, w, r, from), [step] + rest)
    ensures After(c, RunningAs(st, w, r, from), [step] + rest)
         == After(c, RunningAs(st, w, r, NextWorker(st.sh.heap[r], from, step)), rest)
  {
    hide Possible, After;
    var a, to := RunningAs(st, w, r, from), NextWorker(st.sh.heap[r], from, step);
    assert a.workers[w := to] == st.workers[w := to];
    assert Guard(c, a, step) && Apply(c, a, step) == RunningAs(st, w, r, to);
    StepThen(c, a, step, rest);
  }

  lemma StartRun(c: Config, st: State, w: nat, r: Ref, rest: seq<Step>)
    requires Holds(st, w, Popped(r)) && st.sh.heap[r].state == Queued
    requires Possible(c, RunningAs(st, w, r, Started(r)), rest)
    ensures Possible(c, st, [Start(w)] + rest)
    ensures After(c, st, [Start(w)] + rest) == After(c, RunningAs(st, w, r, Started(r)), rest)
  {
    hide Possible, After;
    StepThen(c, st, Start(w), rest);
  }

  /** The last step, seen from before the record ran. */
  lemma PublishRunning(c: Config, st: State, w: nat, r: Ref, p: Publication)
    requires w < |st.workers| && ValidRef(st.sh, r)
    ensures var a := RunningAs(st, w, r, Worker.Publishing(r, p));
            && Possible(c, a, [PublishOutcome(w)])
            && After(c, a, [PublishOutcome(w)]) == Finished(st, w, r, Published(st.sh.heap[r].(state := Running), p))
  {
    var a := RunningAs(st, w, r, Worker.Publishing(r, p));
    PublishRun(c, a, w, r, p);
    var rec := Published(a.sh.heap[r], p);
    assert a.sh.heap[r := rec] == st.sh.heap[r := rec] && a.sh.owner[r := NoOne] == st.sh.owner[r := NoOne];
    assert a.workers[w := Idle] == st.workers[w := Idle];
  }

  /** A record that was told to stop before it started. */
  lemma StoppedRun(c: Config, st: State, w: nat, r: Ref) returns (steps: seq<Step>)
    requires Holds(st, w, Popped(r)) && st.sh.heap[r].state == Queued && st.sh.heap[r].cancelled
    ensures steps == [Start(w)] + ([CheckBeforeCompile(w)] + [PublishOutcome(w)])
    ensures Possible(c, st, steps) && After(c, st, steps) == Finished(st, w, r, AsCancelled(st.sh.heap[r]))
  {
    hide Possible, After;
    PublishRunning(c, st, w, r, PublishCancelled);
    MoveRun(c, st, w, r, Started(r), CheckBeforeCompile(w), [PublishOutcome(w)]);
    StartRun(c, st, w, r, [CheckBeforeCompile(w)] + [PublishOutcome(w)]);
    steps := [Start(w)] + ([CheckBeforeCompile(w)] + [PublishOutcome(w)]);
  }

  /** A record whose compilation fails. */
  lemma UncompiledRun(c: Config, st: State, w: nat, r: Ref, code: ErrorCode) returns (steps: seq<Step>)
    requires Holds(st, w, Popped(r)) && st.sh.heap[r].state == Queued && !st.sh.heap[r].cancelled && code != OK
    ensures steps == [Start(w)] + ([CheckBeforeCompile(w)] + ([Compile(w, Some(code))] + [PublishOutcome(w)]))
    ensures Possible(c, st, steps) && After(c, st, steps) == Finished(st, w, r, AsFailed(st.sh.heap[r], code))
  {
    hide Possible, After;
    PublishRunning(c, st, w, r, PublishFailure(code));
    var publish := [PublishOutcome(w)];
    MoveRun(c, st, w, r, Compiling(r), Compile(w, Some(code)), publish);
    MoveRun(c, st, w, r, Started(r), CheckBeforeCompile(w), [Compile(w, Some(code))] + publish);
    StartRun(c, st, w, r, [CheckBeforeCompile(w)] + ([Compile(w, Some(code))] + publish));
    steps := [Start(w)] + ([CheckBeforeCompile(w)] + ([Compile(w, Some(code))] + publish));
  }

  /** What an execution that nobody cancels publishes. */
  function Reported(outcome: Result<int>): Publication {
    if outcome.Ok? then PublishResult(outcome.value)
    else if outcome.code == CANCELLED then PublishCancelled else PublishFailure(outcome.code)
  }

  /** A record that is executed. */
  lemma ExecutedRun(c: Config, st: State, w: nat, r: Ref, outcome: Result<int>) returns (steps: seq<Step>)
    requires Holds(st, w, Popped(r)) && st.sh.heap[r].state == Queued && !st.sh.heap[r].cancelled && outcome != Err(OK)
    ensures steps == [Start(w)] + ([CheckBeforeCompile(w)] + ([Compile(w, None)] + ([CheckBeforeExecute(w)] +
                     ([Execute(w, outcome)] + [PublishOutcome(w)]))))
    ensures Possible(c, st, steps)
    ensures After(c, st, steps) == Finished(st, w, r, Published(st.sh.heap[r].(state := Running), Reported(outcome)))
  {
    hide Possible, After;
    PublishRunning(c, st, w, r, Reported(outcome));
    var s1 := [Execute(w, outcome)] + [PublishOutcome(w)];
    MoveRun(c, st, w, r, Executing(r), Execute(w, outcome), [PublishOutcome(w)]);
    var s2 := [CheckBeforeExecute(w)] + s1;
    MoveRun(c, st, w, r, Compiled(r), CheckBeforeExecute(w), s1);
    var s3 := [Compile(w, None)] + s2;
    MoveRun(c, st, w, r, Compiling(r), Compile(w, None), s2);
    var s4 := [CheckBeforeCompile(w)] + s3;
    MoveRun(c, st, w, r, Started(r), CheckBeforeCompile(w), s3);
    StartRun(c, st, w, r, s4);
    steps := [Start(w)] + s4;
  }

  lemma UnfinishedIsRetained(c: Config, st: State, r: Ref)
    requires Invariant(c, st) && r < |st.sh.heap| && !Terminal(st.sh.heap[r].state)
    requires Live(st.sh, st.sh.heap[r].session)
    ensures ValidRef(st.sh, r)
    ensures var id := Messages.Id(c.instance, st.sh.heap[r].id); Retained(c, st.sh, id) && st.sh.jobs[id.value] == r
  {
    hide RecordsOk, SessionsOk, QueueOk, JobsOk, HistoryOk, WorkersOk, OwnersOk, CapacityOk, HandlersOk;
    assert Reachable(st.sh, r) && Issued(st.sh.heap[r].id, st.sh.nextJob);
  }

  lemma FindIs(c: Config, st: State, t: Tid, id: Messages.Id, r: Ref)
    requires t !in st.handlers && st.sh.registry.None? && Retained(c, st.sh, id) && st.sh.jobs[id.value] == r
    ensures var a := Goto(st, t, Lookup(RequestCancel, id));
            Guard(c, a, Find(t)) && Apply(c, a, Find(t)) == Goto(st, t, Access(RequestCancel, id, r))
  {
    var a := Goto(st, t, Lookup(RequestCancel, id));
    assert a.handlers[t := Access(RequestCancel, id, r)] == st.handlers[t := Access(RequestCancel, id, r)];
  }

  lemma AccessIs(c: Config, st: State, t: Tid, id: Messages.Id, r: Ref)
    requires t !in st.handlers && ValidRef(st.sh, r) && !Terminal(st.sh.heap[r].state)
    ensures var b := Goto(st, t, Access(RequestCancel, id, r));
            && Guard(c, b, AccessRecord(t))
            && Apply(c, b, AccessRecord(t))
                == st.(sh := Put(st.sh, r, st.sh.heap[r].(cancelled := true), st.sh.owner[r]))
  {
    assert st.handlers[t := Access(RequestCancel, id, r)] - {t} == st.handlers;
  }

  /** A handler sets the token of a job that can be found, and leaves. */
  lemma CancelRun(c: Config, st: State, t: Tid, r: Ref) returns (steps: seq<Step>)
    requires Invariant(c, st) && t !in st.handlers && st.sh.registry.None? && r < |st.sh.heap|
    requires !Terminal(st.sh.heap[r].state) && Live(st.sh, st.sh.heap[r].session)
    ensures Possible(c, st, steps) && |steps| == 3
    ensures forall i :: 0 <= i < |steps| ==> steps[i].Arrive? || steps[i].Find? || steps[i].AccessRecord?
    ensures forall i :: 0 <= i < |steps| ==> steps[i].t == t
    ensures After(c, st, steps) == st.(sh := Put(st.sh, r, st.sh.heap[r].(cancelled := true), st.sh.owner[r]))
  {
    hide Possible, After, Invariant, Live;
    var id := Messages.Id(c.instance, st.sh.heap[r].id);
    UnfinishedIsRetained(c, st, r);
    var a := Goto(st, t, Lookup(RequestCancel, id));
    var b := Goto(st, t, Access(RequestCancel, id, r));
    var done := st.(sh := Put(st.sh, r, st.sh.heap[r].(cancelled := true), st.sh.owner[r]));
    FindIs(c, st, t, id, r);
    AccessIs(c, st, t, id, r);
    hide HandlerGuard, ApplyHandler;
    OneStep(c, b, AccessRecord(t));
    StepThen(c, a, Find(t), [AccessRecord(t)]);
    StepThen(c, st, Arrive(t, Lookup(RequestCancel, id)), [Find(t)] + [AccessRecord(t)]);
    steps := [Arrive(t, Lookup(RequestCancel, id))] + ([Find(t)] + [AccessRecord(t)]);
  }

  /** The record as a popped record of the machine: queued, without outcome or result. */
  lemma PoppedIs(c: Config, st: State, w: nat, r: Ref)
    requires Invariant(c, st) && w < |st.workers| && st.workers[w] == Popped(r)
    ensures Holds(st, w, Popped(r)) && st.sh.heap[r].state == Queued
    ensures st.sh.heap[r].result == None && st.sh.heap[r].outcome == OK
  {
    hide JobIdsOk, SessionsOk, QueueOk, JobsOk, HistoryOk, OwnersOk, CapacityOk, HandlersOk;
    assert WorkerOk(st.sh, w, st.workers[w]);
    assert Coherent(st.sh.heap[r]);
  }

  /**
   * However an execution goes, the machine has a run of that worker, with the token set by `job.cancel` if it was set
   * at all and with the kernel reporting what it reported, that leaves exactly the record the execution leaves.
   */
  lemma ExecutionIsRun(c: Config, st: State, w: nat, r: Ref, e: Records.Environment, t: Tid) returns (steps: seq<Step>)
    requires Invariant(c, st) && w < |st.workers| && st.workers[w] == Popped(r)
    requires ValidRef(st.sh, r) && t !in st.handlers && st.sh.registry.None? && Live(st.sh, st.sh.heap[r].session)
    requires Records.Sane(e) && !Records.FenceIsLost(e, st.sh.heap[r].cancelled)
    ensures Possible(c, st, steps) && GoodRun(e, st.sh.heap[r].cancelled, w, t, steps)
    ensures After(c, st, steps) == Finished(st, w, r, Records.Executed(e, st.sh.heap[r]).record)
  {
    hide Possible, After, Invariant, Records.Executed, Records.FenceIsLost, Records.CourseOf, Records.TokenAtEnd, Live;
    var rec := st.sh.heap[r];
    var after := Records.Executed(e, rec).record;
    PoppedIs(c, st, w, r);
    Records.EndHasCause(e, rec);
    if Records.TokenAtEnd(e, rec.cancelled) {
      if rec.cancelled {
        steps := StoppedRun(c, st, w, r);
      } else {
        var asking := CancelRun(c, st, t, r);
        var asked := st.(sh := Put(st.sh, r, rec.(cancelled := true), st.sh.owner[r]));
        var stopping := StoppedRun(c, asked, w, r);
        Concat(c, st, asking, stopping);
        steps := asking + stopping;
        assert asked.sh.heap[r := after] == st.sh.heap[r := after]
            && asked.sh.owner[r := NoOne] == st.sh.owner[r := NoOne];
      }
    } else {
      TokenIsKept(e, rec.cancelled);
      if Records.ProtectedFails(e, rec.cancelled) {
        Records.EscapesAreThrown(e, rec.cancelled);
        ThrowRun(c, st, w, r, after.outcome);
        steps := [Throw(w, after.outcome), PublishOutcome(w)];
      } else if e.compiled.Some? {
        steps := UncompiledRun(c, st, w, r, after.outcome);
      } else {
        steps := ExecutedRun(c, st, w, r, e.executed);
      }
    }
  }

  lemma TokenIsKept(e: Records.Environment, cancelled: bool)
    requires !Records.TokenAtEnd(e, cancelled)
    ensures !cancelled
  {
  }

  // ----- The settling of a close, as its steps -----

  /** Only records changed, and only the close moved. */
  predicate OnlySettled(st: State, later: State, t: Tid, call: CloseCall, phase: Phase, heap: seq<Record>) {
    && later.sh.heap == heap && later.sh.jobs == st.sh.jobs && later.sh.queue == st.sh.queue
    && later.sh.nextJob == st.sh.nextJob && later.workers == st.workers && At(later, t, CloseSettle(call, phase))
  }

  ghost predicate StepsOf(t: Tid, steps: seq<Step>) {
    forall i :: 0 <= i < |steps| ==>
      && (steps[i].CancelToken? || steps[i].SettleQueued? || steps[i].CancelRunning? || steps[i].NextPhase?)
      && steps[i].t == t
  }

  lemma StepsAppend(t: Tid, a: seq<Step>, b: seq<Step>)
    requires StepsOf(t, a) && StepsOf(t, b)
    ensures StepsOf(t, a + b)
  {
  }

  /** Settling one record after the other settles them all. */
  lemma SettledAllStep(heap: seq<Record>, rs: seq<Ref>)
    requires rs != [] && rs[0] < |heap|
    ensures Registry.SettledAll(heap[rs[0] := Registry.Settled(heap[rs[0]], true, false)], rs[1..], [])
         == Registry.SettledAll(heap, rs, [])
    ensures Registry.SettledAll(heap[rs[0] := WithCancelRequested(heap[rs[0]])], [], rs[1..])
         == Registry.SettledAll(heap, [], rs)
  {
    assert rs == [rs[0]] + rs[1..];
  }

  lemma SettledAllEnd(heap: seq<Record>)
    ensures Registry.SettledAll(heap, [], []) == heap
  {
  }

  /** The two steps that settle one queued record. */
  lemma SettleOneRun(c: Config, st: State, t: Tid, call: CloseCall, i: nat)
    requires Invariant(c, st) && At(st, t, CloseSettle(call, Token(i))) && i < |call.queued|
    ensures ValidRef(st.sh, call.queued[i])
    ensures var steps, r := [CancelToken(t)] + [SettleQueued(t)], call.queued[i];
            && Possible(c, st, steps)
            && OnlySettled(st, After(c, st, steps), t, call, Token(i + 1),
                           st.sh.heap[r := Registry.Settled(st.sh.heap[r], true, false)])
  {
    hide Invariant, Possible, After, LeftInMap, OwnQueue, OpenSession, Retained;
    QueuedRef(c, st, t, call, i);
    var r := call.queued[i];
    var a := DoSettle(st, t, call, r, st.sh.heap[r].(cancelled := true), st.sh.owner[r], Settle(i));
    var b := DoSettle(a, t, call, r, AsCancelled(a.sh.heap[r]), NoOne, Token(i + 1));
    assert Guard(c, st, CancelToken(t)) && Apply(c, st, CancelToken(t)) == a;
    assert Guard(c, a, SettleQueued(t)) && Apply(c, a, SettleQueued(t)) == b;
    OneStep(c, a, SettleQueued(t));
    StepThen(c, st, CancelToken(t), [SettleQueued(t)]);
    assert b.sh.heap == st.sh.heap[r := Registry.Settled(st.sh.heap[r], true, false)];
  }

  lemma QueuedRef(c: Config, st: State, t: Tid, call: CloseCall, i: nat)
    requires Invariant(c, st) && At(st, t, CloseSettle(call, Token(i))) && i < |call.queued|
    ensures ValidRef(st.sh, call.queued[i])
  {
    hide RecordsOk, JobIdsOk, SessionsOk, QueueOk, JobsOk, HistoryOk, WorkersOk, OwnersOk, CapacityOk, Covers,
         RunningOk;
    assert HandlerOk(st.sh, t, st.handlers[t]);
    assert QueuedAt(st.sh, t, call.queued[i], call.session, i < Done(call, Token(i)));
  }

  lemma {:induction false} SettleQueuedRun(c: Config, st: State, t: Tid, call: CloseCall, i: nat)
    returns (steps: seq<Step>)
    requires Invariant(c, st) && At(st, t, CloseSettle(call, Token(i))) && i <= |call.queued|
    ensures Possible(c, st, steps) && StepsOf(t, steps)
    ensures OnlySettled(st, After(c, st, steps), t, call, Token(|call.queued|),
                        Registry.SettledAll(st.sh.heap, call.queued[i..], []))
    decreases |call.queued| - i
  {
    hide Invariant, Possible, After, Registry.SettledAll;
    if i == |call.queued| {
      steps := [];
      SettledAllEnd(st.sh.heap);
      NoSteps(c, st);
    } else {
      var two := [CancelToken(t)] + [SettleQueued(t)];
      SettleOneRun(c, st, t, call, i);
      var next := After(c, st, two);
      RunKeeps(c, st, two);
      var rest := SettleQueuedRun(c, next, t, call, i + 1);
      Concat(c, st, two, rest);
      StepsAppend(t, two, rest);
      steps := two + rest;
      assert call.queued[i..][1..] == call.queued[i + 1..];
      SettledAllStep(st.sh.heap, call.queued[i..]);
    }
  }

  lemma NoSteps(c: Config, st: State)
    ensures Possible(c, st, []) && After(c, st, []) == st
  {
  }

  lemma RequestOneRun(c: Config, st: State, t: Tid, call: CloseCall, i: nat)
    requires Invariant(c, st) && At(st, t, CloseSettle(call, Cancel(i))) && i < |call.running|
    ensures ValidRef(st.sh, call.running[i])
    ensures var r := call.running[i];
            && Possible(c, st, [CancelRunning(t)])
            && OnlySettled(st, After(c, st, [CancelRunning(t)]), t, call, Cancel(i + 1),
                           st.sh.heap[r := WithCancelRequested(st.sh.heap[r])])
  {
    hide Invariant, Possible, After, LeftInMap, OwnQueue, OpenSession, Retained;
    CloseRefs(c, st, t, call, Cancel(i), i);
    OneStep(c, st, CancelRunning(t));
  }

  lemma {:induction false} RequestRunningRun(c: Config, st: State, t: Tid, call: CloseCall, i: nat)
    returns (steps: seq<Step>)
    requires Invariant(c, st) && At(st, t, CloseSettle(call, Cancel(i))) && i <= |call.running|
    ensures Possible(c, st, steps) && StepsOf(t, steps)
    ensures OnlySettled(st, After(c, st, steps), t, call, Cancel(|call.running|),
                        Registry.SettledAll(st.sh.heap, [], call.running[i..]))
    decreases |call.running| - i
  {
    hide Invariant, Possible, After, Registry.SettledAll;
    if i == |call.running| {
      steps := [];
      SettledAllEnd(st.sh.heap);
      NoSteps(c, st);
    } else {
      var one := [CancelRunning(t)];
      RequestOneRun(c, st, t, call, i);
      var next := After(c, st, one);
      RunKeeps(c, st, one);
      var rest := RequestRunningRun(c, next, t, call, i + 1);
      Concat(c, st, one, rest);
      StepsAppend(t, one, rest);
      steps := one + rest;
      assert call.running[i..][1..] == call.running[i + 1..];
      SettledAllStep(st.sh.heap, call.running[i..]);
    }
  }

  lemma PhaseRun(c: Config, st: State, t: Tid, call: CloseCall, phase: Phase)
    requires At(st, t, CloseSettle(call, phase)) && PhaseEnds(call, phase)
    ensures Possible(c, st, [NextPhase(t)])
    ensures OnlySettled(st, After(c, st, [NextPhase(t)]), t, call, AfterPhase(phase), st.sh.heap)
  {
    hide LeftInMap, OwnQueue, OpenSession, Retained;
    OneStep(c, st, NextPhase(t));
  }

  /** The records that a close took from the queue are not among those it found running. */
  lemma TakenApart(c: Config, st: State, t: Tid, call: CloseCall)
    requires Invariant(c, st) && At(st, t, CloseSettle(call, Token(0)))
    ensures forall r :: r in call.queued ==> r !in call.running
  {
    hide RecordsOk, JobIdsOk, SessionsOk, QueueOk, JobsOk, HistoryOk, WorkersOk, OwnersOk, CapacityOk, Covers;
    assert HandlerOk(st.sh, t, st.handlers[t]);
    forall i, j | 0 <= i < |call.queued| && 0 <= j < |call.running| ensures call.queued[i] != call.running[j] {
      assert QueuedAt(st.sh, t, call.queued[i], call.session, i < Done(call, Token(0)));
      assert RunningAt(st.sh, call.running[j], call.session, j < CancelledUpTo(call, Token(0)),
                       j < AwaitedUpTo(call, Token(0)));
    }
  }

  lemma SettledBoth(heap: seq<Record>, queued: seq<Ref>, running: seq<Ref>)
    requires forall r :: r in queued ==> r !in running
    ensures Registry.SettledAll(Registry.SettledAll(heap, queued, []), [], running)
              == Registry.SettledAll(heap, queued, running)
  {
  }

  /** What the passes of a close do at once, its steps do one after the other, up to the wait. */
  lemma SettleIsSteps(c: Config, st: State, t: Tid, call: CloseCall) returns (steps: seq<Step>)
    requires Invariant(c, st) && At(st, t, CloseSettle(call, Token(0)))
    ensures Possible(c, st, steps) && StepsOf(t, steps)
    ensures OnlySettled(st, After(c, st, steps), t, call, Await(0),
                        Registry.SettledAll(st.sh.heap, call.queued, call.running))
  {
    hide Invariant, Possible, After, Registry.SettledAll;
    TakenApart(c, st, t, call);
    SettledBoth(st.sh.heap, call.queued, call.running);
    var s1 := SettleQueuedRun(c, st, t, call, 0);
    var st1 := After(c, st, s1);
    assert call.queued[0..] == call.queued && call.running[0..] == call.running;
    RunKeeps(c, st, s1);
    PhaseRun(c, st1, t, call, Token(|call.queued|));
    var st2 := After(c, st1, [NextPhase(t)]);
    RunKeeps(c, st1, [NextPhase(t)]);
    var s3 := RequestRunningRun(c, st2, t, call, 0);
    var st3 := After(c, st2, s3);
    PhaseRun(c, st3, t, call, Cancel(|call.running|));
    Concat(c, st, s1, [NextPhase(t)]);
    Concat(c, st, s1 + [NextPhase(t)], s3);
    Concat(c, st, s1 + [NextPhase(t)] + s3, [NextPhase(t)]);
    steps := s1 + [NextPhase(t)] + s3 + [NextPhase(t)];
  }
}
