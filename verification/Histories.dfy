/** What clients see over whole runs: ids, snapshots, results and cancellations. */
module Histories {
  import opened Wire
  import opened Jobs
  import opened Machine
  import opened MachineInvariant
  import opened MachineSteps
  import opened MachineSafety
  import opened MachineTheorems
  import opened Messages
  import opened Answers

  // ----- Locks exclude -----

  /** What the registry lock protects. */
  predicate SameRegistry(a: Shared, b: Shared) {
    b.jobs == a.jobs && b.queue == a.queue && b.nextJob == a.nextJob
  }

  lemma SectionExcludes(c: Config, st: State, step: Step)
    requires InSection(step) && HandlerGuard(c, st, step)
    ensures st.sh.lifecycle == Some(step.t)
    ensures !step.Enqueue? ==> SameRegistry(st.sh, ApplyHandler(c, st, step).sh)
    ensures step.Enqueue? ==> st.sh.registry.None?
  {
    hide OpenSession, LeftInMap, OwnQueue, Retained, DoTakeJobs, DoFinalize, DoSettle, DoAccess, DoFindForRelease,
         DoCheckTerminal, DoErase;
  }

  lemma CloseExcludes(c: Config, st: State, step: Step)
    requires InClose(step) && HandlerGuard(c, st, step)
    ensures step.Finalize? ==> st.sh.lifecycle == Some(step.t)
    ensures step.TakeJobs? ==> st.sh.registry.None?
    ensures !step.TakeJobs? ==> SameRegistry(st.sh, ApplyHandler(c, st, step).sh)
    ensures !step.TakeJobs? && !step.Finalize? ==> SameSessions(st.sh, ApplyHandler(c, st, step).sh)
    ensures step.TakeJobs? ==> SameFlags(st.sh, ApplyHandler(c, st, step).sh)
  {
    hide LeftInMap, OwnQueue, OtherQueue, OtherJobs, WithCancelRequested, SetOwner;
  }

  lemma RestExcludes(c: Config, st: State, step: Step)
    requires !InSection(step) && !InClose(step) && !step.Arrive? && !WorkerStep(step) && HandlerGuard(c, st, step)
    ensures SameSessions(st.sh, ApplyHandler(c, st, step).sh)
    ensures step.Erase? ==> st.sh.registry == Some(step.t)
    ensures !step.Erase? ==> SameRegistry(st.sh, ApplyHandler(c, st, step).sh)
  {
    hide Retained, WithCancelRequested;
  }

  lemma WorkerExcludes(st: State, step: Step)
    requires WorkerStep(step) && WorkerGuard(st, step)
    ensures SameSessions(st.sh, ApplyWorker(st, step).sh)
    ensures st.sh.registry.Some? ==> SameRegistry(st.sh, ApplyWorker(st, step).sh)
  {
  }

  /** Sessions, their closing flags, the slots and the next id; `detached` is bookkeeping. */
  predicate SameFlags(a: Shared, b: Shared) {
    && b.sessions == a.sessions && b.pending == a.pending && b.nextSession == a.nextSession
    && |b.sessionHeap| == |a.sessionHeap|
    && (forall i :: 0 <= i < |a.sessionHeap| ==>
          b.sessionHeap[i].id == a.sessionHeap[i].id && b.sessionHeap[i].closing == a.sessionHeap[i].closing)
  }

  /**
   * The locks exclude: while a thread is inside a critical section of the lifecycle lock nobody else changes a session,
   * a closing flag, a slot or the session counter; while one is inside a release nobody else changes the retained
   * jobs, the queue or the job counter.
   */
  lemma LocksExclude(c: Config, st: State, step: Step, t: Tid)
    requires Guard(c, st, step) && (WorkerStep(step) || step.t != t)
    ensures st.sh.lifecycle == Some(t) ==> SameFlags(st.sh, Apply(c, st, step).sh)
    ensures st.sh.registry == Some(t) ==> SameRegistry(st.sh, Apply(c, st, step).sh)
  {
    hide HandlerGuard, ApplyHandler, WorkerGuard, ApplyWorker;
    if WorkerStep(step) {
      WorkerExcludes(st, step);
    } else if !step.Arrive? {
      if InSection(step) {
        SectionExcludes(c, st, step);
      } else if InClose(step) {
        CloseExcludes(c, st, step);
      } else {
        RestExcludes(c, st, step);
      }
    }
  }

  // ----- Session ids -----

  predicate Marks(st: State, step: Step, id: Id) {
    step.Mark? && step.t in st.handlers && st.handlers[step.t] == CloseMark(id)
  }

  predicate NobodyMarks(c: Config, st: State, steps: seq<Step>, id: Id)
    requires Possible(c, st, steps)
    decreases |steps|
  {
    steps == [] || (!Marks(st, steps[0], id) && NobodyMarks(c, Apply(c, st, steps[0]), steps[1..], id))
  }

  predicate FlagsSession(step: Step) {
    step.Publish? || step.Mark? || step.Reopen?
  }

  lemma SectionKeepsSessions(c: Config, st: State, step: Step)
    requires InSection(step) && !FlagsSession(step) && HandlerGuard(c, st, step)
    ensures var b := ApplyHandler(c, st, step).sh; b.sessions == st.sh.sessions && b.sessionHeap == st.sh.sessionHeap
  {
    hide OpenSession, LeftInMap, OwnQueue, Retained, DoPublish, DoMark, DoReopen, DoTakeJobs, DoFinalize, DoSettle,
         DoAccess, DoFindForRelease, DoCheckTerminal, DoErase;
  }

  lemma PublishKeepsOpen(c: Config, st: State, t: Tid, throws: bool, id: Id)
    requires SessionsOk(st.sh) && OpenSession(c, st.sh, id)
    ensures OpenSession(c, DoPublish(st, t, throws).sh, id)
  {
    if st.sh.nextSession != 0 {
      FreshSession(st.sh);
    }
  }

  lemma MarkKeepsOpen(c: Config, st: State, t: Tid, marked: Id, id: Id)
    requires SessionsOk(st.sh) && OpenSession(c, st.sh, id) && marked != id
    ensures OpenSession(c, DoMark(c, st, t, marked).sh, id)
  {
  }

  lemma ReopenKeepsOpen(c: Config, st: State, t: Tid, session: u64, sref: Ref, id: Id)
    requires OpenSession(c, st.sh, id) && sref < |st.sh.sessionHeap|
    ensures OpenSession(c, DoReopen(st, t, session, sref).sh, id)
  {
  }

  lemma SectionKeepsOpen(c: Config, st: State, step: Step, id: Id)
    requires SessionsOk(st.sh) && InSection(step) && HandlerGuard(c, st, step)
    requires OpenSession(c, st.sh, id) && !Marks(st, step, id)
    ensures OpenSession(c, ApplyHandler(c, st, step).sh, id)
  {
    hide SessionsOk, OpenSession;
    if !FlagsSession(step) {
      hide HandlerGuard, ApplyHandler;
      SectionKeepsSessions(c, st, step);
      SameOpen(c, st.sh, ApplyHandler(c, st, step).sh, id);
    } else {
      hide DoPublish, DoMark, DoReopen;
      FlagKeepsOpen(c, st, step, id);
    }
  }

  lemma FlagKeepsOpen(c: Config, st: State, step: Step, id: Id)
    requires SessionsOk(st.sh) && FlagsSession(step) && HandlerGuard(c, st, step)
    requires OpenSession(c, st.sh, id) && !Marks(st, step, id)
    ensures OpenSession(c, ApplyHandler(c, st, step).sh, id)
  {
    hide SessionsOk, OpenSession, DoPublish, DoMark, DoReopen;
    if step.Publish? {
      PublishKeepsOpen(c, st, step.t, step.throws, id);
    } else if step.Mark? {
      MarkKeepsOpen(c, st, step.t, st.handlers[step.t].id, id);
    } else {
      ReopenKeepsOpen(c, st, step.t, st.handlers[step.t].session, st.handlers[step.t].sref, id);
    }
  }

  lemma SameOpen(c: Config, a: Shared, b: Shared, id: Id)
    requires b.sessions == a.sessions && b.sessionHeap == a.sessionHeap
    ensures OpenSession(c, b, id) <==> OpenSession(c, a, id)
  {
  }

  lemma FinalizeKeepsOpen(c: Config, st: State, t: Tid, call: CloseCall, id: Id)
    requires SessionsOk(st.sh) && OpenSession(c, st.sh, id) && ClosingBy(st.sh, t, call.session, call.sref, true)
    ensures OpenSession(c, DoFinalize(st, t, call).sh, id)
  {
    assert SessionOk(st.sh.sessionHeap[call.sref], st.sh.nextSession);
  }

  lemma CloseKeepsOpen(c: Config, st: State, step: Step, id: Id)
    requires InClose(step) && HandlerGuard(c, st, step) && OpenSession(c, st.sh, id)
    requires SessionsOk(st.sh) && |st.sh.owner| == |st.sh.heap| && HandlerOk(st.sh, step.t, st.handlers[step.t])
    ensures OpenSession(c, ApplyHandler(c, st, step).sh, id)
  {
    hide Covers, QueuedOk, RunningOk, SessionsOk;
    if step.Finalize? {
      hide DoFinalize;
      FinalizeKeepsOpen(c, st, step.t, st.handlers[step.t].call, id);
    } else {
      hide HandlerGuard, ApplyHandler, HandlerOk;
      CloseExcludes(c, st, step);
    }
  }

  lemma StepKeepsOpen(c: Config, st: State, step: Step, id: Id)
    requires Invariant(c, st) && Guard(c, st, step) && OpenSession(c, st.sh, id) && !Marks(st, step, id)
    ensures OpenSession(c, Apply(c, st, step).sh, id)
  {
    hide HandlerGuard, ApplyHandler, Marks, RecordsOk, JobIdsOk, SessionsOk, QueueOk, JobsOk, HistoryOk, WorkersOk,
         OwnersOk, CapacityOk, HandlersOk, LocksOk;
    if !step.Arrive? && !WorkerStep(step) {
      if InSection(step) {
        SectionKeepsOpen(c, st, step, id);
      } else if InClose(step) {
        ActorIsOk(c, st, step);
        CloseKeepsOpen(c, st, step, id);
      } else {
        RestExcludes(c, st, step);
      }
    }
  }

  lemma {:induction false} OpenUntilMarked(c: Config, st: State, steps: seq<Step>, id: Id)
    requires Invariant(c, st) && Possible(c, st, steps) && OpenSession(c, st.sh, id) && NobodyMarks(c, st, steps, id)
    ensures OpenSession(c, After(c, st, steps).sh, id)
    decreases |steps|
  {
    hide Invariant, Guard, Apply, OpenSession, Marks;
    if steps != [] {
      StepKeeps(c, st, steps[0]);
      StepKeepsOpen(c, st, steps[0], id);
      OpenUntilMarked(c, Apply(c, st, steps[0]), steps[1..], id);
    }
  }

  /** An id that a creation returned is accepted by closes and submissions until a close marks its session. */
  lemma CreatedIsAccepted(c: Config, st: State, t: Tid, steps: seq<Step>, text: Bytes)
    requires Invariant(c, st) && At(st, t, CreatePublish) && st.sh.lifecycle == Some(t) && st.sh.nextSession != 0
    requires Guard(c, st, Publish(t, false))
    requires var next := Apply(c, st, Publish(t, false));
             Possible(c, next, steps) && NobodyMarks(c, next, steps, Id(c.instance, st.sh.nextSession))
    ensures var id := Id(c.instance, st.sh.nextSession);
            && ReplyOf(c, st, Publish(t, false), text) == Some(CreatedAs(id))
            && NamesOpen(c, After(c, Apply(c, st, Publish(t, false)), steps).sh, id)
  {
    hide Invariant, Guard, Apply, Possible, After, NobodyMarks, ReplyOf;
    PublicationAnswers(c, st, t, false, text);
    StepKeeps(c, st, Publish(t, false));
    OpenUntilMarked(c, Apply(c, st, Publish(t, false)), steps, Id(c.instance, st.sh.nextSession));
  }

  // ----- Job ids -----

  /** The step takes the job out of the registry: its release, or the close of its session. */
  predicate Forgets(st: State, step: Step, id: u64) {
    && !step.Arrive? && !WorkerStep(step) && step.t in st.handlers && id in st.sh.jobs
    && var h := st.handlers[step.t];
       || (step.Erase? && h.ReleaseErase? && h.key == id)
       || (step.TakeJobs? && h.CloseSnapshot? && OfSession(st.sh, st.sh.jobs[id], h.session))
  }

  predicate NobodyForgets(c: Config, st: State, steps: seq<Step>, id: u64)
    requires Possible(c, st, steps)
    decreases |steps|
  {
    steps == [] || (!Forgets(st, steps[0], id) && NobodyForgets(c, Apply(c, st, steps[0]), steps[1..], id))
  }

  /** Jobs enter the registry only under the next id, and leave it only by a release or a close. */
  lemma HandlerRetains(c: Config, st: State, step: Step, id: u64)
    requires Invariant(c, st) && !step.Arrive? && !WorkerStep(step) && HandlerGuard(c, st, step)
    ensures var b := ApplyHandler(c, st, step).sh;
            && (id in st.sh.jobs && !Forgets(st, step, id) ==> id in b.jobs && b.jobs[id] == st.sh.jobs[id])
            && (id in b.jobs && id !in st.sh.jobs ==> id == st.sh.nextJob != 0)
            && (b.nextJob == st.sh.nextJob || (st.sh.nextJob != 0 && Answers.Follows(st.sh.nextJob, b.nextJob)))
  {
    hide RecordsOk, SessionsOk, QueueOk, HistoryOk, WorkersOk, OwnersOk, CapacityOk, HandlersOk, HandlerGuard,
         ApplyHandler;
    if step.Enqueue? {
      EnqueueRetains(c, st, step.t, step.allocation, id);
    } else if step.TakeJobs? || step.Erase? {
      RemovalRetains(c, st, step, id);
    } else if InSection(step) {
      SectionExcludes(c, st, step);
    } else if InClose(step) {
      CloseExcludes(c, st, step);
    } else {
      RestExcludes(c, st, step);
    }
  }

  lemma EnqueueRetains(c: Config, st: State, t: Tid, allocation: Allocation, id: u64)
    requires Invariant(c, st) && HandlerGuard(c, st, Enqueue(t, allocation))
    ensures var b := ApplyHandler(c, st, Enqueue(t, allocation)).sh;
            && (id in st.sh.jobs ==> id in b.jobs && b.jobs[id] == st.sh.jobs[id])
            && (id in b.jobs && id !in st.sh.jobs ==> id == st.sh.nextJob != 0)
            && (b.nextJob == st.sh.nextJob || (st.sh.nextJob != 0 && Answers.Follows(st.sh.nextJob, b.nextJob)))
  {
    hide Invariant, HandlerGuard, ApplyHandler;
    EnqueueIsAt(c, st, t, allocation);
    EnqueueIs(c, st, t, st.handlers[t].session, st.handlers[t].sref, allocation);
  }

  lemma EnqueueIsAt(c: Config, st: State, t: Tid, allocation: Allocation)
    requires HandlerGuard(c, st, Enqueue(t, allocation))
    ensures t in st.handlers && st.handlers[t].SubmitAdmit? && st.sh.registry.None?
  {
  }

  lemma RemovalRetains(c: Config, st: State, step: Step, id: u64)
    requires (step.TakeJobs? || step.Erase?) && HandlerGuard(c, st, step)
    ensures var b := ApplyHandler(c, st, step).sh;
            && (id in st.sh.jobs && !Forgets(st, step, id) ==> id in b.jobs && b.jobs[id] == st.sh.jobs[id])
            && (id in b.jobs ==> id in st.sh.jobs) && b.nextJob == st.sh.nextJob
  {
    hide LeftInMap, OwnQueue, OtherQueue, SetOwner;
  }

  lemma StepRetains(c: Config, st: State, step: Step, id: u64)
    requires Invariant(c, st) && Guard(c, st, step)
    ensures var b := Apply(c, st, step).sh;
            && (id in st.sh.jobs && !Forgets(st, step, id) ==> id in b.jobs && b.jobs[id] == st.sh.jobs[id])
            && (id in b.jobs && id !in st.sh.jobs ==> id == st.sh.nextJob != 0)
            && (b.nextJob == st.sh.nextJob || (st.sh.nextJob != 0 && Answers.Follows(st.sh.nextJob, b.nextJob)))
  {
    hide Invariant, HandlerGuard, ApplyHandler;
    if !step.Arrive? && !WorkerStep(step) {
      HandlerRetains(c, st, step, id);
    }
  }

  /** A job can be found, as the same record, until it is released or its session is closed. */
  lemma {:induction false} FoundUntilForgotten(c: Config, st: State, steps: seq<Step>, id: u64)
    requires Invariant(c, st) && Possible(c, st, steps) && id in st.sh.jobs && NobodyForgets(c, st, steps, id)
    ensures var later := After(c, st, steps).sh; id in later.jobs && later.jobs[id] == st.sh.jobs[id]
    decreases |steps|
  {
    hide Invariant, Guard, Apply, Forgets;
    if steps != [] {
      StepKeeps(c, st, steps[0]);
      StepRetains(c, st, steps[0], id);
      FoundUntilForgotten(c, Apply(c, st, steps[0]), steps[1..], id);
    }
  }

  /** And once it cannot be found its id is never used again. */
  lemma {:induction false} ForgottenForEver(c: Config, st: State, steps: seq<Step>, id: u64)
    requires Invariant(c, st) && Possible(c, st, steps) && Issued(id, st.sh.nextJob) && id !in st.sh.jobs
    ensures id !in After(c, st, steps).sh.jobs
    decreases |steps|
  {
    hide Invariant, Guard, Apply, Forgets;
    if steps != [] {
      StepKeeps(c, st, steps[0]);
      StepRetains(c, st, steps[0], id);
      ForgottenForEver(c, Apply(c, st, steps[0]), steps[1..], id);
    }
  }

  // ----- Snapshots -----

  /** How far along a code says the job is. */
  function Stage(code: byte): nat {
    if code == QUEUED then 0 else if code == RUNNING then 1 else 2
  }

  /** Later snapshots of a job are never of an earlier stage, and once one shows the end they all show the same. */
  lemma SnapshotsAdvance(c: Config, st: State, steps: seq<Step>, r: Ref, text: Bytes)
    requires Invariant(c, st) && Possible(c, st, steps) && r < |st.sh.heap|
    ensures r < |After(c, st, steps).sh.heap|
    ensures var a := Snapshot(c.instance, st.sh.heap[r], text);
            var b := Snapshot(c.instance, After(c, st, steps).sh.heap[r], text);
            && b.job == a.job && b.session == a.session && Stage(a.state) <= Stage(b.state)
            && (Stage(a.state) == 2 ==> b == a)
  {
    hide Invariant, Possible, After;
    RunEvolves(c, st, steps);
    assert Evolves(st.sh.heap[r], After(c, st, steps).sh.heap[r]);
  }

  /** Some worker starts the job in the run. */
  predicate Starts(c: Config, st: State, steps: seq<Step>, r: Ref)
    requires Possible(c, st, steps)
    decreases |steps|
  {
    steps != [] && (StartsIt(st, steps[0], r) || Starts(c, Apply(c, st, steps[0]), steps[1..], r))
  }

  predicate StartsIt(st: State, step: Step, r: Ref) {
    step.Start? && step.w < |st.workers| && st.workers[step.w] == Popped(r)
  }

  /** Only its start makes a queued job run. */
  lemma StepStarts(c: Config, st: State, step: Step, r: Ref)
    requires Invariant(c, st) && Guard(c, st, step) && r < |st.sh.heap| && st.sh.heap[r].state == Queued
    ensures r < |Apply(c, st, step).sh.heap|
    ensures StartsIt(st, step, r) ==> Apply(c, st, step).sh.heap[r].state == Running
    ensures !StartsIt(st, step, r) ==> Apply(c, st, step).sh.heap[r].state != Running
  {
    hide Invariant, HandlerGuard, ApplyHandler;
    StepEvolves(c, st, step);
    if WorkerStep(step) {
      WorkerStarts(c, st, step, r);
    } else if !step.Arrive? {
      HandlerNeverStarts(c, st, step, r);
    }
  }

  lemma WorkerStarts(c: Config, st: State, step: Step, r: Ref)
    requires Invariant(c, st) && WorkerStep(step) && WorkerGuard(st, step)
    requires r < |st.sh.heap| && st.sh.heap[r].state == Queued
    ensures r < |ApplyWorker(st, step).sh.heap|
    ensures StartsIt(st, step, r) <==> ApplyWorker(st, step).sh.heap[r].state == Running
  {
    hide JobIdsOk, SessionsOk, QueueOk, JobsOk, HistoryOk, HandlersOk, OwnersOk, CapacityOk, RecordsOk;
    assert WorkerOk(st.sh, step.w, st.workers[step.w]);
  }

  lemma HandlerNeverStarts(c: Config, st: State, step: Step, r: Ref)
    requires !step.Arrive? && !WorkerStep(step) && HandlerGuard(c, st, step)
    requires r < |st.sh.heap| && r < |ApplyHandler(c, st, step).sh.heap| && st.sh.heap[r].state == Queued
    ensures ApplyHandler(c, st, step).sh.heap[r].state != Running
  {
    hide LeftInMap, OpenSession, Retained, OwnQueue, OtherQueue, OtherJobs, SetOwner, HandlerGuard, ApplyHandler;
    if InSection(step) {
      SectionKeepsRecords(c, st, step);
    } else {
      SettlingNeverStarts(c, st, step, r);
    }
  }

  lemma SettlingNeverStarts(c: Config, st: State, step: Step, r: Ref)
    requires !step.Arrive? && !WorkerStep(step) && !InSection(step) && HandlerGuard(c, st, step)
    requires r < |st.sh.heap| && r < |ApplyHandler(c, st, step).sh.heap| && st.sh.heap[r].state == Queued
    ensures ApplyHandler(c, st, step).sh.heap[r].state != Running
  {
    hide LeftInMap, OpenSession, Retained, OwnQueue, OtherQueue, OtherJobs, SetOwner;
  }

  /** Until it ends, a queued job shows queued exactly until a worker starts it, and running from then on. */
  lemma {:induction false} QueuedUntilStarted(c: Config, st: State, steps: seq<Step>, r: Ref)
    requires Invariant(c, st) && Possible(c, st, steps) && r < |st.sh.heap| && st.sh.heap[r].state == Queued
    ensures r < |After(c, st, steps).sh.heap|
    ensures var later := After(c, st, steps).sh.heap[r];
            !Terminal(later.state) ==> later.state == if Starts(c, st, steps, r) then Running else Queued
    decreases |steps|
  {
    hide Invariant, Guard, Apply, StartsIt;
    if steps != [] {
      var next := Apply(c, st, steps[0]);
      StepKeeps(c, st, steps[0]);
      StepStarts(c, st, steps[0], r);
      RunEvolves(c, next, steps[1..]);
      assert Evolves(next.sh.heap[r], After(c, next, steps[1..]).sh.heap[r]);
      if next.sh.heap[r].state == Queued {
        QueuedUntilStarted(c, next, steps[1..], r);
      }
    }
  }

  /**
   * From submission to snapshot: whoever later asks for the status of the id that a submission returned is told of that
   * id, of the session it was submitted to, and that the job is queued or running according to whether it was started.
   */
  lemma SubmittedIsSeen(c: Config, st: State, t: Tid, session: u64, sref: Ref, steps: seq<Step>, u: Tid, r: Ref,
                        text: Bytes)
    requires Invariant(c, st) && AskedHere(c, st.handlers) && At(st, t, SubmitAdmit(session, sref))
    requires st.sh.registry.None? && |st.sh.jobs| < c.maximumJobs && st.sh.nextJob != 0
    requires Guard(c, st, Enqueue(t, Succeeds)) && Possible(c, Apply(c, st, Enqueue(t, Succeeds)), steps)
    requires var later := After(c, Apply(c, st, Enqueue(t, Succeeds)), steps);
             At(later, u, Access(ReadStatus, Id(c.instance, st.sh.nextJob), r))
    ensures var id := Id(c.instance, st.sh.nextJob);
            var next := Apply(c, st, Enqueue(t, Succeeds));
            var later := After(c, next, steps);
            && ReplyOf(c, st, Enqueue(t, Succeeds), text) == Some(SubmittedAs(id))
            && Guard(c, later, AccessRecord(u))
            && var reply := ReplyOf(c, later, AccessRecord(u), text);
               && reply.Some? && reply.value.StatusIs?
               && var s := reply.value.snapshot;
                  && s.job == id && s.session == Id(c.instance, session)
                  && (Stage(s.state) < 2 ==>
                        s.state == if Starts(c, next, steps, |st.sh.heap|) then RUNNING else QUEUED)
  {
    hide Invariant, Guard, Apply, Possible, After, Starts, ReplyOf, AskedHere;
    var next := Apply(c, st, Enqueue(t, Succeeds));
    var later := After(c, next, steps);
    SubmissionAnswers(c, st, t, session, sref, Succeeds, text);
    StepKeeps(c, st, Enqueue(t, Succeeds));
    StepAsksHere(c, st, Enqueue(t, Succeeds));
    RunKeeps(c, next, steps);
    RunAsksHere(c, next, steps);
    StatusAnswers(c, later, u, Id(c.instance, st.sh.nextJob), r, text);
    RunEvolves(c, next, steps);
    assert Evolves(next.sh.heap[|st.sh.heap|], later.sh.heap[|st.sh.heap|]);
    OneRecord(c, later, r, |st.sh.heap|);
    QueuedUntilStarted(c, next, steps, r);
  }

  lemma OneRecord(c: Config, st: State, a: Ref, b: Ref)
    requires Invariant(c, st) && a < |st.sh.heap| && b < |st.sh.heap| && st.sh.heap[a].id == st.sh.heap[b].id
    ensures a == b
  {
    hide RecordsOk, SessionsOk, QueueOk, JobsOk, HistoryOk, WorkersOk, OwnersOk, CapacityOk, HandlersOk;
  }
}
