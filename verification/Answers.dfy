/** What every request is answered, on what condition, and what it changes. */
module Answers {
  import opened Wire
  import opened Jobs
  import opened Machine
  import opened MachineInvariant
  import opened MachineSteps
  import opened MachineSafety
  import opened MachineTheorems
  import opened Messages

  datatype Reply =
    | CreatedAs(session: Id) | SubmittedAs(job: Id) | StatusIs(snapshot: JobStatus) | ResultIs(value: int)
    | Done | NotCreated | Refused(code: ErrorCode)

  /** What a step answers, if it is the last of its request; `text` is the diagnostic of a snapshot. */
  function ReplyOf(c: Config, st: State, step: Step, text: Bytes): Option<Reply>
    requires !step.Arrive? && !WorkerStep(step) && HandlerGuard(c, st, step)
  {
    var h, sh, next := st.handlers[step.t], st.sh, ApplyHandler(c, st, step);
    if step.t in next.handlers then None
    else
      match step
      case Publish(_, _) => Some(CreatedAs(Id(c.instance, sh.nextSession)))
      case Rollback(_) => Some(NotCreated)
      case Enqueue(_, _) =>
        Some(if |next.sh.heap| > |sh.heap| then SubmittedAs(Id(c.instance, sh.nextJob))
             else Refused(RESOURCE_EXHAUSTED))
      case Mark(_) => Some(Refused(NOT_FOUND))
      case CheckSession(_) => Some(Refused(NOT_FOUND))
      case Find(_) => Some(Refused(NOT_FOUND))
      case FindForRelease(_) => Some(Refused(NOT_FOUND))
      case CheckTerminal(_) => Some(Refused(INVALID_ARGUMENT))
      case AccessRecord(_) =>
        Some(match h.op
             case ReadStatus => StatusIs(Snapshot(c.instance, sh.heap[h.ref], text))
             case ReadResult => Fetched(ResultOf(sh.heap[h.ref]))
             case RequestCancel => Done)
      case Finalize(_) => Some(Done)
      case Erase(_) => Some(Done)
      case _ => Some(Refused(RESOURCE_EXHAUSTED))
  }

  function Fetched(r: Result<int>): Reply {
    match r
    case Ok(value) => ResultIs(value)
    case Err(code) => Refused(code)
  }

  /** The handler is gone, and the lifecycle lock, if it held it, is free; nothing else changed. */
  function Left(st: State, t: Tid): State {
    st.(sh := st.sh.(lifecycle := if st.sh.lifecycle == Some(t) then None else st.sh.lifecycle),
        handlers := st.handlers - {t})
  }

  // ----- session.create -----

  /** A creation is turned away exactly when no slot or no id is left; otherwise it takes one slot. */
  lemma AdmissionAnswers(c: Config, st: State, t: Tid, text: Bytes)
    requires At(st, t, CreateAdmit) && st.sh.lifecycle == Some(t)
    ensures Guard(c, st, Admit(t))
    ensures var next := Apply(c, st, Admit(t));
            if |st.sh.sessions| + st.sh.pending < c.maximumSessions && st.sh.nextSession != 0 then
              && ReplyOf(c, st, Admit(t), text) == None && At(next, t, CreateBuild)
              && RoomsTaken(st.sh, next.sh, 0, 1)
            else ReplyOf(c, st, Admit(t), text) == Some(Refused(RESOURCE_EXHAUSTED)) && next == Left(st, t)
  {
  }

  /** Some sessions more and some slots more, or less; jobs, records and the other sessions as they were. */
  predicate RoomsTaken(a: Shared, b: Shared, sessions: int, slots: int) {
    && b.heap == a.heap && b.jobs == a.jobs && b.queue == a.queue && b.nextJob == a.nextJob
    && b.pending == a.pending + slots && |b.sessions| == |a.sessions| + sessions
    && a.sessionHeap <= b.sessionHeap && |b.sessionHeap| == |a.sessionHeap| + sessions
    && (forall s :: s in a.sessions ==> s in b.sessions && b.sessions[s] == a.sessions[s])
  }

  /** Only a document that compiles goes on to be published; building changes nothing that is shared. */
  lemma BuildAnswers(c: Config, st: State, t: Tid, compiles: bool, text: Bytes)
    requires At(st, t, CreateBuild)
    ensures Guard(c, st, Build(t, compiles)) && ReplyOf(c, st, Build(t, compiles), text) == None
    ensures var next := Apply(c, st, Build(t, compiles));
            next.sh == st.sh && At(next, t, CreatePublish) == compiles && At(next, t, CreateRollback) == !compiles
  {
  }

  lemma FreshSession(sh: Shared)
    requires SessionsOk(sh) && sh.nextSession != 0
    ensures sh.nextSession !in sh.sessions
  {
    forall s | s in sh.sessions ensures s != sh.nextSession {
      assert SessionOk(sh.sessionHeap[sh.sessions[s]], sh.nextSession);
    }
  }

  lemma NewSessionTakesRoom(c: Config, sh: Shared)
    requires SessionsOk(sh) && sh.nextSession != 0 && sh.pending > 0
    ensures sh.nextSession !in sh.sessions && !OpenSession(c, sh, Id(c.instance, sh.nextSession))
    ensures var b := WithNewSession(sh.(pending := sh.pending - 1));
            && OpenSession(c, b, Id(c.instance, sh.nextSession)) && RoomsTaken(sh, b, 1, -1)
            && Follows(sh.nextSession, b.nextSession)
  {
    FreshSession(sh);
  }

  lemma PublishIs(c: Config, st: State, t: Tid, throws: bool)
    requires Invariant(c, st) && At(st, t, CreatePublish) && st.sh.lifecycle == Some(t)
    ensures Guard(c, st, Publish(t, throws)) && SessionsOk(st.sh) && st.sh.pending > 0
    ensures Apply(c, st, Publish(t, throws)) ==
              if st.sh.nextSession == 0 || throws
              then st.(sh := st.sh.(lifecycle := None), handlers := st.handlers[t := CreateRollback])
              else st.(sh := WithNewSession(st.sh.(pending := st.sh.pending - 1)).(lifecycle := None),
                       handlers := st.handlers - {t})
  {
    hide RecordsOk, JobIdsOk, QueueOk, JobsOk, HistoryOk, WorkersOk, OwnersOk, HandlersOk, Reservations, OpenSession;
    Pending(c, st, t);
    if st.sh.nextSession != 0 {
      FreshSession(st.sh);
    }
  }

  /** A creation that is ready to publish succeeds unless it throws or the last id is gone, and the session is open. */
  lemma PublicationAnswers(c: Config, st: State, t: Tid, throws: bool, text: Bytes)
    requires Invariant(c, st) && At(st, t, CreatePublish) && st.sh.lifecycle == Some(t)
    ensures Guard(c, st, Publish(t, throws))
    ensures var next := Apply(c, st, Publish(t, throws));
            if st.sh.nextSession != 0 && !throws then
              var id := Id(c.instance, st.sh.nextSession);
              && ReplyOf(c, st, Publish(t, throws), text) == Some(CreatedAs(id))
              && !OpenSession(c, st.sh, id) && OpenSession(c, next.sh, id) && RoomsTaken(st.sh, next.sh, 1, -1)
              && Follows(st.sh.nextSession, next.sh.nextSession)
            else
              ReplyOf(c, st, Publish(t, throws), text) == None && At(next, t, CreateRollback)
              && RoomsTaken(st.sh, next.sh, 0, 0) && next.sh.nextSession == st.sh.nextSession
  {
    hide Invariant, HandlerGuard, ApplyHandler, SessionsOk;
    PublishIs(c, st, t, throws);
    if st.sh.nextSession != 0 && !throws {
      NewSessionTakesRoom(c, st.sh);
    }
  }

  /** Ids are handed out one after the other; after the last one the counter stands at zero. */
  predicate Follows(id: u64, next: u64) {
    if id == 0xFFFF_FFFF_FFFF_FFFF then next == 0 else next == id + 1
  }

  lemma RollbackAnswers(c: Config, st: State, t: Tid, text: Bytes)
    requires Invariant(c, st) && At(st, t, CreateRollback) && st.sh.lifecycle == Some(t)
    ensures Guard(c, st, Rollback(t)) && ReplyOf(c, st, Rollback(t), text) == Some(NotCreated)
    ensures var next := Apply(c, st, Rollback(t));
            RoomsTaken(st.sh, next.sh, 0, -1) && next.sh.nextSession == st.sh.nextSession
  {
    hide RecordsOk, JobIdsOk, SessionsOk, QueueOk, JobsOk, HistoryOk, WorkersOk, OwnersOk, HandlersOk, Reservations;
    Pending(c, st, t);
  }

  // ----- session.close and job.submit: finding the session -----

  /** The id is of this daemon, and its session exists and is not being closed. */
  predicate NamesOpen(c: Config, sh: Shared, id: Id) {
    && id.instance == c.instance && id.value in sh.sessions
    && sh.sessions[id.value] < |sh.sessionHeap| && !sh.sessionHeap[sh.sessions[id.value]].closing
  }

  lemma NamesOpenIs(c: Config, sh: Shared, id: Id)
    requires SessionsOk(sh)
    ensures NamesOpen(c, sh, id) <==> OpenSession(c, sh, id)
  {
    if id.value in sh.sessions {
      assert SessionOk(sh.sessionHeap[sh.sessions[id.value]], sh.nextSession);
    }
  }

  /**
   * A close of an id of another daemon, or of no session, or of one that is being closed, is answered with not found
   * and has no effect. Otherwise exactly that session is marked.
   */
  lemma CloseAnswers(c: Config, st: State, t: Tid, id: Id, text: Bytes)
    requires Invariant(c, st) && At(st, t, CloseMark(id)) && st.sh.lifecycle == Some(t)
    ensures Guard(c, st, Mark(t))
    ensures var next := Apply(c, st, Mark(t));
            if !NamesOpen(c, st.sh, id) then
              ReplyOf(c, st, Mark(t), text) == Some(Refused(NOT_FOUND)) && next == Left(st, t)
            else
              && ReplyOf(c, st, Mark(t), text) == None && At(next, t, CloseSnapshot(id.value, st.sh.sessions[id.value]))
              && RoomsTaken(st.sh, next.sh.(sessionHeap := st.sh.sessionHeap), 0, 0)
              && next.sh.nextSession == st.sh.nextSession
              && (forall other :: OpenSession(c, next.sh, other) <==> OpenSession(c, st.sh, other) && other != id)
  {
    hide RecordsOk, JobIdsOk, QueueOk, JobsOk, HistoryOk, WorkersOk, OwnersOk, HandlersOk, CapacityOk;
    NamesOpenIs(c, st.sh, id);
  }

  /** So is a submission to such an id; otherwise it goes on to that session, still holding the lifecycle lock. */
  lemma SubmissionFinds(c: Config, st: State, t: Tid, id: Id, text: Bytes)
    requires Invariant(c, st) && At(st, t, SubmitCheck(id)) && st.sh.lifecycle == Some(t)
    ensures Guard(c, st, CheckSession(t))
    ensures var next := Apply(c, st, CheckSession(t));
            if !NamesOpen(c, st.sh, id) then
              ReplyOf(c, st, CheckSession(t), text) == Some(Refused(NOT_FOUND)) && next == Left(st, t)
            else
              && ReplyOf(c, st, CheckSession(t), text) == None && next.sh == st.sh
              && At(next, t, SubmitAdmit(id.value, st.sh.sessions[id.value]))
  {
    hide RecordsOk, JobIdsOk, SessionsOk, QueueOk, JobsOk, HistoryOk, WorkersOk, OwnersOk, HandlersOk, CapacityOk;
    NamesOpenIs(c, st.sh, id);
  }

  // ----- job.submit: admission -----

  lemma EnqueueIs(c: Config, st: State, t: Tid, session: u64, sref: Ref, allocation: Allocation)
    requires Invariant(c, st) && At(st, t, SubmitAdmit(session, sref)) && st.sh.registry.None?
    ensures Guard(c, st, Enqueue(t, allocation)) && (st.sh.nextJob != 0 ==> st.sh.nextJob !in st.sh.jobs)
    ensures Apply(c, st, Enqueue(t, allocation)) ==
              st.(handlers := st.handlers - {t},
                  sh := var sh := st.sh.(lifecycle := None);
                        if |sh.jobs| >= c.maximumJobs || sh.nextJob == 0 || allocation.FailsBeforeId? then sh
                        else if allocation.FailsAfterId? then sh.(nextJob := Increment(sh.nextJob))
                        else Admitted(sh, session))
  {
    hide RecordsOk, QueueOk, HistoryOk, WorkersOk, OwnersOk, CapacityOk;
    assert HandlerOk(st.sh, t, st.handlers[t]);
    if st.sh.nextJob != 0 {
      FreshId(st.sh);
    }
  }

  /**
   * A submission to an open session is admitted exactly when the registry retains less than its maximum, an id is left
   * and nothing fails to allocate: one record, of that session and with the next id, is retained and queued last.
   * Otherwise it is refused and no job changes; an id may be spent.
   */
  lemma SubmissionAnswers(c: Config, st: State, t: Tid, session: u64, sref: Ref, allocation: Allocation, text: Bytes)
    requires Invariant(c, st) && At(st, t, SubmitAdmit(session, sref)) && st.sh.registry.None?
    ensures Guard(c, st, Enqueue(t, allocation))
    ensures var a, next := st.sh, Apply(c, st, Enqueue(t, allocation)); var b := next.sh;
            var room := |a.jobs| < c.maximumJobs && a.nextJob != 0;
            && (if room && allocation.Succeeds? then
                  && ReplyOf(c, st, Enqueue(t, allocation), text) == Some(SubmittedAs(Id(c.instance, a.nextJob)))
                  && a.nextJob !in a.jobs && b.jobs == a.jobs[a.nextJob := |a.heap|]
                  && b.queue == a.queue + [|a.heap|]
                  && b.heap == a.heap + [Record(a.nextJob, session, Queued, OK, false, None)]
                else
                  && ReplyOf(c, st, Enqueue(t, allocation), text) == Some(Refused(RESOURCE_EXHAUSTED))
                  && b.jobs == a.jobs && b.queue == a.queue && b.heap == a.heap)
            && (if room && !allocation.FailsBeforeId? then Follows(a.nextJob, b.nextJob) else b.nextJob == a.nextJob)
            && SameSessions(a, b) && next.handlers == st.handlers - {t} && next.workers == st.workers
  {
    hide Invariant, HandlerGuard, ApplyHandler;
    EnqueueIs(c, st, t, session, sref, allocation);
  }

  predicate SameSessions(a: Shared, b: Shared) {
    && b.sessionHeap == a.sessionHeap && b.sessions == a.sessions && b.pending == a.pending
    && b.nextSession == a.nextSession
  }

  // ----- job.status, job.result, job.cancel, job.release: finding the job -----

  /** A lookup of an id of another daemon, or of no retained job, is answered with not found and has no effect. */
  lemma LookupAnswers(c: Config, st: State, t: Tid, op: Operation, id: Id, text: Bytes)
    requires Invariant(c, st) && At(st, t, Lookup(op, id)) && st.sh.registry.None?
    ensures Guard(c, st, Find(t))
    ensures var next := Apply(c, st, Find(t));
            if id.instance == c.instance && id.value in st.sh.jobs then
              && ReplyOf(c, st, Find(t), text) == None
              && next == st.(handlers := st.handlers[t := Access(op, id, st.sh.jobs[id.value])])
              && st.sh.jobs[id.value] < |st.sh.heap| && st.sh.heap[st.sh.jobs[id.value]].id == id.value
            else
              ReplyOf(c, st, Find(t), text) == Some(Refused(NOT_FOUND)) && next == st.(handlers := st.handlers - {t})
  {
    hide RecordsOk, SessionsOk, QueueOk, HistoryOk, WorkersOk, OwnersOk, HandlersOk, CapacityOk;
    if id.value in st.sh.jobs {
      assert Retains(st.sh, id.value, st.sh.jobs[id.value]);
    }
  }

  /** A release finds its job in the same way, and then keeps the registry to itself. */
  lemma ReleaseFinds(c: Config, st: State, t: Tid, id: Id, text: Bytes)
    requires Invariant(c, st) && At(st, t, ReleaseLookup(id)) && st.sh.registry.None?
    ensures Guard(c, st, FindForRelease(t))
    ensures var next := Apply(c, st, FindForRelease(t));
            if id.instance == c.instance && id.value in st.sh.jobs then
              && ReplyOf(c, st, FindForRelease(t), text) == None && next.sh == st.sh.(registry := Some(t))
              && next.handlers == st.handlers[t := ReleaseCheck(id.value, st.sh.jobs[id.value])]
            else
              && ReplyOf(c, st, FindForRelease(t), text) == Some(Refused(NOT_FOUND))
              && next == st.(handlers := st.handlers - {t})
  {
    hide RecordsOk, SessionsOk, QueueOk, HistoryOk, WorkersOk, OwnersOk, HandlersOk, CapacityOk;
    if id.value in st.sh.jobs {
      assert Retains(st.sh, id.value, st.sh.jobs[id.value]);
    }
  }

  /** It refuses an unfinished job. */
  lemma ReleaseChecks(c: Config, st: State, t: Tid, key: u64, r: Ref, text: Bytes)
    requires Invariant(c, st) && At(st, t, ReleaseCheck(key, r))
    ensures Guard(c, st, CheckTerminal(t)) && r < |st.sh.heap| && st.sh.heap[r].id == key
    ensures var next := Apply(c, st, CheckTerminal(t));
            if Terminal(st.sh.heap[r].state) then
              && ReplyOf(c, st, CheckTerminal(t), text) == None && next.sh == st.sh
              && next.handlers == st.handlers[t := ReleaseErase(key, r)]
            else
              && ReplyOf(c, st, CheckTerminal(t), text) == Some(Refused(INVALID_ARGUMENT))
              && next.sh == st.sh.(registry := None) && next.handlers == st.handlers - {t}
  {
    hide RecordsOk, JobIdsOk, SessionsOk, QueueOk, HistoryOk, WorkersOk, OwnersOk, CapacityOk;
    assert HandlerOk(st.sh, t, st.handlers[t]);
    assert Retains(st.sh, key, r);
  }

  /** It erases exactly the entry of a finished one. */
  lemma ReleaseErases(c: Config, st: State, t: Tid, key: u64, r: Ref, text: Bytes)
    requires Invariant(c, st) && At(st, t, ReleaseErase(key, r))
    ensures Guard(c, st, Erase(t)) && ReplyOf(c, st, Erase(t), text) == Some(Done)
    ensures key in st.sh.jobs && r < |st.sh.heap| && st.sh.heap[r].id == key && Terminal(st.sh.heap[r].state)
    ensures Apply(c, st, Erase(t)).sh == st.sh.(jobs := st.sh.jobs - {key}, registry := None)
  {
    hide RecordsOk, JobIdsOk, SessionsOk, QueueOk, HistoryOk, WorkersOk, OwnersOk, CapacityOk;
    assert HandlerOk(st.sh, t, st.handlers[t]);
    assert Retains(st.sh, key, r);
  }

  // ----- job.status, job.result, job.cancel: the record -----

  /** Whoever reaches a record asked for an id of this daemon. */
  predicate AskedHere(c: Config, handlers: map<Tid, Handler>) {
    forall t :: t in handlers && handlers[t].Access? ==> handlers[t].id.instance == c.instance
  }

  lemma FoundHere(c: Config, st: State, step: Step)
    requires !step.Arrive? && !WorkerStep(step) && HandlerGuard(c, st, step)
    ensures var next := ApplyHandler(c, st, step).handlers;
            step.t in next && next[step.t].Access? ==> step.Find? && next[step.t].id.instance == c.instance
  {
    hide LeftInMap, OpenSession, OwnQueue, OtherQueue, OtherJobs, WithCancelRequested;
  }

  lemma OthersWereThere(c: Config, st: State, step: Step, u: Tid)
    requires !step.Arrive? && !WorkerStep(step) && HandlerGuard(c, st, step)
    requires u != step.t && u in ApplyHandler(c, st, step).handlers
    ensures u in st.handlers && ApplyHandler(c, st, step).handlers[u] == st.handlers[u]
  {
    hide LeftInMap, OpenSession, Retained, OwnQueue, OtherQueue, OtherJobs, WithCancelRequested;
  }

  lemma StepAsksHere(c: Config, st: State, step: Step)
    requires Guard(c, st, step) && AskedHere(c, st.handlers)
    ensures AskedHere(c, Apply(c, st, step).handlers)
  {
    hide HandlerGuard, ApplyHandler;
    var next := Apply(c, st, step).handlers;
    if !step.Arrive? && !WorkerStep(step) {
      forall u | u in next && next[u].Access? ensures next[u].id.instance == c.instance {
        if u == step.t {
          FoundHere(c, st, step);
        } else {
          OthersWereThere(c, st, step, u);
        }
      }
    }
  }

  lemma {:induction false} RunAsksHere(c: Config, st: State, steps: seq<Step>)
    requires Possible(c, st, steps) && AskedHere(c, st.handlers)
    ensures AskedHere(c, After(c, st, steps).handlers)
    decreases |steps|
  {
    hide Guard, Apply, AskedHere;
    if steps != [] {
      StepAsksHere(c, st, steps[0]);
      RunAsksHere(c, Apply(c, st, steps[0]), steps[1..]);
    }
  }

  /** The codes a client sees. */
  predicate Shows(code: byte, state: JobState) {
    && (code == QUEUED <==> state == Queued) && (code == RUNNING <==> state == Running)
    && (code == SUCCEEDED <==> state == Succeeded) && (code == FAILED <==> state == Failed)
    && (code == STATE_CANCELLED <==> state == Cancelled)
  }

  /**
   * In every reachable state a status request is answered with a snapshot of the job that was asked for: its id, its
   * session, its state and outcome; success is shown exactly when a result can be fetched. Nothing changes.
   */
  lemma StatusAnswers(c: Config, st: State, t: Tid, id: Id, r: Ref, text: Bytes)
    requires Invariant(c, st) && AskedHere(c, st.handlers) && At(st, t, Access(ReadStatus, id, r))
    ensures Guard(c, st, AccessRecord(t)) && r < |st.sh.heap| && st.sh.heap[r].id == id.value
    ensures Apply(c, st, AccessRecord(t)) == st.(handlers := st.handlers - {t})
    ensures var reply := ReplyOf(c, st, AccessRecord(t), text);
            && reply.Some? && reply.value.StatusIs?
            && var s := reply.value.snapshot;
               && s.job == id && s.session == Id(c.instance, st.sh.heap[r].session)
               && Shows(s.state, st.sh.heap[r].state) && s.outcome == Status(st.sh.heap[r].outcome, text)
               && (s.state == SUCCEEDED <==> ResultOf(st.sh.heap[r]).Ok?)
  {
    hide JobIdsOk, SessionsOk, QueueOk, JobsOk, HistoryOk, WorkersOk, OwnersOk, CapacityOk;
    assert HandlerOk(st.sh, t, st.handlers[t]);
    assert Coherent(st.sh.heap[r]);
  }

  /** A result request is answered with the result exactly of a success, otherwise with why there is none. */
  lemma ResultAnswers(c: Config, st: State, t: Tid, id: Id, r: Ref, text: Bytes)
    requires Invariant(c, st) && At(st, t, Access(ReadResult, id, r))
    ensures Guard(c, st, AccessRecord(t)) && r < |st.sh.heap| && st.sh.heap[r].id == id.value
    ensures Apply(c, st, AccessRecord(t)) == st.(handlers := st.handlers - {t})
    ensures var rec, reply := st.sh.heap[r], ReplyOf(c, st, AccessRecord(t), text);
            match rec.state
            case Succeeded => rec.result.Some? && reply == Some(ResultIs(rec.result.value))
            case Failed => rec.outcome != OK && reply == Some(Refused(rec.outcome))
            case Cancelled => reply == Some(Refused(CANCELLED))
            case _ => reply == Some(Refused(INVALID_ARGUMENT))
  {
    hide JobIdsOk, SessionsOk, QueueOk, JobsOk, HistoryOk, WorkersOk, OwnersOk, CapacityOk;
    assert HandlerOk(st.sh, t, st.handlers[t]);
    assert Coherent(st.sh.heap[r]);
  }

  /** A cancellation is accepted, and sets the token of the job that was asked for if it has not ended. */
  lemma CancellationAnswers(c: Config, st: State, t: Tid, id: Id, r: Ref, text: Bytes)
    requires Invariant(c, st) && At(st, t, Access(RequestCancel, id, r))
    ensures Guard(c, st, AccessRecord(t)) && ReplyOf(c, st, AccessRecord(t), text) == Some(Done)
    ensures r < |st.sh.heap| && st.sh.heap[r].id == id.value
    ensures var next, rec := Apply(c, st, AccessRecord(t)), st.sh.heap[r];
            && next.handlers == st.handlers - {t} && next.workers == st.workers
            && next.sh == st.sh.(heap := st.sh.heap[r := rec.(cancelled := rec.cancelled || !Terminal(rec.state))])
  {
    hide JobIdsOk, SessionsOk, QueueOk, JobsOk, HistoryOk, WorkersOk, OwnersOk, CapacityOk;
    assert HandlerOk(st.sh, t, st.handlers[t]);
    assert Coherent(st.sh.heap[r]);
    assert st.sh.owner[r := st.sh.owner[r]] == st.sh.owner;
  }

  /** A close that has settled everything is answered, and its session is gone and no other. */
  lemma FinalizationAnswers(c: Config, st: State, t: Tid, call: CloseCall, text: Bytes)
    requires Invariant(c, st) && At(st, t, CloseSettle(call, Finish)) && st.sh.lifecycle == Some(t)
    ensures Guard(c, st, Finalize(t)) && ReplyOf(c, st, Finalize(t), text) == Some(Done)
    ensures Apply(c, st, Finalize(t)).sh == st.sh.(lifecycle := None, sessions := st.sh.sessions - {call.session})
  {
    hide RecordsOk, JobIdsOk, QueueOk, JobsOk, HistoryOk, WorkersOk, OwnersOk, CapacityOk, Covers, QueuedOk, RunningOk;
    assert HandlerOk(st.sh, t, st.handlers[t]);
    assert SessionOk(st.sh.sessionHeap[call.sref], st.sh.nextSession);
  }
}
