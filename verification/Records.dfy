/** A job record as the worker sees it: publication in place, and execution behind its exception fence. */
module Records {
  import opened Wire
  import opened Jobs

  /**
   * Everything the outside can do to one execution. `throws(n)` is the category that the fence gives to an exception
   * raised at throwing point `n`, if one is raised there; `jams(n)` says that the record lock taken before point `n`
   * cannot be had, which raises an exception the fence files as internal; `cancels(n)` says that another thread sets
   * the token before the worker looks at it, or takes the record lock, for the `n`th time.
   */
  datatype Environment = Environment(
    throws: nat -> Option<ErrorCode>, jams: nat -> bool, cancels: nat -> bool,
    compiled: Option<ErrorCode>, executed: Result<int>)

  ghost predicate Sane(e: Environment) {
    && (forall n :: e.throws(n) == None || e.throws(n) == Some(RESOURCE_EXHAUSTED) || e.throws(n) == Some(INTERNAL))
    && e.compiled != Some(OK) && e.executed != Err(OK)
  }

  // Throwing points.
  const LEFT_QUEUED := 0
  const BEFORE_CHECK := 1
  const CANCELLED_BEFORE_COMPILING := 2
  const COMPILING := 3
  const COMPILATION_STATUS := 4
  const COMPILATION_CANCELLED := 5
  const CANCELLED_WHILE_COMPILING := 6
  const EXECUTING := 7
  const CANCELLED_WHILE_EXECUTING := 8
  const EXECUTION_STATUS := 9
  const EXECUTION_CANCELLED := 10
  const RESULT_REJECTED := 11
  const RESULT_TAKEN := 12
  const RESULT_STORED := 13
  const FENCE_STATUS := 14
  const FENCE_CANCELLED := 15
  const FALLBACK := 16

  // Moments at which the worker looks at the token.
  const AT_START := 0
  const AT_COMPILE := 1
  const AT_EXECUTE := 2
  const AT_RETURN := 3
  const AT_PUBLICATION := 4
  const AT_FENCE := 5
  const AT_FALLBACK := 6

  /** A record, the terminal states written to it so far, and an exception in flight. */
  datatype Progress = Progress(record: Record, written: seq<JobState>, thrown: Option<ErrorCode>)

  function Write(p: Progress, r: Record): Progress {
    Progress(r, p.written + [r.state], p.thrown)
  }

  function Interfered(e: Environment, moment: nat, r: Record): Record {
    if e.cancels(moment) then r.(cancelled := true) else r
  }

  /** Publication of a cancellation, under the lock: the state is written before the diagnostic is allocated. */
  function Cancelling(e: Environment, point: nat, p: Progress): Progress {
    if e.throws(point).Some? then Write(p, p.record.(state := Cancelled)).(thrown := e.throws(point))
    else Write(p, AsCancelled(p.record))
  }

  /** What follows once the lock for `point` is taken, if it can be had. */
  function Locking(e: Environment, point: nat, p: Progress, taken: Progress): Progress {
    if e.jams(point) then p.(thrown := Some(INTERNAL)) else taken
  }

  /** Publication of a failure, whose status is copied first and which gives way to a cancellation. */
  function FailingWith(e: Environment, copying: nat, cancelling: nat, code: ErrorCode, p: Progress): Progress {
    if e.throws(copying).Some? then p.(thrown := e.throws(copying))
    else
      Locking(e, cancelling, p,
              if p.record.cancelled then Cancelling(e, cancelling, p)
              else Write(p, p.record.(state := Failed, outcome := code, result := None)))
  }

  /** Publication of a result, under the lock, unless cancellation was requested. */
  function Storing(e: Environment, value: int, p: Progress): Progress {
    if p.record.cancelled then Cancelling(e, RESULT_REJECTED, p)
    else if e.throws(RESULT_TAKEN).Some? then p.(thrown := e.throws(RESULT_TAKEN))
    else
      var stored := p.record.(result := Some(value));
      if e.throws(RESULT_STORED).Some? then p.(record := stored, thrown := e.throws(RESULT_STORED))
      else Write(p, stored.(outcome := OK, state := Succeeded))
  }

  /** What is published after the kernel returned. */
  function Publishing(e: Environment, r: Record): Progress {
    match e.executed
    case Err(code) =>
      var seen := Interfered(e, AT_RETURN, r);
      var p := Progress(Interfered(e, AT_PUBLICATION, seen), [], None);
      if code == CANCELLED || seen.cancelled
      then Locking(e, CANCELLED_WHILE_EXECUTING, p, Cancelling(e, CANCELLED_WHILE_EXECUTING, p))
      else FailingWith(e, EXECUTION_STATUS, EXECUTION_CANCELLED, code, p)
    case Ok(value) =>
      var p := Progress(Interfered(e, AT_PUBLICATION, r), [], None);
      Locking(e, RESULT_REJECTED, p, Storing(e, value, p))
  }

  /** The protected part of an execution, from the moment the record runs. */
  function Protected(e: Environment, r: Record): Progress {
    if e.throws(BEFORE_CHECK).Some? then Progress(r, [], e.throws(BEFORE_CHECK))
    else
      var p1 := Progress(Interfered(e, AT_START, r), [], None);
      if p1.record.cancelled
      then Locking(e, CANCELLED_BEFORE_COMPILING, p1, Cancelling(e, CANCELLED_BEFORE_COMPILING, p1))
      else if e.throws(COMPILING).Some? then p1.(thrown := e.throws(COMPILING))
      else
        var p2 := Progress(Interfered(e, AT_COMPILE, p1.record), [], None);
        if e.compiled.Some? then FailingWith(e, COMPILATION_STATUS, COMPILATION_CANCELLED, e.compiled.value, p2)
        else if p2.record.cancelled
        then Locking(e, CANCELLED_WHILE_COMPILING, p2, Cancelling(e, CANCELLED_WHILE_COMPILING, p2))
        else if e.throws(EXECUTING).Some? then p2.(thrown := e.throws(EXECUTING))
        else Publishing(e, Interfered(e, AT_EXECUTE, p2.record))
  }

  /** A record that was not queued is failed at once. */
  function LeftQueued(e: Environment, r: Record): Progress {
    if e.throws(LEFT_QUEUED).Some? then Progress(r.(state := Failed), [Failed], e.throws(LEFT_QUEUED))
    else Progress(r.(state := Failed, outcome := INTERNAL), [Failed], None)
  }

  /** Everything inside the fence. */
  function Inside(e: Environment, r: Record): Progress {
    Locking(e, LEFT_QUEUED, Progress(r, [], None),
            if r.state == Queued then Protected(e, r.(state := Running)) else LeftQueued(e, r))
  }

  /**
   * The fence: publishes the failure, and if even that throws, publishes it again without allocating. An exception of
   * this second attempt, which only its lock can raise, is swallowed.
   */
  function Fenced(e: Environment, code: ErrorCode, p: Progress): Progress {
    var first := p.(record := Interfered(e, AT_FENCE, p.record), thrown := None);
    var q := FailingWith(e, FENCE_STATUS, FENCE_CANCELLED, code, first);
    if q.thrown.None? then q
    else
      var again := q.(record := Interfered(e, AT_FALLBACK, q.record), thrown := None);
      if e.jams(FALLBACK) then again else Write(again, AsFailed(again.record, code))
  }

  /** A whole execution of a record. */
  function Executed(e: Environment, r: Record): Progress {
    var p := Inside(e, r);
    if p.thrown.None? then p else Fenced(e, p.thrown.value, p)
  }

  /** A record that has ended: state, outcome, result and token agree. */
  predicate Ended(r: Record) {
    && Terminal(r.state)
    && (r.result.Some? <==> r.state == Succeeded)
    && (r.outcome == OK <==> r.state == Succeeded)
    && (r.state == Cancelled ==> r.outcome == CANCELLED)
    && (r.cancelled ==> r.state == Cancelled)
  }

  predicate SameJob(a: Record, b: Record) {
    a.id == b.id && a.session == b.session && (a.cancelled ==> b.cancelled)
  }

  lemma PublishingEnds(e: Environment, r: Record)
    requires Sane(e) && r.result == None
    ensures var p := Publishing(e, r);
            && SameJob(r, p.record)
            && (p.thrown.None? ==> Ended(p.record))
            && (p.thrown.Some? ==> p.thrown.value != OK)
            && (p.thrown.Some? && r.outcome == OK && r.state == Running ==>
                  p.record.outcome == OK && p.record.state != Succeeded)
  {
  }

  lemma InsideEnds(e: Environment, r: Record)
    requires Sane(e) && r.state == Queued && r.result == None && r.outcome == OK
    ensures var p := Inside(e, r);
            && SameJob(r, p.record)
            && (p.thrown.None? ==> Ended(p.record))
            && (p.thrown.Some? ==> p.thrown.value != OK && p.record.outcome == OK && p.record.state != Succeeded)
  {
    hide Publishing;
    var r2 := Interfered(e, AT_COMPILE, Interfered(e, AT_START, r.(state := Running)));
    PublishingEnds(e, Interfered(e, AT_EXECUTE, r2));
  }

  // ----- When the fence holds, in terms of what the environment does -----

  /**
   * How the protected part goes, told from the environment and the token alone: an exception of a category escapes
   * before any terminal state is written, the diagnostic at `point` is to be allocated after one was, or there is none
   * to allocate.
   */
  datatype Course =
    Escapes(token: bool, code: ErrorCode) | Diagnoses(token: bool, point: nat) | Publishes(token: bool)

  function Diagnosing(e: Environment, point: nat, token: bool): Course {
    if e.jams(point) then Escapes(token, INTERNAL) else Diagnoses(token, point)
  }

  function FailureCourse(e: Environment, copying: nat, cancelling: nat, token: bool): Course {
    if e.throws(copying).Some? then Escapes(token, e.throws(copying).value)
    else if token then Diagnosing(e, cancelling, token)
    else if e.jams(cancelling) then Escapes(token, INTERNAL)
    else Publishes(token)
  }

  function PublicationCourse(e: Environment, token: bool): Course {
    match e.executed
    case Err(code) =>
      var seen := token || e.cancels(AT_RETURN);
      var last := seen || e.cancels(AT_PUBLICATION);
      if code == CANCELLED || seen then Diagnosing(e, CANCELLED_WHILE_EXECUTING, last)
      else FailureCourse(e, EXECUTION_STATUS, EXECUTION_CANCELLED, last)
    case Ok(_) =>
      var last := token || e.cancels(AT_PUBLICATION);
      if last then Diagnosing(e, RESULT_REJECTED, last)
      else if e.jams(RESULT_REJECTED) then Escapes(last, INTERNAL)
      else if e.throws(RESULT_TAKEN).Some? then Escapes(last, e.throws(RESULT_TAKEN).value)
      else if e.throws(RESULT_STORED).Some? then Escapes(last, e.throws(RESULT_STORED).value)
      else Publishes(last)
  }

  function CourseOf(e: Environment, cancelled: bool): Course {
    if e.jams(LEFT_QUEUED) then Escapes(cancelled, INTERNAL)
    else if e.throws(BEFORE_CHECK).Some? then Escapes(cancelled, e.throws(BEFORE_CHECK).value)
    else
      var started := cancelled || e.cancels(AT_START);
      if started then Diagnosing(e, CANCELLED_BEFORE_COMPILING, started)
      else if e.throws(COMPILING).Some? then Escapes(started, e.throws(COMPILING).value)
      else
        var compiled := started || e.cancels(AT_COMPILE);
        if e.compiled.Some? then FailureCourse(e, COMPILATION_STATUS, COMPILATION_CANCELLED, compiled)
        else if compiled then Diagnosing(e, CANCELLED_WHILE_COMPILING, compiled)
        else if e.throws(EXECUTING).Some? then Escapes(compiled, e.throws(EXECUTING).value)
        else PublicationCourse(e, compiled || e.cancels(AT_EXECUTE))
  }

  /** The protected part writes a terminal state and then fails to allocate its diagnostic. */
  predicate HalfWritten(e: Environment, cancelled: bool) {
    var course := CourseOf(e, cancelled);
    course.Diagnoses? && e.throws(course.point).Some?
  }

  predicate ProtectedFails(e: Environment, cancelled: bool) {
    Escaping(e, CourseOf(e, cancelled)).Some?
  }

  /** So does the fence, if the token is as it finds it. */
  predicate FenceHalfBreaks(e: Environment, token: bool) {
    && e.throws(FENCE_STATUS).None? && !e.jams(FENCE_CANCELLED)
    && (token || e.cancels(AT_FENCE)) && e.throws(FENCE_CANCELLED).Some?
  }

  /** The first attempt of the fence fails. */
  predicate FenceBreaks(e: Environment, token: bool) {
    e.throws(FENCE_STATUS).Some? || e.jams(FENCE_CANCELLED) || FenceHalfBreaks(e, token)
  }

  predicate FenceHalfWritten(e: Environment, cancelled: bool) {
    FenceHalfBreaks(e, CourseOf(e, cancelled).token)
  }

  predicate FenceFails(e: Environment, cancelled: bool) {
    FenceBreaks(e, CourseOf(e, cancelled).token)
  }

  /** The execution fails, publishing the failure fails, and so does the lock of the last attempt. */
  predicate FenceIsLost(e: Environment, cancelled: bool) {
    ProtectedFails(e, cancelled) && FenceFails(e, cancelled) && e.jams(FALLBACK)
  }

  /** A diagnostic that is allocated after a terminal state was written cannot be. */
  predicate DiagnosticFails(e: Environment, cancelled: bool) {
    ProtectedFails(e, cancelled) && (HalfWritten(e, cancelled) || FenceHalfWritten(e, cancelled))
  }

  /** The exception that leaves a course, if one does. */
  function Escaping(e: Environment, course: Course): Option<ErrorCode> {
    match course
    case Escapes(_, code) => Some(code)
    case Diagnoses(_, point) => e.throws(point)
    case Publishes(_) => None
  }

  /** How a job ends. */
  datatype End = End(state: JobState, outcome: ErrorCode, result: Option<int>)

  const STOPPED := End(Cancelled, CANCELLED, None)

  /** What the kernel's reports make of a job that nobody cancelled. */
  function Verdict(e: Environment): End {
    match e.compiled
    case Some(code) => End(Failed, code, None)
    case None =>
      match e.executed
      case Ok(value) => End(Succeeded, OK, Some(value))
      case Err(code) => if code == CANCELLED then STOPPED else End(Failed, code, None)
  }

  function With(r: Record, end: End): Record {
    r.(state := end.state, outcome := end.outcome, result := end.result)
  }

  lemma PublicationTakesCourse(e: Environment, r: Record)
    requires r.result == None && r.outcome == OK && e.compiled == None
    ensures var p, course := Publishing(e, r), PublicationCourse(e, r.cancelled);
            && p.record.cancelled == course.token && p.thrown == Escaping(e, course)
            && |p.written| == (if course.Escapes? then 0 else 1)
            && (p.thrown.None? ==>
                  p.record == With(r, if course.token then STOPPED else Verdict(e)).(cancelled := course.token)
                      && p.written == [p.record.state])
  {
  }

  /** The protected part takes the course that the environment sets, and publishes what the kernel reported. */
  lemma InsideTakesCourse(e: Environment, r: Record)
    requires r.state == Queued && r.result == None && r.outcome == OK
    ensures var p, course := Inside(e, r), CourseOf(e, r.cancelled);
            && p.record.cancelled == course.token && p.thrown == Escaping(e, course)
            && |p.written| == (if course.Escapes? then 0 else 1)
            && (p.thrown.None? ==>
                  p.record == With(r, if course.token then STOPPED else Verdict(e)).(cancelled := course.token)
                      && p.written == [p.record.state])
  {
    hide Publishing, PublicationCourse;
    var r2 := Interfered(e, AT_COMPILE, Interfered(e, AT_START, r.(state := Running)));
    if e.compiled.None? {
      PublicationTakesCourse(e, Interfered(e, AT_EXECUTE, r2));
    }
  }

  lemma FencedEnds(e: Environment, code: ErrorCode, p: Progress)
    requires Sane(e) && code != OK && p.record.outcome == OK && p.record.state != Succeeded
    ensures var half, fails := FenceHalfBreaks(e, p.record.cancelled), FenceBreaks(e, p.record.cancelled);
            var q := Fenced(e, code, p);
            && SameJob(p.record, q.record) && q.thrown.None?
            && (Ended(q.record) <==> !(fails && e.jams(FALLBACK)))
            && |q.written| == |p.written| + (if half || !fails then 1 else 0) +
                (if fails && !e.jams(FALLBACK) then 1 else 0)
  {
  }

  /**
   * The fence holds: whatever throws, jams or cancels, nothing escapes, and the record ends exactly unless the lock of
   * the last attempt jams after everything before it failed.
   */
  lemma FenceHolds(e: Environment, r: Record)
    requires Sane(e) && r.state == Queued && r.result == None && r.outcome == OK
    ensures Executed(e, r).thrown.None? && SameJob(r, Executed(e, r).record)
    ensures Ended(Executed(e, r).record) <==> !FenceIsLost(e, r.cancelled)
  {
    hide Inside, Fenced, CourseOf;
    var p := Inside(e, r);
    InsideEnds(e, r);
    InsideTakesCourse(e, r);
    if p.thrown.Some? {
      FencedEnds(e, p.thrown.value, p);
    }
  }

  /** A terminal state is written once, and for good, exactly when no diagnostic fails and the fence is not lost. */
  lemma WrittenOnce(e: Environment, r: Record)
    requires Sane(e) && r.state == Queued && r.result == None && r.outcome == OK
    ensures Ended(Executed(e, r).record) && |Executed(e, r).written| == 1
       <==> !DiagnosticFails(e, r.cancelled) && !FenceIsLost(e, r.cancelled)
  {
    hide Inside, Fenced, CourseOf;
    var p := Inside(e, r);
    InsideEnds(e, r);
    InsideTakesCourse(e, r);
    if p.thrown.Some? {
      FencedEnds(e, p.thrown.value, p);
    }
  }

  /** The points at which a diagnostic follows a terminal state. */
  const DIAGNOSTICS: set<nat> := {
    CANCELLED_BEFORE_COMPILING, COMPILATION_CANCELLED, CANCELLED_WHILE_COMPILING, CANCELLED_WHILE_EXECUTING,
    EXECUTION_CANCELLED, RESULT_REJECTED, FENCE_CANCELLED
  }

  /** In particular it is written once if none of them throws and the last lock can be had. */
  lemma PlainlyWrittenOnce(e: Environment, r: Record)
    requires Sane(e) && r.state == Queued && r.result == None && r.outcome == OK
    requires !e.jams(FALLBACK) && forall n :: n in DIAGNOSTICS ==> e.throws(n).None?
    ensures Ended(Executed(e, r).record) && |Executed(e, r).written| == 1
  {
    hide Executed;
    WrittenOnce(e, r);
  }

  /** Without that, an observer can see a cancelled job fail. */
  lemma CancelledThenFailed(r: Record)
    requires r.state == Queued && !r.cancelled
    ensures exists e :: Sane(e) && Executed(e, r).written == [Cancelled, Failed]
  {
    var e := Environment(n => if n == CANCELLED_WHILE_EXECUTING then Some(RESOURCE_EXHAUSTED) else None, n => false,
                         n => false, None, Err(CANCELLED));
    assert Executed(e, r).written == [Cancelled, Failed];
  }

  /** And a record can be left running for ever. */
  lemma FenceCanBeLost(r: Record)
    requires r.state == Queued
    ensures exists e :: Sane(e) && Executed(e, r).record.state == Running
  {
    var e := Environment(n => if n == BEFORE_CHECK then Some(INTERNAL) else None,
                         n => n == FENCE_CANCELLED || n == FALLBACK, n => false, None, Ok(0));
    assert Executed(e, r).record.state == Running;
  }

  // ----- Where an end comes from -----

  predicate IsThrown(code: ErrorCode) {
    code == RESOURCE_EXHAUSTED || code == INTERNAL
  }

  /** Whether the token is set when the record ends. */
  predicate TokenAtEnd(e: Environment, cancelled: bool) {
    || CourseOf(e, cancelled).token
    || (ProtectedFails(e, cancelled) && (e.cancels(AT_FENCE) || (FenceFails(e, cancelled) && e.cancels(AT_FALLBACK))))
  }

  /**
   * The cause of an end: a token that is set by then, else an exception in the protected part, with its category, else
   * the kernel's verdict.
   */
  function Cause(e: Environment, cancelled: bool): End {
    if TokenAtEnd(e, cancelled) then STOPPED
    else
      match Escaping(e, CourseOf(e, cancelled))
      case Some(code) => End(Failed, code, None)
      case None => Verdict(e)
  }

  lemma FencedHasCause(e: Environment, code: ErrorCode, p: Progress)
    requires p.record.state != Succeeded
    requires !(FenceBreaks(e, p.record.cancelled) && e.jams(FALLBACK))
    ensures var token := p.record.cancelled || e.cancels(AT_FENCE)
                || (FenceBreaks(e, p.record.cancelled) && e.cancels(AT_FALLBACK));
            var q := Fenced(e, code, p);
            && q.record == With(p.record, if token then STOPPED else End(Failed, code, None)).(cancelled := token)
            && q.written != [] && q.written[|q.written| - 1] == q.record.state
  {
  }

  /**
   * The end of every execution whose fence is not lost is exactly its cause, which the environment and the token tell;
   * it is the last state written.
   */
  lemma EndHasCause(e: Environment, r: Record)
    requires Sane(e) && r.state == Queued && r.result == None && r.outcome == OK && !FenceIsLost(e, r.cancelled)
    ensures var p := Executed(e, r);
            && p.record == With(r, Cause(e, r.cancelled)).(cancelled := TokenAtEnd(e, r.cancelled))
            && p.written != [] && p.written[|p.written| - 1] == p.record.state
  {
    hide Inside, Fenced, CourseOf;
    var p := Inside(e, r);
    InsideEnds(e, r);
    InsideTakesCourse(e, r);
    if p.thrown.Some? {
      FencedHasCause(e, p.thrown.value, p);
    }
  }

  /** What escapes is what the fence files: an allocation failure, or an internal failure. */
  lemma EscapesAreThrown(e: Environment, cancelled: bool)
    requires Sane(e) && ProtectedFails(e, cancelled)
    ensures IsThrown(Escaping(e, CourseOf(e, cancelled)).value)
  {
  }

  /** A record that is not queued is not executed: unless even that fails, it fails as internal and keeps its token. */
  lemma LeftQueuedFails(e: Environment, r: Record)
    requires r.state != Queued
    ensures Executed(e, r).thrown.None?
    ensures e.jams(LEFT_QUEUED) || e.throws(LEFT_QUEUED).Some?
         || Executed(e, r) == Progress(r.(state := Failed, outcome := INTERNAL), [Failed], None)
  {
  }

  // ----- The same, in place -----

  /** The shared record. */
  class JobRecord {
    const id: u64
    const session: u64
    var state: JobState
    var outcome: ErrorCode
    var cancelled: bool
    var result: Option<int>

    function View(): Record
      reads this
    {
      Record(id, session, state, outcome, cancelled, result)
    }

    constructor (id: u64, session: u64)
      ensures View() == Fresh(id, session)
    {
      this.id, this.session := id, session;
      state, outcome, cancelled, result := Queued, OK, false, None;
    }

    method Cancel()
      modifies this
      ensures View() == WithCancelRequested(old(View()))
    {
      if Terminal(state) {
        return;
      }
      cancelled := true;
    }

    method Interfere(e: Environment, moment: nat)
      modifies this
      ensures View() == Interfered(e, moment, old(View()))
    {
      if e.cancels(moment) {
        cancelled := true;
      }
    }

    /** The lock is held. */
    method WriteCancelled(e: Environment, point: nat, written: seq<JobState>)
      returns (now: seq<JobState>, thrown: Option<ErrorCode>)
      modifies this
      ensures Progress(View(), now, thrown) == Cancelling(e, point, Progress(old(View()), written, None))
    {
      state := Cancelled;
      now := written + [Cancelled];
      if e.throws(point).Some? {
        return now, e.throws(point);
      }
      outcome := CANCELLED;
      result := None;
      thrown := None;
    }

    method FinishCancelled(e: Environment, point: nat) returns (now: seq<JobState>, thrown: Option<ErrorCode>)
      modifies this
      ensures var p := Progress(old(View()), [], None);
              Progress(View(), now, thrown) == Locking(e, point, p, Cancelling(e, point, p))
    {
      if e.jams(point) {
        return [], Some(INTERNAL);
      }
      now, thrown := WriteCancelled(e, point, []);
    }

    method FinishFailure(e: Environment, copying: nat, cancelling: nat, code: ErrorCode, written: seq<JobState>)
      returns (now: seq<JobState>, thrown: Option<ErrorCode>)
      modifies this
      ensures Progress(View(), now, thrown)
                == FailingWith(e, copying, cancelling, code, Progress(old(View()), written, None))
    {
      if e.throws(copying).Some? {
        return written, e.throws(copying);
      }
      if e.jams(cancelling) {
        return written, Some(INTERNAL);
      }
      if cancelled {
        now, thrown := WriteCancelled(e, cancelling, written);
        return;
      }
      state := Failed;
      outcome := code;
      result := None;
      now, thrown := written + [Failed], None;
    }

    method PublishResult(e: Environment, value: int) returns (now: seq<JobState>, thrown: Option<ErrorCode>)
      modifies this
      ensures var p := Progress(old(View()), [], None);
              Progress(View(), now, thrown) == Locking(e, RESULT_REJECTED, p, Storing(e, value, p))
    {
      if e.jams(RESULT_REJECTED) {
        return [], Some(INTERNAL);
      }
      if cancelled {
        now, thrown := WriteCancelled(e, RESULT_REJECTED, []);
        return;
      }
      if e.throws(RESULT_TAKEN).Some? {
        return [], e.throws(RESULT_TAKEN);
      }
      result := Some(value);
      if e.throws(RESULT_STORED).Some? {
        return [], e.throws(RESULT_STORED);
      }
      outcome := OK;
      state := Succeeded;
      now, thrown := [Succeeded], None;
    }

    method Publish(e: Environment) returns (now: seq<JobState>, thrown: Option<ErrorCode>)
      modifies this
      ensures Progress(View(), now, thrown) == Publishing(e, old(View()))
    {
      match e.executed
      case Err(code) =>
        Interfere(e, AT_RETURN);
        var stopping := code == CANCELLED || cancelled;
        Interfere(e, AT_PUBLICATION);
        if stopping {
          now, thrown := FinishCancelled(e, CANCELLED_WHILE_EXECUTING);
        } else {
          now, thrown := FinishFailure(e, EXECUTION_STATUS, EXECUTION_CANCELLED, code, []);
        }
      case Ok(value) =>
        Interfere(e, AT_PUBLICATION);
        now, thrown := PublishResult(e, value);
    }

    method RunProtected(e: Environment) returns (now: seq<JobState>, thrown: Option<ErrorCode>)
      modifies this
      ensures Progress(View(), now, thrown) == Protected(e, old(View()))
    {
      if e.throws(BEFORE_CHECK).Some? {
        return [], e.throws(BEFORE_CHECK);
      }
      Interfere(e, AT_START);
      if cancelled {
        now, thrown := FinishCancelled(e, CANCELLED_BEFORE_COMPILING);
        return;
      }
      if e.throws(COMPILING).Some? {
        return [], e.throws(COMPILING);
      }
      Interfere(e, AT_COMPILE);
      if e.compiled.Some? {
        now, thrown := FinishFailure(e, COMPILATION_STATUS, COMPILATION_CANCELLED, e.compiled.value, []);
        return;
      }
      if cancelled {
        now, thrown := FinishCancelled(e, CANCELLED_WHILE_COMPILING);
        return;
      }
      if e.throws(EXECUTING).Some? {
        return [], e.throws(EXECUTING);
      }
      Interfere(e, AT_EXECUTE);
      now, thrown := Publish(e);
    }

    method FinishFailureSafely(e: Environment, code: ErrorCode, written: seq<JobState>) returns (now: seq<JobState>)
      modifies this
      ensures Progress(View(), now, None) == Fenced(e, code, Progress(old(View()), written, None))
    {
      Interfere(e, AT_FENCE);
      var thrown;
      now, thrown := FinishFailure(e, FENCE_STATUS, FENCE_CANCELLED, code, written);
      if thrown.Some? {
        Interfere(e, AT_FALLBACK);
        if e.jams(FALLBACK) {
          return;
        }
        state := if cancelled then Cancelled else Failed;
        outcome := if cancelled then CANCELLED else code;
        result := None;
        now := now + [state];
      }
    }

    /** Runs the record to its end; `written` lists the terminal states it went through. */
    method Execute(e: Environment) returns (written: seq<JobState>)
      modifies this
      ensures Progress(View(), written, None) == Executed(e, old(View()))
      ensures Sane(e) && old(View()) == Fresh(id, session).(cancelled := old(cancelled))
              && !FenceIsLost(e, old(cancelled)) ==>
                View() == With(old(View()), Cause(e, old(cancelled))).(cancelled := TokenAtEnd(e, old(cancelled)))
    {
      hide FenceIsLost, Cause, TokenAtEnd, Sane, Protected;
      ghost var before := View();
      if Sane(e) && before == Fresh(id, session).(cancelled := cancelled) && !FenceIsLost(e, cancelled) {
        EndHasCause(e, before);
      }
      var thrown := None;
      written := [];
      if e.jams(LEFT_QUEUED) {
        thrown := Some(INTERNAL);
      } else if state != Queued {
        state := Failed;
        written := [Failed];
        thrown := e.throws(LEFT_QUEUED);
        if thrown.None? {
          outcome := INTERNAL;
        }
      } else {
        state := Running;
        written, thrown := RunProtected(e);
      }
      if thrown.Some? {
        written := FinishFailureSafely(e, thrown.value, written);
      }
    }
  }
}
