/** From the machine to the client: which request starts which handler, and how its reply travels back. */
module Dispatch {
  import opened Wire
  import opened Jobs
  import opened Machine
  import opened MachineInvariant
  import opened MachineSafety
  import opened MachineTheorems
  import opened MachineProgress
  import opened Messages
  import opened Answers
  import Connection
  import Frames
  import Grammar
  import Results

  /** The handler that a request starts; the two daemon methods start none. */
  function HandlerFor(r: Request): Option<Handler> {
    if r.methodCode == SESSION_CREATE then Some(CreateAdmit)
    else if r.methodCode == SESSION_CLOSE then Some(CloseMark(r.session))
    else if r.methodCode == JOB_SUBMIT then Some(SubmitCheck(r.session))
    else if r.methodCode == JOB_STATUS then Some(Lookup(Operation.ReadStatus, r.job))
    else if r.methodCode == JOB_CANCEL then Some(Lookup(RequestCancel, r.job))
    else if r.methodCode == JOB_RESULT then Some(Lookup(Operation.ReadResult, r.job))
    else if r.methodCode == JOB_RELEASE then Some(ReleaseLookup(r.job))
    else None
  }

  /** The method that a handler is at work on. */
  function MethodOf(h: Handler): byte {
    if h.CreateAdmit? || Reserved(h) then SESSION_CREATE
    else if h.CloseMark? || h.CloseSnapshot? || h.CloseReopen? || h.CloseSettle? then SESSION_CLOSE
    else if h.SubmitCheck? || h.SubmitAdmit? then JOB_SUBMIT
    else if h.Lookup? || h.Access? then
      (match h.op
       case ReadStatus => JOB_STATUS
       case ReadResult => JOB_RESULT
       case RequestCancel => JOB_CANCEL)
    else JOB_RELEASE
  }

  lemma OwnStepKeepsMethod(c: Config, st: State, step: Step)
    requires !step.Arrive? && !WorkerStep(step) && HandlerGuard(c, st, step)
    ensures var next := ApplyHandler(c, st, step).handlers;
            step.t in next ==> MethodOf(next[step.t]) == MethodOf(st.handlers[step.t])
  {
    hide LeftInMap, OpenSession, Retained, OwnQueue, OtherQueue, OtherJobs, SetOwner, WithCancelRequested;
  }

  lemma StepKeepsMethod(c: Config, st: State, step: Step, t: Tid)
    requires Guard(c, st, step) && t in st.handlers && !(step.Arrive? && step.t == t)
    ensures var next := Apply(c, st, step).handlers; t in next ==> MethodOf(next[t]) == MethodOf(st.handlers[t])
  {
    hide HandlerGuard, ApplyHandler, WorkerGuard, ApplyWorker;
    if !step.Arrive? && !WorkerStep(step) && step.t == t {
      OwnStepKeepsMethod(c, st, step);
    } else {
      OthersStay(c, st, step, t);
    }
  }

  predicate NoArrival(steps: seq<Step>, t: Tid) {
    forall i :: 0 <= i < |steps| ==> !(steps[i].Arrive? && steps[i].t == t)
  }

  lemma {:induction false} GoneStaysGone(c: Config, st: State, steps: seq<Step>, t: Tid)
    requires Possible(c, st, steps) && t !in st.handlers && NoArrival(steps, t)
    ensures t !in After(c, st, steps).handlers
    decreases |steps|
  {
    hide Guard, Apply;
    if steps != [] {
      NobodyElseArrives(c, st, steps[0], t);
      GoneStaysGone(c, Apply(c, st, steps[0]), steps[1..], t);
    }
  }

  lemma NobodyElseArrives(c: Config, st: State, step: Step, t: Tid)
    requires Guard(c, st, step) && t !in st.handlers && !(step.Arrive? && step.t == t)
    ensures t !in Apply(c, st, step).handlers
  {
    hide HandlerGuard, ApplyHandler;
    if !step.Arrive? && !WorkerStep(step) && t in Apply(c, st, step).handlers {
      StepHasHandler(c, st, step);
      OthersWereThere(c, st, step, t);
    }
  }

  /** Until it is answered, a request is worked on as what it is, whatever else happens. */
  lemma {:induction false} RequestKeepsMethod(c: Config, st: State, steps: seq<Step>, t: Tid)
    requires Possible(c, st, steps) && t in st.handlers && NoArrival(steps, t)
    ensures var later := After(c, st, steps).handlers; t in later ==> MethodOf(later[t]) == MethodOf(st.handlers[t])
    decreases |steps|
  {
    hide Guard, Apply, MethodOf;
    if steps != [] {
      var next := Apply(c, st, steps[0]);
      StepKeepsMethod(c, st, steps[0], t);
      if t in next.handlers {
        RequestKeepsMethod(c, next, steps[1..], t);
      } else {
        GoneStaysGone(c, next, steps[1..], t);
      }
    }
  }

  lemma HandlerIsFor(r: Request)
    requires ValidMethod(r.methodCode)
    ensures HandlerFor(r).None? <==> r.methodCode == DAEMON_INFO || r.methodCode == DAEMON_SHUTDOWN
    ensures HandlerFor(r).Some? ==> Initiating(HandlerFor(r).value) && MethodOf(HandlerFor(r).value) == r.methodCode
  {
  }

  // ----- Replies -----

  /** Replies that a method can have. */
  predicate Fits(methodCode: byte, reply: Reply) {
    match reply
    case CreatedAs(_) => methodCode == SESSION_CREATE
    case NotCreated => methodCode == SESSION_CREATE
    case SubmittedAs(_) => methodCode == JOB_SUBMIT
    case StatusIs(_) => methodCode == JOB_STATUS
    case ResultIs(_) => methodCode == JOB_RESULT
    case Done => methodCode == SESSION_CLOSE || methodCode == JOB_CANCEL || methodCode == JOB_RELEASE
    case Refused(_) => ValidMethod(methodCode)
  }

  lemma ReplyFits(c: Config, st: State, step: Step, text: Bytes)
    requires !step.Arrive? && !WorkerStep(step) && HandlerGuard(c, st, step) && ReplyOf(c, st, step, text).Some?
    ensures Fits(MethodOf(st.handlers[step.t]), ReplyOf(c, st, step, text).value)
  {
    hide ApplyHandler, LeftInMap, OpenSession, Retained, OwnQueue, OtherQueue;
  }

  /** What goes with a reply: the result behind a value, and the diagnostics of refusals. */
  datatype Details = Details(results: int -> Results.ExecutionResult, text: Bytes, notCreated: Status)

  /** The response that carries a reply. */
  function Carrying(r: Request, reply: Reply, d: Details): Response {
    var bare := BareResponse(r.requestId, r.methodCode, SUCCESS);
    match reply
    case CreatedAs(id) => bare.(session := id)
    case SubmittedAs(id) => bare.(job := id)
    case StatusIs(snapshot) => bare.(jobStatus := snapshot)
    case ResultIs(value) => bare.(result := d.results(value))
    case Done => bare
    case NotCreated => bare.(status := d.notCreated)
    case Refused(code) => bare.(status := Status(code, d.text))
  }

  /** What the wire asks of the parts of a reply: identities, categories and texts in their bounds. */
  predicate WireReady(reply: Reply, d: Details) {
    match reply
    case CreatedAs(id) => LegalId(id)
    case SubmittedAs(id) => LegalId(id)
    case StatusIs(snapshot) => ValidJobStatus(snapshot) && LegalStatus(snapshot.outcome)
    case NotCreated => LegalStatus(d.notCreated) && d.notCreated.code != OK
    case Refused(code) => OK < code <= INTERNAL && Grammar.TextOk(d.text, 4096)
    case _ => true
  }

  /** A result that the encoder accepts, the decoder reads back, and a frame holds. */
  predicate WireResult(valid: Validity, r: Request, result: Results.ExecutionResult) {
    && EncodableResult(valid, result) && Results.SortedResult(result) && Grammar.All(ReadableValue, result.values)
    && |ResponseBytes(BareResponse(r.requestId, r.methodCode, SUCCESS).(result := result))|
         <= MAXIMUM_FRAME_PAYLOAD_BYTES
  }

  lemma SmallResponseFits(r: Request, reply: Reply, d: Details)
    requires Fits(r.methodCode, reply) && WireReady(reply, d) && !reply.ResultIs?
    ensures |ResponseBytes(Carrying(r, reply, d))| <= MAXIMUM_FRAME_PAYLOAD_BYTES
  {
  }

  lemma CarriedEncodes(valid: Validity, r: Request, reply: Reply, d: Details)
    requires LegalRequest(r) && Fits(r.methodCode, reply) && WireReady(reply, d)
    requires reply.ResultIs? ==> WireResult(valid, r, d.results(reply.value))
    ensures EncodableResponse(valid, Carrying(r, reply, d)) && ReadableResponse(Carrying(r, reply, d))
    ensures Results.SortedResult(Carrying(r, reply, d).result)
  {
    hide EncodableResult, ValidJobStatus, LegalInfo;
  }

  /** A reply that is ready for the wire comes back to its caller as the response that carries it. */
  lemma ReplyArrives(valid: Validity, kernel: Results.Kernel, r: Request, reply: Reply, d: Details, rest: Bytes)
    requires SaneKernel(valid, kernel) && LegalRequest(r) && Fits(r.methodCode, reply) && WireReady(reply, d)
    requires reply.ResultIs? ==> WireResult(valid, r, d.results(reply.value))
    ensures var response := Carrying(r, reply, d);
            && EncodableResponse(valid, response) && Frames.LegalPayload(ResponseBytes(response))
            && Connection.Replied(kernel, Frames.Frame(ResponseBytes(response)) + rest, r.methodCode, r.requestId)
                 == (Connection.Answered(SelectedResponse(response)), true)
            && (!reply.ResultIs? ==> SelectedResponse(response) == response)
  {
    hide EncodableResponse, ReadableResponse, Results.SortedResult, ResponseBytes, Connection.Replied, Frames.Frame,
         SaneKernel, LegalRequest, WireReady, WireResult;
    var response := Carrying(r, reply, d);
    CarriedEncodes(valid, r, reply, d);
    if !reply.ResultIs? {
      SmallResponseFits(r, reply, d);
    } else {
      ResultFits(valid, r, reply, d);
    }
    SomeBytes(response);
    Connection.AnswerArrives(valid, kernel, response, rest);
  }

  lemma ResultFits(valid: Validity, r: Request, reply: Reply, d: Details)
    requires reply.ResultIs? && WireResult(valid, r, d.results(reply.value))
    ensures |ResponseBytes(Carrying(r, reply, d))| <= MAXIMUM_FRAME_PAYLOAD_BYTES
  {
    hide ResponseBytes, EncodableResult, Results.SortedResult;
  }

  lemma SomeBytes(r: Response)
    ensures ResponseBytes(r) != []
  {
  }

  /** In every reachable state what the machine replies is ready for the wire. */
  lemma RepliesAreReady(c: Config, st: State, step: Step, text: Bytes, d: Details)
    requires Invariant(c, st) && Unforged(st) && c.instance != 0
    requires !step.Arrive? && !WorkerStep(step) && HandlerGuard(c, st, step) && ReplyOf(c, st, step, text).Some?
    requires LegalStatus(d.notCreated) && d.notCreated.code != OK && Grammar.TextOk(d.text, 4096)
    ensures var reply := ReplyOf(c, st, step, text).value;
            && (reply.StatusIs? && LegalStatus(reply.snapshot.outcome) ==> WireReady(reply, d))
            && (reply.Refused? && reply.code <= INTERNAL ==> WireReady(reply, d))
            && (!reply.StatusIs? && !reply.Refused? ==> WireReady(reply, d))
  {
    hide Invariant, Unforged, ValidJobStatus, LegalStatus, LeftInMap, OwnQueue, OtherQueue, OpenSession, Retained;
    if step.AccessRecord? && st.handlers[step.t].op.ReadStatus? {
      SnapshotIsValid(c, st, st.handlers[step.t].ref, text);
    } else if step.AccessRecord? {
      FailuresAreReal(c, st, st.handlers[step.t].ref);
    }
  }

  lemma FailuresAreReal(c: Config, st: State, r: Ref)
    requires Invariant(c, st) && r < |st.sh.heap|
    ensures ResultOf(st.sh.heap[r]).Err? ==> ResultOf(st.sh.heap[r]).code != OK
  {
    hide Invariant;
    ResultObservation(c, st, r);
  }
}
