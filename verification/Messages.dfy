/** Requests, responses and protocol errors: bytes, decoders, fence transparency, round trips, correlation. */
module Messages {
  import opened Wire
  import opened Grammar
  import opened Documents
  import opened Results

  const SESSION_CREATE: byte := 1
  const SESSION_CLOSE: byte := 2
  const JOB_SUBMIT: byte := 3
  const JOB_STATUS: byte := 4
  const JOB_CANCEL: byte := 5
  const JOB_RESULT: byte := 6
  const JOB_RELEASE: byte := 7
  const DAEMON_INFO: byte := 8
  const DAEMON_SHUTDOWN: byte := 9

  const QUEUED: byte := 1
  const RUNNING: byte := 2
  const SUCCEEDED: byte := 3
  const FAILED: byte := 4
  const STATE_CANCELLED: byte := 5

  const HEADER_BYTES := 11

  predicate ValidMethod(methodCode: byte) {
    SESSION_CREATE <= methodCode <= DAEMON_SHUTDOWN
  }

  datatype Id = Id(instance: u64, value: u64)

  const NO_ID := Id(0, 0)

  predicate LegalId(id: Id) {
    id.instance != 0 && id.value != 0
  }

  // ----- Requests -----

  datatype Request = Request(
    requestId: u64, methodCode: byte, document: Document, session: Id, job: Id, allowGpu: bool, maximumParallelism: u32)

  function BareRequest(requestId: u64, methodCode: byte): Request {
    Request(requestId, methodCode, EMPTY_DOCUMENT, NO_ID, NO_ID, false, 0)
  }

  /** Methods whose request names a job. */
  predicate NamesJob(methodCode: byte) {
    JOB_STATUS <= methodCode <= JOB_RELEASE
  }

  /** The request with only the fields its method selects. */
  function SelectedRequest(r: Request): Request {
    var bare := BareRequest(r.requestId, r.methodCode);
    if r.methodCode == SESSION_CREATE then bare.(document := r.document)
    else if r.methodCode == SESSION_CLOSE then bare.(session := r.session)
    else if r.methodCode == JOB_SUBMIT then
      bare.(session := r.session, allowGpu := r.allowGpu, maximumParallelism := r.maximumParallelism)
    else if NamesJob(r.methodCode) then bare.(job := r.job)
    else bare
  }

  predicate LegalRequest(r: Request) {
    && r.requestId != 0 && ValidMethod(r.methodCode)
    && (r.methodCode == SESSION_CREATE ==> LegalDocument(r.document))
    && (r.methodCode == SESSION_CLOSE || r.methodCode == JOB_SUBMIT ==> LegalId(r.session))
    && (NamesJob(r.methodCode) ==> LegalId(r.job))
  }

  function HeaderBytes(requestId: u64, methodCode: byte): Bytes {
    LittleEndian(PROTOCOL_VERSION, 2) + (LittleEndian(requestId, 8) + [methodCode])
  }

  function IdBytes(id: Id): Bytes {
    LittleEndian(id.instance, 8) + LittleEndian(id.value, 8)
  }

  function RequestBody(r: Request): Bytes {
    if r.methodCode == SESSION_CREATE then DocumentBytes(r.document)
    else if r.methodCode == SESSION_CLOSE then IdBytes(r.session)
    else if r.methodCode == JOB_SUBMIT then
      IdBytes(r.session) + (BoolBytes(r.allowGpu) + LittleEndian(r.maximumParallelism, 4))
    else if NamesJob(r.methodCode) then IdBytes(r.job)
    else []
  }

  function RequestBytes(r: Request): Bytes {
    HeaderBytes(r.requestId, r.methodCode) + RequestBody(r)
  }

  /** Version, correlation id and method code; anything but version three is refused. */
  function ReadHeader(s: Bytes): Parsed<(u64, byte)> {
    var (version, s1) :- ParseU16(s);
    if version != PROTOCOL_VERSION then Bad(INVALID_ARGUMENT)
    else
      var (requestId, s2) :- ParseU64(s1);
      var (methodCode, rest) :- ParseU8(s2);
      Got((requestId, methodCode), rest)
  }

  function ReadId(s: Bytes): Parsed<Id> {
    var (instance, s1) :- ParseU64(s);
    var (value, rest) :- ParseU64(s1);
    Got(Id(instance, value), rest)
  }

  function ReadLegalId(s: Bytes): Parsed<Id> {
    var (id, rest) :- ReadId(s);
    if LegalId(id) then Got(id, rest) else Bad(INVALID_ARGUMENT)
  }

  function ReadSubmit(bare: Request, s: Bytes): Parsed<Request> {
    var (session, s1) :- ReadId(s);
    var (allowGpu, s2) :- ParseBool(s1);
    var (parallelism, rest) :- ParseU32(s2);
    if LegalId(session) then
      Got(bare.(session := session, allowGpu := allowGpu, maximumParallelism := parallelism), rest)
    else Bad(INVALID_ARGUMENT)
  }

  function ReadRequestBody(fenced: bool, bare: Request, s: Bytes): Parsed<Request> {
    if bare.methodCode == SESSION_CREATE then
      var (document, rest) :- ReadDocument(fenced, s); Got(bare.(document := document), rest)
    else if bare.methodCode == SESSION_CLOSE then
      var (id, rest) :- ReadLegalId(s); Got(bare.(session := id), rest)
    else if bare.methodCode == JOB_SUBMIT then ReadSubmit(bare, s)
    else if NamesJob(bare.methodCode) then
      var (id, rest) :- ReadLegalId(s); Got(bare.(job := id), rest)
    else Got(bare, s)
  }

  function DecodeRequest(fenced: bool, payload: Bytes): Result<Request> {
    if |payload| > MAXIMUM_FRAME_PAYLOAD_BYTES then Err(INVALID_ARGUMENT)
    else
      match ReadHeader(payload)
      case Bad(code) => Err(code)
      case Got((requestId, methodCode), s) =>
        if requestId == 0 || !ValidMethod(methodCode) then Err(INVALID_ARGUMENT)
        else
          match ReadRequestBody(fenced, BareRequest(requestId, methodCode), s)
          case Bad(code) => Err(code)
          case Got(request, rest) => if rest == [] then Ok(request) else Err(INVALID_ARGUMENT)
  }

  /** Same acceptance and same value; the category of a failure is left open. */
  predicate Agree<T(==)>(a: Result<T>, b: Result<T>) {
    (a.Ok? || b.Ok?) ==> a == b
  }

  /** Removing the count fences changes neither which requests are accepted nor what they decode to. */
  lemma RequestTransparent(payload: Bytes)
    ensures Agree(DecodeRequest(true, payload), DecodeRequest(false, payload))
  {
    match ReadHeader(payload)
    case Bad(_) =>
    case Got(_, s) => DocumentTransparent(s);
  }

  lemma HeaderExact(requestId: u64, methodCode: byte, rest: Bytes, s: Bytes)
    ensures ReadHeader(HeaderBytes(requestId, methodCode) + rest) == Got((requestId, methodCode), rest)
    ensures ReadHeader(s).Got? ==> s == HeaderBytes(ReadHeader(s).value.0, ReadHeader(s).value.1) + ReadHeader(s).rest
  {
    var t := LittleEndian(requestId, 8) + [methodCode];
    Regroup(LittleEndian(PROTOCOL_VERSION, 2), t, rest);
    Regroup(LittleEndian(requestId, 8), [methodCode], rest);
    U16Exact(PROTOCOL_VERSION, t + rest, s);
    U64Exact(requestId, [methodCode] + rest, []);
    U8Exact(methodCode, rest, []);
    if ReadHeader(s).Got? {
      HeaderSound(s);
    }
  }

  lemma HeaderSound(s: Bytes)
    requires ReadHeader(s).Got?
    ensures s == HeaderBytes(ReadHeader(s).value.0, ReadHeader(s).value.1) + ReadHeader(s).rest
  {
    var Got((requestId, methodCode), rest) := ReadHeader(s);
    U16Exact(0, [], s);
    var s1 := ParseU16(s).rest;
    U64Exact(0, [], s1);
    U8Exact(0, [], ParseU64(s1).rest);
    Regroup(LittleEndian(PROTOCOL_VERSION, 2), LittleEndian(requestId, 8) + [methodCode], rest);
    Regroup(LittleEndian(requestId, 8), [methodCode], rest);
  }

  lemma IdExact(id: Id, rest: Bytes, s: Bytes)
    ensures ReadId(IdBytes(id) + rest) == Got(id, rest)
    ensures ReadId(s).Got? ==> s == IdBytes(ReadId(s).value) + ReadId(s).rest
  {
    Regroup(LittleEndian(id.instance, 8), LittleEndian(id.value, 8), rest);
    U64Exact(id.instance, LittleEndian(id.value, 8) + rest, s);
    U64Exact(id.value, rest, []);
    if ReadId(s).Got? {
      var Got(v, r) := ReadId(s);
      U64Exact(0, [], ParseU64(s).rest);
      Regroup(LittleEndian(v.instance, 8), LittleEndian(v.value, 8), r);
    }
  }

  lemma SubmitExact(r: Request, rest: Bytes, bare: Request, s: Bytes)
    requires r.methodCode == JOB_SUBMIT && LegalId(r.session) && bare.methodCode == JOB_SUBMIT
    ensures ReadSubmit(bare, RequestBody(r) + rest) == Got(
              bare.(session := r.session, allowGpu := r.allowGpu, maximumParallelism := r.maximumParallelism), rest)
    ensures ReadSubmit(bare, s).Got? ==>
              LegalId(ReadSubmit(bare, s).value.session)
                  && s == RequestBody(ReadSubmit(bare, s).value) + ReadSubmit(bare, s).rest
  {
    var gpu, parallelism := BoolBytes(r.allowGpu), LittleEndian(r.maximumParallelism, 4);
    Regroup(IdBytes(r.session), gpu + parallelism, rest);
    Regroup(gpu, parallelism, rest);
    IdExact(r.session, gpu + (parallelism + rest), s);
    BoolExact(r.allowGpu, parallelism + rest, []);
    U32Exact(r.maximumParallelism, rest, []);
    if ReadSubmit(bare, s).Got? {
      SubmitSound(bare, s);
    }
  }

  lemma SubmitSound(bare: Request, s: Bytes)
    requires bare.methodCode == JOB_SUBMIT && ReadSubmit(bare, s).Got?
    ensures var Got(q, rest) := ReadSubmit(bare, s); LegalId(q.session) && s == RequestBody(q) + rest
  {
    var Got(q, rest) := ReadSubmit(bare, s);
    IdExact(NO_ID, [], s);
    var s1 := ReadId(s).rest;
    BoolExact(false, [], s1);
    U32Exact(0, [], ParseBool(s1).rest);
    Regroup(IdBytes(q.session), BoolBytes(q.allowGpu) + LittleEndian(q.maximumParallelism, 4), rest);
    Regroup(BoolBytes(q.allowGpu), LittleEndian(q.maximumParallelism, 4), rest);
  }

  lemma RequestBodyComplete(wire: Document, r: Request)
    requires LegalRequest(r) && SortedDocument(r.document) && ReordersDocument(wire, r.document)
    ensures ReadRequestBody(false, BareRequest(r.requestId, r.methodCode), RequestBody(r.(document := wire)))
              == Got(SelectedRequest(r), [])
  {
    var body := RequestBody(r.(document := wire));
    assert body + [] == body;
    if r.methodCode == SESSION_CREATE {
      DocumentComplete(wire, r.document, []);
    } else if r.methodCode == SESSION_CLOSE {
      IdExact(r.session, [], []);
    } else if r.methodCode == JOB_SUBMIT {
      SubmitExact(r, [], BareRequest(r.requestId, r.methodCode), []);
    } else if NamesJob(r.methodCode) {
      IdExact(r.job, [], []);
    }
  }

  /** Every request that encodes decodes to the same correlation and the same method-selected fields. */
  lemma RequestRoundTrip(r: Request)
    requires LegalRequest(r) && SortedDocument(r.document) && |RequestBytes(r)| <= MAXIMUM_FRAME_PAYLOAD_BYTES
    ensures DecodeRequest(true, RequestBytes(r)) == Ok(SelectedRequest(r))
  {
    HeaderExact(r.requestId, r.methodCode, RequestBody(r), []);
    RequestBodyComplete(r.document, r);
    assert r.(document := r.document) == r;
    RequestTransparent(RequestBytes(r));
  }

  /** `p` is the bytes of `r` up to the order in which each node's parameters were written. */
  ghost predicate SameButParameterOrder(p: Bytes, r: Request) {
    exists wire :: ReordersDocument(wire, r.document) && p == RequestBytes(r.(document := wire))
  }

  lemma PlainBodySound(bare: Request, s: Bytes)
    requires ValidMethod(bare.methodCode) && bare.methodCode != SESSION_CREATE
    requires bare == BareRequest(bare.requestId, bare.methodCode) && bare.requestId != 0
    requires ReadRequestBody(false, bare, s).Got? && ReadRequestBody(false, bare, s).rest == []
    ensures var r := ReadRequestBody(false, bare, s).value;
            && LegalRequest(r) && r == SelectedRequest(r) && r.document == EMPTY_DOCUMENT
            && r.requestId == bare.requestId && r.methodCode == bare.methodCode && s == RequestBody(r)
  {
    if bare.methodCode == JOB_SUBMIT {
      SubmitSound(bare, s);
      var r := ReadSubmit(bare, s).value;
      assert RequestBody(r) + [] == RequestBody(r);
    } else if bare.methodCode == SESSION_CLOSE || NamesJob(bare.methodCode) {
      IdExact(NO_ID, [], s);
      var id := ReadId(s).value;
      assert IdBytes(id) + [] == IdBytes(id);
    }
  }

  lemma RequestBodySound(bare: Request, s: Bytes) returns (wire: Document)
    requires ValidMethod(bare.methodCode) && bare == BareRequest(bare.requestId, bare.methodCode) && bare.requestId != 0
    requires ReadRequestBody(false, bare, s).Got? && ReadRequestBody(false, bare, s).rest == []
    ensures var r := ReadRequestBody(false, bare, s).value;
            && CanonicalRequest(r) && r.requestId == bare.requestId && r.methodCode == bare.methodCode
            && ReordersDocument(wire, r.document) && s == RequestBody(r.(document := wire))
  {
    if bare.methodCode == SESSION_CREATE {
      wire := DocumentSound(s);
      assert DocumentBytes(wire) + [] == DocumentBytes(wire);
    } else {
      wire := EMPTY_DOCUMENT;
      PlainBodySound(bare, s);
      var r := ReadRequestBody(false, bare, s).value;
      assert r.(document := wire) == r;
    }
  }

  /** A legal request that carries only what its method selects. */
  predicate CanonicalRequest(r: Request) {
    LegalRequest(r) && SortedDocument(r.document) && r == SelectedRequest(r)
  }

  /**
   * What the decoder does, exactly: a payload that fits a frame decodes to a request if and only if the request is
   * canonical and the payload is its bytes, up to the order of each node's parameter entries.
   */
  lemma RequestExactly(payload: Bytes, r: Request)
    ensures DecodeRequest(true, payload) == Ok(r)
       <==> |payload| <= MAXIMUM_FRAME_PAYLOAD_BYTES && CanonicalRequest(r) && SameButParameterOrder(payload, r)
  {
    hide DecodeRequest, CanonicalRequest;
    if DecodeRequest(true, payload) == Ok(r) {
      RequestSound(payload);
    }
    if |payload| <= MAXIMUM_FRAME_PAYLOAD_BYTES && CanonicalRequest(r) && SameButParameterOrder(payload, r) {
      var wire :| ReordersDocument(wire, r.document) && payload == RequestBytes(r.(document := wire));
      RequestComplete(wire, r);
    }
  }

  lemma RequestComplete(wire: Document, r: Request)
    requires CanonicalRequest(r) && ReordersDocument(wire, r.document)
    requires |RequestBytes(r.(document := wire))| <= MAXIMUM_FRAME_PAYLOAD_BYTES
    ensures DecodeRequest(true, RequestBytes(r.(document := wire))) == Ok(r)
  {
    var sent := r.(document := wire);
    HeaderExact(r.requestId, r.methodCode, RequestBody(sent), []);
    RequestBodyComplete(wire, r);
    RequestTransparent(RequestBytes(sent));
  }

  lemma RequestSound(payload: Bytes)
    requires DecodeRequest(true, payload).Ok?
    ensures var r := DecodeRequest(true, payload).value;
            |payload| <= MAXIMUM_FRAME_PAYLOAD_BYTES && CanonicalRequest(r) && SameButParameterOrder(payload, r)
  {
    RequestTransparent(payload);
    var r := DecodeRequest(true, payload).value;
    HeaderExact(0, 0, [], payload);
    var Got((requestId, methodCode), s) := ReadHeader(payload);
    var wire := RequestBodySound(BareRequest(requestId, methodCode), s);
    assert payload == RequestBytes(r.(document := wire));
  }

  /** In particular an accepted payload re-encodes to the same length. */
  lemma RequestReencodes(payload: Bytes)
    requires DecodeRequest(true, payload).Ok?
    ensures var r := DecodeRequest(true, payload).value;
            && CanonicalRequest(r) && SameButParameterOrder(payload, r)
            && |RequestBytes(r)| == |payload| <= MAXIMUM_FRAME_PAYLOAD_BYTES
  {
    hide CanonicalRequest, DecodeRequest, ReordersDocument, RequestBytes;
    RequestSound(payload);
    var r := DecodeRequest(true, payload).value;
    var wire :| ReordersDocument(wire, r.document) && payload == RequestBytes(r.(document := wire));
    ReorderedRequestLength(wire, r);
  }

  lemma ReorderedRequestLength(wire: Document, r: Request)
    requires ReordersDocument(wire, r.document)
    ensures |RequestBytes(r.(document := wire))| == |RequestBytes(r)|
  {
    hide NodeBytes, OutputBytes, Reorders, IdBytes, HeaderBytes;
    ReorderedNodesLength(wire.nodes, r.document.nodes);
  }

  // ----- Statuses -----

  const SUCCESS := Status(OK, [])

  predicate LegalStatus(s: Status) {
    s.code <= INTERNAL && (s.code == OK ==> s.message == []) && TextOk(s.message, 4096)
  }

  function StatusBytes(s: Status): Bytes {
    [s.code] + BlobBytes(s.message)
  }

  function ReadStatus(s: Bytes): Parsed<Status> {
    var (code, s1) :- ParseU8(s);
    if code > INTERNAL then Bad(INVALID_ARGUMENT)
    else
      var (message, rest) :- ParseText(4096, s1);
      if code == OK && message != [] then Bad(INVALID_ARGUMENT) else Got(Status(code, message), rest)
  }

  lemma StatusExact(status: Status, rest: Bytes, s: Bytes)
    ensures LegalStatus(status) ==> ReadStatus(StatusBytes(status) + rest) == Got(status, rest)
    ensures ReadStatus(s).Got? ==>
              LegalStatus(ReadStatus(s).value) && s == StatusBytes(ReadStatus(s).value) + ReadStatus(s).rest
  {
    hide ParseText, BlobBytes;
    Regroup([status.code], BlobBytes(status.message), rest);
    U8Exact(status.code, BlobBytes(status.message) + rest, s);
    TextExact(4096, status.message, rest, []);
    if ReadStatus(s).Got? {
      StatusSound(s);
    }
  }

  lemma StatusSound(s: Bytes)
    requires ReadStatus(s).Got?
    ensures LegalStatus(ReadStatus(s).value) && s == StatusBytes(ReadStatus(s).value) + ReadStatus(s).rest
  {
    hide ParseText, BlobBytes;
    var Got(v, r) := ReadStatus(s);
    U8Exact(v.code, [], s);
    TextExact(4096, [], [], ParseU8(s).rest);
    Regroup([v.code], BlobBytes(v.message), r);
  }

  // ----- Responses -----

  datatype JobStatus = JobStatus(job: Id, session: Id, state: byte, outcome: Status)

  datatype Counters = Counters(activeSessions: u64, activeJobs: u64, maximumConcurrency: u32, maximumSessions: u32)

  datatype DaemonInfo = DaemonInfo(
    protocolVersion: u16, instance: u64, serviceVersion: Bytes, transport: Bytes, methods: seq<Bytes>,
        counters: Counters)

  datatype Response = Response(
    requestId: u64, methodCode: byte, status: Status, session: Id, job: Id, jobStatus: JobStatus,
    result: ExecutionResult, info: DaemonInfo, shutdownAfterWrite: bool)

  const NO_JOB_STATUS := JobStatus(NO_ID, NO_ID, QUEUED, SUCCESS)
  const NO_INFO := DaemonInfo(PROTOCOL_VERSION, 0, [], [], [], Counters(0, 0, 0, 0))

  function BareResponse(requestId: u64, methodCode: byte, status: Status): Response {
    Response(requestId, methodCode, status, NO_ID, NO_ID, NO_JOB_STATUS, EMPTY_RESULT, NO_INFO, false)
  }

  function MethodName(methodCode: byte): string {
    if methodCode == SESSION_CREATE then "session.create"
    else if methodCode == SESSION_CLOSE then "session.close"
    else if methodCode == JOB_SUBMIT then "job.submit"
    else if methodCode == JOB_STATUS then "job.status"
    else if methodCode == JOB_CANCEL then "job.cancel"
    else if methodCode == JOB_RESULT then "job.result"
    else if methodCode == JOB_RELEASE then "job.release"
    else if methodCode == DAEMON_INFO then "daemon.info"
    else if methodCode == DAEMON_SHUTDOWN then "daemon.shutdown"
    else "unknown"
  }

  /** The nine methods in the order of their names. */
  const INVENTORY: seq<byte> := [
    DAEMON_INFO, DAEMON_SHUTDOWN, JOB_CANCEL, JOB_RELEASE, JOB_RESULT, JOB_STATUS, JOB_SUBMIT, SESSION_CLOSE,
        SESSION_CREATE]

  predicate Spells(t: Bytes, name: string) {
    |t| == |name| && forall i :: 0 <= i < |t| ==> t[i] == name[i] as int
  }

  predicate IsInventory(methods: seq<Bytes>) {
    |methods| == 9 && forall i :: 0 <= i < |methods| ==> Spells(methods[i], MethodName(INVENTORY[i]))
  }

  /** The lifecycle snapshot rule: identities of one daemon, and an outcome that fits the state. */
  predicate ValidJobStatus(s: JobStatus) {
    && LegalId(s.job) && LegalId(s.session) && s.job.instance == s.session.instance
    && QUEUED <= s.state <= STATE_CANCELLED
    && (s.state == QUEUED || s.state == RUNNING || s.state == SUCCEEDED ==> s.outcome.code == OK)
    && (s.state == FAILED ==> s.outcome.code != OK && s.outcome.code != CANCELLED)
    && (s.state == STATE_CANCELLED ==> s.outcome.code == CANCELLED)
  }

  predicate ValidInfo(i: DaemonInfo) {
    && i.protocolVersion == PROTOCOL_VERSION && i.instance != 0 && i.serviceVersion != []
        && Spells(i.transport, "unix-domain")
    && i.counters.maximumConcurrency != 0 && i.counters.maximumSessions != 0 && IsInventory(i.methods)
  }

  predicate LegalMethodName(t: Bytes) {
    TextOk(t, 64)
  }

  predicate LegalInfo(i: DaemonInfo) {
    ValidInfo(i) && TextOk(i.serviceVersion, 128) && TextOk(i.transport, 64) && |i.methods| <= 16
    && All(LegalMethodName, i.methods)
  }

  function JobStatusBytes(s: JobStatus): Bytes {
    IdBytes(s.job) + (IdBytes(s.session) + ([s.state] + StatusBytes(s.outcome)))
  }

  function CountersBytes(c: Counters): Bytes {
    LittleEndian(c.activeSessions, 8) + (LittleEndian(c.activeJobs, 8)
    + (LittleEndian(c.maximumConcurrency, 4) + LittleEndian(c.maximumSessions, 4)))
  }

  function InfoBytes(i: DaemonInfo): Bytes {
    LittleEndian(i.protocolVersion, 2) + (LittleEndian(i.instance, 8) + (BlobBytes(i.serviceVersion)
    + (BlobBytes(i.transport) + (CountedBytes(BlobBytes, 1, i.methods) + CountersBytes(i.counters)))))
  }

  function ResponseBody(r: Response): Bytes {
    if r.status.code != OK then []
    else if r.methodCode == SESSION_CREATE then IdBytes(r.session)
    else if r.methodCode == JOB_SUBMIT then IdBytes(r.job)
    else if r.methodCode == JOB_STATUS then JobStatusBytes(r.jobStatus)
    else if r.methodCode == JOB_RESULT then ResultBytes(r.result)
    else if r.methodCode == DAEMON_INFO then InfoBytes(r.info)
    else []
  }

  function ResponseBytes(r: Response): Bytes {
    HeaderBytes(r.requestId, r.methodCode) + (StatusBytes(r.status) + ResponseBody(r))
  }

  function ReadJobStatus(s: Bytes): Parsed<JobStatus> {
    var (job, s1) :- ReadId(s);
    var (session, s2) :- ReadId(s1);
    var (state, s3) :- ParseU8(s2);
    if !(QUEUED <= state <= STATE_CANCELLED) then Bad(INVALID_ARGUMENT)
    else
      var (outcome, rest) :- ReadStatus(s3);
      var status := JobStatus(job, session, state, outcome);
      if ValidJobStatus(status) then Got(status, rest) else Bad(INVALID_ARGUMENT)
  }

  function ReadMethodName(fenced: bool, s: Bytes): Parsed<Bytes> { ParseText(64, s) }

  function ReadMethods(fenced: bool, s: Bytes): Parsed<seq<Bytes>> {
    ParseCounted(ReadMethodName, 1, 16, DAEMON_METHODS, fenced, s)
  }

  function ReadCounters(s: Bytes): Parsed<Counters> {
    var (activeSessions, s1) :- ParseU64(s);
    var (activeJobs, s2) :- ParseU64(s1);
    var (maximumConcurrency, s3) :- ParseU32(s2);
    var (maximumSessions, rest) :- ParseU32(s3);
    Got(Counters(activeSessions, activeJobs, maximumConcurrency, maximumSessions), rest)
  }

  function ReadInventory(fenced: bool, s: Bytes): Parsed<(seq<Bytes>, Counters)> {
    var (methods, s1) :- ReadMethods(fenced, s);
    var (counters, rest) :- ReadCounters(s1);
    Got((methods, counters), rest)
  }

  function ReadInfo(fenced: bool, s: Bytes): Parsed<DaemonInfo> {
    var (version, s1) :- ParseU16(s);
    var (instance, s2) :- ParseU64(s1);
    var (serviceVersion, s3) :- ParseText(128, s2);
    var (transport, s4) :- ParseText(64, s3);
    var (inventory, rest) :- ReadInventory(fenced, s4);
    var info := DaemonInfo(version, instance, serviceVersion, transport, inventory.0, inventory.1);
    if ValidInfo(info) then Got(info, rest) else Bad(INVALID_ARGUMENT)
  }

  function ReadResponseBody(kernel: Kernel, fenced: bool, bare: Response, s: Bytes): Parsed<Response> {
    if bare.status.code != OK then Got(bare, s)
    else if bare.methodCode == SESSION_CREATE then
      var (id, rest) :- ReadLegalId(s); Got(bare.(session := id), rest)
    else if bare.methodCode == JOB_SUBMIT then
      var (id, rest) :- ReadLegalId(s); Got(bare.(job := id), rest)
    else if bare.methodCode == JOB_STATUS then
      var (status, rest) :- ReadJobStatus(s); Got(bare.(jobStatus := status), rest)
    else if bare.methodCode == JOB_RESULT then
      var (result, rest) :- ReadResult(kernel, fenced, s); Got(bare.(result := result), rest)
    else if bare.methodCode == DAEMON_INFO then
      var (info, rest) :- ReadInfo(fenced, s); Got(bare.(info := info), rest)
    else Got(bare, s)
  }

  function DecodeResponse(kernel: Kernel, fenced: bool, payload: Bytes, expectedMethod: byte, expectedId: u64)
    : Result<Response>
  {
    if expectedId == 0 || !ValidMethod(expectedMethod) || |payload| > MAXIMUM_FRAME_PAYLOAD_BYTES then
      Err(INVALID_ARGUMENT)
    else
      match ReadHeader(payload)
      case Bad(code) => Err(code)
      case Got((requestId, methodCode), s) =>
        if requestId != expectedId || methodCode != expectedMethod then Err(INVALID_ARGUMENT)
        else
          match ReadStatus(s)
          case Bad(code) => Err(code)
          case Got(status, s1) =>
            match ReadResponseBody(kernel, fenced, BareResponse(requestId, methodCode, status), s1)
            case Bad(code) => Err(code)
            case Got(response, rest) => if rest == [] then Ok(response) else Err(INVALID_ARGUMENT)
  }

  lemma MethodNameTransparent()
    ensures Transparent(ReadMethodName, 4, 24)
  {
  }

  lemma InventoryTransparent(s: Bytes)
    ensures TransparentAt(ReadInventory(true, s), ReadInventory(false, s), s, 0, 0)
  {
    MethodNameTransparent();
    CountedTransparent(ReadMethodName, 4, 24, 1, 16, DAEMON_METHODS, s);
    if ReadMethods(false, s).Got? && ReadCounters(ReadMethods(false, s).rest).Got? {
      var s1 := ReadMethods(false, s).rest;
      assert |ReadCounters(s1).rest| + 24 == |s1|;
    }
  }

  lemma InfoTransparent(s: Bytes)
    ensures TransparentAt(ReadInfo(true, s), ReadInfo(false, s), s, 0, 0)
  {
    if ParseU16(s).Got? {
      var s1 := ParseU16(s).rest;
      if ParseU64(s1).Got? {
        var s2 := ParseU64(s1).rest;
        if ParseText(128, s2).Got? {
          var s3 := ParseText(128, s2).rest;
          if ParseText(64, s3).Got? {
            InventoryTransparent(ParseText(64, s3).rest);
          }
        }
      }
    }
  }

  lemma ResponseBodyTransparent(kernel: Kernel, bare: Response, s: Bytes)
    ensures var a, b := ReadResponseBody(kernel, true, bare, s), ReadResponseBody(kernel, false, bare, s);
            a.Got? || b.Got? ==> a == b
  {
    if bare.methodCode == JOB_RESULT {
      ResultTransparent(kernel, s);
    } else if bare.methodCode == DAEMON_INFO {
      InfoTransparent(s);
    }
  }

  /** Removing the count fences changes neither which responses are accepted nor what they decode to. */
  lemma ResponseTransparent(kernel: Kernel, payload: Bytes, expectedMethod: byte, expectedId: u64)
    ensures Agree(DecodeResponse(kernel, true, payload, expectedMethod, expectedId),
                  DecodeResponse(kernel, false, payload, expectedMethod, expectedId))
  {
    match ReadHeader(payload)
    case Bad(_) =>
    case Got((requestId, methodCode), s) =>
      match ReadStatus(s) {
        case Bad(_) =>
        case Got(status, s1) => ResponseBodyTransparent(kernel, BareResponse(requestId, methodCode, status), s1);
      }
  }

  // ----- Response round trip -----

  /** The kernel's notion of a valid value. */
  type Validity = Value -> bool

  /** What the codec relies on: a valid value is rectangular, has a known type, and its parts are accepted again. */
  ghost predicate SaneKernel(valid: Validity, kernel: Kernel) {
    forall v :: valid(v) ==>
      && UINT8 <= v.parts.elementType <= FLOAT32
      && |v.parts.axes.region| == |v.parts.axes.strides| == |v.parts.axes.shape|
      && kernel(v.parts) == OK
  }

  predicate ZeroOrigins(origin: seq<u64>) {
    forall i :: 0 <= i < |origin| ==> origin[i] == 0
  }

  /** What the encoder checks of a named value. */
  predicate EncodableValue(valid: Validity, e: NamedValue) {
    var v := e.1;
    && TextOk(e.0, 1024) && valid(v) && |v.parts.axes.shape| <= 8
    && v.parts.elementType != FLOAT32 && ZeroOrigins(v.origin)
    && |v.parts.facets| <= 64 && All(EncodableFacet, v.parts.facets) && |v.parts.data| < 0x1_0000_0000
  }

  function ValueEncodable(valid: Validity): NamedValue -> bool {
    e => EncodableValue(valid, e)
  }

  predicate EncodableResult(valid: Validity, r: ExecutionResult) {
    |r.values| <= 4096 && All(ValueEncodable(valid), r.values) && LegalDiagnostics(r.diagnostics)
  }

  predicate EncodableResponse(valid: Validity, r: Response) {
    && r.requestId != 0 && ValidMethod(r.methodCode) && LegalStatus(r.status)
    && (r.status.code == OK ==>
          && (r.methodCode == SESSION_CREATE ==> LegalId(r.session))
          && (r.methodCode == JOB_SUBMIT ==> LegalId(r.job))
          && (r.methodCode == JOB_STATUS ==> ValidJobStatus(r.jobStatus) && LegalStatus(r.jobStatus.outcome))
          && (r.methodCode == JOB_RESULT ==> EncodableResult(valid, r.result))
          && (r.methodCode == DAEMON_INFO ==> LegalInfo(r.info)))
  }

  function WithoutOrigins(values: seq<NamedValue>): seq<NamedValue> {
    if values == [] then []
    else [(values[0].0, values[0].1.(origin := []))] + WithoutOrigins(values[1..])
  }

  /** The response with only the payload its status and method select; storage origins are not carried. */
  function SelectedResponse(r: Response): Response {
    var bare := BareResponse(r.requestId, r.methodCode, r.status);
    if r.status.code != OK then bare
    else if r.methodCode == SESSION_CREATE then bare.(session := r.session)
    else if r.methodCode == JOB_SUBMIT then bare.(job := r.job)
    else if r.methodCode == JOB_STATUS then bare.(jobStatus := r.jobStatus)
    else if r.methodCode == JOB_RESULT then
      bare.(result := r.result.(values := WithoutOrigins(r.result.values)))
    else if r.methodCode == DAEMON_INFO then bare.(info := r.info)
    else bare
  }

  /** The decoder's extra demands: at least one axis, and facet payloads within 64 KiB. */
  predicate ReadableValue(e: NamedValue) {
    |e.1.parts.axes.shape| >= 1 && All(LegalFacet, e.1.parts.facets)
  }

  predicate ReadableResponse(r: Response) {
    r.status.code == OK && r.methodCode == JOB_RESULT ==> All(ReadableValue, r.result.values)
  }

  lemma {:induction false} WithoutOriginsKeeps(values: seq<NamedValue>)
    ensures |WithoutOrigins(values)| == |values|
    ensures ListBytes(NamedBytes, WithoutOrigins(values)) == ListBytes(NamedBytes, values)
    ensures forall i :: 0 <= i < |values| ==>
              WithoutOrigins(values)[i] == (values[i].0, values[i].1.(origin := []))
  {
    if values != [] {
      WithoutOriginsKeeps(values[1..]);
      assert WithoutOrigins(values)[1..] == WithoutOrigins(values[1..]);
    }
  }

  lemma {:induction false} EntryFits<T>(bytes: T -> Bytes, vs: seq<T>, i: nat)
    requires i < |vs|
    ensures |bytes(vs[i])| <= |ListBytes(bytes, vs)|
  {
    if i > 0 {
      EntryFits(bytes, vs[1..], i - 1);
    }
  }

  lemma ValueReadable(valid: Validity, kernel: Kernel, e: NamedValue)
    requires SaneKernel(valid, kernel) && EncodableValue(valid, e)
    requires |NamedBytes(e)| <= MAXIMUM_FRAME_PAYLOAD_BYTES
    ensures EncodableNamed(kernel, (e.0, e.1.(origin := [])))
    ensures LegalNamed(kernel, (e.0, e.1.(origin := []))) <==> ReadableValue(e)
  {
  }

  lemma StrippedResult(valid: Validity, kernel: Kernel, r: ExecutionResult)
    requires SaneKernel(valid, kernel) && EncodableResult(valid, r) && SortedResult(r)
    requires |ResultBytes(r)| <= MAXIMUM_FRAME_PAYLOAD_BYTES
    ensures var q := r.(values := WithoutOrigins(r.values));
            && All(NamedEncodable(kernel), q.values) && SortedResult(q)
            && (All(NamedLegal(kernel), q.values) <==> All(ReadableValue, r.values))
  {
    hide NamedBytes, DiagnosticsBytes, LegalDiagnostics, ReadableValue, EncodableValue, EncodableNamed, LegalNamed,
         TextLess;
    var q := WithoutOrigins(r.values);
    WithoutOriginsKeeps(r.values);
    forall i | 0 <= i < |r.values|
      ensures NamedEncodable(kernel)(q[i])
      ensures NamedLegal(kernel)(q[i]) <==> ReadableValue(r.values[i])
    {
      assert ValueEncodable(valid)(r.values[i]);
      EntryFits(NamedBytes, r.values, i);
      ValueReadable(valid, kernel, r.values[i]);
    }
    if !All(ReadableValue, r.values) {
      var i :| 0 <= i < |r.values| && !ReadableValue(r.values[i]);
      assert !NamedLegal(kernel)(q[i]);
    }
  }

  lemma ResultReadable(valid: Validity, kernel: Kernel, r: ExecutionResult)
    requires SaneKernel(valid, kernel) && EncodableResult(valid, r) && SortedResult(r)
    requires |ResultBytes(r)| <= MAXIMUM_FRAME_PAYLOAD_BYTES
    ensures var p := ReadResult(kernel, false, ResultBytes(r));
            if All(ReadableValue, r.values)
            then p == Got(r.(values := WithoutOrigins(r.values)), []) else p.Bad?
  {
    var q := r.(values := WithoutOrigins(r.values));
    StrippedResult(valid, kernel, r);
    WithoutOriginsKeeps(r.values);
    ResultRead(kernel, q, []);
    assert ResultBytes(q) == ResultBytes(r);
    assert ResultBytes(q) + [] == ResultBytes(q);
  }

  lemma JobStatusComplete(s: JobStatus, rest: Bytes)
    requires ValidJobStatus(s) && LegalStatus(s.outcome)
    ensures ReadJobStatus(JobStatusBytes(s) + rest) == Got(s, rest)
  {
    var t2 := [s.state] + StatusBytes(s.outcome);
    var t1 := IdBytes(s.session) + t2;
    Regroup(IdBytes(s.job), t1, rest);
    Regroup(IdBytes(s.session), t2, rest);
    Regroup([s.state], StatusBytes(s.outcome), rest);
    IdExact(s.job, t1 + rest, []);
    IdExact(s.session, t2 + rest, []);
    U8Exact(s.state, StatusBytes(s.outcome) + rest, []);
    StatusExact(s.outcome, rest, []);
  }

  lemma CountersComplete(c: Counters, rest: Bytes)
    ensures ReadCounters(CountersBytes(c) + rest) == Got(c, rest)
  {
    var t2 := LittleEndian(c.maximumConcurrency, 4) + LittleEndian(c.maximumSessions, 4);
    var t1 := LittleEndian(c.activeJobs, 8) + t2;
    Regroup(LittleEndian(c.activeSessions, 8), t1, rest);
    Regroup(LittleEndian(c.activeJobs, 8), t2, rest);
    Regroup(LittleEndian(c.maximumConcurrency, 4), LittleEndian(c.maximumSessions, 4), rest);
    U64Exact(c.activeSessions, t1 + rest, []);
    U64Exact(c.activeJobs, t2 + rest, []);
    U32Exact(c.maximumConcurrency, LittleEndian(c.maximumSessions, 4) + rest, []);
    U32Exact(c.maximumSessions, rest, []);
  }

  lemma InventoryComplete(methods: seq<Bytes>, counters: Counters, rest: Bytes)
    requires |methods| <= 16 && All(LegalMethodName, methods)
    ensures ReadInventory(false, CountedBytes(BlobBytes, 1, methods) + (CountersBytes(counters) + rest))
            == Got((methods, counters), rest)
  {
    forall t, r | LegalMethodName(t) ensures ReadMethodName(false, BlobBytes(t) + r) == Got(t, r) {
      TextExact(64, t, r, []);
    }
    Powers();
    CountedComplete(ReadMethodName, LegalMethodName, BlobBytes, 1, 16, DAEMON_METHODS, methods,
                    CountersBytes(counters) + rest);
    CountersComplete(counters, rest);
  }

  lemma InfoComplete(i: DaemonInfo, rest: Bytes)
    requires LegalInfo(i)
    ensures ReadInfo(false, InfoBytes(i) + rest) == Got(i, rest)
  {
    var t4 := CountedBytes(BlobBytes, 1, i.methods) + CountersBytes(i.counters);
    var t3 := BlobBytes(i.transport) + t4;
    var t2 := BlobBytes(i.serviceVersion) + t3;
    var t1 := LittleEndian(i.instance, 8) + t2;
    Regroup(LittleEndian(i.protocolVersion, 2), t1, rest);
    Regroup(LittleEndian(i.instance, 8), t2, rest);
    Regroup(BlobBytes(i.serviceVersion), t3, rest);
    Regroup(BlobBytes(i.transport), t4, rest);
    Regroup(CountedBytes(BlobBytes, 1, i.methods), CountersBytes(i.counters), rest);
    U16Exact(i.protocolVersion, t1 + rest, []);
    U64Exact(i.instance, t2 + rest, []);
    TextExact(128, i.serviceVersion, t3 + rest, []);
    TextExact(64, i.transport, t4 + rest, []);
    InventoryComplete(i.methods, i.counters, rest);
  }

  /** The bodies without a nested structure. */
  lemma PlainBodyRead(valid: Validity, kernel: Kernel, r: Response)
    requires EncodableResponse(valid, r)
    requires r.status.code == OK ==> r.methodCode != JOB_RESULT && r.methodCode != DAEMON_INFO
    ensures ReadResponseBody(kernel, false, BareResponse(r.requestId, r.methodCode, r.status), ResponseBody(r))
            == Got(SelectedResponse(r), [])
  {
    assert ResponseBody(r) + [] == ResponseBody(r);
    if r.methodCode == JOB_STATUS {
      if r.status.code == OK {
        JobStatusComplete(r.jobStatus, []);
      }
    } else {
      IdExact(if r.methodCode == JOB_SUBMIT then r.job else r.session, [], []);
    }
  }

  lemma ResponseBodyRead(valid: Validity, kernel: Kernel, r: Response)
    requires SaneKernel(valid, kernel) && EncodableResponse(valid, r) && SortedResult(r.result)
    requires |ResponseBody(r)| <= MAXIMUM_FRAME_PAYLOAD_BYTES
    ensures var p := ReadResponseBody(kernel, false, BareResponse(r.requestId, r.methodCode, r.status),
                                      ResponseBody(r));
            if ReadableResponse(r) then p == Got(SelectedResponse(r), []) else p.Bad?
  {
    if r.status.code == OK && r.methodCode == JOB_RESULT {
      ResultReadable(valid, kernel, r.result);
    } else if r.status.code == OK && r.methodCode == DAEMON_INFO {
      assert InfoBytes(r.info) + [] == InfoBytes(r.info);
      InfoComplete(r.info, []);
    } else {
      PlainBodyRead(valid, kernel, r);
    }
  }

  /**
   * Every response that encodes decodes, under its own method and id, to the same status and selected payload, exactly
   * when each of its values has an axis and facet payloads within 64 KiB.
   */
  lemma ResponseRoundTrip(valid: Validity, kernel: Kernel, r: Response)
    requires SaneKernel(valid, kernel) && EncodableResponse(valid, r) && SortedResult(r.result)
    requires |ResponseBytes(r)| <= MAXIMUM_FRAME_PAYLOAD_BYTES
    ensures var d := DecodeResponse(kernel, true, ResponseBytes(r), r.methodCode, r.requestId);
            if ReadableResponse(r) then d == Ok(SelectedResponse(r)) else d.Err?
  {
    HeaderExact(r.requestId, r.methodCode, StatusBytes(r.status) + ResponseBody(r), []);
    StatusExact(r.status, ResponseBody(r), []);
    ResponseBodyRead(valid, kernel, r);
    ResponseTransparent(kernel, ResponseBytes(r), r.methodCode, r.requestId);
  }

  function Zeros(n: nat): seq<u64> {
    seq(n, _ => 0)
  }

  /** What the wire leaves out of an encodable result is nothing but zeros: it can be put back. */
  lemma OnlyZerosAreDropped(valid: Validity, r: ExecutionResult, i: nat)
    requires EncodableResult(valid, r) && i < |r.values|
    ensures |WithoutOrigins(r.values)| == |r.values|
    ensures var sent, received := r.values[i], WithoutOrigins(r.values)[i];
            sent == (received.0, received.1.(origin := Zeros(|sent.1.origin|)))
  {
    WithoutOriginsKeeps(r.values);
    assert ValueEncodable(valid)(r.values[i]);
    var origin := r.values[i].1.origin;
    assert origin == Zeros(|origin|);
  }

  // ----- What an accepted response was -----

  lemma JobStatusRegroup(v: JobStatus, rest: Bytes)
    ensures JobStatusBytes(v) + rest ==
            IdBytes(v.job) + (IdBytes(v.session) + ([v.state] + (StatusBytes(v.outcome) + rest)))
  {
    var t2 := [v.state] + StatusBytes(v.outcome);
    Regroup(IdBytes(v.job), IdBytes(v.session) + t2, rest);
    Regroup(IdBytes(v.session), t2, rest);
    Regroup([v.state], StatusBytes(v.outcome), rest);
  }

  lemma JobStatusSound(s: Bytes)
    requires ReadJobStatus(s).Got?
    ensures var Got(v, rest) := ReadJobStatus(s);
            ValidJobStatus(v) && LegalStatus(v.outcome) && s == JobStatusBytes(v) + rest
  {
    hide IdBytes, StatusBytes, ReadStatus, LegalStatus, ReadId;
    var Got(v, rest) := ReadJobStatus(s);
    IdExact(NO_ID, [], s);
    var s1 := ReadId(s).rest;
    IdExact(NO_ID, [], s1);
    var s2 := ReadId(s1).rest;
    U8Exact(0, [], s2);
    StatusExact(SUCCESS, [], ParseU8(s2).rest);
    JobStatusRegroup(v, rest);
  }

  lemma CountersSound(s: Bytes)
    requires ReadCounters(s).Got?
    ensures s == CountersBytes(ReadCounters(s).value) + ReadCounters(s).rest
  {
    var Got(c, rest) := ReadCounters(s);
    U64Exact(0, [], s);
    var s1 := ParseU64(s).rest;
    U64Exact(0, [], s1);
    var s2 := ParseU64(s1).rest;
    U32Exact(0, [], s2);
    U32Exact(0, [], ParseU32(s2).rest);
    var t2 := LittleEndian(c.maximumConcurrency, 4) + LittleEndian(c.maximumSessions, 4);
    Regroup(LittleEndian(c.activeSessions, 8), LittleEndian(c.activeJobs, 8) + t2, rest);
    Regroup(LittleEndian(c.activeJobs, 8), t2, rest);
    Regroup(LittleEndian(c.maximumConcurrency, 4), LittleEndian(c.maximumSessions, 4), rest);
  }

  lemma InventorySound(s: Bytes)
    requires ReadInventory(false, s).Got?
    ensures var Got((methods, counters), rest) := ReadInventory(false, s);
            && |methods| <= 16 && All(LegalMethodName, methods)
            && s == CountedBytes(BlobBytes, 1, methods) + (CountersBytes(counters) + rest)
  {
    hide ReadCounters, CountersBytes;
    forall t | ReadMethodName(false, t).Got?
      ensures var Got(v, rest) := ReadMethodName(false, t); LegalMethodName(v) && t == BlobBytes(v) + rest
    {
      TextExact(64, [], [], t);
    }
    hide BlobBytes, ReadMethodName, LegalMethodName;
    CountedSound(ReadMethodName, LegalMethodName, BlobBytes, 1, 16, DAEMON_METHODS, s);
    CountersSound(ReadMethods(false, s).rest);
  }

  lemma InfoRegroup(i: DaemonInfo, rest: Bytes)
    ensures InfoBytes(i) + rest ==
            LittleEndian(i.protocolVersion, 2) + (LittleEndian(i.instance, 8) + (BlobBytes(i.serviceVersion)
            + (BlobBytes(i.transport) + (CountedBytes(BlobBytes, 1, i.methods) + (CountersBytes(i.counters) + rest)))))
  {
    hide CountersBytes, CountedBytes, BlobBytes;
    var t4 := CountedBytes(BlobBytes, 1, i.methods) + CountersBytes(i.counters);
    var t3 := BlobBytes(i.transport) + t4;
    var t2 := BlobBytes(i.serviceVersion) + t3;
    Regroup(LittleEndian(i.protocolVersion, 2), LittleEndian(i.instance, 8) + t2, rest);
    Regroup(LittleEndian(i.instance, 8), t2, rest);
    Regroup(BlobBytes(i.serviceVersion), t3, rest);
    Regroup(BlobBytes(i.transport), t4, rest);
    Regroup(CountedBytes(BlobBytes, 1, i.methods), CountersBytes(i.counters), rest);
  }

  lemma InfoSound(s: Bytes)
    requires ReadInfo(false, s).Got?
    ensures var Got(i, rest) := ReadInfo(false, s); LegalInfo(i) && s == InfoBytes(i) + rest
  {
    hide ParseText, ReadInventory, CountersBytes, CountedBytes, BlobBytes, ValidInfo, LegalMethodName, InfoBytes;
    var Got(i, rest) := ReadInfo(false, s);
    U16Exact(0, [], s);
    var s1 := ParseU16(s).rest;
    U64Exact(0, [], s1);
    var s2 := ParseU64(s1).rest;
    TextExact(128, [], [], s2);
    var s3 := ParseText(128, s2).rest;
    TextExact(64, [], [], s3);
    InventorySound(ParseText(64, s3).rest);
    InfoRegroup(i, rest);
  }

  /** The response carries only the payload that its status and method select. */
  predicate OnlySelected(r: Response) {
    var bare := BareResponse(r.requestId, r.methodCode, r.status);
    if r.status.code != OK then r == bare
    else if r.methodCode == SESSION_CREATE then r == bare.(session := r.session)
    else if r.methodCode == JOB_SUBMIT then r == bare.(job := r.job)
    else if r.methodCode == JOB_STATUS then r == bare.(jobStatus := r.jobStatus)
    else if r.methodCode == JOB_RESULT then r == bare.(result := r.result)
    else if r.methodCode == DAEMON_INFO then r == bare.(info := r.info)
    else r == bare
  }

  /** What a decoded response can be: only the selected payload, which is a legal one that the kernel accepts. */
  predicate CanonicalResponse(kernel: Kernel, r: Response) {
    && r.requestId != 0 && ValidMethod(r.methodCode) && LegalStatus(r.status) && OnlySelected(r)
    && (r.status.code == OK ==>
          && (r.methodCode == SESSION_CREATE ==> LegalId(r.session))
          && (r.methodCode == JOB_SUBMIT ==> LegalId(r.job))
          && (r.methodCode == JOB_STATUS ==> ValidJobStatus(r.jobStatus) && LegalStatus(r.jobStatus.outcome))
          && (r.methodCode == JOB_RESULT ==> LegalResult(kernel, r.result))
          && (r.methodCode == DAEMON_INFO ==> LegalInfo(r.info)))
  }

  /** `p` is the bytes of `r` up to the order in which the entries of its result's maps were written. */
  ghost predicate SameButEntryOrder(p: Bytes, r: Response) {
    exists wire :: ReordersResult(wire, r.result) && p == ResponseBytes(r.(result := wire))
  }

  lemma PlainResponseSound(kernel: Kernel, bare: Response, s: Bytes)
    requires bare == BareResponse(bare.requestId, bare.methodCode, bare.status)
    requires bare.requestId != 0 && ValidMethod(bare.methodCode) && LegalStatus(bare.status)
    requires bare.status.code == OK ==> bare.methodCode != JOB_RESULT && bare.methodCode != DAEMON_INFO
    requires ReadResponseBody(kernel, false, bare, s).Got? && ReadResponseBody(kernel, false, bare, s).rest == []
    ensures var r := ReadResponseBody(kernel, false, bare, s).value;
            && r == bare.(session := r.session, job := r.job, jobStatus := r.jobStatus)
            && CanonicalResponse(kernel, r) && s == ResponseBody(r)
  {
    hide LegalStatus, ReadJobStatus, JobStatusBytes, ValidJobStatus, ReadResult, ReadInfo;
    var r := ReadResponseBody(kernel, false, bare, s).value;
    assert ResponseBody(r) + [] == ResponseBody(r);
    if bare.status.code == OK {
      if bare.methodCode == JOB_STATUS {
        JobStatusSound(s);
      } else if bare.methodCode == SESSION_CREATE || bare.methodCode == JOB_SUBMIT {
        IdExact(NO_ID, [], s);
      }
    }
  }

  lemma ResponseBodySound(kernel: Kernel, bare: Response, s: Bytes) returns (wire: ExecutionResult)
    requires bare == BareResponse(bare.requestId, bare.methodCode, bare.status)
    requires bare.requestId != 0 && ValidMethod(bare.methodCode) && LegalStatus(bare.status)
    requires ReadResponseBody(kernel, false, bare, s).Got? && ReadResponseBody(kernel, false, bare, s).rest == []
    ensures var r := ReadResponseBody(kernel, false, bare, s).value;
            && r.requestId == bare.requestId && r.methodCode == bare.methodCode && r.status == bare.status
            && CanonicalResponse(kernel, r) && ReordersResult(wire, r.result)
            && s == ResponseBody(r.(result := wire))
  {
    hide LegalStatus, ReadJobStatus, JobStatusBytes, ValidJobStatus, LegalInfo, LegalResult, ReadInfo, InfoBytes,
         ReadResult, ResultBytes, ReordersResult;
    var r := ReadResponseBody(kernel, false, bare, s).value;
    if bare.status.code == OK && bare.methodCode == JOB_RESULT {
      wire := ResultSound(kernel, s);
      assert ResultBytes(wire) + [] == ResultBytes(wire);
    } else {
      wire := r.result;
      SameResult(wire);
      if bare.status.code == OK && bare.methodCode == DAEMON_INFO {
        InfoSound(s);
        assert InfoBytes(r.info) + [] == InfoBytes(r.info);
      } else {
        PlainResponseSound(kernel, bare, s);
      }
      assert r.(result := wire) == r;
    }
  }

  lemma SameResult(r: ExecutionResult)
    ensures ReordersResult(r, r)
  {
  }

  lemma ResponseBodyComplete(kernel: Kernel, wire: ExecutionResult, r: Response)
    requires CanonicalResponse(kernel, r) && ReordersResult(wire, r.result)
    ensures ReadResponseBody(kernel, false, BareResponse(r.requestId, r.methodCode, r.status),
                             ResponseBody(r.(result := wire))) == Got(r, [])
  {
    hide LegalStatus, ReadJobStatus, JobStatusBytes, ValidJobStatus, LegalInfo, LegalResult, ReadInfo, InfoBytes,
         ReadResult, ResultBytes, ReordersResult;
    var body := ResponseBody(r.(result := wire));
    assert body + [] == body;
    if r.status.code == OK {
      if r.methodCode == JOB_RESULT {
        ResultComplete(kernel, wire, r.result, []);
      } else if r.methodCode == DAEMON_INFO {
        InfoComplete(r.info, []);
      } else if r.methodCode == JOB_STATUS {
        JobStatusComplete(r.jobStatus, []);
      } else {
        IdExact(if r.methodCode == JOB_SUBMIT then r.job else r.session, [], []);
      }
    }
  }

  lemma ResponseComplete(kernel: Kernel, wire: ExecutionResult, r: Response)
    requires CanonicalResponse(kernel, r) && ReordersResult(wire, r.result)
    requires |ResponseBytes(r.(result := wire))| <= MAXIMUM_FRAME_PAYLOAD_BYTES
    ensures DecodeResponse(kernel, true, ResponseBytes(r.(result := wire)), r.methodCode, r.requestId) == Ok(r)
  {
    hide ReadHeader, HeaderBytes, ReadStatus, StatusBytes, LegalStatus, ReadResponseBody, ResponseBody, OnlySelected,
         ReordersResult;
    var sent := r.(result := wire);
    HeaderExact(r.requestId, r.methodCode, StatusBytes(r.status) + ResponseBody(sent), []);
    StatusExact(r.status, ResponseBody(sent), []);
    ResponseBodyComplete(kernel, wire, r);
    ResponseTransparent(kernel, ResponseBytes(sent), r.methodCode, r.requestId);
  }

  lemma ResponseSound(kernel: Kernel, payload: Bytes, expectedMethod: byte, expectedId: u64)
    requires DecodeResponse(kernel, true, payload, expectedMethod, expectedId).Ok?
    ensures var r := DecodeResponse(kernel, true, payload, expectedMethod, expectedId).value;
            && r.requestId == expectedId && r.methodCode == expectedMethod
            && |payload| <= MAXIMUM_FRAME_PAYLOAD_BYTES && CanonicalResponse(kernel, r) && SameButEntryOrder(payload, r)
  {
    hide ReadHeader, HeaderBytes, ReadStatus, StatusBytes, LegalStatus, ReadResponseBody, ResponseBody, OnlySelected,
         ReordersResult, CanonicalResponse;
    ResponseTransparent(kernel, payload, expectedMethod, expectedId);
    var r := DecodeResponse(kernel, true, payload, expectedMethod, expectedId).value;
    HeaderExact(0, 0, [], payload);
    var Got((requestId, methodCode), s) := ReadHeader(payload);
    StatusExact(SUCCESS, [], s);
    var Got(status, s1) := ReadStatus(s);
    var wire := ResponseBodySound(kernel, BareResponse(requestId, methodCode, status), s1);
    assert payload == ResponseBytes(r.(result := wire));
  }

  /**
   * What the response decoder does, exactly: under an id and a method a payload that fits a frame decodes to a response
   * if and only if the response has that id and method, is canonical, and the payload is its bytes, up to the order of
   * the entries of its result's maps.
   */
  lemma ResponseExactly(kernel: Kernel, payload: Bytes, methodCode: byte, requestId: u64, r: Response)
    ensures DecodeResponse(kernel, true, payload, methodCode, requestId) == Ok(r)
       <==> && r.requestId == requestId && r.methodCode == methodCode && CanonicalResponse(kernel, r)
            && |payload| <= MAXIMUM_FRAME_PAYLOAD_BYTES && SameButEntryOrder(payload, r)
  {
    hide DecodeResponse, CanonicalResponse;
    if DecodeResponse(kernel, true, payload, methodCode, requestId) == Ok(r) {
      ResponseSound(kernel, payload, methodCode, requestId);
    }
    if r.requestId == requestId && r.methodCode == methodCode && CanonicalResponse(kernel, r)
        && |payload| <= MAXIMUM_FRAME_PAYLOAD_BYTES && SameButEntryOrder(payload, r)
    {
      var wire :| ReordersResult(wire, r.result) && payload == ResponseBytes(r.(result := wire));
      ResponseComplete(kernel, wire, r);
    }
  }

  /** In particular an accepted response re-encodes to the same length. */
  lemma ResponseReencodes(kernel: Kernel, payload: Bytes, methodCode: byte, requestId: u64)
    requires DecodeResponse(kernel, true, payload, methodCode, requestId).Ok?
    ensures |ResponseBytes(DecodeResponse(kernel, true, payload, methodCode, requestId).value)| == |payload|
  {
    hide DecodeResponse, CanonicalResponse, ResultBytes, ReordersResult, InfoBytes, JobStatusBytes, StatusBytes;
    var r := DecodeResponse(kernel, true, payload, methodCode, requestId).value;
    ResponseSound(kernel, payload, methodCode, requestId);
    var wire :| ReordersResult(wire, r.result) && payload == ResponseBytes(r.(result := wire));
    ReorderedResultLength(wire, r.result);
  }

  // ----- Protocol errors and correlation -----

  /** Correlation of an error: the request's id and method, or the sentinel. */
  datatype Correlation = Correlation(requestId: u64, methodCode: byte)

  const SENTINEL := Correlation(0, DAEMON_INFO)

  /** Reads only the fixed header of a possibly malformed payload. */
  function RecoverCorrelation(payload: Option<Bytes>): Correlation {
    match payload
    case None => SENTINEL
    case Some(p) =>
      if |p| < HEADER_BYTES || p[0] as int + 256 * p[1] as int != PROTOCOL_VERSION then SENTINEL
      else
        Powers();
        var requestId := FromLittleEndian(p[2..10]);
        if requestId == 0 || !ValidMethod(p[10]) then SENTINEL else Correlation(requestId, p[10])
  }

  /** A payload that starts with a complete valid version-three header. */
  predicate HasHeader(p: Bytes, requestId: u64, methodCode: byte) {
    HeaderBytes(requestId, methodCode) <= p && requestId != 0 && ValidMethod(methodCode)
  }

  /** Correlation is recovered exactly from the payloads that start with a valid header. */
  lemma RecoverExactly(p: Bytes, requestId: u64, methodCode: byte)
    requires requestId != 0
    ensures RecoverCorrelation(Some(p)) == Correlation(requestId, methodCode) <==> HasHeader(p, requestId, methodCode)
  {
    if |p| >= HEADER_BYTES {
      var e := HeaderBytes(requestId, methodCode);
      assert LittleEndian(3, 2) == [3, 0];
      assert e[..2] == [3, 0] && e[2..10] == LittleEndian(requestId, 8) && e[10] == methodCode;
      Powers();
      LittleEndianInverse(requestId, 8);
      if HasHeader(p, requestId, methodCode) {
        assert p[..11] == e && p[2..10] == e[2..10] && p[0] == e[0] && p[1] == e[1];
      }
      if RecoverCorrelation(Some(p)) == Correlation(requestId, methodCode) {
        FromLittleEndianInverse(p[2..10]);
        assert p[0] == 3 && p[1] == 0;
        assert p[..11] == [p[0], p[1]] + (p[2..10] + [p[10]]);
        assert e == p[..11];
      }
    }
  }

  /** Only the first eleven bytes matter. */
  lemma RecoverFromPrefix(p: Bytes)
    ensures RecoverCorrelation(Some(p))
              == RecoverCorrelation(Some(if |p| <= HEADER_BYTES then p else p[..HEADER_BYTES]))
  {
    if |p| > HEADER_BYTES {
      assert p[..HEADER_BYTES][2..10] == p[2..10];
    }
  }

  function ProtocolErrorBytes(status: Status, payload: Option<Bytes>): Bytes {
    var c := RecoverCorrelation(payload);
    HeaderBytes(c.requestId, c.methodCode) + StatusBytes(status)
  }

  function DecodeProtocolError(payload: Bytes): Result<Response> {
    if |payload| > MAXIMUM_FRAME_PAYLOAD_BYTES then Err(INVALID_ARGUMENT)
    else
      match ReadHeader(payload)
      case Bad(code) => Err(code)
      case Got((requestId, methodCode), s) =>
        if !ValidMethod(methodCode) then Err(INVALID_ARGUMENT)
        else
          match ReadStatus(s)
          case Bad(code) => Err(code)
          case Got(status, rest) =>
            if rest != [] || status.code == OK || (requestId == 0 && methodCode != DAEMON_INFO)
                then Err(INVALID_ARGUMENT)
            else Ok(BareResponse(requestId, methodCode, status))
  }

  /**
   * A protocol error carries its status to the other side under the recovered correlation. A correlated error also
   * decodes as that call's failed response; a sentinel is a response to no call at all.
   */
  lemma ProtocolErrorArrives(kernel: Kernel, status: Status, payload: Option<Bytes>, expectedMethod: byte,
                             expectedId: u64)
    requires LegalStatus(status) && status.code != OK
    ensures var c := RecoverCorrelation(payload);
            var b := ProtocolErrorBytes(status, payload);
            var failed := BareResponse(c.requestId, c.methodCode, status);
            && |b| <= MAXIMUM_FRAME_PAYLOAD_BYTES
            && DecodeProtocolError(b) == Ok(failed)
            && (c != SENTINEL ==> DecodeResponse(kernel, true, b, c.methodCode, c.requestId) == Ok(failed))
            && (Correlation(expectedId, expectedMethod) != c ==>
                  DecodeResponse(kernel, true, b, expectedMethod, expectedId) == Err(INVALID_ARGUMENT))
            && (c == SENTINEL ==> DecodeResponse(kernel, true, b, expectedMethod, expectedId) == Err(INVALID_ARGUMENT))
  {
    var c := RecoverCorrelation(payload);
    assert StatusBytes(status) + [] == StatusBytes(status);
    HeaderExact(c.requestId, c.methodCode, StatusBytes(status), []);
    StatusExact(status, [], []);
  }

  /** A failure under the id and method of some call, or under the sentinel. */
  predicate CanonicalError(r: Response) {
    && r == BareResponse(r.requestId, r.methodCode, r.status) && ValidMethod(r.methodCode)
    && LegalStatus(r.status) && r.status.code != OK && (r.requestId == 0 ==> r.methodCode == DAEMON_INFO)
  }

  /** The protocol-error decoder accepts exactly the bytes of such failures. */
  lemma ProtocolErrorExactly(payload: Bytes, r: Response)
    ensures DecodeProtocolError(payload) == Ok(r)
       <==> CanonicalError(r) && payload == HeaderBytes(r.requestId, r.methodCode) + StatusBytes(r.status)
            && |payload| <= MAXIMUM_FRAME_PAYLOAD_BYTES
  {
    hide ReadHeader, HeaderBytes, ReadStatus, StatusBytes, LegalStatus;
    assert StatusBytes(r.status) + [] == StatusBytes(r.status);
    HeaderExact(r.requestId, r.methodCode, StatusBytes(r.status), payload);
    StatusExact(r.status, [], []);
    if DecodeProtocolError(payload).Ok? {
      var s := ReadHeader(payload).rest;
      StatusExact(SUCCESS, [], s);
    }
  }
}
