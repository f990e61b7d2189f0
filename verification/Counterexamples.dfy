/** Inputs at which a promise fails; the exact conditions are proved where the promises are. */
module Counterexamples {
  import opened Wire
  import opened Jobs
  import opened Machine
  import opened MachineSafety
  import opened Refinement
  import Grammar
  import Messages
  import Results
  import Utf8

  // ----- A snapshot that no client accepts -----

  /** One session, one job in the queue, one idle worker. */
  function Submitted(): State {
    State(Shared([Fresh(1, 1)], [InQueue], map[1 := 0], [0], 2,
                 [SessionRecord(1, false, None, false)], map[1 := 0], 0, 2, None, None, [], {}, NoFault),
          map[], [Idle])
  }

  function SessionOnly(): State {
    State(Shared([], [], map[], [], 1, [SessionRecord(1, false, None, false)], map[1 := 0], 0, 2, None, None, [], {},
                 NoFault),
          map[], [Idle])
  }

  /** A creation that has its slot. */
  function Reserving(h: Handler): State {
    State(Initial(1).sh.(pending := 1), map[0 := h], [Idle])
  }

  lemma ReserveRun(c: Config)
    requires c.maximumSessions > 0
    ensures var steps := [Arrive(0, CreateAdmit)] + ([AcquireLifecycle(0)] + [Admit(0)]);
            Possible(c, Initial(1), steps) && After(c, Initial(1), steps) == Reserving(CreateBuild)
  {
    hide Possible, After;
    var empty := Initial(1);
    assert empty.workers == [Idle];
    var s1 := Goto(empty, 0, CreateAdmit);
    var s2 := s1.(sh := empty.sh.(lifecycle := Some(0)));
    assert Apply(c, s1, AcquireLifecycle(0)) == s2;
    assert s2.handlers[0 := CreateBuild] == map[0 := CreateBuild];
    assert Apply(c, s2, Admit(0)) == Reserving(CreateBuild);
    OneStep(c, s2, Admit(0));
    StepThen(c, s1, AcquireLifecycle(0), [Admit(0)]);
    StepThen(c, empty, Arrive(0, CreateAdmit), [AcquireLifecycle(0)] + [Admit(0)]);
  }

  lemma PublishRun(c: Config)
    ensures var steps := [Build(0, true)] + ([AcquireLifecycle(0)] + [Publish(0, false)]);
            Possible(c, Reserving(CreateBuild), steps) && After(c, Reserving(CreateBuild), steps) == SessionOnly()
  {
    hide Possible, After;
    var s3, s4 := Reserving(CreateBuild), Reserving(CreatePublish);
    var s5 := s4.(sh := s4.sh.(lifecycle := Some(0)));
    assert s3.handlers[0 := CreatePublish] == s4.handlers && s5.handlers - {0} == map[];
    assert Apply(c, s3, Build(0, true)) == s4;
    assert Apply(c, s4, AcquireLifecycle(0)) == s5;
    assert Apply(c, s5, Publish(0, false)) == SessionOnly();
    OneStep(c, s5, Publish(0, false));
    StepThen(c, s4, AcquireLifecycle(0), [Publish(0, false)]);
    StepThen(c, s3, Build(0, true), [AcquireLifecycle(0)] + [Publish(0, false)]);
  }

  lemma SubmitRun(c: Config)
    requires c.maximumJobs > 0
    ensures var id := Messages.Id(c.instance, 1);
            var steps := [Arrive(0, SubmitCheck(id))] +
                ([AcquireLifecycle(0)] + ([CheckSession(0)] + [Enqueue(0, Succeeds)]));
            Possible(c, SessionOnly(), steps) && After(c, SessionOnly(), steps) == Submitted()
  {
    hide Possible, After;
    var id := Messages.Id(c.instance, 1);
    var s0 := SessionOnly();
    var s1 := Goto(s0, 0, SubmitCheck(id));
    var s2 := s1.(sh := s1.sh.(lifecycle := Some(0)));
    var s3 := Goto(s2, 0, SubmitAdmit(1, 0));
    assert Apply(c, s1, AcquireLifecycle(0)) == s2;
    assert Apply(c, s2, CheckSession(0)) == s3;
    assert s3.handlers - {0} == map[];
    assert Apply(c, s3, Enqueue(0, Succeeds)) == Submitted();
    OneStep(c, s3, Enqueue(0, Succeeds));
    StepThen(c, s2, CheckSession(0), [Enqueue(0, Succeeds)]);
    StepThen(c, s1, AcquireLifecycle(0), [CheckSession(0)] + [Enqueue(0, Succeeds)]);
    StepThen(c, s0, Arrive(0, SubmitCheck(id)), [AcquireLifecycle(0)] + ([CheckSession(0)] + [Enqueue(0, Succeeds)]));
  }

  lemma PopRun(c: Config)
    ensures Possible(c, Submitted(), [Pop(0)])
    ensures var st := After(c, Submitted(), [Pop(0)]);
            Holds(st, 0, Popped(0)) && |st.sh.heap| == 1 && st.sh.heap[0] == Fresh(1, 1)
  {
    OneStep(c, Submitted(), Pop(0));
  }

  /**
   * If the compiler claims that a job nobody cancelled was cancelled, a reachable state has a snapshot that is invalid.
   */
  lemma ForgedSnapshot(c: Config, message: Bytes) returns (steps: seq<Step>)
    requires c.maximumSessions > 0 && c.maximumJobs > 0
    ensures Possible(c, Initial(1), steps) && |After(c, Initial(1), steps).sh.heap| == 1
    ensures !Messages.ValidJobStatus(Snapshot(c.instance, After(c, Initial(1), steps).sh.heap[0], message))
  {
    hide Possible, After;
    ReserveRun(c);
    PublishRun(c);
    SubmitRun(c);
    PopRun(c);
    var reserve := [Arrive(0, CreateAdmit)] + ([AcquireLifecycle(0)] + [Admit(0)]);
    var publish := [Build(0, true)] + ([AcquireLifecycle(0)] + [Publish(0, false)]);
    var submit := [Arrive(0, SubmitCheck(Messages.Id(c.instance, 1)))] +
                  ([AcquireLifecycle(0)] + ([CheckSession(0)] + [Enqueue(0, Succeeds)]));
    var compile := UncompiledRun(c, After(c, Submitted(), [Pop(0)]), 0, 0, CANCELLED);
    Concat(c, Initial(1), reserve, publish);
    Concat(c, Initial(1), reserve + publish, submit);
    Concat(c, Initial(1), reserve + publish + submit, [Pop(0)]);
    Concat(c, Initial(1), reserve + publish + submit + [Pop(0)], compile);
    steps := reserve + publish + submit + [Pop(0)] + compile;
  }

  // ----- A response that encodes and does not decode -----

  /** A value without axes. */
  const POINT := Results.Value(Results.ValueParts(Results.UINT8, Results.Axes([], [], 0, []), [], []), [])

  /** A value with a facet payload of 64 KiB and one byte. */
  const BURDENED := Results.Value(
    Results.ValueParts(Results.UINT8, Results.Axes([1], [(0, 1)], 0, [1]), [Results.Facet([], 1, seq(65537, _ => 0))],
                       [0]), [])

  function Carrying(v: Results.Value): Messages.Response {
    Messages.BareResponse(1, Messages.JOB_RESULT,
                          Messages.SUCCESS).(result := Results.EMPTY_RESULT.(values := [([], v)]))
  }

  lemma {:induction false} Lists<T>(bytes: T -> Bytes, x: T)
    ensures Grammar.ListBytes(bytes, []) == [] && Grammar.ListBytes(bytes, [x]) == bytes(x)
  {
    assert [x][1..] == [];
  }

  lemma PartsAreShort(v: Results.Value)
    requires v == POINT || v == BURDENED
    ensures |Results.NamedBytes(([], v))| <= 0x2_0000
  {
    Lists(Results.U64Bytes, 1);
    Lists(Results.IntervalBytes, (0, 1));
    Lists(Results.StrideBytes, 1);
    Lists(Results.FacetBytes, Results.Facet([], 1, seq(65537, _ => 0)));
  }

  lemma CarryingIsShort(v: Results.Value)
    requires v == POINT || v == BURDENED
    ensures |Messages.ResponseBytes(Carrying(v))| <= MAXIMUM_FRAME_PAYLOAD_BYTES
  {
    PartsAreShort(v);
    Lists(Results.NamedBytes, ([], v));
    hide Results.NamedBytes;
  }

  lemma CarryingIsEncodable(v: Results.Value)
    requires v == POINT || v == BURDENED
    ensures Messages.EncodableResponse((x: Results.Value) => x == v, Carrying(v))
    ensures !Messages.ReadableResponse(Carrying(v))
    ensures Results.SortedResult(Carrying(v).result)
  {
    if v == BURDENED {
      assert !Results.LegalFacet(v.parts.facets[0]);
    }
    assert !Messages.ReadableValue(Carrying(v).result.values[0]);
  }

  /** Both are encodable, fit a frame, and are refused by the decoder, with a kernel that accepts everything. */
  lemma EncodableButRefused(v: Results.Value)
    requires v == POINT || v == BURDENED
    ensures var valid := (x: Results.Value) => x == v; var kernel := (parts: Results.ValueParts) => OK;
            && Messages.SaneKernel(valid, kernel) && Messages.EncodableResponse(valid, Carrying(v))
            && |Messages.ResponseBytes(Carrying(v))| <= MAXIMUM_FRAME_PAYLOAD_BYTES
            && Messages.DecodeResponse(kernel, true, Messages.ResponseBytes(Carrying(v)), Messages.JOB_RESULT, 1).Err?
  {
    hide Messages.EncodableResponse, Messages.ResponseBytes, Messages.DecodeResponse, Messages.ReadableResponse,
         Results.SortedResult;
    var valid := (x: Results.Value) => x == v;
    var kernel := (parts: Results.ValueParts) => OK;
    CarryingIsShort(v);
    CarryingIsEncodable(v);
    Messages.ResponseRoundTrip(valid, kernel, Carrying(v));
  }
}
