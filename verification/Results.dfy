/** Execution results on the wire: values, diagnostics, named values. */
module Results {
  import opened Wire
  import opened Grammar

  const UINT8: u32 := 1
  const FLOAT64: u32 := 3
  const FLOAT32: u32 := 4
  const CPU: byte := 1
  const GPU: byte := 2

  datatype Facet = Facet(key: Bytes, version: u32, payload: Bytes)

  /** Shape, region intervals, byte offset and byte strides of a value. */
  datatype Axes = Axes(shape: seq<u64>, region: seq<(u64, u64)>, offset: u64, strides: seq<i64>)

  /** Everything the wire carries of a value. */
  datatype ValueParts = ValueParts(elementType: u32, axes: Axes, facets: seq<Facet>, data: Bytes)

  /** A runtime value: its parts, and the storage origins, which the wire does not carry. */
  datatype Value = Value(parts: ValueParts, origin: seq<u64>)

  type NamedValue = (Bytes, Value)

  /** The kernel's verdict on the parts of a decoded value: success, or the category it fails with. */
  type Kernel = ValueParts -> ErrorCode

  datatype Timing = Timing(nodeId: u64, backend: byte, durationUs: u64, outcome: ErrorCode)

  datatype Transfers = Transfers(count: u64, bytes: u64, peakLiveBytes: u64)

  /** Fallback reasons, operation timings and the two digests. */
  datatype Observations = Observations(
    reasons: seq<Bytes>, timings: seq<Timing>, planDigest: Bytes, resultDigest: Bytes)

  datatype Diagnostics = Diagnostics(
    executeUs: u64, backends: seq<(u64, byte)>, transfers: Transfers, observations: Observations)

  /** `values` lists the entries of the result map in name order. */
  datatype ExecutionResult = ExecutionResult(values: seq<NamedValue>, diagnostics: Diagnostics)

  const EMPTY_RESULT := ExecutionResult([], Diagnostics(0, [], Transfers(0, 0, 0), Observations([], [], [], [])))

  // ----- Bytes -----

  function U64Bytes(v: u64): Bytes { LittleEndian(v, 8) }
  function IntervalBytes(d: (u64, u64)): Bytes { LittleEndian(d.0, 8) + LittleEndian(d.1, 8) }
  function StrideBytes(v: i64): Bytes { LittleEndian(SignedBits(v), 8) }

  function AxesBytes(a: Axes): Bytes {
    ListBytes(U64Bytes, a.shape) + (ListBytes(IntervalBytes, a.region)
    + (LittleEndian(a.offset, 8) + ListBytes(StrideBytes, a.strides)))
  }

  function FacetBytes(f: Facet): Bytes {
    BlobBytes(f.key) + (LittleEndian(f.version, 4) + BlobBytes(f.payload))
  }

  function ValueBytes(v: ValueParts): Bytes {
    LittleEndian(v.elementType, 4) + (LittleEndian(|v.axes.shape|, 1) + (AxesBytes(v.axes)
    + (CountedBytes(FacetBytes, 1, v.facets) + BlobBytes(v.data))))
  }

  function NamedBytes(e: NamedValue): Bytes {
    BlobBytes(e.0) + ValueBytes(e.1.parts)
  }

  function BackendBytes(e: (u64, byte)): Bytes {
    LittleEndian(e.0, 8) + [e.1]
  }

  function TimingBytes(t: Timing): Bytes {
    LittleEndian(t.nodeId, 8) + ([t.backend] + (LittleEndian(t.durationUs, 8) + [t.outcome]))
  }

  function TransfersBytes(t: Transfers): Bytes {
    LittleEndian(t.count, 8) + (LittleEndian(t.bytes, 8) + LittleEndian(t.peakLiveBytes, 8))
  }

  function ObservationsBytes(o: Observations): Bytes {
    CountedBytes(BlobBytes, 4, o.reasons) + (CountedBytes(TimingBytes, 4, o.timings)
    + (BlobBytes(o.planDigest) + BlobBytes(o.resultDigest)))
  }

  function DiagnosticsBytes(d: Diagnostics): Bytes {
    LittleEndian(d.executeUs, 8) + (CountedBytes(BackendBytes, 4, d.backends)
    + (TransfersBytes(d.transfers) + ObservationsBytes(d.observations)))
  }

  function ResultBytes(r: ExecutionResult): Bytes {
    CountedBytes(NamedBytes, 4, r.values) + DiagnosticsBytes(r.diagnostics)
  }

  // ----- What the decoder accepts -----

  predicate Anything<T>(v: T) { true }

  predicate LegalAxes(a: Axes) {
    1 <= |a.shape| <= 8 && |a.region| == |a.shape| && |a.strides| == |a.shape|
  }

  predicate LegalFacet(f: Facet) {
    TextOk(f.key, 256) && |f.payload| <= 64 * 1024
  }

  predicate LegalParts(v: ValueParts) {
    && UINT8 <= v.elementType <= FLOAT64 && LegalAxes(v.axes)
    && |v.facets| <= 64 && All(LegalFacet, v.facets) && |v.data| <= MAXIMUM_FRAME_PAYLOAD_BYTES
  }

  predicate LegalNamed(kernel: Kernel, e: NamedValue) {
    TextOk(e.0, 1024) && LegalParts(e.1.parts) && e.1.origin == [] && kernel(e.1.parts) == OK
  }

  function NamedLegal(kernel: Kernel): NamedValue -> bool {
    e => LegalNamed(kernel, e)
  }

  predicate KnownBackend(b: byte) {
    b == CPU || b == GPU
  }

  predicate LegalBackend(e: (u64, byte)) {
    e.0 != 0 && KnownBackend(e.1)
  }

  predicate LegalReason(t: Bytes) {
    TextOk(t, 4096)
  }

  predicate LegalTiming(t: Timing) {
    t.nodeId != 0 && KnownBackend(t.backend) && t.outcome <= INTERNAL
  }

  predicate LegalObservations(o: Observations) {
    && |o.reasons| <= 65536 && All(LegalReason, o.reasons)
    && |o.timings| <= 131072 && All(LegalTiming, o.timings)
    && TextOk(o.planDigest, 128) && TextOk(o.resultDigest, 128)
  }

  predicate LegalDiagnostics(d: Diagnostics) {
    |d.backends| <= 65536 && All(LegalBackend, d.backends) && LegalObservations(d.observations)
  }

  /** The representation invariant of an in-memory result: both maps are in key order. */
  predicate SortedResult(r: ExecutionResult) {
    Ascending(TextLess, r.values) && Ascending(NumberLess, r.diagnostics.backends)
  }

  // ----- Readers -----

  function ReadU64(fenced: bool, s: Bytes): Parsed<u64> { ParseU64(s) }
  function ReadStride(fenced: bool, s: Bytes): Parsed<i64> { ParseI64(s) }

  function ReadInterval(fenced: bool, s: Bytes): Parsed<(u64, u64)> {
    var (offset, s1) :- ParseU64(s);
    var (extent, rest) :- ParseU64(s1);
    Got((offset, extent), rest)
  }

  function ReadAxes(fenced: bool, rank: nat, s: Bytes): Parsed<Axes> {
    var (shape, s1) :- ParseList(ReadU64, fenced, rank, s);
    var (region, s2) :- ParseList(ReadInterval, fenced, rank, s1);
    var (offset, s3) :- ParseU64(s2);
    var (strides, rest) :- ParseList(ReadStride, fenced, rank, s3);
    Got(Axes(shape, region, offset, strides), rest)
  }

  function ReadFacet(fenced: bool, s: Bytes): Parsed<Facet> {
    var (key, s1) :- ParseText(256, s);
    var (version, s2) :- ParseU32(s1);
    var (payload, rest) :- ParseBlob(64 * 1024, s2);
    Got(Facet(key, version, payload), rest)
  }

  function ReadFacets(fenced: bool, s: Bytes): Parsed<seq<Facet>> {
    ParseCounted(ReadFacet, 1, 64, VALUE_FACETS, fenced, s)
  }

  function ReadRank(fenced: bool, s: Bytes): Parsed<nat> {
    var (rank, rest) :- ParseCount(1, 8, VALUE_AXES, fenced, s);
    if rank == 0 then Bad(INVALID_ARGUMENT) else Got(rank, rest)
  }

  /** What follows the rank of a value. */
  function ReadBody(fenced: bool, elementType: u32, rank: nat, s: Bytes): Parsed<ValueParts> {
    var (axes, s3) :- ReadAxes(fenced, rank, s);
    var (facets, s4) :- ReadFacets(fenced, s3);
    var (data, rest) :- ParseBlob(MAXIMUM_FRAME_PAYLOAD_BYTES, s4);
    Got(ValueParts(elementType, axes, facets, data), rest)
  }

  /** The parts of a value, before the kernel judges them. */
  function ReadParts(fenced: bool, s: Bytes): Parsed<ValueParts> {
    var (elementType, s1) :- ParseU32(s);
    if !(UINT8 <= elementType <= FLOAT64) then Bad(INVALID_ARGUMENT)
    else
      var (rank, s2) :- ReadRank(fenced, s1);
      ReadBody(fenced, elementType, rank, s2)
  }

  function ReadNamed(kernel: Kernel, fenced: bool, s: Bytes): Parsed<NamedValue> {
    var (name, s1) :- ParseText(1024, s);
    var (parts, rest) :- ReadParts(fenced, s1);
    if kernel(parts) == OK then Got((name, Value(parts, [])), rest) else Bad(kernel(parts))
  }

  function NamedReader(kernel: Kernel): Reader<NamedValue> {
    (fenced, s) => ReadNamed(kernel, fenced, s)
  }

  function ReadBackend(fenced: bool, s: Bytes): Parsed<(u64, byte)> {
    var (node, s1) :- ParseU64(s);
    var (backend, rest) :- ParseU8(s1);
    if node == 0 || !KnownBackend(backend) then Bad(INVALID_ARGUMENT) else Got((node, backend), rest)
  }

  function ReadReason(fenced: bool, s: Bytes): Parsed<Bytes> { ParseText(4096, s) }

  function ReadTiming(fenced: bool, s: Bytes): Parsed<Timing> {
    var (node, s1) :- ParseU64(s);
    var (backend, s2) :- ParseU8(s1);
    if node == 0 || !KnownBackend(backend) then Bad(INVALID_ARGUMENT)
    else
      var (duration, s3) :- ParseU64(s2);
      var (outcome, rest) :- ParseU8(s3);
      if outcome > INTERNAL then Bad(INVALID_ARGUMENT) else Got(Timing(node, backend, duration, outcome), rest)
  }

  function ReadTransfers(s: Bytes): Parsed<Transfers> {
    var (count, s1) :- ParseU64(s);
    var (bytes, s2) :- ParseU64(s1);
    var (peak, rest) :- ParseU64(s2);
    Got(Transfers(count, bytes, peak), rest)
  }

  function ReadBackends(fenced: bool, s: Bytes): Parsed<seq<(u64, byte)>> {
    ParseCountedMap(NumberLess, ReadBackend, 4, 65536, DIAGNOSTIC_BACKENDS, fenced, s)
  }

  function ReadReasons(fenced: bool, s: Bytes): Parsed<seq<Bytes>> {
    ParseCounted(ReadReason, 4, 65536, DIAGNOSTIC_REASONS, fenced, s)
  }

  function ReadTimings(fenced: bool, s: Bytes): Parsed<seq<Timing>> {
    ParseCounted(ReadTiming, 4, 131072, DIAGNOSTIC_TIMINGS, fenced, s)
  }

  function ReadObservations(fenced: bool, s: Bytes): Parsed<Observations> {
    var (reasons, s4) :- ReadReasons(fenced, s);
    var (timings, s5) :- ReadTimings(fenced, s4);
    var (planDigest, s6) :- ParseText(128, s5);
    var (resultDigest, rest) :- ParseText(128, s6);
    Got(Observations(reasons, timings, planDigest, resultDigest), rest)
  }

  function ReadDiagnostics(fenced: bool, s: Bytes): Parsed<Diagnostics> {
    var (executeUs, s1) :- ParseU64(s);
    var (backends, s2) :- ReadBackends(fenced, s1);
    var (transfers, s3) :- ReadTransfers(s2);
    var (observations, rest) :- ReadObservations(fenced, s3);
    Got(Diagnostics(executeUs, backends, transfers, observations), rest)
  }

  function ReadValues(kernel: Kernel, fenced: bool, s: Bytes): Parsed<seq<NamedValue>> {
    ParseCountedMap(TextLess, NamedReader(kernel), 4, 4096, RESULT_VALUES, fenced, s)
  }

  function ReadResult(kernel: Kernel, fenced: bool, s: Bytes): Parsed<ExecutionResult> {
    var (values, s1) :- ReadValues(kernel, fenced, s);
    var (diagnostics, rest) :- ReadDiagnostics(fenced, s1);
    Got(ExecutionResult(values, diagnostics), rest)
  }

  // ----- The fences of a result are transparent -----

  lemma ScalarsTransparent()
    ensures Transparent(ReadU64, 8, 0) && Transparent(ReadInterval, 16, 0) && Transparent(ReadStride, 8, 0)
  {
  }

  /** The axes consume 32 bytes for each axis and the offset. */
  lemma AxesTransparent(rank: nat, s: Bytes)
    ensures TransparentAt(ReadAxes(true, rank, s), ReadAxes(false, rank, s), s, 32 * rank + 8, 0)
  {
    ScalarsTransparent();
    ListTransparent(ReadU64, 8, 0, rank, s);
    if ParseList(ReadU64, false, rank, s).Got? {
      var s1 := ParseList(ReadU64, false, rank, s).rest;
      ListTransparent(ReadInterval, 16, 0, rank, s1);
      if ParseList(ReadInterval, false, rank, s1).Got? {
        var s2 := ParseList(ReadInterval, false, rank, s1).rest;
        if ParseU64(s2).Got? {
          ListTransparent(ReadStride, 8, 0, rank, ParseU64(s2).rest);
        }
      }
    }
  }

  lemma FacetTransparent()
    ensures Transparent(ReadFacet, 12, 56)
  {
  }

  lemma BodyTransparent(elementType: u32, rank: nat, s: Bytes)
    ensures TransparentAt(ReadBody(true, elementType, rank, s), ReadBody(false, elementType, rank, s),
                          s, 32 * rank + 13, 52)
  {
    AxesTransparent(rank, s);
    if ReadAxes(false, rank, s).Got? {
      var s3 := ReadAxes(false, rank, s).rest;
      FacetTransparent();
      CountedTransparent(ReadFacet, 12, 56, 1, 64, VALUE_FACETS, s3);
      if ReadFacets(false, s3).Got? {
        var s4 := ReadFacets(false, s3).rest;
        assert ParseBlob(MAXIMUM_FRAME_PAYLOAD_BYTES, s4).Got? ==>
          |ParseBlob(MAXIMUM_FRAME_PAYLOAD_BYTES, s4).rest| + 4 <= |s4|;
      }
    }
  }

  lemma PartsTransparent(s: Bytes)
    ensures TransparentAt(ReadParts(true, s), ReadParts(false, s), s, 50, 52)
  {
    if ParseU32(s).Got? {
      var Got(elementType, s1) := ParseU32(s);
      if ReadRank(false, s1).Got? {
        var Got(rank, s2) := ReadRank(false, s1);
        CountFitsExactly(rank, |s2|, VALUE_AXES);
        BodyTransparent(elementType, rank, s2);
      }
    }
  }

  lemma NamedTransparent(kernel: Kernel)
    ensures Transparent(NamedReader(kernel), 54, 52)
  {
    forall s ensures TransparentAt(ReadNamed(kernel, true, s), ReadNamed(kernel, false, s), s, 54, 52) {
      if ParseText(1024, s).Got? {
        assert |ParseText(1024, s).rest| + 4 <= |s|;
        PartsTransparent(ParseText(1024, s).rest);
      }
    }
  }

  lemma BackendTransparent()
    ensures Transparent(ReadBackend, 9, 40)
  {
  }

  lemma ReasonTransparent()
    ensures Transparent(ReadReason, 4, 12)
  {
  }

  lemma TimingTransparent()
    ensures Transparent(ReadTiming, 18, 8)
  {
  }

  lemma ObservationsTransparent(s: Bytes)
    ensures TransparentAt(ReadObservations(true, s), ReadObservations(false, s), s, 16, 0)
  {
    ReasonTransparent();
    CountedTransparent(ReadReason, 4, 12, 4, 65536, DIAGNOSTIC_REASONS, s);
    if ReadReasons(false, s).Got? {
      var s4 := ReadReasons(false, s).rest;
      TimingTransparent();
      CountedTransparent(ReadTiming, 18, 8, 4, 131072, DIAGNOSTIC_TIMINGS, s4);
      if ReadTimings(false, s4).Got? {
        var s5 := ReadTimings(false, s4).rest;
        if ParseText(128, s5).Got? {
          assert |ParseText(128, s5).rest| + 4 <= |s5|;
        }
      }
    }
  }

  lemma DiagnosticsTransparent(s: Bytes)
    ensures TransparentAt(ReadDiagnostics(true, s), ReadDiagnostics(false, s), s, 52, 0)
  {
    if ParseU64(s).Got? {
      var s1 := ParseU64(s).rest;
      BackendTransparent();
      CountedMapTransparent(NumberLess, ReadBackend, 9, 40, 4, 65536, DIAGNOSTIC_BACKENDS, s1);
      if ReadBackends(false, s1).Got? {
        var s2 := ReadBackends(false, s1).rest;
        if ReadTransfers(s2).Got? {
          assert |ReadTransfers(s2).rest| + 24 == |s2|;
          ObservationsTransparent(ReadTransfers(s2).rest);
        }
      }
    }
  }

  /** All six result fences together. */
  lemma ResultTransparent(kernel: Kernel, s: Bytes)
    ensures TransparentAt(ReadResult(kernel, true, s), ReadResult(kernel, false, s), s, 56, 0)
  {
    NamedTransparent(kernel);
    CountedMapTransparent(TextLess, NamedReader(kernel), 54, 52, 4, 4096, RESULT_VALUES, s);
    if ReadValues(kernel, false, s).Got? {
      DiagnosticsTransparent(ReadValues(kernel, false, s).rest);
    }
  }

  // ----- Reading back what was written -----

  lemma ScalarsComplete()
    ensures Complete(ReadU64, Anything<u64>, U64Bytes) && Complete(ReadStride, Anything<i64>, StrideBytes)
    ensures Complete(ReadInterval, Anything<(u64, u64)>, IntervalBytes)
  {
    forall v: u64, rest ensures ReadU64(false, U64Bytes(v) + rest) == Got(v, rest) {
      U64Exact(v, rest, []);
    }
    forall v: i64, rest ensures ReadStride(false, StrideBytes(v) + rest) == Got(v, rest) {
      I64Exact(v, rest, []);
    }
    forall d: (u64, u64), rest ensures ReadInterval(false, IntervalBytes(d) + rest) == Got(d, rest) {
      Regroup(LittleEndian(d.0, 8), LittleEndian(d.1, 8), rest);
      U64Exact(d.0, LittleEndian(d.1, 8) + rest, []);
      U64Exact(d.1, rest, []);
    }
  }

  lemma AxesComplete(a: Axes, rank: nat, rest: Bytes)
    requires |a.shape| == |a.region| == |a.strides| == rank
    ensures ReadAxes(false, rank, AxesBytes(a) + rest) == Got(a, rest)
  {
    var strides := ListBytes(StrideBytes, a.strides);
    var t2 := LittleEndian(a.offset, 8) + strides;
    var t1 := ListBytes(IntervalBytes, a.region) + t2;
    Regroup(ListBytes(U64Bytes, a.shape), t1, rest);
    Regroup(ListBytes(IntervalBytes, a.region), t2, rest);
    Regroup(LittleEndian(a.offset, 8), strides, rest);
    ScalarsComplete();
    ListComplete(ReadU64, Anything<u64>, U64Bytes, a.shape, t1 + rest);
    ListComplete(ReadInterval, Anything<(u64, u64)>, IntervalBytes, a.region, t2 + rest);
    U64Exact(a.offset, strides + rest, []);
    ListComplete(ReadStride, Anything<i64>, StrideBytes, a.strides, rest);
  }

  /** Facets the encoder writes; the decoder also bounds their payload. */
  predicate EncodableFacet(f: Facet) {
    TextOk(f.key, 256) && |f.payload| < 0x1_0000_0000
  }

  lemma FacetRead(f: Facet, rest: Bytes)
    requires EncodableFacet(f)
    ensures var r := ReadFacet(false, FacetBytes(f) + rest);
            if LegalFacet(f) then r == Got(f, rest) else r.Bad?
  {
    var t1 := LittleEndian(f.version, 4) + BlobBytes(f.payload);
    Regroup(BlobBytes(f.key), t1, rest);
    Regroup(LittleEndian(f.version, 4), BlobBytes(f.payload), rest);
    TextExact(256, f.key, t1 + rest, []);
    U32Exact(f.version, BlobBytes(f.payload) + rest, []);
    if LegalFacet(f) {
      BlobExact(64 * 1024, f.payload, rest, []);
    } else {
      Regroup(LittleEndian(|f.payload|, 4), f.payload, rest);
      U32Exact(|f.payload|, f.payload + rest, []);
    }
  }

  lemma FacetsRead(fs: seq<Facet>, rest: Bytes)
    requires |fs| <= 64 && All(EncodableFacet, fs)
    ensures var r := ReadFacets(false, CountedBytes(FacetBytes, 1, fs) + rest);
            if All(LegalFacet, fs) then r == Got(fs, rest) else r.Bad?
  {
    forall f, t | LegalFacet(f) ensures ReadFacet(false, FacetBytes(f) + t) == Got(f, t) { FacetRead(f, t); }
    forall f, t | EncodableFacet(f) && !LegalFacet(f) ensures ReadFacet(false, FacetBytes(f) + t).Bad? {
      FacetRead(f, t);
    }
    Powers();
    if All(LegalFacet, fs) {
      CountedComplete(ReadFacet, LegalFacet, FacetBytes, 1, 64, VALUE_FACETS, fs, rest);
    } else {
      Regroup(LittleEndian(|fs|, 1), ListBytes(FacetBytes, fs), rest);
      UintExact(1, |fs|, ListBytes(FacetBytes, fs) + rest, []);
      ListRejects(ReadFacet, EncodableFacet, LegalFacet, FacetBytes, fs, rest);
    }
  }

  /** Parts the encoder writes for a value the kernel calls valid. */
  predicate EncodableParts(v: ValueParts) {
    && UINT8 <= v.elementType <= FLOAT64
    && |v.axes.shape| <= 8 && |v.axes.region| == |v.axes.strides| == |v.axes.shape|
    && |v.facets| <= 64 && All(EncodableFacet, v.facets) && |v.data| <= MAXIMUM_FRAME_PAYLOAD_BYTES
  }

  lemma PartsRegroup(v: ValueParts, rest: Bytes)
    ensures ValueBytes(v) + rest ==
            LittleEndian(v.elementType, 4) + (LittleEndian(|v.axes.shape|, 1) + (AxesBytes(v.axes)
            + (CountedBytes(FacetBytes, 1, v.facets) + (BlobBytes(v.data) + rest))))
  {
    var t3 := CountedBytes(FacetBytes, 1, v.facets) + BlobBytes(v.data);
    var t2 := AxesBytes(v.axes) + t3;
    var t1 := LittleEndian(|v.axes.shape|, 1) + t2;
    Regroup(LittleEndian(v.elementType, 4), t1, rest);
    Regroup(LittleEndian(|v.axes.shape|, 1), t2, rest);
    Regroup(AxesBytes(v.axes), t3, rest);
    Regroup(CountedBytes(FacetBytes, 1, v.facets), BlobBytes(v.data), rest);
  }

  lemma BodyRead(v: ValueParts, rest: Bytes)
    requires EncodableParts(v)
    ensures var s := AxesBytes(v.axes) + (CountedBytes(FacetBytes, 1, v.facets) + (BlobBytes(v.data) + rest));
            var r := ReadBody(false, v.elementType, |v.axes.shape|, s);
            if All(LegalFacet, v.facets) then r == Got(v, rest) else r.Bad?
  {
    var s4 := BlobBytes(v.data) + rest;
    AxesComplete(v.axes, |v.axes.shape|, CountedBytes(FacetBytes, 1, v.facets) + s4);
    FacetsRead(v.facets, s4);
    BlobExact(MAXIMUM_FRAME_PAYLOAD_BYTES, v.data, rest, []);
  }

  /** Encoded parts are read back exactly when the value has an axis and no facet payload exceeds 64 KiB. */
  lemma PartsRead(v: ValueParts, rest: Bytes)
    requires EncodableParts(v)
    ensures var r := ReadParts(false, ValueBytes(v) + rest);
            if LegalParts(v) then r == Got(v, rest) else r.Bad?
  {
    hide AxesBytes, FacetBytes, BlobBytes, ReadBody, ParseUint;
    PartsRegroup(v, rest);
    var s2 := AxesBytes(v.axes) + (CountedBytes(FacetBytes, 1, v.facets) + (BlobBytes(v.data) + rest));
    U32Exact(v.elementType, LittleEndian(|v.axes.shape|, 1) + s2, []);
    Powers();
    UintExact(1, |v.axes.shape|, s2, []);
    BodyRead(v, rest);
  }

  predicate EncodableNamed(kernel: Kernel, e: NamedValue) {
    TextOk(e.0, 1024) && EncodableParts(e.1.parts) && e.1.origin == [] && kernel(e.1.parts) == OK
  }

  function NamedEncodable(kernel: Kernel): NamedValue -> bool {
    e => EncodableNamed(kernel, e)
  }

  lemma NamedRead(kernel: Kernel)
    ensures Complete(NamedReader(kernel), NamedLegal(kernel), NamedBytes)
    ensures Rejects(NamedReader(kernel), NamedEncodable(kernel), NamedLegal(kernel), NamedBytes)
  {
    forall e, rest | EncodableNamed(kernel, e)
      ensures var r := ReadNamed(kernel, false, NamedBytes(e) + rest);
              if LegalNamed(kernel, e) then r == Got(e, rest) else r.Bad?
    {
      Regroup(BlobBytes(e.0), ValueBytes(e.1.parts), rest);
      TextExact(1024, e.0, ValueBytes(e.1.parts) + rest, []);
      PartsRead(e.1.parts, rest);
    }
    forall e | LegalNamed(kernel, e) ensures EncodableNamed(kernel, e) {
      assert forall i :: 0 <= i < |e.1.parts.facets| ==> LegalFacet(e.1.parts.facets[i]);
    }
  }

  lemma BackendComplete()
    ensures Complete(ReadBackend, LegalBackend, BackendBytes)
  {
    forall e, rest | LegalBackend(e) ensures ReadBackend(false, BackendBytes(e) + rest) == Got(e, rest) {
      Regroup(LittleEndian(e.0, 8), [e.1], rest);
      U64Exact(e.0, [e.1] + rest, []);
      U8Exact(e.1, rest, []);
    }
  }

  lemma ReasonComplete()
    ensures Complete(ReadReason, LegalReason, BlobBytes)
  {
    forall t, rest | LegalReason(t) ensures ReadReason(false, BlobBytes(t) + rest) == Got(t, rest) {
      TextExact(4096, t, rest, []);
    }
  }

  lemma TimingComplete()
    ensures Complete(ReadTiming, LegalTiming, TimingBytes)
  {
    forall t, rest | LegalTiming(t) ensures ReadTiming(false, TimingBytes(t) + rest) == Got(t, rest) {
      var t2 := LittleEndian(t.durationUs, 8) + [t.outcome];
      var t1 := [t.backend] + t2;
      Regroup(LittleEndian(t.nodeId, 8), t1, rest);
      Regroup([t.backend], t2, rest);
      Regroup(LittleEndian(t.durationUs, 8), [t.outcome], rest);
      U64Exact(t.nodeId, t1 + rest, []);
      U8Exact(t.backend, t2 + rest, []);
      U64Exact(t.durationUs, [t.outcome] + rest, []);
      U8Exact(t.outcome, rest, []);
    }
  }

  lemma TransfersComplete(t: Transfers, rest: Bytes)
    ensures ReadTransfers(TransfersBytes(t) + rest) == Got(t, rest)
  {
    var t1 := LittleEndian(t.bytes, 8) + LittleEndian(t.peakLiveBytes, 8);
    Regroup(LittleEndian(t.count, 8), t1, rest);
    Regroup(LittleEndian(t.bytes, 8), LittleEndian(t.peakLiveBytes, 8), rest);
    U64Exact(t.count, t1 + rest, []);
    U64Exact(t.bytes, LittleEndian(t.peakLiveBytes, 8) + rest, []);
    U64Exact(t.peakLiveBytes, rest, []);
  }

  lemma ObservationsComplete(o: Observations, rest: Bytes)
    requires LegalObservations(o)
    ensures ReadObservations(false, ObservationsBytes(o) + rest) == Got(o, rest)
  {
    var t2 := BlobBytes(o.planDigest) + BlobBytes(o.resultDigest);
    var t1 := CountedBytes(TimingBytes, 4, o.timings) + t2;
    Regroup(CountedBytes(BlobBytes, 4, o.reasons), t1, rest);
    Regroup(CountedBytes(TimingBytes, 4, o.timings), t2, rest);
    Regroup(BlobBytes(o.planDigest), BlobBytes(o.resultDigest), rest);
    Powers();
    ReasonComplete();
    CountedComplete(ReadReason, LegalReason, BlobBytes, 4, 65536, DIAGNOSTIC_REASONS, o.reasons, t1 + rest);
    TimingComplete();
    CountedComplete(ReadTiming, LegalTiming, TimingBytes, 4, 131072, DIAGNOSTIC_TIMINGS, o.timings, t2 + rest);
    TextExact(128, o.planDigest, BlobBytes(o.resultDigest) + rest, []);
    TextExact(128, o.resultDigest, rest, []);
  }

  lemma BackendsComplete(m: seq<(u64, byte)>, entries: seq<(u64, byte)>, rest: Bytes)
    requires |m| <= 65536 && All(LegalBackend, m) && Ascending(NumberLess, m) && multiset(entries) == multiset(m)
    ensures ReadBackends(false, CountedBytes(BackendBytes, 4, entries) + rest) == Got(m, rest)
  {
    Powers();
    BackendComplete();
    assert StrictOrder(NumberLess);
    CountedMapComplete(NumberLess, ReadBackend, LegalBackend, BackendBytes, 4, 65536, DIAGNOSTIC_BACKENDS, m, entries,
                       rest);
  }

  lemma DiagnosticsRegroup(d: Diagnostics, rest: Bytes)
    ensures DiagnosticsBytes(d) + rest ==
            LittleEndian(d.executeUs, 8) + (CountedBytes(BackendBytes, 4, d.backends)
            + (TransfersBytes(d.transfers) + (ObservationsBytes(d.observations) + rest)))
  {
    var t2 := TransfersBytes(d.transfers) + ObservationsBytes(d.observations);
    var t1 := CountedBytes(BackendBytes, 4, d.backends) + t2;
    Regroup(LittleEndian(d.executeUs, 8), t1, rest);
    Regroup(CountedBytes(BackendBytes, 4, d.backends), t2, rest);
    Regroup(TransfersBytes(d.transfers), ObservationsBytes(d.observations), rest);
  }

  lemma DiagnosticsComplete(d: Diagnostics, backends: seq<(u64, byte)>, rest: Bytes)
    requires LegalDiagnostics(d) && Ascending(NumberLess, d.backends) && multiset(backends) == multiset(d.backends)
    ensures ReadDiagnostics(false, DiagnosticsBytes(d.(backends := backends)) + rest) == Got(d, rest)
  {
    hide ReadObservations, ObservationsBytes, ReadTransfers, TransfersBytes, LegalObservations;
    DiagnosticsRegroup(d.(backends := backends), rest);
    var s3 := ObservationsBytes(d.observations) + rest;
    var s2 := TransfersBytes(d.transfers) + s3;
    U64Exact(d.executeUs, CountedBytes(BackendBytes, 4, backends) + s2, []);
    BackendsComplete(d.backends, backends, s2);
    TransfersComplete(d.transfers, s3);
    ObservationsComplete(d.observations, rest);
  }

  /** An encodable result is read back unchanged, or refused because a value has no axis or an oversized facet. */
  lemma ResultRead(kernel: Kernel, r: ExecutionResult, rest: Bytes)
    requires |r.values| <= 4096 && All(NamedEncodable(kernel), r.values)
    requires LegalDiagnostics(r.diagnostics) && SortedResult(r)
    ensures var p := ReadResult(kernel, false, ResultBytes(r) + rest);
            if All(NamedLegal(kernel), r.values) then p == Got(r, rest) else p.Bad?
  {
    hide DiagnosticsBytes, LegalDiagnostics, ReadDiagnostics, NamedBytes, ReadNamed, TextLess;
    var tail := DiagnosticsBytes(r.diagnostics) + rest;
    Regroup(CountedBytes(NamedBytes, 4, r.values), DiagnosticsBytes(r.diagnostics), rest);
    NamedRead(kernel);
    TextOrder();
    Powers();
    if All(NamedLegal(kernel), r.values) {
      CountedMapComplete(TextLess, NamedReader(kernel), NamedLegal(kernel), NamedBytes, 4, 4096, RESULT_VALUES,
                         r.values, r.values, tail);
      DiagnosticsComplete(r.diagnostics, r.diagnostics.backends, rest);
    } else {
      Regroup(LittleEndian(|r.values|, 4), ListBytes(NamedBytes, r.values), tail);
      UintExact(4, |r.values|, ListBytes(NamedBytes, r.values) + tail, []);
      MapRejects(TextLess, NamedReader(kernel), NamedEncodable(kernel), NamedLegal(kernel), NamedBytes, [], r.values,
                 tail);
    }
  }

  // ----- What an accepted result looked like on the wire -----

  lemma ScalarsSound()
    ensures Sound(ReadU64, Anything<u64>, U64Bytes) && Sound(ReadStride, Anything<i64>, StrideBytes)
    ensures Sound(ReadInterval, Anything<(u64, u64)>, IntervalBytes)
  {
    forall s | ReadU64(false, s).Got? ensures s == U64Bytes(ReadU64(false, s).value) + ReadU64(false, s).rest {
      U64Exact(0, [], s);
    }
    forall s | ReadStride(false, s).Got?
      ensures s == StrideBytes(ReadStride(false, s).value) + ReadStride(false, s).rest
    {
      I64Exact(0, [], s);
    }
    forall s | ReadInterval(false, s).Got?
      ensures s == IntervalBytes(ReadInterval(false, s).value) + ReadInterval(false, s).rest
    {
      var Got(d, rest) := ReadInterval(false, s);
      U64Exact(0, [], s);
      U64Exact(0, [], ParseU64(s).rest);
      Regroup(LittleEndian(d.0, 8), LittleEndian(d.1, 8), rest);
    }
  }

  lemma AxesRegroup(a: Axes, rest: Bytes)
    ensures AxesBytes(a) + rest ==
            ListBytes(U64Bytes, a.shape) + (ListBytes(IntervalBytes, a.region)
            + (LittleEndian(a.offset, 8) + (ListBytes(StrideBytes, a.strides) + rest)))
  {
    var t2 := LittleEndian(a.offset, 8) + ListBytes(StrideBytes, a.strides);
    var t1 := ListBytes(IntervalBytes, a.region) + t2;
    Regroup(ListBytes(U64Bytes, a.shape), t1, rest);
    Regroup(ListBytes(IntervalBytes, a.region), t2, rest);
    Regroup(LittleEndian(a.offset, 8), ListBytes(StrideBytes, a.strides), rest);
  }

  lemma AxesSound(rank: nat, s: Bytes)
    requires ReadAxes(false, rank, s).Got?
    ensures var Got(a, rest) := ReadAxes(false, rank, s);
            |a.shape| == |a.region| == |a.strides| == rank && s == AxesBytes(a) + rest
  {
    hide ReadU64, ReadInterval, ReadStride;
    var Got(a, rest) := ReadAxes(false, rank, s);
    ScalarsSound();
    ListSound(ReadU64, Anything<u64>, U64Bytes, rank, s);
    var s1 := ParseList(ReadU64, false, rank, s).rest;
    ListSound(ReadInterval, Anything<(u64, u64)>, IntervalBytes, rank, s1);
    var s2 := ParseList(ReadInterval, false, rank, s1).rest;
    U64Exact(0, [], s2);
    ListSound(ReadStride, Anything<i64>, StrideBytes, rank, ParseU64(s2).rest);
    AxesRegroup(a, rest);
  }

  lemma FacetSound()
    ensures Sound(ReadFacet, LegalFacet, FacetBytes)
  {
    forall s | ReadFacet(false, s).Got?
      ensures var Got(f, rest) := ReadFacet(false, s); LegalFacet(f) && s == FacetBytes(f) + rest
    {
      var Got(f, rest) := ReadFacet(false, s);
      TextExact(256, [], [], s);
      var s1 := ParseText(256, s).rest;
      U32Exact(0, [], s1);
      BlobExact(64 * 1024, [], [], ParseU32(s1).rest);
      Regroup(BlobBytes(f.key), LittleEndian(f.version, 4) + BlobBytes(f.payload), rest);
      Regroup(LittleEndian(f.version, 4), BlobBytes(f.payload), rest);
    }
  }

  lemma BodySound(elementType: u32, rank: nat, s: Bytes)
    requires ReadBody(false, elementType, rank, s).Got?
    ensures var Got(v, rest) := ReadBody(false, elementType, rank, s);
            && v.elementType == elementType && |v.axes.shape| == |v.axes.region| == |v.axes.strides| == rank
            && |v.facets| <= 64 && All(LegalFacet, v.facets) && |v.data| <= MAXIMUM_FRAME_PAYLOAD_BYTES
            && s == AxesBytes(v.axes) + (CountedBytes(FacetBytes, 1, v.facets) + (BlobBytes(v.data) + rest))
  {
    hide ReadAxes, AxesBytes, BlobBytes, ParseBlob;
    AxesSound(rank, s);
    var s3 := ReadAxes(false, rank, s).rest;
    FacetSound();
    CountedSound(ReadFacet, LegalFacet, FacetBytes, 1, 64, VALUE_FACETS, s3);
    BlobExact(MAXIMUM_FRAME_PAYLOAD_BYTES, [], [], ReadFacets(false, s3).rest);
  }

  lemma PartsSound(s: Bytes)
    requires ReadParts(false, s).Got?
    ensures var Got(v, rest) := ReadParts(false, s); LegalParts(v) && s == ValueBytes(v) + rest
  {
    hide AxesBytes, FacetBytes, BlobBytes, ReadBody, ParseUint;
    var Got(v, rest) := ReadParts(false, s);
    U32Exact(0, [], s);
    var Got(elementType, s1) := ParseU32(s);
    UintExact(1, 0, [], s1);
    var Got(rank, s2) := ReadRank(false, s1);
    BodySound(elementType, rank, s2);
    PartsRegroup(v, rest);
  }

  lemma NamedSound(kernel: Kernel)
    ensures Sound(NamedReader(kernel), NamedLegal(kernel), NamedBytes)
  {
    forall s | ReadNamed(kernel, false, s).Got?
      ensures var Got(e, rest) := ReadNamed(kernel, false, s); LegalNamed(kernel, e) && s == NamedBytes(e) + rest
    {
      hide ReadParts, ValueBytes, BlobBytes, LegalParts;
      var Got(e, rest) := ReadNamed(kernel, false, s);
      TextExact(1024, [], [], s);
      PartsSound(ParseText(1024, s).rest);
      Regroup(BlobBytes(e.0), ValueBytes(e.1.parts), rest);
    }
  }

  lemma BackendSound()
    ensures Sound(ReadBackend, LegalBackend, BackendBytes)
  {
    forall s | ReadBackend(false, s).Got?
      ensures var Got(e, rest) := ReadBackend(false, s); LegalBackend(e) && s == BackendBytes(e) + rest
    {
      var Got(e, rest) := ReadBackend(false, s);
      U64Exact(0, [], s);
      U8Exact(0, [], ParseU64(s).rest);
      Regroup(LittleEndian(e.0, 8), [e.1], rest);
    }
  }

  lemma ReasonSound()
    ensures Sound(ReadReason, LegalReason, BlobBytes)
  {
    forall s | ReadReason(false, s).Got?
      ensures var Got(t, rest) := ReadReason(false, s); LegalReason(t) && s == BlobBytes(t) + rest
    {
      TextExact(4096, [], [], s);
    }
  }

  lemma TimingSoundAt(s: Bytes)
    requires ReadTiming(false, s).Got?
    ensures var Got(t, rest) := ReadTiming(false, s); LegalTiming(t) && s == TimingBytes(t) + rest
  {
    var Got(t, rest) := ReadTiming(false, s);
    U64Exact(0, [], s);
    var s1 := ParseU64(s).rest;
    U8Exact(0, [], s1);
    var s2 := ParseU8(s1).rest;
    U64Exact(0, [], s2);
    U8Exact(0, [], ParseU64(s2).rest);
    var t2 := LittleEndian(t.durationUs, 8) + [t.outcome];
    Regroup(LittleEndian(t.nodeId, 8), [t.backend] + t2, rest);
    Regroup([t.backend], t2, rest);
    Regroup(LittleEndian(t.durationUs, 8), [t.outcome], rest);
  }

  lemma TimingSound()
    ensures Sound(ReadTiming, LegalTiming, TimingBytes)
  {
    forall s | ReadTiming(false, s).Got?
      ensures var Got(t, rest) := ReadTiming(false, s); LegalTiming(t) && s == TimingBytes(t) + rest
    {
      TimingSoundAt(s);
    }
  }

  lemma TransfersSound(s: Bytes)
    requires ReadTransfers(s).Got?
    ensures s == TransfersBytes(ReadTransfers(s).value) + ReadTransfers(s).rest
  {
    var Got(t, rest) := ReadTransfers(s);
    U64Exact(0, [], s);
    var s1 := ParseU64(s).rest;
    U64Exact(0, [], s1);
    U64Exact(0, [], ParseU64(s1).rest);
    Regroup(LittleEndian(t.count, 8), LittleEndian(t.bytes, 8) + LittleEndian(t.peakLiveBytes, 8), rest);
    Regroup(LittleEndian(t.bytes, 8), LittleEndian(t.peakLiveBytes, 8), rest);
  }

  lemma ObservationsRegroup(o: Observations, rest: Bytes)
    ensures ObservationsBytes(o) + rest ==
            CountedBytes(BlobBytes, 4, o.reasons) + (CountedBytes(TimingBytes, 4, o.timings)
            + (BlobBytes(o.planDigest) + (BlobBytes(o.resultDigest) + rest)))
  {
    var t2 := BlobBytes(o.planDigest) + BlobBytes(o.resultDigest);
    var t1 := CountedBytes(TimingBytes, 4, o.timings) + t2;
    Regroup(CountedBytes(BlobBytes, 4, o.reasons), t1, rest);
    Regroup(CountedBytes(TimingBytes, 4, o.timings), t2, rest);
    Regroup(BlobBytes(o.planDigest), BlobBytes(o.resultDigest), rest);
  }

  lemma ObservationsSound(s: Bytes)
    requires ReadObservations(false, s).Got?
    ensures var Got(o, rest) := ReadObservations(false, s); LegalObservations(o) && s == ObservationsBytes(o) + rest
  {
    hide BlobBytes, ParseText, ReadTiming, ReadReason, ObservationsBytes;
    var Got(o, rest) := ReadObservations(false, s);
    ReasonSound();
    CountedSound(ReadReason, LegalReason, BlobBytes, 4, 65536, DIAGNOSTIC_REASONS, s);
    var s4 := ReadReasons(false, s).rest;
    TimingSound();
    CountedSound(ReadTiming, LegalTiming, TimingBytes, 4, 131072, DIAGNOSTIC_TIMINGS, s4);
    var s5 := ReadTimings(false, s4).rest;
    TextExact(128, [], [], s5);
    TextExact(128, [], [], ParseText(128, s5).rest);
    ObservationsRegroup(o, rest);
  }

  lemma DiagnosticsSound(s: Bytes) returns (backends: seq<(u64, byte)>)
    requires ReadDiagnostics(false, s).Got?
    ensures var Got(d, rest) := ReadDiagnostics(false, s);
            && LegalDiagnostics(d) && Ascending(NumberLess, d.backends) && multiset(backends) == multiset(d.backends)
            && s == DiagnosticsBytes(d.(backends := backends)) + rest
  {
    hide ReadObservations, ObservationsBytes, ReadTransfers, TransfersBytes, LegalObservations, DiagnosticsBytes;
    var Got(d, rest) := ReadDiagnostics(false, s);
    U64Exact(0, [], s);
    var s1 := ParseU64(s).rest;
    BackendSound();
    assert StrictOrder(NumberLess);
    backends := CountedMapSound(NumberLess, ReadBackend, LegalBackend, BackendBytes, 4, 65536, DIAGNOSTIC_BACKENDS, s1);
    var s2 := ReadBackends(false, s1).rest;
    TransfersSound(s2);
    ObservationsSound(ReadTransfers(s2).rest);
    DiagnosticsRegroup(d.(backends := backends), rest);
  }

  /** What the decoder accepts as a result: bounded lists of legal entries, both maps in key order. */
  predicate LegalResult(kernel: Kernel, r: ExecutionResult) {
    |r.values| <= 4096 && All(NamedLegal(kernel), r.values) && LegalDiagnostics(r.diagnostics) && SortedResult(r)
  }

  /** `wire` is the result `r` with the entries of its two maps in some order. */
  predicate ReordersResult(wire: ExecutionResult, r: ExecutionResult) {
    && multiset(wire.values) == multiset(r.values)
    && multiset(wire.diagnostics.backends) == multiset(r.diagnostics.backends)
    && wire.diagnostics.(backends := r.diagnostics.backends) == r.diagnostics
  }

  /** An accepted result is legal, and its bytes are its own up to the order of the entries of its two maps. */
  lemma ResultSound(kernel: Kernel, s: Bytes) returns (wire: ExecutionResult)
    requires ReadResult(kernel, false, s).Got?
    ensures var Got(r, rest) := ReadResult(kernel, false, s);
            LegalResult(kernel, r) && ReordersResult(wire, r) && s == ResultBytes(wire) + rest
  {
    hide ReadDiagnostics, DiagnosticsBytes, LegalDiagnostics, NamedBytes, ReadNamed, TextLess;
    var Got(r, rest) := ReadResult(kernel, false, s);
    NamedSound(kernel);
    TextOrder();
    var values := CountedMapSound(TextLess, NamedReader(kernel), NamedLegal(kernel), NamedBytes, 4, 4096, RESULT_VALUES,
                                  s);
    var backends := DiagnosticsSound(ReadValues(kernel, false, s).rest);
    wire := ExecutionResult(values, r.diagnostics.(backends := backends));
    Regroup(CountedBytes(NamedBytes, 4, values), DiagnosticsBytes(wire.diagnostics), rest);
  }

  /** Conversely every such form of a legal result is read as that result. */
  lemma ResultComplete(kernel: Kernel, wire: ExecutionResult, r: ExecutionResult, rest: Bytes)
    requires LegalResult(kernel, r) && ReordersResult(wire, r)
    ensures ReadResult(kernel, false, ResultBytes(wire) + rest) == Got(r, rest)
  {
    hide ReadDiagnostics, DiagnosticsBytes, LegalDiagnostics, NamedBytes, ReadNamed, TextLess, LegalNamed;
    var backends := wire.diagnostics.backends;
    var tail := DiagnosticsBytes(wire.diagnostics) + rest;
    Regroup(CountedBytes(NamedBytes, 4, wire.values), DiagnosticsBytes(wire.diagnostics), rest);
    NamedRead(kernel);
    TextOrder();
    Powers();
    CountedMapComplete(TextLess, NamedReader(kernel), NamedLegal(kernel), NamedBytes, 4, 4096, RESULT_VALUES, r.values,
                       wire.values, tail);
    assert wire.diagnostics == r.diagnostics.(backends := backends);
    DiagnosticsComplete(r.diagnostics, backends, rest);
  }

  lemma ReorderedResultLength(wire: ExecutionResult, r: ExecutionResult)
    requires ReordersResult(wire, r)
    ensures |ResultBytes(wire)| == |ResultBytes(r)|
  {
    hide NamedBytes, BackendBytes, TransfersBytes, ObservationsBytes;
    SameLength(wire.values, r.values);
    ReorderedLength(NamedBytes, wire.values, r.values);
    SameLength(wire.diagnostics.backends, r.diagnostics.backends);
    ReorderedLength(BackendBytes, wire.diagnostics.backends, r.diagnostics.backends);
  }
}
