/** The bounded payload builder and every encoder that appends to it. */
module Encoding {
  import opened Wire
  import opened Grammar
  import opened Documents
  import opened Results
  import opened Messages
  import Utf8

  predicate Fits(before: Bytes, bytes: Bytes) {
    |before| + |bytes| <= MAXIMUM_FRAME_PAYLOAD_BYTES
  }

  /**
   * An encoder that was at `before` and tried to append `bytes`: it succeeds exactly when the value is legal and the
   * frame has room, and then appends exactly those bytes. A legal value is refused only for lack of room.
   */
  predicate Appended(outcome: Outcome, before: Bytes, after: Bytes, bytes: Bytes, legal: bool) {
    match outcome
    case Pass => legal && Fits(before, bytes) && after == before + bytes
    case Fail(code) =>
      && !(legal && Fits(before, bytes))
      && (code == INVALID_ARGUMENT || code == RESOURCE_EXHAUSTED)
      && (legal ==> code == RESOURCE_EXHAUSTED)
  }

  /** As `Appended`, and an illegal value that would have fitted is an invalid argument. */
  predicate Wrote(outcome: Outcome, before: Bytes, after: Bytes, bytes: Bytes, legal: bool) {
    && Appended(outcome, before, after, bytes, legal)
    && (outcome.Fail? && !legal && Fits(before, bytes) ==> outcome.code == INVALID_ARGUMENT)
  }

  /** The entries from `i` on start with entry `i`. */
  lemma ListHead<T>(bytes: T -> Bytes, vs: seq<T>, i: nat)
    requires i < |vs|
    ensures ListBytes(bytes, vs[i..]) == bytes(vs[i]) + ListBytes(bytes, vs[i + 1..])
  {
    assert vs[i..][1..] == vs[i + 1..];
  }

  class Encoder {
    var payload: Bytes

    constructor ()
      ensures payload == []
    {
      payload := [];
    }

    ghost predicate Valid()
      reads this
    {
      |payload| <= MAXIMUM_FRAME_PAYLOAD_BYTES
    }

    method Append(data: Bytes) returns (outcome: Outcome)
      requires Valid()
      modifies this
      ensures Valid() && Wrote(outcome, old(payload), payload, data, true)
      ensures outcome.Fail? ==> payload == old(payload)
    {
      if |data| > MAXIMUM_FRAME_PAYLOAD_BYTES - |payload| {
        return Fail(RESOURCE_EXHAUSTED);
      }
      payload := payload + data;
      return Pass;
    }

    /** `u8`, `u16`, `u32`, `u64` and the bit-preserving `i64` and `f64`: one byte at a time, lowest first. */
    method Uint(value: nat, width: nat) returns (outcome: Outcome)
      requires Valid()
      modifies this
      ensures Valid() && Wrote(outcome, old(payload), payload, LittleEndian(value, width), true)
    {
      var index, v := 0, value;
      while index < width
        invariant Valid() && index <= width
        invariant payload + LittleEndian(v, width - index) == old(payload) + LittleEndian(value, width)
        invariant |payload| == |old(payload)| + index
      {
        ghost var before := payload;
        :- Append([v % 256]);
        assert LittleEndian(v, width - index) == [v % 256] + LittleEndian(v / 256, width - index - 1);
        assert payload + LittleEndian(v / 256, width - index - 1) == before + LittleEndian(v, width - index);
        index, v := index + 1, v / 256;
      }
      return Pass;
    }

    method Boolean(value: bool) returns (outcome: Outcome)
      requires Valid()
      modifies this
      ensures Valid() && Wrote(outcome, old(payload), payload, BoolBytes(value), true)
    {
      outcome := Append([if value then 1 else 0]);
    }

    method Blob(value: Bytes) returns (outcome: Outcome)
      requires Valid()
      modifies this
      ensures Valid() && Appended(outcome, old(payload), payload, BlobBytes(value), |value| < 0x1_0000_0000)
    {
      if |value| >= 0x1_0000_0000 {
        return Fail(RESOURCE_EXHAUSTED);
      }
      Regroup(payload, LittleEndian(|value|, 4), value);
      :- Uint(|value|, 4);
      :- Append(value);
      return Pass;
    }

    method Text(value: Bytes, maximum: nat) returns (outcome: Outcome)
      requires Valid()
      modifies this
      ensures Valid() && Wrote(outcome, old(payload), payload, BlobBytes(value), TextOk(value, maximum))
    {
      var wellFormed := Utf8.Validate(value);
      if |value| > maximum || |value| >= 0x1_0000_0000 || !wellFormed {
        return Fail(INVALID_ARGUMENT);
      }
      Regroup(payload, LittleEndian(|value|, 4), value);
      :- Uint(|value|, 4);
      :- Append(value);
      return Pass;
    }

    // ----- Documents -----

    method Parameter(p: Parameter) returns (outcome: Outcome)
      requires Valid()
      modifies this
      ensures Valid() && Wrote(outcome, old(payload), payload, ParameterBytes(p), LegalParameter(p))
    {
      match p {
        case Integer(i) =>
          Regroup(payload, [1], LittleEndian(SignedBits(i), 8));
          :- Append([1]);
          :- Uint(SignedBits(i), 8);
        case Floating(bits) =>
          Regroup(payload, [2], LittleEndian(bits, 8));
          :- Append([2]);
          :- Uint(bits, 8);
        case Boolean(b) =>
          Regroup(payload, [3], BoolBytes(b));
          :- Append([3]);
          :- Boolean(b);
        case Text(t) =>
          Regroup(payload, [4], BlobBytes(t));
          :- Append([4]);
          :- Text(t, 8192);
      }
      return Pass;
    }

    method Entry(e: ParameterEntry) returns (outcome: Outcome)
      requires Valid()
      modifies this
      ensures Valid() && Wrote(outcome, old(payload), payload, EntryBytes(e), LegalEntry(e))
    {
      Regroup(payload, BlobBytes(e.0), ParameterBytes(e.1));
      :- Text(e.0, 1024);
      :- Parameter(e.1);
      return Pass;
    }

    method Input(i: Input) returns (outcome: Outcome)
      requires Valid()
      modifies this
      ensures Valid() && Wrote(outcome, old(payload), payload, InputBytes(i), LegalInput(i))
    {
      if !i.NodeOutput? {
        return Fail(INVALID_ARGUMENT);
      }
      Regroup(payload, LittleEndian(i.sourceNode, 8), BlobBytes(i.sourcePort));
      :- Uint(i.sourceNode, 8);
      :- Text(i.sourcePort, 64);
      return Pass;
    }

    method Output(o: Output) returns (outcome: Outcome)
      requires Valid()
      modifies this
      ensures Valid() && Wrote(outcome, old(payload), payload, OutputBytes(o), LegalOutput(o))
    {
      Regroup(payload, BlobBytes(o.name), LittleEndian(o.nodeId, 8) + BlobBytes(o.port));
      :- Text(o.name, 1024);
      Regroup(payload, LittleEndian(o.nodeId, 8), BlobBytes(o.port));
      :- Uint(o.nodeId, 8);
      :- Text(o.port, 64);
      return Pass;
    }

    method Inputs(inputs: seq<Input>) returns (outcome: Outcome)
      requires Valid() && |inputs| <= 1024
      modifies this
      ensures Valid()
      ensures Wrote(outcome, old(payload), payload, CountedBytes(InputBytes, 4, inputs), All(LegalInput, inputs))
    {
      ghost var target := payload + CountedBytes(InputBytes, 4, inputs);
      Regroup(payload, LittleEndian(|inputs|, 4), ListBytes(InputBytes, inputs));
      :- Uint(|inputs|, 4);
      for i := 0 to |inputs|
        invariant Valid() && (forall k :: 0 <= k < i ==> LegalInput(inputs[k]))
        invariant payload + ListBytes(InputBytes, inputs[i..]) == target
      {
        ListHead(InputBytes, inputs, i);
        Regroup(payload, InputBytes(inputs[i]), ListBytes(InputBytes, inputs[i + 1..]));
        :- Input(inputs[i]);
      }
      return Pass;
    }

    method Parameters(entries: seq<ParameterEntry>) returns (outcome: Outcome)
      requires Valid() && |entries| <= 1024
      modifies this
      ensures Valid()
      ensures Wrote(outcome, old(payload), payload, CountedBytes(EntryBytes, 4, entries), All(LegalEntry, entries))
    {
      ghost var target := payload + CountedBytes(EntryBytes, 4, entries);
      Regroup(payload, LittleEndian(|entries|, 4), ListBytes(EntryBytes, entries));
      :- Uint(|entries|, 4);
      for i := 0 to |entries|
        invariant Valid() && (forall k :: 0 <= k < i ==> LegalEntry(entries[k]))
        invariant payload + ListBytes(EntryBytes, entries[i..]) == target
      {
        ListHead(EntryBytes, entries, i);
        Regroup(payload, EntryBytes(entries[i]), ListBytes(EntryBytes, entries[i + 1..]));
        :- Entry(entries[i]);
      }
      return Pass;
    }

    method Node(n: Node) returns (outcome: Outcome)
      requires Valid()
      modifies this
      ensures Valid() && Wrote(outcome, old(payload), payload, NodeBytes(n), LegalFields(n))
    {
      if |n.inputs| > 1024 || |n.parameters| > 1024 {
        return Fail(INVALID_ARGUMENT);
      }
      Regroup(payload, LittleEndian(n.id, 8), BlobBytes(n.operation) + NodeTail(n));
      :- Uint(n.id, 8);
      Regroup(payload, BlobBytes(n.operation), NodeTail(n));
      :- Text(n.operation, 1024);
      Regroup(payload, CountedBytes(InputBytes, 4, n.inputs), CountedBytes(EntryBytes, 4, n.parameters));
      :- Inputs(n.inputs);
      :- Parameters(n.parameters);
      return Pass;
    }

    method Nodes(nodes: seq<Node>) returns (outcome: Outcome)
      requires Valid() && |nodes| <= 65536
      modifies this
      ensures Valid()
      ensures Wrote(outcome, old(payload), payload, CountedBytes(NodeBytes, 4, nodes), All(LegalFields, nodes))
    {
      ghost var target := payload + CountedBytes(NodeBytes, 4, nodes);
      Regroup(payload, LittleEndian(|nodes|, 4), ListBytes(NodeBytes, nodes));
      :- Uint(|nodes|, 4);
      for i := 0 to |nodes|
        invariant Valid() && (forall k :: 0 <= k < i ==> LegalFields(nodes[k]))
        invariant payload + ListBytes(NodeBytes, nodes[i..]) == target
      {
        ListHead(NodeBytes, nodes, i);
        Regroup(payload, NodeBytes(nodes[i]), ListBytes(NodeBytes, nodes[i + 1..]));
        :- Node(nodes[i]);
      }
      return Pass;
    }

    method Outputs(outputs: seq<Output>) returns (outcome: Outcome)
      requires Valid() && |outputs| <= 4096
      modifies this
      ensures Valid()
      ensures Wrote(outcome, old(payload), payload, CountedBytes(OutputBytes, 4, outputs), All(LegalOutput, outputs))
    {
      ghost var target := payload + CountedBytes(OutputBytes, 4, outputs);
      Regroup(payload, LittleEndian(|outputs|, 4), ListBytes(OutputBytes, outputs));
      :- Uint(|outputs|, 4);
      for i := 0 to |outputs|
        invariant Valid() && (forall k :: 0 <= k < i ==> LegalOutput(outputs[k]))
        invariant payload + ListBytes(OutputBytes, outputs[i..]) == target
      {
        ListHead(OutputBytes, outputs, i);
        Regroup(payload, OutputBytes(outputs[i]), ListBytes(OutputBytes, outputs[i + 1..]));
        :- Output(outputs[i]);
      }
      return Pass;
    }

    /** The workflow document, refused outright when it is too large or declares workflow inputs. */
    method Document(d: Document) returns (outcome: Outcome)
      requires Valid()
      modifies this
      ensures Valid() && Wrote(outcome, old(payload), payload, DocumentBytes(d), LegalDocument(d))
    {
      if |d.nodes| > 65536 || |d.outputs| > 4096 {
        return Fail(INVALID_ARGUMENT);
      }
      if d.declarations != [] {
        return Fail(INVALID_ARGUMENT);
      }
      ghost var nodes, outputs := CountedBytes(NodeBytes, 4, d.nodes), CountedBytes(OutputBytes, 4, d.outputs);
      Regroup(payload, LittleEndian(d.schemaVersion, 4), nodes + outputs);
      :- Uint(d.schemaVersion, 4);
      Regroup(payload, nodes, outputs);
      :- Nodes(d.nodes);
      :- Outputs(d.outputs);
      return Pass;
    }

    // ----- Results -----

    method Shape(shape: seq<u64>) returns (outcome: Outcome)
      requires Valid()
      modifies this
      ensures Valid() && Wrote(outcome, old(payload), payload, ListBytes(U64Bytes, shape), true)
    {
      ghost var target := payload + ListBytes(U64Bytes, shape);
      assert shape[0..] == shape;
      for i := 0 to |shape|
        invariant Valid()
        invariant payload + ListBytes(U64Bytes, shape[i..]) == target
      {
        ListHead(U64Bytes, shape, i);
        Regroup(payload, U64Bytes(shape[i]), ListBytes(U64Bytes, shape[i + 1..]));
        :- Uint(shape[i], 8);
      }
      return Pass;
    }

    method Interval(d: (u64, u64)) returns (outcome: Outcome)
      requires Valid()
      modifies this
      ensures Valid() && Wrote(outcome, old(payload), payload, IntervalBytes(d), true)
    {
      Regroup(payload, LittleEndian(d.0, 8), LittleEndian(d.1, 8));
      :- Uint(d.0, 8);
      :- Uint(d.1, 8);
      return Pass;
    }

    method Region(region: seq<(u64, u64)>) returns (outcome: Outcome)
      requires Valid()
      modifies this
      ensures Valid() && Wrote(outcome, old(payload), payload, ListBytes(IntervalBytes, region), true)
    {
      ghost var target := payload + ListBytes(IntervalBytes, region);
      assert region[0..] == region;
      for i := 0 to |region|
        invariant Valid()
        invariant payload + ListBytes(IntervalBytes, region[i..]) == target
      {
        ListHead(IntervalBytes, region, i);
        Regroup(payload, IntervalBytes(region[i]), ListBytes(IntervalBytes, region[i + 1..]));
        :- Interval(region[i]);
      }
      return Pass;
    }

    method Strides(strides: seq<i64>) returns (outcome: Outcome)
      requires Valid()
      modifies this
      ensures Valid() && Wrote(outcome, old(payload), payload, ListBytes(StrideBytes, strides), true)
    {
      ghost var target := payload + ListBytes(StrideBytes, strides);
      assert strides[0..] == strides;
      for i := 0 to |strides|
        invariant Valid()
        invariant payload + ListBytes(StrideBytes, strides[i..]) == target
      {
        ListHead(StrideBytes, strides, i);
        Regroup(payload, StrideBytes(strides[i]), ListBytes(StrideBytes, strides[i + 1..]));
        :- Uint(SignedBits(strides[i]), 8);
      }
      return Pass;
    }

    method Axes(a: Axes) returns (outcome: Outcome)
      requires Valid()
      modifies this
      ensures Valid() && Wrote(outcome, old(payload), payload, AxesBytes(a), true)
    {
      ghost var strides := LittleEndian(a.offset, 8) + ListBytes(StrideBytes, a.strides);
      Regroup(payload, ListBytes(U64Bytes, a.shape), ListBytes(IntervalBytes, a.region) + strides);
      :- Shape(a.shape);
      Regroup(payload, ListBytes(IntervalBytes, a.region), strides);
      :- Region(a.region);
      Regroup(payload, LittleEndian(a.offset, 8), ListBytes(StrideBytes, a.strides));
      :- Uint(a.offset, 8);
      :- Strides(a.strides);
      return Pass;
    }

    method Facet(f: Facet) returns (outcome: Outcome)
      requires Valid()
      modifies this
      ensures Valid() && Appended(outcome, old(payload), payload, FacetBytes(f), EncodableFacet(f))
    {
      Regroup(payload, BlobBytes(f.key), LittleEndian(f.version, 4) + BlobBytes(f.payload));
      :- Text(f.key, 256);
      Regroup(payload, LittleEndian(f.version, 4), BlobBytes(f.payload));
      :- Uint(f.version, 4);
      :- Blob(f.payload);
      return Pass;
    }

    method Facets(facets: seq<Facet>) returns (outcome: Outcome)
      requires Valid() && |facets| <= 64
      modifies this
      ensures Valid()
      ensures Appended(outcome, old(payload), payload, CountedBytes(FacetBytes, 1, facets), All(EncodableFacet, facets))
    {
      ghost var target := payload + CountedBytes(FacetBytes, 1, facets);
      Regroup(payload, LittleEndian(|facets|, 1), ListBytes(FacetBytes, facets));
      :- Uint(|facets|, 1);
      for i := 0 to |facets|
        invariant Valid() && (forall k :: 0 <= k < i ==> EncodableFacet(facets[k]))
        invariant payload + ListBytes(FacetBytes, facets[i..]) == target
      {
        ListHead(FacetBytes, facets, i);
        Regroup(payload, FacetBytes(facets[i]), ListBytes(FacetBytes, facets[i + 1..]));
        :- Facet(facets[i]);
      }
      return Pass;
    }

    /** One value of a result: refused if the kernel calls it invalid, or if the wire cannot carry its form. */
    method Value(v: Value, valid: Validity) returns (outcome: Outcome)
      requires Valid()
      modifies this
      ensures Valid() && Appended(outcome, old(payload), payload, ValueBytes(v.parts), EncodableValue(valid, ([], v)))
    {
      assert TextOk([], 1024);
      var parts := v.parts;
      if !valid(v) || |parts.axes.shape| > 8 {
        return Fail(INVALID_ARGUMENT);
      }
      if parts.elementType == FLOAT32 || exists i :: 0 <= i < |v.origin| && v.origin[i] != 0 {
        return Fail(INVALID_ARGUMENT);
      }
      ghost var facets := CountedBytes(FacetBytes, 1, parts.facets) + BlobBytes(parts.data);
      ghost var axes := AxesBytes(parts.axes) + facets;
      Regroup(payload, LittleEndian(parts.elementType, 4), LittleEndian(|parts.axes.shape|, 1) + axes);
      :- Uint(parts.elementType, 4);
      Regroup(payload, LittleEndian(|parts.axes.shape|, 1), axes);
      :- Uint(|parts.axes.shape|, 1);
      Regroup(payload, AxesBytes(parts.axes), facets);
      :- Axes(parts.axes);
      if |parts.facets| > 64 {
        return Fail(RESOURCE_EXHAUSTED);
      }
      Regroup(payload, CountedBytes(FacetBytes, 1, parts.facets), BlobBytes(parts.data));
      :- Facets(parts.facets);
      :- Blob(parts.data);
      return Pass;
    }

    method NamedValue(e: NamedValue, valid: Validity) returns (outcome: Outcome)
      requires Valid()
      modifies this
      ensures Valid() && Appended(outcome, old(payload), payload, NamedBytes(e), EncodableValue(valid, e))
    {
      Regroup(payload, BlobBytes(e.0), ValueBytes(e.1.parts));
      :- Text(e.0, 1024);
      :- Value(e.1, valid);
      return Pass;
    }

    method Backend(e: (u64, byte)) returns (outcome: Outcome)
      requires Valid()
      modifies this
      ensures Valid() && Wrote(outcome, old(payload), payload, BackendBytes(e), LegalBackend(e))
    {
      if e.0 == 0 || (e.1 != CPU && e.1 != GPU) {
        return Fail(INVALID_ARGUMENT);
      }
      Regroup(payload, LittleEndian(e.0, 8), [e.1]);
      :- Uint(e.0, 8);
      :- Append([e.1]);
      return Pass;
    }

    method Timing(t: Timing) returns (outcome: Outcome)
      requires Valid()
      modifies this
      ensures Valid() && Wrote(outcome, old(payload), payload, TimingBytes(t), LegalTiming(t))
    {
      if t.nodeId == 0 || (t.backend != CPU && t.backend != GPU) || t.outcome > INTERNAL {
        return Fail(INVALID_ARGUMENT);
      }
      ghost var tail := LittleEndian(t.durationUs, 8) + [t.outcome];
      Regroup(payload, LittleEndian(t.nodeId, 8), [t.backend] + tail);
      :- Uint(t.nodeId, 8);
      Regroup(payload, [t.backend], tail);
      :- Append([t.backend]);
      Regroup(payload, LittleEndian(t.durationUs, 8), [t.outcome]);
      :- Uint(t.durationUs, 8);
      :- Append([t.outcome]);
      return Pass;
    }

    method Backends(backends: seq<(u64, byte)>) returns (outcome: Outcome)
      requires Valid()
      modifies this
      ensures Valid()
      ensures Wrote(outcome, old(payload), payload, CountedBytes(BackendBytes, 4, backends),
                    All(LegalBackend, backends))
    {
      ghost var target := payload + CountedBytes(BackendBytes, 4, backends);
      Regroup(payload, LittleEndian(|backends|, 4), ListBytes(BackendBytes, backends));
      :- Uint(|backends|, 4);
      for i := 0 to |backends|
        invariant Valid() && (forall k :: 0 <= k < i ==> LegalBackend(backends[k]))
        invariant payload + ListBytes(BackendBytes, backends[i..]) == target
      {
        ListHead(BackendBytes, backends, i);
        Regroup(payload, BackendBytes(backends[i]), ListBytes(BackendBytes, backends[i + 1..]));
        :- Backend(backends[i]);
      }
      return Pass;
    }

    method Reasons(reasons: seq<Bytes>) returns (outcome: Outcome)
      requires Valid()
      modifies this
      ensures Valid()
      ensures Wrote(outcome, old(payload), payload, CountedBytes(BlobBytes, 4, reasons), All(LegalReason, reasons))
    {
      ghost var target := payload + CountedBytes(BlobBytes, 4, reasons);
      Regroup(payload, LittleEndian(|reasons|, 4), ListBytes(BlobBytes, reasons));
      :- Uint(|reasons|, 4);
      for i := 0 to |reasons|
        invariant Valid() && (forall k :: 0 <= k < i ==> LegalReason(reasons[k]))
        invariant payload + ListBytes(BlobBytes, reasons[i..]) == target
      {
        ListHead(BlobBytes, reasons, i);
        Regroup(payload, BlobBytes(reasons[i]), ListBytes(BlobBytes, reasons[i + 1..]));
        :- Text(reasons[i], 4096);
      }
      return Pass;
    }

    method Timings(timings: seq<Timing>) returns (outcome: Outcome)
      requires Valid()
      modifies this
      ensures Valid()
      ensures Wrote(outcome, old(payload), payload, CountedBytes(TimingBytes, 4, timings), All(LegalTiming, timings))
    {
      ghost var target := payload + CountedBytes(TimingBytes, 4, timings);
      Regroup(payload, LittleEndian(|timings|, 4), ListBytes(TimingBytes, timings));
      :- Uint(|timings|, 4);
      for i := 0 to |timings|
        invariant Valid() && (forall k :: 0 <= k < i ==> LegalTiming(timings[k]))
        invariant payload + ListBytes(TimingBytes, timings[i..]) == target
      {
        ListHead(TimingBytes, timings, i);
        Regroup(payload, TimingBytes(timings[i]), ListBytes(TimingBytes, timings[i + 1..]));
        :- Timing(timings[i]);
      }
      return Pass;
    }

    method Transfers(t: Transfers) returns (outcome: Outcome)
      requires Valid()
      modifies this
      ensures Valid() && Wrote(outcome, old(payload), payload, TransfersBytes(t), true)
    {
      Regroup(payload, LittleEndian(t.count, 8), LittleEndian(t.bytes, 8) + LittleEndian(t.peakLiveBytes, 8));
      :- Uint(t.count, 8);
      Regroup(payload, LittleEndian(t.bytes, 8), LittleEndian(t.peakLiveBytes, 8));
      :- Uint(t.bytes, 8);
      :- Uint(t.peakLiveBytes, 8);
      return Pass;
    }

    method Observations(o: Observations) returns (outcome: Outcome)
      requires Valid() && |o.reasons| <= 65536 && |o.timings| <= 131072
      modifies this
      ensures Valid() && Wrote(outcome, old(payload), payload, ObservationsBytes(o), LegalObservations(o))
    {
      ghost var digests := BlobBytes(o.planDigest) + BlobBytes(o.resultDigest);
      Regroup(payload, CountedBytes(BlobBytes, 4, o.reasons), CountedBytes(TimingBytes, 4, o.timings) + digests);
      :- Reasons(o.reasons);
      Regroup(payload, CountedBytes(TimingBytes, 4, o.timings), digests);
      :- Timings(o.timings);
      Regroup(payload, BlobBytes(o.planDigest), BlobBytes(o.resultDigest));
      :- Text(o.planDigest, 128);
      :- Text(o.resultDigest, 128);
      return Pass;
    }

    method Diagnostics(d: Diagnostics) returns (outcome: Outcome)
      requires Valid()
      modifies this
      ensures Valid() && Appended(outcome, old(payload), payload, DiagnosticsBytes(d), LegalDiagnostics(d))
    {
      if |d.backends| > 65536 || |d.observations.timings| > 131072 || |d.observations.reasons| > 65536 {
        return Fail(RESOURCE_EXHAUSTED);
      }
      ghost var observations := ObservationsBytes(d.observations);
      ghost var transfers := TransfersBytes(d.transfers) + observations;
      Regroup(payload, LittleEndian(d.executeUs, 8), CountedBytes(BackendBytes, 4, d.backends) + transfers);
      :- Uint(d.executeUs, 8);
      Regroup(payload, CountedBytes(BackendBytes, 4, d.backends), transfers);
      :- Backends(d.backends);
      Regroup(payload, TransfersBytes(d.transfers), observations);
      :- Transfers(d.transfers);
      :- Observations(d.observations);
      return Pass;
    }

    method Values(values: seq<NamedValue>, valid: Validity) returns (outcome: Outcome)
      requires Valid()
      modifies this
      ensures Valid()
      ensures Appended(outcome, old(payload), payload, CountedBytes(NamedBytes, 4, values),
                       All(ValueEncodable(valid), values))
    {
      ghost var target := payload + CountedBytes(NamedBytes, 4, values);
      Regroup(payload, LittleEndian(|values|, 4), ListBytes(NamedBytes, values));
      :- Uint(|values|, 4);
      for i := 0 to |values|
        invariant Valid() && (forall k :: 0 <= k < i ==> ValueEncodable(valid)(values[k]))
        invariant payload + ListBytes(NamedBytes, values[i..]) == target
      {
        ListHead(NamedBytes, values, i);
        Regroup(payload, NamedBytes(values[i]), ListBytes(NamedBytes, values[i + 1..]));
        assert ValueEncodable(valid)(values[i]) == EncodableValue(valid, values[i]);
        :- NamedValue(values[i], valid);
      }
      return Pass;
    }

    method Result(r: ExecutionResult, valid: Validity) returns (outcome: Outcome)
      requires Valid()
      modifies this
      ensures Valid() && Appended(outcome, old(payload), payload, ResultBytes(r), EncodableResult(valid, r))
    {
      if |r.values| > 4096 {
        return Fail(RESOURCE_EXHAUSTED);
      }
      Regroup(payload, CountedBytes(NamedBytes, 4, r.values), DiagnosticsBytes(r.diagnostics));
      :- Values(r.values, valid);
      :- Diagnostics(r.diagnostics);
      return Pass;
    }

    // ----- Envelopes -----

    method Header(requestId: u64, methodCode: byte) returns (outcome: Outcome)
      requires Valid()
      modifies this
      ensures Valid() && Wrote(outcome, old(payload), payload, HeaderBytes(requestId, methodCode), true)
    {
      Regroup(payload, LittleEndian(PROTOCOL_VERSION, 2), LittleEndian(requestId, 8) + [methodCode]);
      :- Uint(PROTOCOL_VERSION, 2);
      Regroup(payload, LittleEndian(requestId, 8), [methodCode]);
      :- Uint(requestId, 8);
      :- Append([methodCode]);
      return Pass;
    }

    method Identity(id: Id) returns (outcome: Outcome)
      requires Valid()
      modifies this
      ensures Valid() && Wrote(outcome, old(payload), payload, IdBytes(id), LegalId(id))
    {
      if id.instance == 0 || id.value == 0 {
        return Fail(INVALID_ARGUMENT);
      }
      Regroup(payload, LittleEndian(id.instance, 8), LittleEndian(id.value, 8));
      :- Uint(id.instance, 8);
      :- Uint(id.value, 8);
      return Pass;
    }

    method Status(s: Status) returns (outcome: Outcome)
      requires Valid()
      modifies this
      ensures Valid() && Wrote(outcome, old(payload), payload, StatusBytes(s), LegalStatus(s))
    {
      if s.code > INTERNAL || (s.code == OK && s.message != []) {
        return Fail(INVALID_ARGUMENT);
      }
      Regroup(payload, [s.code], BlobBytes(s.message));
      :- Append([s.code]);
      :- Text(s.message, 4096);
      return Pass;
    }

    method JobStatus(s: JobStatus) returns (outcome: Outcome)
      requires Valid()
      modifies this
      ensures Valid()
      ensures Wrote(outcome, old(payload), payload, JobStatusBytes(s), ValidJobStatus(s) && LegalStatus(s.outcome))
    {
      if !ValidJobStatus(s) {
        return Fail(INVALID_ARGUMENT);
      }
      ghost var state := [s.state] + StatusBytes(s.outcome);
      Regroup(payload, IdBytes(s.job), IdBytes(s.session) + state);
      :- Identity(s.job);
      Regroup(payload, IdBytes(s.session), state);
      :- Identity(s.session);
      Regroup(payload, [s.state], StatusBytes(s.outcome));
      :- Append([s.state]);
      :- Status(s.outcome);
      return Pass;
    }

    method MethodNames(names: seq<Bytes>) returns (outcome: Outcome)
      requires Valid()
      modifies this
      ensures Valid()
      ensures Wrote(outcome, old(payload), payload, CountedBytes(BlobBytes, 1, names), All(LegalMethodName, names))
    {
      ghost var target := payload + CountedBytes(BlobBytes, 1, names);
      Regroup(payload, LittleEndian(|names|, 1), ListBytes(BlobBytes, names));
      :- Uint(|names|, 1);
      for i := 0 to |names|
        invariant Valid() && (forall k :: 0 <= k < i ==> LegalMethodName(names[k]))
        invariant payload + ListBytes(BlobBytes, names[i..]) == target
      {
        ListHead(BlobBytes, names, i);
        Regroup(payload, BlobBytes(names[i]), ListBytes(BlobBytes, names[i + 1..]));
        :- Text(names[i], 64);
      }
      return Pass;
    }

    method Counters(c: Counters) returns (outcome: Outcome)
      requires Valid()
      modifies this
      ensures Valid() && Wrote(outcome, old(payload), payload, CountersBytes(c), true)
    {
      ghost var maxima := LittleEndian(c.maximumConcurrency, 4) + LittleEndian(c.maximumSessions, 4);
      Regroup(payload, LittleEndian(c.activeSessions, 8), LittleEndian(c.activeJobs, 8) + maxima);
      :- Uint(c.activeSessions, 8);
      Regroup(payload, LittleEndian(c.activeJobs, 8), maxima);
      :- Uint(c.activeJobs, 8);
      Regroup(payload, LittleEndian(c.maximumConcurrency, 4), LittleEndian(c.maximumSessions, 4));
      :- Uint(c.maximumConcurrency, 4);
      :- Uint(c.maximumSessions, 4);
      return Pass;
    }

    method Info(i: DaemonInfo) returns (outcome: Outcome)
      requires Valid()
      modifies this
      ensures Valid() && Wrote(outcome, old(payload), payload, InfoBytes(i), LegalInfo(i))
    {
      if !ValidInfo(i) {
        return Fail(INVALID_ARGUMENT);
      }
      ghost var counters := CountedBytes(BlobBytes, 1, i.methods) + CountersBytes(i.counters);
      ghost var transport := BlobBytes(i.transport) + counters;
      ghost var service := BlobBytes(i.serviceVersion) + transport;
      Regroup(payload, LittleEndian(i.protocolVersion, 2), LittleEndian(i.instance, 8) + service);
      :- Uint(i.protocolVersion, 2);
      Regroup(payload, LittleEndian(i.instance, 8), service);
      :- Uint(i.instance, 8);
      Regroup(payload, BlobBytes(i.serviceVersion), transport);
      :- Text(i.serviceVersion, 128);
      Regroup(payload, BlobBytes(i.transport), counters);
      :- Text(i.transport, 64);
      if |i.methods| > 16 {
        return Fail(INVALID_ARGUMENT);
      }
      Regroup(payload, CountedBytes(BlobBytes, 1, i.methods), CountersBytes(i.counters));
      :- MethodNames(i.methods);
      :- Counters(i.counters);
      return Pass;
    }

    method RequestBody(r: Request) returns (outcome: Outcome)
      requires Valid() && r.requestId != 0 && ValidMethod(r.methodCode)
      modifies this
      ensures Valid() && Wrote(outcome, old(payload), payload, Messages.RequestBody(r), LegalRequest(r))
    {
      if r.methodCode == SESSION_CREATE {
        :- Document(r.document);
      } else if r.methodCode == SESSION_CLOSE {
        :- Identity(r.session);
      } else if r.methodCode == JOB_SUBMIT {
        Regroup(payload, IdBytes(r.session), BoolBytes(r.allowGpu) + LittleEndian(r.maximumParallelism, 4));
        :- Identity(r.session);
        Regroup(payload, BoolBytes(r.allowGpu), LittleEndian(r.maximumParallelism, 4));
        :- Boolean(r.allowGpu);
        :- Uint(r.maximumParallelism, 4);
      } else if NamesJob(r.methodCode) {
        :- Identity(r.job);
      }
      return Pass;
    }

    method ResponseBody(r: Response, valid: Validity) returns (outcome: Outcome)
      requires Valid() && r.requestId != 0 && ValidMethod(r.methodCode) && LegalStatus(r.status)
      modifies this
      ensures Valid() && Appended(outcome, old(payload), payload, Messages.ResponseBody(r), EncodableResponse(valid, r))
    {
      if r.status.code == OK {
        if r.methodCode == SESSION_CREATE {
          :- Identity(r.session);
        } else if r.methodCode == JOB_SUBMIT {
          :- Identity(r.job);
        } else if r.methodCode == JOB_STATUS {
          :- JobStatus(r.jobStatus);
        } else if r.methodCode == JOB_RESULT {
          :- Result(r.result, valid);
        } else if r.methodCode == DAEMON_INFO {
          :- Info(r.info);
        }
      }
      return Pass;
    }

    method Request(r: Request) returns (outcome: Outcome)
      requires Valid()
      modifies this
      ensures Valid() && Wrote(outcome, old(payload), payload, RequestBytes(r), LegalRequest(r))
    {
      if r.requestId == 0 || !ValidMethod(r.methodCode) {
        return Fail(INVALID_ARGUMENT);
      }
      Regroup(payload, HeaderBytes(r.requestId, r.methodCode), Messages.RequestBody(r));
      :- Header(r.requestId, r.methodCode);
      :- RequestBody(r);
      return Pass;
    }

    method Response(r: Response, valid: Validity) returns (outcome: Outcome)
      requires Valid()
      modifies this
      ensures Valid() && Appended(outcome, old(payload), payload, ResponseBytes(r), EncodableResponse(valid, r))
    {
      if r.requestId == 0 || !ValidMethod(r.methodCode) {
        return Fail(INVALID_ARGUMENT);
      }
      Regroup(payload, HeaderBytes(r.requestId, r.methodCode), StatusBytes(r.status) + Messages.ResponseBody(r));
      :- Header(r.requestId, r.methodCode);
      Regroup(payload, StatusBytes(r.status), Messages.ResponseBody(r));
      :- Status(r.status);
      :- ResponseBody(r, valid);
      return Pass;
    }

    method ProtocolError(status: Status, request: Option<Bytes>) returns (outcome: Outcome)
      requires Valid()
      modifies this
      ensures Valid()
      ensures Wrote(outcome, old(payload), payload, ProtocolErrorBytes(status, request), LegalStatus(status)
                    && status.code != OK)
    {
      if status.code == OK {
        return Fail(INVALID_ARGUMENT);
      }
      var correlation := RecoverCorrelation(request);
      Regroup(payload, HeaderBytes(correlation.requestId, correlation.methodCode), StatusBytes(status));
      :- Header(correlation.requestId, correlation.methodCode);
      :- Status(status);
      return Pass;
    }
  }

  // ----- Entry points -----

  /** Encodes exactly the legal requests that fit one frame, to exactly their bytes. */
  method EncodeRequest(r: Request) returns (encoded: Result<Bytes>)
    ensures encoded.Ok? <==> LegalRequest(r) && |RequestBytes(r)| <= MAXIMUM_FRAME_PAYLOAD_BYTES
    ensures encoded.Ok? ==> encoded.value == RequestBytes(r)
    ensures encoded.Err? && LegalRequest(r) ==> encoded.code == RESOURCE_EXHAUSTED
    ensures !LegalRequest(r) && |RequestBytes(r)| <= MAXIMUM_FRAME_PAYLOAD_BYTES ==> encoded == Err(INVALID_ARGUMENT)
  {
    var encoder := new Encoder();
    var outcome := encoder.Request(r);
    encoded := if outcome.Pass? then Ok(encoder.payload) else Err(outcome.code);
  }

  /** Encodes exactly the encodable responses that fit one frame, to exactly their bytes. */
  method EncodeResponse(r: Response, valid: Validity) returns (encoded: Result<Bytes>)
    ensures encoded.Ok? <==> EncodableResponse(valid, r) && |ResponseBytes(r)| <= MAXIMUM_FRAME_PAYLOAD_BYTES
    ensures encoded.Ok? ==> encoded.value == ResponseBytes(r)
    ensures encoded.Err? ==> encoded.code == INVALID_ARGUMENT || encoded.code == RESOURCE_EXHAUSTED
    ensures encoded.Err? && EncodableResponse(valid, r) ==> encoded.code == RESOURCE_EXHAUSTED
  {
    var encoder := new Encoder();
    var outcome := encoder.Response(r, valid);
    encoded := if outcome.Pass? then Ok(encoder.payload) else Err(outcome.code);
  }

  /** The error a server sends before routing: every legal failure encodes, under the correlation it could recover. */
  method EncodeProtocolError(status: Status, request: Option<Bytes>) returns (encoded: Result<Bytes>)
    ensures encoded.Ok? <==> LegalStatus(status) && status.code != OK
    ensures encoded.Ok? ==> encoded.value == ProtocolErrorBytes(status, request)
    ensures encoded.Err? ==> encoded.code == INVALID_ARGUMENT || encoded.code == RESOURCE_EXHAUSTED
  {
    var encoder := new Encoder();
    var outcome := encoder.ProtocolError(status, request);
    encoded := if outcome.Pass? then Ok(encoder.payload) else Err(outcome.code);
  }
}
