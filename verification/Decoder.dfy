/** The bounds-checking payload reader and every decoder that advances it. */
module Decoding {
  import opened Wire
  import opened Grammar
  import opened Documents
  import opened Results
  import opened Messages
  import Utf8

  /** A read answers as its specification does, and on success leaves what the specification leaves. */
  predicate Reads<T(==)>(r: Result<T>, spec: Parsed<T>, rest: Bytes) {
    match spec
    case Got(v, s) => r == Ok(v) && rest == s
    case Bad(code) => r == Err(code)
  }

  function Prepend<T>(xs: seq<T>, p: Parsed<seq<T>>): Parsed<seq<T>> {
    match p
    case Got(vs, rest) => Got(xs + vs, rest)
    case Bad(code) => Bad(code)
  }

  /** One more entry of a list is read, or reading stops. */
  lemma PrependStep<T>(xs: seq<T>, reader: Reader<T>, count: nat, s: Bytes)
    requires count > 0
    ensures match reader(true, s)
            case Bad(code) => Prepend(xs, ParseList(reader, true, count, s)) == Bad(code)
            case Got(v, rest) =>
              Prepend(xs, ParseList(reader, true, count, s))
                  == Prepend(xs + [v], ParseList(reader, true, count - 1, rest))
  {
    if reader(true, s).Got? {
      var Got(v, rest) := reader(true, s);
      match ParseList(reader, true, count - 1, rest) {
        case Bad(_) =>
        case Got(vs, _) => assert xs + ([v] + vs) == (xs + [v]) + vs;
      }
    }
  }

  /** One more entry of a map is read and inserted, or reading stops. */
  lemma MapStep<K, V>(less: (K, K) -> bool, reader: Reader<(K, V)>, count: nat, s: Bytes, acc: seq<(K, V)>)
    requires count > 0
    ensures ParseMap(less, reader, true, count, s, acc) ==
            match reader(true, s)
            case Bad(code) => Bad(code)
            case Got(e, rest) =>
              match Insert(less, acc, e)
              case None => Bad(INVALID_ARGUMENT)
              case Some(next) => ParseMap(less, reader, true, count - 1, rest, next)
  {
  }

  lemma PrependStart<T>(p: Parsed<seq<T>>)
    ensures Prepend([], p) == p
  {
    match p
    case Bad(_) =>
    case Got(vs, _) => assert [] + vs == vs;
  }

  lemma {:induction false} FromLittleEndianSnoc(s: Bytes, b: byte)
    ensures FromLittleEndian(s + [b]) == FromLittleEndian(s) + b * Pow256(|s|)
  {
    if s == [] {
      assert [b][1..] == [];
    } else {
      FromLittleEndianSnoc(s[1..], b);
      assert (s + [b])[1..] == s[1..] + [b];
      assert 256 * (b * Pow256(|s| - 1)) == b * Pow256(|s|);
    }
  }

  class Decoder {
    const payload: Bytes
    var offset: nat

    constructor (payload: Bytes)
      requires |payload| <= MAXIMUM_FRAME_PAYLOAD_BYTES
      ensures this.payload == payload && Valid() && Rest() == payload
    {
      this.payload := payload;
      offset := 0;
    }

    ghost predicate Valid()
      reads this
    {
      offset <= |payload|
    }

    ghost function Rest(): Bytes
      requires Valid()
      reads this
    {
      payload[offset..]
    }

    method Byte() returns (r: Result<byte>)
      requires Valid()
      modifies this
      ensures Valid() && Reads(r, ParseU8(old(Rest())), Rest())
      ensures r.Ok? ==> offset == old(offset) + 1 && r.value == payload[old(offset)]
      ensures r.Err? ==> offset == |payload|
    {
      ghost var s := Rest();
      if 1 > |payload| - offset {
        return Err(INVALID_ARGUMENT);
      }
      assert s[..1] == [payload[offset]];
      assert FromLittleEndian([payload[offset]]) == payload[offset] by { assert [payload[offset]][1..] == []; }
      offset := offset + 1;
      return Ok(payload[offset - 1]);
    }

    /** `u16`, `u32` and `u64`: one byte at a time, each shifted past those before it. */
    method Uint(width: nat) returns (r: Result<nat>)
      requires Valid()
      modifies this
      ensures Valid() && Reads(r, ParseUint(width, old(Rest())), Rest())
    {
      ghost var start := offset;
      var value: nat, index: nat, scale: nat := 0, 0, 1;
      while index < width
        invariant Valid() && index <= width && offset == start + index
        invariant scale == Pow256(index) && value == FromLittleEndian(payload[start..offset])
      {
        var b :- Byte();
        FromLittleEndianSnoc(payload[start..offset - 1], b);
        assert payload[start..offset] == payload[start..offset - 1] + [b];
        value := value + b as nat * scale;
        index, scale := index + 1, 256 * scale;
      }
      assert old(Rest())[..width] == payload[start..offset];
      return Ok(value);
    }

    method U16() returns (r: Result<u16>)
      requires Valid()
      modifies this
      ensures Valid() && Reads(r, ParseU16(old(Rest())), Rest())
    {
      Powers();
      var v :- Uint(2);
      return Ok(v);
    }

    method U32() returns (r: Result<u32>)
      requires Valid()
      modifies this
      ensures Valid() && Reads(r, ParseU32(old(Rest())), Rest())
    {
      Powers();
      var v :- Uint(4);
      return Ok(v);
    }

    method U64() returns (r: Result<u64>)
      requires Valid()
      modifies this
      ensures Valid() && Reads(r, ParseU64(old(Rest())), Rest())
    {
      Powers();
      var v :- Uint(8);
      return Ok(v);
    }

    method I64() returns (r: Result<i64>)
      requires Valid()
      modifies this
      ensures Valid() && Reads(r, ParseI64(old(Rest())), Rest())
    {
      var bits :- U64();
      return Ok(FromSignedBits(bits));
    }

    method Boolean() returns (r: Result<bool>)
      requires Valid()
      modifies this
      ensures Valid() && Reads(r, ParseBool(old(Rest())), Rest())
    {
      var v :- Byte();
      if v > 1 {
        return Err(INVALID_ARGUMENT);
      }
      return Ok(v != 0);
    }

    method Blob(maximum: nat) returns (r: Result<Bytes>)
      requires Valid()
      modifies this
      ensures Valid() && Reads(r, ParseBlob(maximum, old(Rest())), Rest())
    {
      var size :- U32();
      if size > maximum || size > |payload| - offset {
        return Err(INVALID_ARGUMENT);
      }
      ghost var tail := Rest();
      var value := payload[offset..offset + size];
      offset := offset + size;
      assert tail[..size] == value && tail[size..] == Rest();
      return Ok(value);
    }

    method Text(maximum: nat) returns (r: Result<Bytes>)
      requires Valid()
      modifies this
      ensures Valid() && Reads(r, ParseText(maximum, old(Rest())), Rest())
    {
      var value :- Blob(maximum);
      var wellFormed := Utf8.Validate(value);
      if !wellFormed {
        return Err(INVALID_ARGUMENT);
      }
      return Ok(value);
    }

    /** A count, its semantic maximum, and its fence against the unread bytes. */
    method Count(width: nat, maximum: nat, contract: CountContract) returns (r: Result<nat>)
      requires Valid()
      modifies this
      ensures Valid() && Reads(r, ParseCount(width, maximum, contract, true, old(Rest())), Rest())
    {
      var count :- Uint(width);
      if count > maximum {
        return Err(INVALID_ARGUMENT);
      }
      if !CountFits(count, |payload| - offset, contract) {
        return Err(INVALID_ARGUMENT);
      }
      return Ok(count);
    }

    // ----- Documents -----

    method Parameter() returns (r: Result<Parameter>)
      requires Valid()
      modifies this
      ensures Valid() && Reads(r, ReadParameter(true, old(Rest())), Rest())
    {
      var tag :- Byte();
      match tag {
        case 1 =>
          var i :- I64();
          return Ok(Integer(i));
        case 2 =>
          var bits :- U64();
          return Ok(Floating(bits));
        case 3 =>
          var b :- Boolean();
          return Ok(Documents.Parameter.Boolean(b));
        case 4 =>
          var t :- Text(8192);
          return Ok(Documents.Parameter.Text(t));
        case _ =>
          return Err(INVALID_ARGUMENT);
      }
    }

    method Entry() returns (r: Result<ParameterEntry>)
      requires Valid()
      modifies this
      ensures Valid() && Reads(r, ReadEntry(true, old(Rest())), Rest())
    {
      var key :- Text(1024);
      var p :- Parameter();
      return Ok((key, p));
    }

    method Input() returns (r: Result<Input>)
      requires Valid()
      modifies this
      ensures Valid() && Reads(r, ReadInput(true, old(Rest())), Rest())
    {
      var node :- U64();
      var port :- Text(64);
      return Ok(NodeOutput(node, port));
    }

    method Inputs() returns (r: Result<seq<Input>>)
      requires Valid()
      modifies this
      ensures Valid() && Reads(r, ReadInputs(true, old(Rest())), Rest())
    {
      hide ReadInput;
      var count :- Count(4, 1024, WORKFLOW_INPUTS);
      ghost var start := Rest();
      var entries: seq<Input> := [];
      PrependStart(ParseList(ReadInput, true, count, start));
      ghost var left := count;
      for i := 0 to count
        invariant Valid() && left == count - i
        invariant ParseList(ReadInput, true, count, start) == Prepend(entries, ParseList(ReadInput, true, left, Rest()))
      {
        PrependStep(entries, ReadInput, left, Rest());
        var entry :- Input();
        entries, left := entries + [entry], left - 1;
      }
      assert entries + [] == entries;
      return Ok(entries);
    }

    method Parameters() returns (r: Result<seq<(Bytes, Parameter)>>)
      requires Valid()
      modifies this
      ensures Valid() && Reads(r, ReadParameters(true, old(Rest())), Rest())
    {
      hide ReadEntry;
      var count :- Count(4, 1024, WORKFLOW_PARAMETERS);
      ghost var start := Rest();
      var entries: seq<(Bytes, Parameter)> := [];
      ghost var left := count;
      for i := 0 to count
        invariant Valid() && left == count - i
        invariant ParseMap(TextLess, ReadEntry, true, count, start, [])
                    == ParseMap(TextLess, ReadEntry, true, left, Rest(), entries)
      {
        MapStep(TextLess, ReadEntry, left, Rest(), entries);
        var entry :- Entry();
        match Insert(TextLess, entries, entry) {
          case None => return Err(INVALID_ARGUMENT);
          case Some(inserted) => entries, left := inserted, left - 1;
        }
      }
      return Ok(entries);
    }

    method Node() returns (r: Result<Node>)
      requires Valid()
      modifies this
      ensures Valid() && Reads(r, ReadNode(true, old(Rest())), Rest())
    {
      var id :- U64();
      var operation :- Text(1024);
      var inputs :- Inputs();
      var parameters :- Parameters();
      return Ok(Documents.Node(id, operation, inputs, parameters));
    }

    method Output() returns (r: Result<Output>)
      requires Valid()
      modifies this
      ensures Valid() && Reads(r, ReadOutput(true, old(Rest())), Rest())
    {
      var name :- Text(1024);
      var node :- U64();
      var port :- Text(64);
      return Ok(Documents.Output(name, node, port));
    }

    method Nodes() returns (r: Result<seq<Node>>)
      requires Valid()
      modifies this
      ensures Valid() && Reads(r, ReadNodes(true, old(Rest())), Rest())
    {
      hide ReadNode;
      var count :- Count(4, 65536, WORKFLOW_NODES);
      ghost var start := Rest();
      var entries: seq<Node> := [];
      PrependStart(ParseList(ReadNode, true, count, start));
      ghost var left := count;
      for i := 0 to count
        invariant Valid() && left == count - i
        invariant ParseList(ReadNode, true, count, start) == Prepend(entries, ParseList(ReadNode, true, left, Rest()))
      {
        PrependStep(entries, ReadNode, left, Rest());
        var entry :- Node();
        entries, left := entries + [entry], left - 1;
      }
      assert entries + [] == entries;
      return Ok(entries);
    }

    method Outputs() returns (r: Result<seq<Output>>)
      requires Valid()
      modifies this
      ensures Valid() && Reads(r, ReadOutputs(true, old(Rest())), Rest())
    {
      hide ReadOutput;
      var count :- Count(4, 4096, WORKFLOW_OUTPUTS);
      ghost var start := Rest();
      var entries: seq<Output> := [];
      PrependStart(ParseList(ReadOutput, true, count, start));
      ghost var left := count;
      for i := 0 to count
        invariant Valid() && left == count - i
        invariant ParseList(ReadOutput, true, count, start)
                    == Prepend(entries, ParseList(ReadOutput, true, left, Rest()))
      {
        PrependStep(entries, ReadOutput, left, Rest());
        var entry :- Output();
        entries, left := entries + [entry], left - 1;
      }
      assert entries + [] == entries;
      return Ok(entries);
    }

    method Document() returns (r: Result<Document>)
      requires Valid()
      modifies this
      ensures Valid() && Reads(r, ReadDocument(true, old(Rest())), Rest())
    {
      var schema :- U32();
      var nodes :- Nodes();
      var outputs :- Outputs();
      return Ok(Documents.Document(schema, [], nodes, outputs));
    }

    // ----- Results -----

    method Shape(count: nat) returns (r: Result<seq<u64>>)
      requires Valid()
      modifies this
      ensures Valid() && Reads(r, ParseList(ReadU64, true, count, old(Rest())), Rest())
    {
      ghost var start := Rest();
      var entries: seq<u64> := [];
      PrependStart(ParseList(ReadU64, true, count, start));
      ghost var left := count;
      for i := 0 to count
        invariant Valid() && left == count - i
        invariant ParseList(ReadU64, true, count, start) == Prepend(entries, ParseList(ReadU64, true, left, Rest()))
      {
        PrependStep(entries, ReadU64, left, Rest());
        var entry :- U64();
        entries, left := entries + [entry], left - 1;
      }
      assert entries + [] == entries;
      return Ok(entries);
    }

    method Interval() returns (r: Result<(u64, u64)>)
      requires Valid()
      modifies this
      ensures Valid() && Reads(r, ReadInterval(true, old(Rest())), Rest())
    {
      var offset :- U64();
      var extent :- U64();
      return Ok((offset, extent));
    }

    method Region(count: nat) returns (r: Result<seq<(u64, u64)>>)
      requires Valid()
      modifies this
      ensures Valid() && Reads(r, ParseList(ReadInterval, true, count, old(Rest())), Rest())
    {
      hide ReadInterval;
      ghost var start := Rest();
      var entries: seq<(u64, u64)> := [];
      PrependStart(ParseList(ReadInterval, true, count, start));
      ghost var left := count;
      for i := 0 to count
        invariant Valid() && left == count - i
        invariant ParseList(ReadInterval, true, count, start)
                    == Prepend(entries, ParseList(ReadInterval, true, left, Rest()))
      {
        PrependStep(entries, ReadInterval, left, Rest());
        var entry :- Interval();
        entries, left := entries + [entry], left - 1;
      }
      assert entries + [] == entries;
      return Ok(entries);
    }

    method Strides(count: nat) returns (r: Result<seq<i64>>)
      requires Valid()
      modifies this
      ensures Valid() && Reads(r, ParseList(ReadStride, true, count, old(Rest())), Rest())
    {
      ghost var start := Rest();
      var entries: seq<i64> := [];
      PrependStart(ParseList(ReadStride, true, count, start));
      ghost var left := count;
      for i := 0 to count
        invariant Valid() && left == count - i
        invariant ParseList(ReadStride, true, count, start)
                    == Prepend(entries, ParseList(ReadStride, true, left, Rest()))
      {
        PrependStep(entries, ReadStride, left, Rest());
        var entry :- I64();
        entries, left := entries + [entry], left - 1;
      }
      assert entries + [] == entries;
      return Ok(entries);
    }

    method Axes(rank: nat) returns (r: Result<Axes>)
      requires Valid()
      modifies this
      ensures Valid() && Reads(r, ReadAxes(true, rank, old(Rest())), Rest())
    {
      var shape :- Shape(rank);
      var region :- Region(rank);
      var offset :- U64();
      var strides :- Strides(rank);
      return Ok(Results.Axes(shape, region, offset, strides));
    }

    method Facet() returns (r: Result<Facet>)
      requires Valid()
      modifies this
      ensures Valid() && Reads(r, ReadFacet(true, old(Rest())), Rest())
    {
      var key :- Text(256);
      var version :- U32();
      var data :- Blob(64 * 1024);
      return Ok(Results.Facet(key, version, data));
    }

    method Facets() returns (r: Result<seq<Facet>>)
      requires Valid()
      modifies this
      ensures Valid() && Reads(r, ReadFacets(true, old(Rest())), Rest())
    {
      hide ReadFacet;
      var count :- Count(1, 64, VALUE_FACETS);
      ghost var start := Rest();
      var entries: seq<Facet> := [];
      PrependStart(ParseList(ReadFacet, true, count, start));
      ghost var left := count;
      for i := 0 to count
        invariant Valid() && left == count - i
        invariant ParseList(ReadFacet, true, count, start) == Prepend(entries, ParseList(ReadFacet, true, left, Rest()))
      {
        PrependStep(entries, ReadFacet, left, Rest());
        var entry :- Facet();
        entries, left := entries + [entry], left - 1;
      }
      assert entries + [] == entries;
      return Ok(entries);
    }

    method Body(elementType: u32, rank: nat) returns (r: Result<ValueParts>)
      requires Valid()
      modifies this
      ensures Valid() && Reads(r, ReadBody(true, elementType, rank, old(Rest())), Rest())
    {
      var axes :- Axes(rank);
      var facets :- Facets();
      var data :- Blob(MAXIMUM_FRAME_PAYLOAD_BYTES);
      return Ok(ValueParts(elementType, axes, facets, data));
    }

    method Parts() returns (r: Result<ValueParts>)
      requires Valid()
      modifies this
      ensures Valid() && Reads(r, ReadParts(true, old(Rest())), Rest())
    {
      var elementType :- U32();
      if elementType < UINT8 || elementType > FLOAT64 {
        return Err(INVALID_ARGUMENT);
      }
      var rank :- Count(1, 8, VALUE_AXES);
      if rank == 0 {
        return Err(INVALID_ARGUMENT);
      }
      r := Body(elementType, rank);
    }

    method NamedValue(kernel: Kernel) returns (r: Result<NamedValue>)
      requires Valid()
      modifies this
      ensures Valid() && Reads(r, NamedReader(kernel)(true, old(Rest())), Rest())
    {
      var name :- Text(1024);
      var parts :- Parts();
      var verdict := kernel(parts);
      if verdict != OK {
        return Err(verdict);
      }
      return Ok((name, Value(parts, [])));
    }

    method Values(kernel: Kernel) returns (r: Result<seq<(Bytes, Value)>>)
      requires Valid()
      modifies this
      ensures Valid() && Reads(r, ReadValues(kernel, true, old(Rest())), Rest())
    {
      hide ReadNamed, TextLess;
      var count :- Count(4, 4096, RESULT_VALUES);
      ghost var start := Rest();
      var entries: seq<(Bytes, Value)> := [];
      ghost var left := count;
      for i := 0 to count
        invariant Valid() && left == count - i
        invariant ParseMap(TextLess, NamedReader(kernel), true, count, start, [])
                    == ParseMap(TextLess, NamedReader(kernel), true, left, Rest(), entries)
      {
        MapStep(TextLess, NamedReader(kernel), left, Rest(), entries);
        var entry :- NamedValue(kernel);
        match Insert(TextLess, entries, entry) {
          case None => return Err(INVALID_ARGUMENT);
          case Some(inserted) => entries, left := inserted, left - 1;
        }
      }
      return Ok(entries);
    }

    method Backend() returns (r: Result<(u64, byte)>)
      requires Valid()
      modifies this
      ensures Valid() && Reads(r, ReadBackend(true, old(Rest())), Rest())
    {
      var node :- U64();
      var backend :- Byte();
      if node == 0 || (backend != CPU && backend != GPU) {
        return Err(INVALID_ARGUMENT);
      }
      return Ok((node, backend));
    }

    method Backends() returns (r: Result<seq<(u64, byte)>>)
      requires Valid()
      modifies this
      ensures Valid() && Reads(r, ReadBackends(true, old(Rest())), Rest())
    {
      hide ReadBackend;
      var count :- Count(4, 65536, DIAGNOSTIC_BACKENDS);
      ghost var start := Rest();
      var entries: seq<(u64, byte)> := [];
      ghost var left := count;
      for i := 0 to count
        invariant Valid() && left == count - i
        invariant ParseMap(NumberLess, ReadBackend, true, count, start, [])
                    == ParseMap(NumberLess, ReadBackend, true, left, Rest(), entries)
      {
        MapStep(NumberLess, ReadBackend, left, Rest(), entries);
        var entry :- Backend();
        match Insert(NumberLess, entries, entry) {
          case None => return Err(INVALID_ARGUMENT);
          case Some(inserted) => entries, left := inserted, left - 1;
        }
      }
      return Ok(entries);
    }

    method Timing() returns (r: Result<Timing>)
      requires Valid()
      modifies this
      ensures Valid() && Reads(r, ReadTiming(true, old(Rest())), Rest())
    {
      var node :- U64();
      var backend :- Byte();
      if node == 0 || (backend != CPU && backend != GPU) {
        return Err(INVALID_ARGUMENT);
      }
      var duration :- U64();
      var outcome :- Byte();
      if outcome > INTERNAL {
        return Err(INVALID_ARGUMENT);
      }
      return Ok(Results.Timing(node, backend, duration, outcome));
    }

    method Reason() returns (r: Result<Bytes>)
      requires Valid()
      modifies this
      ensures Valid() && Reads(r, ReadReason(true, old(Rest())), Rest())
    {
      r := Text(4096);
    }

    method Reasons() returns (r: Result<seq<Bytes>>)
      requires Valid()
      modifies this
      ensures Valid() && Reads(r, ReadReasons(true, old(Rest())), Rest())
    {
      hide ReadReason;
      var count :- Count(4, 65536, DIAGNOSTIC_REASONS);
      ghost var start := Rest();
      var entries: seq<Bytes> := [];
      PrependStart(ParseList(ReadReason, true, count, start));
      ghost var left := count;
      for i := 0 to count
        invariant Valid() && left == count - i
        invariant ParseList(ReadReason, true, count, start)
                    == Prepend(entries, ParseList(ReadReason, true, left, Rest()))
      {
        PrependStep(entries, ReadReason, left, Rest());
        var entry :- Reason();
        entries, left := entries + [entry], left - 1;
      }
      assert entries + [] == entries;
      return Ok(entries);
    }

    method Timings() returns (r: Result<seq<Timing>>)
      requires Valid()
      modifies this
      ensures Valid() && Reads(r, ReadTimings(true, old(Rest())), Rest())
    {
      hide ReadTiming;
      var count :- Count(4, 131072, DIAGNOSTIC_TIMINGS);
      ghost var start := Rest();
      var entries: seq<Timing> := [];
      PrependStart(ParseList(ReadTiming, true, count, start));
      ghost var left := count;
      for i := 0 to count
        invariant Valid() && left == count - i
        invariant ParseList(ReadTiming, true, count, start)
                    == Prepend(entries, ParseList(ReadTiming, true, left, Rest()))
      {
        PrependStep(entries, ReadTiming, left, Rest());
        var entry :- Timing();
        entries, left := entries + [entry], left - 1;
      }
      assert entries + [] == entries;
      return Ok(entries);
    }

    method Transfers() returns (r: Result<Transfers>)
      requires Valid()
      modifies this
      ensures Valid() && Reads(r, ReadTransfers(old(Rest())), Rest())
    {
      var count :- U64();
      var bytes :- U64();
      var peak :- U64();
      return Ok(Results.Transfers(count, bytes, peak));
    }

    method Observations() returns (r: Result<Observations>)
      requires Valid()
      modifies this
      ensures Valid() && Reads(r, ReadObservations(true, old(Rest())), Rest())
    {
      var reasons :- Reasons();
      var timings :- Timings();
      var planDigest :- Text(128);
      var resultDigest :- Text(128);
      return Ok(Results.Observations(reasons, timings, planDigest, resultDigest));
    }

    method Diagnostics() returns (r: Result<Diagnostics>)
      requires Valid()
      modifies this
      ensures Valid() && Reads(r, ReadDiagnostics(true, old(Rest())), Rest())
    {
      var executeUs :- U64();
      var backends :- Backends();
      var transfers :- Transfers();
      var observations :- Observations();
      return Ok(Results.Diagnostics(executeUs, backends, transfers, observations));
    }

    method ExecutionResult(kernel: Kernel) returns (r: Result<ExecutionResult>)
      requires Valid()
      modifies this
      ensures Valid() && Reads(r, ReadResult(kernel, true, old(Rest())), Rest())
    {
      var values :- Values(kernel);
      var diagnostics :- Diagnostics();
      return Ok(Results.ExecutionResult(values, diagnostics));
    }

    // ----- Envelopes -----

    method Header() returns (r: Result<(u64, byte)>)
      requires Valid()
      modifies this
      ensures Valid() && Reads(r, ReadHeader(old(Rest())), Rest())
    {
      var version :- U16();
      if version != PROTOCOL_VERSION {
        return Err(INVALID_ARGUMENT);
      }
      var requestId :- U64();
      var methodCode :- Byte();
      return Ok((requestId, methodCode));
    }

    method Identity() returns (r: Result<Id>)
      requires Valid()
      modifies this
      ensures Valid() && Reads(r, ReadId(old(Rest())), Rest())
    {
      var instance :- U64();
      var value :- U64();
      return Ok(Id(instance, value));
    }

    method LegalIdentity() returns (r: Result<Id>)
      requires Valid()
      modifies this
      ensures Valid() && Reads(r, ReadLegalId(old(Rest())), Rest())
    {
      var id :- Identity();
      if id.instance == 0 || id.value == 0 {
        return Err(INVALID_ARGUMENT);
      }
      return Ok(id);
    }

    method Submit(bare: Request) returns (r: Result<Request>)
      requires Valid()
      modifies this
      ensures Valid() && Reads(r, ReadSubmit(bare, old(Rest())), Rest())
    {
      var session :- Identity();
      var allowGpu :- Boolean();
      var parallelism :- U32();
      if session.instance == 0 || session.value == 0 {
        return Err(INVALID_ARGUMENT);
      }
      return Ok(bare.(session := session, allowGpu := allowGpu, maximumParallelism := parallelism));
    }

    method RequestBody(bare: Request) returns (r: Result<Request>)
      requires Valid()
      modifies this
      ensures Valid() && Reads(r, ReadRequestBody(true, bare, old(Rest())), Rest())
    {
      if bare.methodCode == SESSION_CREATE {
        var document :- Document();
        return Ok(bare.(document := document));
      } else if bare.methodCode == SESSION_CLOSE {
        var id :- LegalIdentity();
        return Ok(bare.(session := id));
      } else if bare.methodCode == JOB_SUBMIT {
        r := Submit(bare);
      } else if NamesJob(bare.methodCode) {
        var id :- LegalIdentity();
        return Ok(bare.(job := id));
      } else {
        return Ok(bare);
      }
    }

    method Status() returns (r: Result<Status>)
      requires Valid()
      modifies this
      ensures Valid() && Reads(r, ReadStatus(old(Rest())), Rest())
    {
      var code :- Byte();
      if code > INTERNAL {
        return Err(INVALID_ARGUMENT);
      }
      var message :- Text(4096);
      if code == OK && message != [] {
        return Err(INVALID_ARGUMENT);
      }
      return Ok(Wire.Status(code, message));
    }

    method JobStatus() returns (r: Result<JobStatus>)
      requires Valid()
      modifies this
      ensures Valid() && Reads(r, ReadJobStatus(old(Rest())), Rest())
    {
      var job :- Identity();
      var session :- Identity();
      var state :- Byte();
      if state < QUEUED || state > STATE_CANCELLED {
        return Err(INVALID_ARGUMENT);
      }
      var outcome :- Status();
      var status := Messages.JobStatus(job, session, state, outcome);
      if !ValidJobStatus(status) {
        return Err(INVALID_ARGUMENT);
      }
      return Ok(status);
    }

    method MethodName() returns (r: Result<Bytes>)
      requires Valid()
      modifies this
      ensures Valid() && Reads(r, ReadMethodName(true, old(Rest())), Rest())
    {
      r := Text(64);
    }

    method MethodNames() returns (r: Result<seq<Bytes>>)
      requires Valid()
      modifies this
      ensures Valid() && Reads(r, ReadMethods(true, old(Rest())), Rest())
    {
      hide ReadMethodName;
      var count :- Count(1, 16, DAEMON_METHODS);
      ghost var start := Rest();
      var entries: seq<Bytes> := [];
      PrependStart(ParseList(ReadMethodName, true, count, start));
      ghost var left := count;
      for i := 0 to count
        invariant Valid() && left == count - i
        invariant ParseList(ReadMethodName, true, count, start)
                    == Prepend(entries, ParseList(ReadMethodName, true, left, Rest()))
      {
        PrependStep(entries, ReadMethodName, left, Rest());
        var entry :- MethodName();
        entries, left := entries + [entry], left - 1;
      }
      assert entries + [] == entries;
      return Ok(entries);
    }

    method Counters() returns (r: Result<Counters>)
      requires Valid()
      modifies this
      ensures Valid() && Reads(r, ReadCounters(old(Rest())), Rest())
    {
      var activeSessions :- U64();
      var activeJobs :- U64();
      var maximumConcurrency :- U32();
      var maximumSessions :- U32();
      return Ok(Messages.Counters(activeSessions, activeJobs, maximumConcurrency, maximumSessions));
    }

    method Info() returns (r: Result<DaemonInfo>)
      requires Valid()
      modifies this
      ensures Valid() && Reads(r, ReadInfo(true, old(Rest())), Rest())
    {
      var version :- U16();
      var instance :- U64();
      var serviceVersion :- Text(128);
      var transport :- Text(64);
      var methods :- MethodNames();
      var counters :- Counters();
      var info := DaemonInfo(version, instance, serviceVersion, transport, methods, counters);
      if !ValidInfo(info) {
        return Err(INVALID_ARGUMENT);
      }
      return Ok(info);
    }

    method ResponseBody(kernel: Kernel, bare: Response) returns (r: Result<Response>)
      requires Valid()
      modifies this
      ensures Valid() && Reads(r, ReadResponseBody(kernel, true, bare, old(Rest())), Rest())
    {
      if bare.status.code != OK {
        return Ok(bare);
      } else if bare.methodCode == SESSION_CREATE {
        var id :- LegalIdentity();
        return Ok(bare.(session := id));
      } else if bare.methodCode == JOB_SUBMIT {
        var id :- LegalIdentity();
        return Ok(bare.(job := id));
      } else if bare.methodCode == JOB_STATUS {
        var status :- JobStatus();
        return Ok(bare.(jobStatus := status));
      } else if bare.methodCode == JOB_RESULT {
        var result :- ExecutionResult(kernel);
        return Ok(bare.(result := result));
      } else if bare.methodCode == DAEMON_INFO {
        var info :- Info();
        return Ok(bare.(info := info));
      } else {
        return Ok(bare);
      }
    }

    method RequireEnd() returns (r: Outcome)
      requires Valid()
      ensures r == if Rest() == [] then Pass else Fail(INVALID_ARGUMENT)
    {
      r := if offset == |payload| then Pass else Fail(INVALID_ARGUMENT);
    }
  }

  // ----- Entry points -----

  /** The decoder a server runs on a frame. */
  method DecodeRequestPayload(payload: Bytes) returns (decoded: Result<Request>)
    ensures decoded == DecodeRequest(true, payload)
    ensures decoded.Ok? ==> CanonicalRequest(decoded.value) && SameButParameterOrder(payload, decoded.value)
  {
    hide CanonicalRequest, SameButParameterOrder;
    ghost var specified := DecodeRequest(true, payload);
    if specified.Ok? {
      RequestExactly(payload, specified.value);
    }
    if |payload| > MAXIMUM_FRAME_PAYLOAD_BYTES {
      return Err(INVALID_ARGUMENT);
    }
    var decoder := new Decoder(payload);
    var header :- decoder.Header();
    if header.0 == 0 || !ValidMethod(header.1) {
      return Err(INVALID_ARGUMENT);
    }
    var request :- decoder.RequestBody(BareRequest(header.0, header.1));
    var end := decoder.RequireEnd();
    decoded := if end.Pass? then Ok(request) else Err(end.code);
  }

  /** The decoder a client runs on a frame, against the method and id it sent. */
  method DecodeResponsePayload(kernel: Kernel, payload: Bytes, expectedMethod: byte, expectedId: u64)
    returns (decoded: Result<Response>)
    ensures decoded == DecodeResponse(kernel, true, payload, expectedMethod, expectedId)
    ensures decoded.Ok? ==>
              && decoded.value.requestId == expectedId && decoded.value.methodCode == expectedMethod
              && CanonicalResponse(kernel, decoded.value) && SameButEntryOrder(payload, decoded.value)
  {
    hide CanonicalResponse, SameButEntryOrder;
    ghost var specified := DecodeResponse(kernel, true, payload, expectedMethod, expectedId);
    if specified.Ok? {
      ResponseExactly(kernel, payload, expectedMethod, expectedId, specified.value);
    }
    if expectedId == 0 || !ValidMethod(expectedMethod) || |payload| > MAXIMUM_FRAME_PAYLOAD_BYTES {
      return Err(INVALID_ARGUMENT);
    }
    var decoder := new Decoder(payload);
    var header :- decoder.Header();
    if header.0 != expectedId || header.1 != expectedMethod {
      return Err(INVALID_ARGUMENT);
    }
    var status :- decoder.Status();
    var response :- decoder.ResponseBody(kernel, BareResponse(header.0, header.1, status));
    var end := decoder.RequireEnd();
    decoded := if end.Pass? then Ok(response) else Err(end.code);
  }

  /** The decoder a client falls back to, for an error sent before routing. */
  method DecodeProtocolErrorPayload(payload: Bytes) returns (decoded: Result<Response>)
    ensures decoded == DecodeProtocolError(payload)
    ensures decoded.Ok? ==>
              && CanonicalError(decoded.value)
              && payload == HeaderBytes(decoded.value.requestId, decoded.value.methodCode)
                  + StatusBytes(decoded.value.status)
  {
    hide CanonicalError, HeaderBytes, StatusBytes;
    ghost var specified := DecodeProtocolError(payload);
    if specified.Ok? {
      ProtocolErrorExactly(payload, specified.value);
    }
    if |payload| > MAXIMUM_FRAME_PAYLOAD_BYTES {
      return Err(INVALID_ARGUMENT);
    }
    var decoder := new Decoder(payload);
    var header :- decoder.Header();
    if !ValidMethod(header.1) {
      return Err(INVALID_ARGUMENT);
    }
    var status :- decoder.Status();
    var end := decoder.RequireEnd();
    if end.Fail? || status.code == OK || (header.0 == 0 && header.1 != DAEMON_INFO) {
      return Err(INVALID_ARGUMENT);
    }
    return Ok(BareResponse(header.0, header.1, status));
  }
}
