/** Workflow documents on the wire: parameters, nodes, outputs. */
module Documents {
  import opened Wire
  import opened Grammar

  /** One source parameter; a floating parameter is carried as its 64-bit pattern. */
  datatype Parameter = Integer(i: i64) | Floating(bits: u64) | Boolean(b: bool) | Text(t: Bytes)

  type ParameterEntry = (Bytes, Parameter)

  datatype Input = NodeOutput(sourceNode: u64, sourcePort: Bytes) | RuntimeBinding(name: Bytes)

  /** `parameters` lists the entries of the node's parameter map; in memory they are in key order. */
  datatype Node = Node(id: u64, operation: Bytes, inputs: seq<Input>, parameters: seq<ParameterEntry>)

  datatype Output = Output(name: Bytes, nodeId: u64, port: Bytes)

  /** `declarations` are the workflow input declarations, which the wire does not carry. */
  datatype Document = Document(schemaVersion: u32, declarations: seq<Bytes>, nodes: seq<Node>, outputs: seq<Output>)

  const EMPTY_DOCUMENT := Document(0, [], [], [])

  // ----- Bytes -----

  function ParameterBytes(p: Parameter): Bytes {
    match p
    case Integer(i) => [1] + LittleEndian(SignedBits(i), 8)
    case Floating(bits) => [2] + LittleEndian(bits, 8)
    case Boolean(b) => [3] + BoolBytes(b)
    case Text(t) => [4] + BlobBytes(t)
  }

  function EntryBytes(e: ParameterEntry): Bytes {
    BlobBytes(e.0) + ParameterBytes(e.1)
  }

  /** Bytes of a node-output edge; the encoder refuses the other kind before it writes anything. */
  function InputBytes(i: Input): Bytes {
    if i.NodeOutput? then LittleEndian(i.sourceNode, 8) + BlobBytes(i.sourcePort) else []
  }

  function NodeTail(n: Node): Bytes {
    CountedBytes(InputBytes, 4, n.inputs) + CountedBytes(EntryBytes, 4, n.parameters)
  }

  function NodeBytes(n: Node): Bytes {
    LittleEndian(n.id, 8) + (BlobBytes(n.operation) + NodeTail(n))
  }

  function OutputBytes(o: Output): Bytes {
    BlobBytes(o.name) + (LittleEndian(o.nodeId, 8) + BlobBytes(o.port))
  }

  function DocumentBytes(d: Document): Bytes {
    LittleEndian(d.schemaVersion, 4) + (CountedBytes(NodeBytes, 4, d.nodes) + CountedBytes(OutputBytes, 4, d.outputs))
  }

  // ----- What the encoder accepts -----

  predicate LegalParameter(p: Parameter) {
    p.Text? ==> TextOk(p.t, 8192)
  }

  predicate LegalEntry(e: ParameterEntry) {
    TextOk(e.0, 1024) && LegalParameter(e.1)
  }

  predicate LegalInput(i: Input) {
    i.NodeOutput? && TextOk(i.sourcePort, 64)
  }

  predicate LegalFields(n: Node) {
    && |n.inputs| <= 1024 && |n.parameters| <= 1024
    && TextOk(n.operation, 1024) && All(LegalInput, n.inputs) && All(LegalEntry, n.parameters)
  }

  predicate LegalOutput(o: Output) {
    TextOk(o.name, 1024) && TextOk(o.port, 64)
  }

  predicate LegalDocument(d: Document) {
    && d.declarations == []
    && |d.nodes| <= 65536 && |d.outputs| <= 4096
    && All(LegalFields, d.nodes) && All(LegalOutput, d.outputs)
  }

  /** The representation invariant of an in-memory node: its parameter map is in key order. */
  predicate SortedNode(n: Node) {
    Ascending(TextLess, n.parameters)
  }

  predicate SortedDocument(d: Document) {
    All(SortedNode, d.nodes)
  }

  predicate LegalNode(n: Node) {
    LegalFields(n) && SortedNode(n)
  }

  // ----- Readers -----

  function ReadParameter(fenced: bool, s: Bytes): Parsed<Parameter> {
    var (tag, s1) :- ParseU8(s);
    if tag == 1 then
      var (i, rest) :- ParseI64(s1); Got(Integer(i), rest)
    else if tag == 2 then
      var (bits, rest) :- ParseU64(s1); Got(Floating(bits), rest)
    else if tag == 3 then
      var (b, rest) :- ParseBool(s1); Got(Boolean(b), rest)
    else if tag == 4 then
      var (t, rest) :- ParseText(8192, s1); Got(Text(t), rest)
    else Bad(INVALID_ARGUMENT)
  }

  function ReadEntry(fenced: bool, s: Bytes): Parsed<ParameterEntry> {
    var (key, s1) :- ParseText(1024, s);
    var (p, rest) :- ReadParameter(fenced, s1);
    Got((key, p), rest)
  }

  function ReadInput(fenced: bool, s: Bytes): Parsed<Input> {
    var (node, s1) :- ParseU64(s);
    var (port, rest) :- ParseText(64, s1);
    Got(NodeOutput(node, port), rest)
  }

  function ReadInputs(fenced: bool, s: Bytes): Parsed<seq<Input>> {
    ParseCounted(ReadInput, 4, 1024, WORKFLOW_INPUTS, fenced, s)
  }

  function ReadParameters(fenced: bool, s: Bytes): Parsed<seq<ParameterEntry>> {
    ParseCountedMap(TextLess, ReadEntry, 4, 1024, WORKFLOW_PARAMETERS, fenced, s)
  }

  function ReadNode(fenced: bool, s: Bytes): Parsed<Node> {
    var (id, s1) :- ParseU64(s);
    var (operation, s2) :- ParseText(1024, s1);
    var (inputs, s3) :- ReadInputs(fenced, s2);
    var (parameters, rest) :- ReadParameters(fenced, s3);
    Got(Node(id, operation, inputs, parameters), rest)
  }

  function ReadOutput(fenced: bool, s: Bytes): Parsed<Output> {
    var (name, s1) :- ParseText(1024, s);
    var (node, s2) :- ParseU64(s1);
    var (port, rest) :- ParseText(64, s2);
    Got(Output(name, node, port), rest)
  }

  function ReadNodes(fenced: bool, s: Bytes): Parsed<seq<Node>> {
    ParseCounted(ReadNode, 4, 65536, WORKFLOW_NODES, fenced, s)
  }

  function ReadOutputs(fenced: bool, s: Bytes): Parsed<seq<Output>> {
    ParseCounted(ReadOutput, 4, 4096, WORKFLOW_OUTPUTS, fenced, s)
  }

  function ReadDocument(fenced: bool, s: Bytes): Parsed<Document> {
    var (schema, s1) :- ParseU32(s);
    var (nodes, s2) :- ReadNodes(fenced, s1);
    var (outputs, rest) :- ReadOutputs(fenced, s2);
    Got(Document(schema, [], nodes, outputs), rest)
  }

  // ----- The fences of a document are transparent -----

  lemma EntryTransparent()
    ensures Transparent(ReadEntry, 6, 4)
  {
    forall s ensures TransparentAt(ReadEntry(true, s), ReadEntry(false, s), s, 6, 4) {
      if ReadEntry(false, s).Got? {
        assert |ParseText(1024, s).rest| + 4 <= |s|;
      }
    }
  }

  lemma InputTransparent()
    ensures Transparent(ReadInput, 12, 8)
  {
  }

  lemma OutputTransparent()
    ensures Transparent(ReadOutput, 16, 0)
  {
  }

  lemma NodeTransparent()
    ensures Transparent(ReadNode, 20, 4)
  {
    forall s ensures TransparentAt(ReadNode(true, s), ReadNode(false, s), s, 20, 4) {
      if ParseU64(s).Got? && ParseText(1024, ParseU64(s).rest).Got? {
        var s2 := ParseText(1024, ParseU64(s).rest).rest;
        assert |s2| + 12 <= |s|;
        InputTransparent();
        CountedTransparent(ReadInput, 12, 8, 4, 1024, WORKFLOW_INPUTS, s2);
        if ReadInputs(false, s2).Got? {
          EntryTransparent();
          CountedMapTransparent(TextLess, ReadEntry, 6, 4, 4, 1024, WORKFLOW_PARAMETERS, ReadInputs(false, s2).rest);
        }
      }
    }
  }

  /** All four document fences together: the fenced and the unfenced decoder agree on every accepted document. */
  lemma DocumentTransparent(s: Bytes)
    ensures TransparentAt(ReadDocument(true, s), ReadDocument(false, s), s, 12, 0)
  {
    if ParseU32(s).Got? {
      var s1 := ParseU32(s).rest;
      NodeTransparent();
      CountedTransparent(ReadNode, 20, 4, 4, 65536, WORKFLOW_NODES, s1);
      if ReadNodes(false, s1).Got? {
        OutputTransparent();
        CountedTransparent(ReadOutput, 16, 0, 4, 4096, WORKFLOW_OUTPUTS, ReadNodes(false, s1).rest);
      }
    }
  }

  // ----- Reading back what was written -----

  lemma ParameterComplete(p: Parameter, rest: Bytes)
    requires LegalParameter(p)
    ensures ReadParameter(false, ParameterBytes(p) + rest) == Got(p, rest)
  {
    hide ParseU8, ParseI64, ParseU64, ParseBool, ParseText, BoolBytes, BlobBytes, SignedBits;
    match p
    case Integer(i) =>
      Regroup([1], LittleEndian(SignedBits(i), 8), rest);
      U8Exact(1, LittleEndian(SignedBits(i), 8) + rest, []);
      I64Exact(i, rest, []);
    case Floating(bits) =>
      Regroup([2], LittleEndian(bits, 8), rest);
      U8Exact(2, LittleEndian(bits, 8) + rest, []);
      U64Exact(bits, rest, []);
    case Boolean(b) =>
      Regroup([3], BoolBytes(b), rest);
      U8Exact(3, BoolBytes(b) + rest, []);
      BoolExact(b, rest, []);
    case Text(t) =>
      Regroup([4], BlobBytes(t), rest);
      U8Exact(4, BlobBytes(t) + rest, []);
      TextExact(8192, t, rest, []);
  }

  lemma ParameterSound(s: Bytes)
    requires ReadParameter(false, s).Got?
    ensures var Got(q, r) := ReadParameter(false, s); LegalParameter(q) && s == ParameterBytes(q) + r
  {
    hide ParseU8, ParseI64, ParseU64, ParseBool, ParseText, BoolBytes, BlobBytes, SignedBits;
    var Got(q, r) := ReadParameter(false, s);
    U8Exact(0, [], s);
    var s1 := ParseU8(s).rest;
    match q
    case Integer(i) =>
      I64Exact(0, [], s1);
      Regroup([1], LittleEndian(SignedBits(i), 8), r);
    case Floating(bits) =>
      U64Exact(0, [], s1);
      Regroup([2], LittleEndian(bits, 8), r);
    case Boolean(b) =>
      BoolExact(false, [], s1);
      Regroup([3], BoolBytes(b), r);
    case Text(t) =>
      TextExact(8192, [], [], s1);
      Regroup([4], BlobBytes(t), r);
  }

  lemma EntryExact()
    ensures Complete(ReadEntry, LegalEntry, EntryBytes) && Sound(ReadEntry, LegalEntry, EntryBytes)
  {
    forall e, rest | LegalEntry(e) ensures ReadEntry(false, EntryBytes(e) + rest) == Got(e, rest) {
      Regroup(BlobBytes(e.0), ParameterBytes(e.1), rest);
      TextExact(1024, e.0, ParameterBytes(e.1) + rest, []);
      ParameterComplete(e.1, rest);
    }
    forall s | ReadEntry(false, s).Got?
      ensures var Got(e, r) := ReadEntry(false, s); LegalEntry(e) && s == EntryBytes(e) + r
    {
      var Got(e, r) := ReadEntry(false, s);
      TextExact(1024, [], [], s);
      ParameterSound(ParseText(1024, s).rest);
      Regroup(BlobBytes(e.0), ParameterBytes(e.1), r);
    }
  }

  lemma InputExact()
    ensures Complete(ReadInput, LegalInput, InputBytes) && Sound(ReadInput, LegalInput, InputBytes)
  {
    forall i, rest | LegalInput(i) ensures ReadInput(false, InputBytes(i) + rest) == Got(i, rest) {
      Regroup(LittleEndian(i.sourceNode, 8), BlobBytes(i.sourcePort), rest);
      U64Exact(i.sourceNode, BlobBytes(i.sourcePort) + rest, []);
      TextExact(64, i.sourcePort, rest, []);
    }
    forall s | ReadInput(false, s).Got?
      ensures var Got(i, r) := ReadInput(false, s); LegalInput(i) && s == InputBytes(i) + r
    {
      var Got(i, r) := ReadInput(false, s);
      U64Exact(0, [], s);
      TextExact(64, [], [], ParseU64(s).rest);
      Regroup(LittleEndian(i.sourceNode, 8), BlobBytes(i.sourcePort), r);
    }
  }

  lemma OutputRegroup(o: Output, rest: Bytes)
    ensures OutputBytes(o) + rest == BlobBytes(o.name) + (LittleEndian(o.nodeId, 8) + (BlobBytes(o.port) + rest))
  {
    Regroup(BlobBytes(o.name), LittleEndian(o.nodeId, 8) + BlobBytes(o.port), rest);
    Regroup(LittleEndian(o.nodeId, 8), BlobBytes(o.port), rest);
  }

  lemma OutputExact()
    ensures Complete(ReadOutput, LegalOutput, OutputBytes) && Sound(ReadOutput, LegalOutput, OutputBytes)
  {
    forall o, rest | LegalOutput(o) ensures ReadOutput(false, OutputBytes(o) + rest) == Got(o, rest) {
      OutputRegroup(o, rest);
      TextExact(1024, o.name, LittleEndian(o.nodeId, 8) + (BlobBytes(o.port) + rest), []);
      U64Exact(o.nodeId, BlobBytes(o.port) + rest, []);
      TextExact(64, o.port, rest, []);
    }
    forall s | ReadOutput(false, s).Got?
      ensures var Got(o, r) := ReadOutput(false, s); LegalOutput(o) && s == OutputBytes(o) + r
    {
      var Got(o, r) := ReadOutput(false, s);
      TextExact(1024, [], [], s);
      var s1 := ParseText(1024, s).rest;
      U64Exact(0, [], s1);
      TextExact(64, [], [], ParseU64(s1).rest);
      OutputRegroup(o, r);
    }
  }

  lemma NodeRegroup(n: Node, rest: Bytes)
    ensures NodeBytes(n) + rest ==
            LittleEndian(n.id, 8) + (BlobBytes(n.operation)
            + (CountedBytes(InputBytes, 4, n.inputs) + (CountedBytes(EntryBytes, 4, n.parameters) + rest)))
  {
    Regroup(LittleEndian(n.id, 8), BlobBytes(n.operation) + NodeTail(n), rest);
    Regroup(BlobBytes(n.operation), NodeTail(n), rest);
    Regroup(CountedBytes(InputBytes, 4, n.inputs), CountedBytes(EntryBytes, 4, n.parameters), rest);
  }

  /** `wire` is the node `n` with the entries of its parameter map in some order. */
  predicate Reorders(wire: Node, n: Node) {
    wire.(parameters := n.parameters) == n && multiset(wire.parameters) == multiset(n.parameters)
  }

  lemma NodeCompleteAt(wire: Node, n: Node, rest: Bytes)
    requires LegalNode(n) && Reorders(wire, n)
    ensures ReadNode(false, NodeBytes(wire) + rest) == Got(n, rest)
  {
    NodeRegroup(wire, rest);
    var s3 := CountedBytes(EntryBytes, 4, wire.parameters) + rest;
    var s2 := CountedBytes(InputBytes, 4, n.inputs) + s3;
    U64Exact(n.id, BlobBytes(n.operation) + s2, []);
    TextExact(1024, n.operation, s2, []);
    Powers();
    InputExact();
    CountedComplete(ReadInput, LegalInput, InputBytes, 4, 1024, WORKFLOW_INPUTS, n.inputs, s3);
    EntryExact();
    TextOrder();
    CountedMapComplete(TextLess, ReadEntry, LegalEntry, EntryBytes, 4, 1024, WORKFLOW_PARAMETERS, n.parameters,
                       wire.parameters, rest);
  }

  lemma NodeComplete()
    ensures CompleteUpTo(ReadNode, LegalNode, NodeBytes, Reorders)
  {
    forall w, n, rest | Reorders(w, n) && LegalNode(n) ensures ReadNode(false, NodeBytes(w) + rest) == Got(n, rest) {
      NodeCompleteAt(w, n, rest);
    }
  }

  /** `wire` is the document `d` with the parameters of each node in some order. */
  predicate ReordersDocument(wire: Document, d: Document) {
    wire.(nodes := d.nodes) == d && Pointwise(Reorders, wire.nodes, d.nodes)
  }

  lemma DocumentRegroup(d: Document, rest: Bytes)
    ensures DocumentBytes(d) + rest ==
            LittleEndian(d.schemaVersion, 4)
            + (CountedBytes(NodeBytes, 4, d.nodes) + (CountedBytes(OutputBytes, 4, d.outputs) + rest))
  {
    var nodes, outputs := CountedBytes(NodeBytes, 4, d.nodes), CountedBytes(OutputBytes, 4, d.outputs);
    Regroup(LittleEndian(d.schemaVersion, 4), nodes + outputs, rest);
    Regroup(nodes, outputs, rest);
  }

  /** Every legal document is read back unchanged, in whatever order the parameters of its nodes were written. */
  lemma DocumentComplete(wire: Document, d: Document, rest: Bytes)
    requires LegalDocument(d) && SortedDocument(d) && ReordersDocument(wire, d)
    ensures ReadDocument(false, DocumentBytes(wire) + rest) == Got(d, rest)
  {
    hide LegalFields, SortedNode, Reorders, ReadNode, NodeBytes, ReadOutput, OutputBytes;
    DocumentRegroup(wire, rest);
    var s2 := CountedBytes(OutputBytes, 4, d.outputs) + rest;
    U32Exact(d.schemaVersion, CountedBytes(NodeBytes, 4, wire.nodes) + s2, []);
    Powers();
    NodeComplete();
    CountedCompleteUpTo(ReadNode, LegalNode, NodeBytes, Reorders, 4, 65536, WORKFLOW_NODES, wire.nodes, d.nodes, s2);
    OutputExact();
    CountedComplete(ReadOutput, LegalOutput, OutputBytes, 4, 4096, WORKFLOW_OUTPUTS, d.outputs, rest);
  }

  // ----- What an accepted document looked like on the wire -----

  lemma NodeSound(s: Bytes) returns (wire: Node)
    requires ReadNode(false, s).Got?
    ensures var Got(n, rest) := ReadNode(false, s);
            LegalNode(n) && Reorders(wire, n) && s == NodeBytes(wire) + rest
  {
    var Got(n, rest) := ReadNode(false, s);
    U64Exact(0, [], s);
    var s1 := ParseU64(s).rest;
    TextExact(1024, [], [], s1);
    var s2 := ParseText(1024, s1).rest;
    InputExact();
    CountedSound(ReadInput, LegalInput, InputBytes, 4, 1024, WORKFLOW_INPUTS, s2);
    EntryExact();
    TextOrder();
    var entries := CountedMapSound(TextLess, ReadEntry, LegalEntry, EntryBytes, 4, 1024, WORKFLOW_PARAMETERS,
                                   ReadInputs(false, s2).rest);
    wire := n.(parameters := entries);
    NodeRegroup(wire, rest);
  }

  lemma NodesSound(s: Bytes) returns (wire: seq<Node>)
    requires ReadNodes(false, s).Got?
    ensures var Got(nodes, rest) := ReadNodes(false, s);
            && |nodes| <= 65536 && All(LegalFields, nodes) && All(SortedNode, nodes)
            && Pointwise(Reorders, wire, nodes) && s == CountedBytes(NodeBytes, 4, wire) + rest
  {
    forall t | ReadNode(false, t).Got?
      ensures var Got(n, rest) := ReadNode(false, t);
              LegalNode(n) && exists w :: Reorders(w, n) && t == NodeBytes(w) + rest
    {
      var w := NodeSound(t);
    }
    wire := CountedSoundUpTo(ReadNode, LegalNode, NodeBytes, Reorders, 4, 65536, WORKFLOW_NODES, s);
    var nodes := ReadNodes(false, s).value;
    assert forall i :: 0 <= i < |nodes| ==> LegalNode(nodes[i]);
  }

  /** An accepted document is legal, and its bytes are its own up to the order of each node's parameters. */
  lemma DocumentSound(s: Bytes) returns (wire: Document)
    requires ReadDocument(false, s).Got?
    ensures var Got(d, rest) := ReadDocument(false, s);
            LegalDocument(d) && SortedDocument(d) && ReordersDocument(wire, d) && s == DocumentBytes(wire) + rest
  {
    hide ReadNodes, NodeBytes, ReadOutput, OutputBytes, LegalFields, SortedNode, Reorders;
    var Got(d, rest) := ReadDocument(false, s);
    U32Exact(0, [], s);
    var s1 := ParseU32(s).rest;
    var nodes := NodesSound(s1);
    OutputExact();
    CountedSound(ReadOutput, LegalOutput, OutputBytes, 4, 4096, WORKFLOW_OUTPUTS, ReadNodes(false, s1).rest);
    wire := d.(nodes := nodes);
    DocumentRegroup(wire, rest);
  }

  lemma {:induction false} ReorderedNodesLength(wire: seq<Node>, nodes: seq<Node>)
    requires Pointwise(Reorders, wire, nodes)
    ensures |ListBytes(NodeBytes, wire)| == |ListBytes(NodeBytes, nodes)|
    decreases |wire|
  {
    if wire != [] {
      assert Reorders(wire[0], nodes[0]);
      SameLength(wire[0].parameters, nodes[0].parameters);
      ReorderedLength(EntryBytes, wire[0].parameters, nodes[0].parameters);
      ReorderedNodesLength(wire[1..], nodes[1..]);
    }
  }
}
