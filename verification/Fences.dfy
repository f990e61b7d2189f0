/** The count fences are as strict as a transparent fence can be: each contract is met with equality. */
module Fences {
  import opened Wire
  import opened Grammar
  import opened Documents
  import opened Results
  import Messages

  /** The entry is a smallest one, and `suffix` bytes are the least that follow the collection. */
  predicate Tight(contract: CountContract, entry: nat, suffix: nat) {
    contract == CountContract(entry, suffix)
  }

  const LEAST_NODE := Node(0, [], [], [])
  const LEAST_INPUT := NodeOutput(0, [])
  const LEAST_ENTRY: ParameterEntry := ([], Boolean(false))
  const LEAST_OUTPUT := Output([], 0, [])

  /** What follows the nodes, inputs and parameters of a document that has nothing more. */
  lemma DocumentFencesAreTight()
    ensures LegalNode(LEAST_NODE) && LegalInput(LEAST_INPUT) && LegalEntry(LEAST_ENTRY) && LegalOutput(LEAST_OUTPUT)
    ensures var outputs := |CountedBytes(OutputBytes, 4, [])|;
            var parameters := |CountedBytes(EntryBytes, 4, [])|;
            && Tight(WORKFLOW_NODES, |NodeBytes(LEAST_NODE)|, outputs)
            && Tight(WORKFLOW_INPUTS, |InputBytes(LEAST_INPUT)|, parameters + outputs)
            && Tight(WORKFLOW_PARAMETERS, |EntryBytes(LEAST_ENTRY)|, outputs)
            && Tight(WORKFLOW_OUTPUTS, |OutputBytes(LEAST_OUTPUT)|, 0)
  {
  }

  const LEAST_FACET := Facet([], 0, [])
  const LEAST_TIMING := Timing(1, CPU, 0, OK)
  const LEAST_OBSERVATIONS := Observations([], [], [], [])
  const LEAST_DIAGNOSTICS := Diagnostics(0, [], Transfers(0, 0, 0), LEAST_OBSERVATIONS)
  const LEAST_AXES := Axes([0], [(0, 0)], 0, [0])
  const LEAST_VALUE: NamedValue := ([], Value(ValueParts(UINT8, LEAST_AXES, [], []), []))

  lemma DiagnosticFencesAreTight()
    ensures LegalBackend((1, CPU)) && LegalTiming(LEAST_TIMING) && LegalReason([])
    ensures LegalDiagnostics(LEAST_DIAGNOSTICS)
    ensures var digests := |BlobBytes([])| + |BlobBytes([])|;
            var timings := |CountedBytes(TimingBytes, 4, [])|;
            && Tight(DIAGNOSTIC_BACKENDS, |BackendBytes((1, CPU))|,
                     |TransfersBytes(Transfers(0, 0, 0))| + |ObservationsBytes(LEAST_OBSERVATIONS)|)
            && Tight(DIAGNOSTIC_REASONS, |BlobBytes([])|, timings + digests)
            && Tight(DIAGNOSTIC_TIMINGS, |TimingBytes(LEAST_TIMING)|, digests)
            && Tight(DAEMON_METHODS, |BlobBytes([])|, |Messages.CountersBytes(Messages.Counters(0, 0, 0, 0))|)
  {
  }

  lemma {:induction false} AxesLength(a: Axes)
    requires |a.region| == |a.shape| && |a.strides| == |a.shape|
    ensures |AxesBytes(a)| == 32 * |a.shape| + 8
    decreases |a.shape|
  {
    if a.shape != [] {
      AxesLength(Axes(a.shape[1..], a.region[1..], a.offset, a.strides[1..]));
    }
  }

  /** Each axis takes the fenced number of bytes, whatever its rank; a value and what follows it takes the least. */
  lemma ValueFencesAreTight(a: Axes)
    requires |a.region| == |a.shape| && |a.strides| == |a.shape|
    ensures LegalFacet(LEAST_FACET) && LegalParts(LEAST_VALUE.1.parts)
    ensures var diagnostics := |DiagnosticsBytes(LEAST_DIAGNOSTICS)|;
            var data := |BlobBytes([])|;
            var facets := |CountedBytes(FacetBytes, 1, [])|;
            && |AxesBytes(a)| == |a.shape| * VALUE_AXES.minimumEntryBytes + 8
            && VALUE_AXES.requiredSuffixBytes == 8 + facets + data + diagnostics
            && Tight(VALUE_FACETS, |FacetBytes(LEAST_FACET)|, data + diagnostics)
            && Tight(RESULT_VALUES, |NamedBytes(LEAST_VALUE)|, diagnostics)
  {
    AxesLength(a);
    AxesLength(LEAST_AXES);
  }
}
