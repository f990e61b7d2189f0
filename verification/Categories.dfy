/** Why a decoder refuses: the category of every failure. */
module Categories {
  import opened Wire
  import opened Grammar
  import opened Documents
  import opened Results
  import opened Messages

  /** The categories a reader may fail with. */
  type May = ErrorCode -> bool

  ghost predicate Categorized<T(!new)>(reader: Reader<T>, may: May) {
    forall fenced, s :: reader(fenced, s).Bad? ==> may(reader(fenced, s).code)
  }

  lemma {:induction false} ListCategory<T(!new)>(reader: Reader<T>, may: May, fenced: bool, count: nat, s: Bytes)
    requires Categorized(reader, may)
    ensures var p := ParseList(reader, fenced, count, s); p.Bad? ==> may(p.code)
    decreases count
  {
    if count > 0 && reader(fenced, s).Got? {
      ListCategory(reader, may, fenced, count - 1, reader(fenced, s).rest);
    }
  }

  lemma {:induction false} MapCategory<K(!new), V(!new)>(
      less: (K, K) -> bool, reader: Reader<(K, V)>, may: May, fenced: bool, count: nat, s: Bytes, acc: seq<(K, V)>)
    requires Categorized(reader, may) && may(INVALID_ARGUMENT)
    ensures var p := ParseMap(less, reader, fenced, count, s, acc); p.Bad? ==> may(p.code)
    decreases count
  {
    if count > 0 && reader(fenced, s).Got? && Insert(less, acc, reader(fenced, s).value).Some? {
      MapCategory(less, reader, may, fenced, count - 1, reader(fenced, s).rest,
                  Insert(less, acc, reader(fenced, s).value).value);
    }
  }

  lemma CountedCategory<T(!new)>(
      reader: Reader<T>, may: May, width: nat, maximum: nat, contract: CountContract, fenced: bool, s: Bytes)
    requires Categorized(reader, may) && may(INVALID_ARGUMENT)
    ensures var p := ParseCounted(reader, width, maximum, contract, fenced, s); p.Bad? ==> may(p.code)
  {
    if ParseUint(width, s).Got? {
      ListCategory(reader, may, fenced, ParseUint(width, s).value, ParseUint(width, s).rest);
    }
  }

  lemma CountedMapCategory<K(!new), V(!new)>(
      less: (K, K) -> bool, reader: Reader<(K, V)>, may: May, width: nat, maximum: nat, contract: CountContract,
      fenced: bool, s: Bytes)
    requires Categorized(reader, may) && may(INVALID_ARGUMENT)
    ensures var p := ParseCountedMap(less, reader, width, maximum, contract, fenced, s); p.Bad? ==> may(p.code)
  {
    if ParseUint(width, s).Got? {
      MapCategory(less, reader, may, fenced, ParseUint(width, s).value, ParseUint(width, s).rest, []);
    }
  }

  predicate Malformed(code: ErrorCode) {
    code == INVALID_ARGUMENT
  }

  lemma NodeCategory()
    ensures Categorized(ReadNode, Malformed)
  {
    forall fenced, s ensures ReadNode(fenced, s).Bad? ==> ReadNode(fenced, s).code == INVALID_ARGUMENT {
      hide ParseText, ReadEntry, ReadInput;
      TextCategory();
      if ParseU64(s).Got? && ParseText(1024, ParseU64(s).rest).Got? {
        var s2 := ParseText(1024, ParseU64(s).rest).rest;
        EntryCategory();
        CountedCategory(ReadInput, Malformed, 4, 1024, WORKFLOW_INPUTS, fenced, s2);
        if ReadInputs(fenced, s2).Got? {
          CountedMapCategory(TextLess, ReadEntry, Malformed, 4, 1024, WORKFLOW_PARAMETERS, fenced,
                             ReadInputs(fenced, s2).rest);
        }
      }
    }
  }

  lemma TextCategory()
    ensures forall n, s :: ParseText(n, s).Bad? ==> ParseText(n, s).code == INVALID_ARGUMENT
  {
  }

  lemma ParameterCategory(fenced: bool, s: Bytes)
    ensures ReadParameter(fenced, s).Bad? ==> ReadParameter(fenced, s).code == INVALID_ARGUMENT
  {
    hide ParseText;
    TextCategory();
  }

  lemma EntryCategory()
    ensures Categorized(ReadEntry, Malformed) && Categorized(ReadInput, Malformed)
    ensures Categorized(ReadOutput, Malformed)
  {
    hide ParseText, ReadParameter;
    TextCategory();
    forall fenced, s ensures ReadParameter(fenced, s).Bad? ==> ReadParameter(fenced, s).code == INVALID_ARGUMENT {
      ParameterCategory(fenced, s);
    }
  }

  lemma DocumentCategory(fenced: bool, s: Bytes)
    ensures ReadDocument(fenced, s).Bad? ==> ReadDocument(fenced, s).code == INVALID_ARGUMENT
  {
    hide ReadNode, ReadOutput;
    if ParseU32(s).Got? {
      var s1 := ParseU32(s).rest;
      NodeCategory();
      CountedCategory(ReadNode, Malformed, 4, 65536, WORKFLOW_NODES, fenced, s1);
      if ReadNodes(fenced, s1).Got? {
        EntryCategory();
        CountedCategory(ReadOutput, Malformed, 4, 4096, WORKFLOW_OUTPUTS, fenced, ReadNodes(fenced, s1).rest);
      }
    }
  }

  /** A request that is refused is refused as an invalid argument. */
  lemma RequestCategory(payload: Bytes)
    ensures DecodeRequest(true, payload).Err? ==> DecodeRequest(true, payload).code == INVALID_ARGUMENT
  {
    hide ReadDocument, ReadSubmit, ReadLegalId, ReadHeader;
    IdCategory();
    if ReadHeader(payload).Got? {
      DocumentCategory(true, ReadHeader(payload).rest);
    }
  }

  lemma IdCategory()
    ensures forall s :: ReadLegalId(s).Bad? ==> ReadLegalId(s).code == INVALID_ARGUMENT
    ensures forall r, s :: ReadSubmit(r, s).Bad? ==> ReadSubmit(r, s).code == INVALID_ARGUMENT
    ensures forall s :: ReadHeader(s).Bad? ==> ReadHeader(s).code == INVALID_ARGUMENT
  {
  }

  // ----- Responses: the kernel has a say -----

  ghost predicate Judges(kernel: Kernel, code: ErrorCode) {
    exists parts :: kernel(parts) == code && code != OK
  }

  ghost function Judged(kernel: Kernel): May {
    (code: ErrorCode) => code == INVALID_ARGUMENT || Judges(kernel, code)
  }

  lemma ScalarCategory()
    ensures Categorized(ReadU64, Malformed) && Categorized(ReadInterval, Malformed)
    ensures Categorized(ReadStride, Malformed) && Categorized(ReadBackend, Malformed)
    ensures Categorized(ReadTiming, Malformed)
  {
  }

  lemma TextReaderCategory()
    ensures Categorized(ReadFacet, Malformed) && Categorized(ReadReason, Malformed)
    ensures Categorized(ReadMethodName, Malformed)
  {
  }

  lemma AxesCategory(fenced: bool, rank: nat, s: Bytes)
    ensures ReadAxes(fenced, rank, s).Bad? ==> ReadAxes(fenced, rank, s).code == INVALID_ARGUMENT
  {
    ScalarCategory();
    hide ReadU64, ReadInterval, ReadStride;
    ListCategory(ReadU64, Malformed, fenced, rank, s);
    if ParseList(ReadU64, fenced, rank, s).Got? {
      var s1 := ParseList(ReadU64, fenced, rank, s).rest;
      ListCategory(ReadInterval, Malformed, fenced, rank, s1);
      if ParseList(ReadInterval, fenced, rank, s1).Got? {
        var s2 := ParseList(ReadInterval, fenced, rank, s1).rest;
        if ParseU64(s2).Got? {
          ListCategory(ReadStride, Malformed, fenced, rank, ParseU64(s2).rest);
        }
      }
    }
  }

  lemma PartsCategory(fenced: bool, s: Bytes)
    ensures ReadParts(fenced, s).Bad? ==> ReadParts(fenced, s).code == INVALID_ARGUMENT
  {
    hide ReadAxes, ReadFacet;
    TextReaderCategory();
    forall rank, t ensures ReadAxes(fenced, rank, t).Bad? ==> ReadAxes(fenced, rank, t).code == INVALID_ARGUMENT {
      AxesCategory(fenced, rank, t);
    }
    forall t ensures ReadFacets(fenced, t).Bad? ==> ReadFacets(fenced, t).code == INVALID_ARGUMENT {
      CountedCategory(ReadFacet, Malformed, 1, 64, VALUE_FACETS, fenced, t);
    }
  }

  lemma NamedCategory(kernel: Kernel)
    ensures Categorized(NamedReader(kernel), Judged(kernel))
  {
    forall fenced, s ensures var p := ReadNamed(kernel, fenced, s); p.Bad? ==> Judged(kernel)(p.code) {
      hide ReadParts, ParseText;
      TextCategory();
      if ParseText(1024, s).Got? {
        PartsCategory(fenced, ParseText(1024, s).rest);
        if ReadParts(fenced, ParseText(1024, s).rest).Got? {
          var parts := ReadParts(fenced, ParseText(1024, s).rest).value;
          assert kernel(parts) != OK ==> Judges(kernel, kernel(parts));
        }
      }
    }
  }

  lemma ObservationsCategory(fenced: bool, s: Bytes)
    ensures ReadObservations(fenced, s).Bad? ==> ReadObservations(fenced, s).code == INVALID_ARGUMENT
  {
    hide ReadReason, ReadTiming, ParseText;
    TextCategory();
    TextReaderCategory();
    CountedCategory(ReadReason, Malformed, 4, 65536, DIAGNOSTIC_REASONS, fenced, s);
    if ReadReasons(fenced, s).Got? {
      ScalarCategory();
      CountedCategory(ReadTiming, Malformed, 4, 131072, DIAGNOSTIC_TIMINGS, fenced, ReadReasons(fenced, s).rest);
    }
  }

  lemma DiagnosticsCategory(fenced: bool, s: Bytes)
    ensures ReadDiagnostics(fenced, s).Bad? ==> ReadDiagnostics(fenced, s).code == INVALID_ARGUMENT
  {
    hide ReadBackend, ReadObservations;
    if ParseU64(s).Got? {
      var s1 := ParseU64(s).rest;
      ScalarCategory();
      CountedMapCategory(NumberLess, ReadBackend, Malformed, 4, 65536, DIAGNOSTIC_BACKENDS, fenced, s1);
      if ReadBackends(fenced, s1).Got? && ReadTransfers(ReadBackends(fenced, s1).rest).Got? {
        ObservationsCategory(fenced, ReadTransfers(ReadBackends(fenced, s1).rest).rest);
      }
    }
  }

  lemma ResultCategory(kernel: Kernel, fenced: bool, s: Bytes)
    ensures var p := ReadResult(kernel, fenced, s); p.Bad? ==> Judged(kernel)(p.code)
  {
    hide ReadNamed, ReadDiagnostics;
    NamedCategory(kernel);
    CountedMapCategory(TextLess, NamedReader(kernel), Judged(kernel), 4, 4096, RESULT_VALUES, fenced, s);
    if ReadValues(kernel, fenced, s).Got? {
      DiagnosticsCategory(fenced, ReadValues(kernel, fenced, s).rest);
    }
  }

  lemma InfoCategory(fenced: bool, s: Bytes)
    ensures ReadInfo(fenced, s).Bad? ==> ReadInfo(fenced, s).code == INVALID_ARGUMENT
  {
    hide ParseText, ReadMethodName, ValidInfo;
    TextCategory();
    TextReaderCategory();
    forall t ensures ReadMethods(fenced, t).Bad? ==> ReadMethods(fenced, t).code == INVALID_ARGUMENT {
      CountedCategory(ReadMethodName, Malformed, 1, 16, DAEMON_METHODS, fenced, t);
    }
  }

  /** A response that is refused is an invalid argument, or has a value that the kernel refuses with that category. */
  lemma ResponseCategory(kernel: Kernel, payload: Bytes, methodCode: byte, requestId: u64)
    ensures var d := DecodeResponse(kernel, true, payload, methodCode, requestId);
            d.Err? ==> d.code == INVALID_ARGUMENT || (methodCode == JOB_RESULT && Judges(kernel, d.code))
  {
    hide ReadResult, ReadInfo, ReadJobStatus, ParseText, ReadLegalId, ReadHeader;
    TextCategory();
    IdCategory();
    if ReadHeader(payload).Got? && ReadStatus(ReadHeader(payload).rest).Got? {
      var s := ReadStatus(ReadHeader(payload).rest).rest;
      ResultCategory(kernel, true, s);
      InfoCategory(true, s);
      JobStatusCategory(s);
    }
  }

  lemma JobStatusCategory(s: Bytes)
    ensures ReadJobStatus(s).Bad? ==> ReadJobStatus(s).code == INVALID_ARGUMENT
  {
    hide ParseText;
    TextCategory();
  }
}
