/** Wire primitives and collections: their bytes, the reader of each, the count fence, and the laws readers obey. */
module Grammar {
  import opened Wire
  import Utf8

  // ----- Primitives -----

  function ParseUint(width: nat, s: Bytes): (r: Parsed<nat>)
    ensures r.Got? ==> r.value < Pow256(width)
  {
    if |s| < width then Bad(INVALID_ARGUMENT) else Got(FromLittleEndian(s[..width]), s[width..])
  }

  function ParseU8(s: Bytes): Parsed<byte> {
    Powers();
    var (v, rest) :- ParseUint(1, s);
    Got(v, rest)
  }

  function ParseU16(s: Bytes): Parsed<u16> {
    Powers();
    var (v, rest) :- ParseUint(2, s);
    Got(v, rest)
  }

  function ParseU32(s: Bytes): Parsed<u32> {
    Powers();
    var (v, rest) :- ParseUint(4, s);
    Got(v, rest)
  }

  function ParseU64(s: Bytes): Parsed<u64> {
    Powers();
    var (v, rest) :- ParseUint(8, s);
    Got(v, rest)
  }

  function ParseI64(s: Bytes): Parsed<i64> {
    var (bits, rest) :- ParseU64(s);
    Got(FromSignedBits(bits), rest)
  }

  function BoolBytes(b: bool): Bytes {
    [if b then 1 else 0]
  }

  function ParseBool(s: Bytes): Parsed<bool> {
    var (v, rest) :- ParseU8(s);
    if v > 1 then Bad(INVALID_ARGUMENT) else Got(v != 0, rest)
  }

  /** Length-framed bytes; text has the same frame. */
  function BlobBytes(b: Bytes): Bytes {
    LittleEndian(|b|, 4) + b
  }

  function ParseBlob(maximum: nat, s: Bytes): Parsed<Bytes> {
    var (size, rest) :- ParseU32(s);
    if size > maximum || size > |rest| then Bad(INVALID_ARGUMENT) else Got(rest[..size], rest[size..])
  }

  predicate TextOk(t: Bytes, maximum: nat) {
    |t| <= maximum && |t| < 0x1_0000_0000 && Utf8.WellFormed(t)
  }

  function ParseText(maximum: nat, s: Bytes): Parsed<Bytes> {
    var (t, rest) :- ParseBlob(maximum, s);
    if Utf8.WellFormed(t) then Got(t, rest) else Bad(INVALID_ARGUMENT)
  }

  lemma UintExact(width: nat, v: nat, rest: Bytes, s: Bytes)
    ensures v < Pow256(width) ==> ParseUint(width, LittleEndian(v, width) + rest) == Got(v, rest)
    ensures ParseUint(width, s).Got? ==>
              s == LittleEndian(ParseUint(width, s).value, width) + ParseUint(width, s).rest
  {
    if v < Pow256(width) {
      LittleEndianInverse(v, width);
      var t := LittleEndian(v, width) + rest;
      assert t[..width] == LittleEndian(v, width) && t[width..] == rest;
    }
    if width <= |s| {
      FromLittleEndianInverse(s[..width]);
      assert s == s[..width] + s[width..];
    }
  }

  lemma U8Exact(v: byte, rest: Bytes, s: Bytes)
    ensures ParseU8([v] + rest) == Got(v, rest)
    ensures ParseU8(s).Got? ==> s == [ParseU8(s).value] + ParseU8(s).rest
  {
    Powers();
    UintExact(1, v, rest, s);
    assert LittleEndian(v, 1) == [v];
    if |s| >= 1 {
      assert LittleEndian(ParseUint(1, s).value, 1) == [ParseUint(1, s).value % 256];
    }
  }

  lemma BoolExact(b: bool, rest: Bytes, s: Bytes)
    ensures ParseBool(BoolBytes(b) + rest) == Got(b, rest)
    ensures ParseBool(s).Got? ==> s == BoolBytes(ParseBool(s).value) + ParseBool(s).rest
  {
    U8Exact(if b then 1 else 0, rest, s);
  }

  lemma U16Exact(v: u16, rest: Bytes, s: Bytes)
    ensures ParseU16(LittleEndian(v, 2) + rest) == Got(v, rest)
    ensures ParseU16(s).Got? ==> s == LittleEndian(ParseU16(s).value, 2) + ParseU16(s).rest
  {
    Powers();
    UintExact(2, v, rest, s);
  }

  lemma U32Exact(v: u32, rest: Bytes, s: Bytes)
    ensures ParseU32(LittleEndian(v, 4) + rest) == Got(v, rest)
    ensures ParseU32(s).Got? ==> s == LittleEndian(ParseU32(s).value, 4) + ParseU32(s).rest
  {
    Powers();
    UintExact(4, v, rest, s);
  }

  lemma U64Exact(v: u64, rest: Bytes, s: Bytes)
    ensures ParseU64(LittleEndian(v, 8) + rest) == Got(v, rest)
    ensures ParseU64(s).Got? ==> s == LittleEndian(ParseU64(s).value, 8) + ParseU64(s).rest
  {
    Powers();
    UintExact(8, v, rest, s);
  }

  lemma I64Exact(v: i64, rest: Bytes, s: Bytes)
    ensures ParseI64(LittleEndian(SignedBits(v), 8) + rest) == Got(v, rest)
    ensures ParseI64(s).Got? ==> s == LittleEndian(SignedBits(ParseI64(s).value), 8) + ParseI64(s).rest
  {
    U64Exact(SignedBits(v), rest, s);
  }

  lemma BlobComplete(maximum: nat, b: Bytes, rest: Bytes)
    requires |b| <= maximum && |b| < 0x1_0000_0000
    ensures ParseBlob(maximum, BlobBytes(b) + rest) == Got(b, rest)
  {
    U32Exact(|b|, b + rest, []);
    assert BlobBytes(b) + rest == LittleEndian(|b|, 4) + (b + rest);
    assert (b + rest)[..|b|] == b && (b + rest)[|b|..] == rest;
  }

  lemma BlobSound(maximum: nat, s: Bytes)
    requires ParseBlob(maximum, s).Got?
    ensures var Got(v, r) := ParseBlob(maximum, s); s == BlobBytes(v) + r && |v| <= maximum && |v| < 0x1_0000_0000
  {
    U32Exact(0, [], s);
    var Got(size, tail) := ParseU32(s);
    assert tail == tail[..size] + tail[size..];
    assert s == LittleEndian(size, 4) + (tail[..size] + tail[size..]);
  }

  lemma BlobExact(maximum: nat, b: Bytes, rest: Bytes, s: Bytes)
    ensures |b| <= maximum && |b| < 0x1_0000_0000 ==> ParseBlob(maximum, BlobBytes(b) + rest) == Got(b, rest)
    ensures ParseBlob(maximum, s).Got? ==>
              var Got(v, r) := ParseBlob(maximum, s); s == BlobBytes(v) + r && |v| <= maximum && |v| < 0x1_0000_0000
  {
    if |b| <= maximum && |b| < 0x1_0000_0000 {
      BlobComplete(maximum, b, rest);
    }
    if ParseBlob(maximum, s).Got? {
      BlobSound(maximum, s);
    }
  }

  lemma TextExact(maximum: nat, t: Bytes, rest: Bytes, s: Bytes)
    ensures TextOk(t, maximum) ==> ParseText(maximum, BlobBytes(t) + rest) == Got(t, rest)
    ensures ParseText(maximum, s).Got? ==>
              var Got(v, r) := ParseText(maximum, s); s == BlobBytes(v) + r && TextOk(v, maximum)
  {
    BlobExact(maximum, t, rest, s);
  }

  lemma Regroup(a: Bytes, b: Bytes, rest: Bytes)
    ensures (a + b) + rest == a + (b + rest)
  {
  }

  // ----- Count fences -----

  /** Smallest legal entry and smallest fixed suffix, in bytes, of one counted collection. */
  datatype CountContract = CountContract(minimumEntryBytes: nat, requiredSuffixBytes: nat)

  const WORKFLOW_NODES := CountContract(20, 4)
  const WORKFLOW_INPUTS := CountContract(12, 8)
  const WORKFLOW_PARAMETERS := CountContract(6, 4)
  const WORKFLOW_OUTPUTS := CountContract(16, 0)
  const VALUE_AXES := CountContract(32, 65)
  const VALUE_FACETS := CountContract(12, 56)
  const DIAGNOSTIC_BACKENDS := CountContract(9, 40)
  const DIAGNOSTIC_REASONS := CountContract(4, 12)
  const DIAGNOSTIC_TIMINGS := CountContract(18, 8)
  const RESULT_VALUES := CountContract(54, 52)
  const DAEMON_METHODS := CountContract(4, 24)

  predicate CountFits(count: nat, remaining: nat, contract: CountContract) {
    contract.minimumEntryBytes != 0
    && contract.requiredSuffixBytes <= remaining
    && count <= (remaining - contract.requiredSuffixBytes) / contract.minimumEntryBytes
  }

  /** The division form is the multiplication it avoids. */
  lemma CountFitsExactly(count: nat, remaining: nat, contract: CountContract)
    requires contract.minimumEntryBytes > 0
    ensures CountFits(count, remaining, contract)
       <==> count * contract.minimumEntryBytes + contract.requiredSuffixBytes <= remaining
  {
    var m := contract.minimumEntryBytes;
    if contract.requiredSuffixBytes <= remaining {
      var free := remaining - contract.requiredSuffixBytes;
      var q := free / m;
      assert free == q * m + free % m;
      if count <= q {
        assert count * m <= q * m;
      } else {
        assert count * m >= (q + 1) * m;
      }
    }
  }

  /** A fence that is switched off lets every count through. */
  predicate Fenced(fenced: bool, count: nat, s: Bytes, contract: CountContract) {
    fenced ==> CountFits(count, |s|, contract)
  }

  // ----- Laws of readers -----

  /** Readers take the fence switch and the unread bytes. */
  type Reader<T> = (bool, Bytes) -> Parsed<T>

  ghost predicate TransparentAt<T>(a: Parsed<T>, b: Parsed<T>, s: Bytes, minimum: nat, suffix: nat) {
    && (a.Got? ==> b == a)
    && (b.Got? ==> |b.rest| + minimum <= |s|)
    && (b.Got? && suffix <= |b.rest| ==> a == b)
  }

  /** Fences accept what the unfenced reader accepts whenever `suffix` bytes follow, and never more. */
  ghost predicate Transparent<T(!new)>(reader: Reader<T>, minimum: nat, suffix: nat) {
    forall s :: TransparentAt(reader(true, s), reader(false, s), s, minimum, suffix)
  }

  /** Without fences the reader reads back the bytes of every legal value, whatever follows. */
  ghost predicate Complete<T(!new)>(reader: Reader<T>, legal: T -> bool, bytes: T -> Bytes) {
    forall v, rest :: legal(v) ==> reader(false, bytes(v) + rest) == Got(v, rest)
  }

  /** Without fences the reader accepts nothing but the bytes of legal values. */
  ghost predicate Sound<T(!new)>(reader: Reader<T>, legal: T -> bool, bytes: T -> Bytes) {
    forall s {:trigger reader(false, s)} :: reader(false, s).Got? ==>
      legal(reader(false, s).value) && s == bytes(reader(false, s).value) + reader(false, s).rest
  }

  // ----- Counted lists -----

  function ParseList<T>(reader: Reader<T>, fenced: bool, count: nat, s: Bytes): Parsed<seq<T>>
    decreases count
  {
    if count == 0 then Got([], s)
    else
      var (v, tail) :- reader(fenced, s);
      var (vs, rest) :- ParseList(reader, fenced, count - 1, tail);
      Got([v] + vs, rest)
  }

  function ListBytes<T>(bytes: T -> Bytes, vs: seq<T>): Bytes {
    if vs == [] then [] else bytes(vs[0]) + ListBytes(bytes, vs[1..])
  }

  predicate All<T>(legal: T -> bool, vs: seq<T>) {
    forall i :: 0 <= i < |vs| ==> legal(vs[i])
  }

  lemma {:induction false} ListTransparent<T(!new)>(
      reader: Reader<T>, minimum: nat, suffix: nat, count: nat, s: Bytes)
    requires Transparent(reader, minimum, suffix)
    ensures TransparentAt(ParseList(reader, true, count, s), ParseList(reader, false, count, s),
                          s, count * minimum, suffix)
    decreases count
  {
    if count > 0 {
      var a, b := reader(true, s), reader(false, s);
      assert TransparentAt(a, b, s, minimum, suffix);
      if b.Got? {
        ListTransparent(reader, minimum, suffix, count - 1, b.rest);
        assert count * minimum == (count - 1) * minimum + minimum;
      }
    }
  }

  lemma {:induction false} ListComplete<T(!new)>(
      reader: Reader<T>, legal: T -> bool, bytes: T -> Bytes, vs: seq<T>, rest: Bytes)
    requires Complete(reader, legal, bytes) && All(legal, vs)
    ensures ParseList(reader, false, |vs|, ListBytes(bytes, vs) + rest) == Got(vs, rest)
    decreases |vs|
  {
    if vs != [] {
      var tail := ListBytes(bytes, vs[1..]) + rest;
      assert ListBytes(bytes, vs) + rest == bytes(vs[0]) + tail;
      ListComplete(reader, legal, bytes, vs[1..], rest);
      assert [vs[0]] + vs[1..] == vs;
    }
  }

  /** Every encodable value that is not legal makes the reader fail, whatever follows it. */
  ghost predicate Rejects<T(!new)>(reader: Reader<T>, encodable: T -> bool, legal: T -> bool, bytes: T -> Bytes) {
    forall v, rest :: encodable(v) && !legal(v) ==> reader(false, bytes(v) + rest).Bad?
  }

  lemma {:induction false} ListRejects<T(!new)>(
      reader: Reader<T>, encodable: T -> bool, legal: T -> bool, bytes: T -> Bytes, vs: seq<T>, rest: Bytes)
    requires Complete(reader, legal, bytes) && Rejects(reader, encodable, legal, bytes)
    requires All(encodable, vs) && !All(legal, vs)
    ensures ParseList(reader, false, |vs|, ListBytes(bytes, vs) + rest).Bad?
    decreases |vs|
  {
    Regroup(bytes(vs[0]), ListBytes(bytes, vs[1..]), rest);
    if legal(vs[0]) {
      ListRejects(reader, encodable, legal, bytes, vs[1..], rest);
    }
  }

  lemma {:induction false} ListSound<T(!new)>(
      reader: Reader<T>, legal: T -> bool, bytes: T -> Bytes, count: nat, s: Bytes)
    requires Sound(reader, legal, bytes) && ParseList(reader, false, count, s).Got?
    ensures var Got(vs, rest) := ParseList(reader, false, count, s);
            |vs| == count && All(legal, vs) && s == ListBytes(bytes, vs) + rest
    decreases count
  {
    if count > 0 {
      var Got(v, tail) := reader(false, s);
      ListSound(reader, legal, bytes, count - 1, tail);
      var Got(vs, rest) := ParseList(reader, false, count - 1, tail);
      assert ([v] + vs)[1..] == vs;
      assert s == bytes(v) + (ListBytes(bytes, vs) + rest);
    }
  }

  /** As `Sound`, for a reader that forgets a part of the wire form that `same` may vary. */
  ghost predicate SoundUpTo<T(!new)>(
      reader: Reader<T>, legal: T -> bool, bytes: T -> Bytes, same: (T, T) -> bool)
  {
    forall s {:trigger reader(false, s)} :: reader(false, s).Got? ==>
      && legal(reader(false, s).value)
      && exists w :: same(w, reader(false, s).value) && s == bytes(w) + reader(false, s).rest
  }

  predicate Pointwise<T>(same: (T, T) -> bool, xs: seq<T>, ys: seq<T>) {
    |xs| == |ys| && forall i :: 0 <= i < |xs| ==> same(xs[i], ys[i])
  }

  /** As `Complete`, for the same readers: every wire form of a legal value is read as that value. */
  ghost predicate CompleteUpTo<T(!new)>(
      reader: Reader<T>, legal: T -> bool, bytes: T -> Bytes, same: (T, T) -> bool)
  {
    forall w, v, rest :: same(w, v) && legal(v) ==> reader(false, bytes(w) + rest) == Got(v, rest)
  }

  lemma {:induction false} ListCompleteUpTo<T(!new)>(
      reader: Reader<T>, legal: T -> bool, bytes: T -> Bytes, same: (T, T) -> bool, wire: seq<T>, vs: seq<T>,
      rest: Bytes)
    requires CompleteUpTo(reader, legal, bytes, same) && All(legal, vs) && Pointwise(same, wire, vs)
    ensures ParseList(reader, false, |wire|, ListBytes(bytes, wire) + rest) == Got(vs, rest)
    decreases |wire|
  {
    if wire != [] {
      Regroup(bytes(wire[0]), ListBytes(bytes, wire[1..]), rest);
      assert same(wire[0], vs[0]);
      ListCompleteUpTo(reader, legal, bytes, same, wire[1..], vs[1..], rest);
      assert [vs[0]] + vs[1..] == vs;
    }
  }

  lemma {:induction false} ListSoundUpTo<T(!new)>(
      reader: Reader<T>, legal: T -> bool, bytes: T -> Bytes, same: (T, T) -> bool, count: nat, s: Bytes)
    returns (wire: seq<T>)
    requires SoundUpTo(reader, legal, bytes, same) && ParseList(reader, false, count, s).Got?
    ensures var Got(vs, rest) := ParseList(reader, false, count, s);
            |vs| == count && All(legal, vs) && Pointwise(same, wire, vs) && s == ListBytes(bytes, wire) + rest
    decreases count
  {
    if count == 0 {
      wire := [];
    } else {
      var Got(v, tail) := reader(false, s);
      var w :| same(w, v) && s == bytes(w) + tail;
      var others := ListSoundUpTo(reader, legal, bytes, same, count - 1, tail);
      wire := [w] + others;
      assert wire[1..] == others;
      Regroup(bytes(w), ListBytes(bytes, others), ParseList(reader, false, count, s).rest);
    }
  }

  lemma {:induction false} ListBytesAppend<T>(bytes: T -> Bytes, xs: seq<T>, ys: seq<T>)
    ensures ListBytes(bytes, xs + ys) == ListBytes(bytes, xs) + ListBytes(bytes, ys)
    decreases |xs|
  {
    if xs == [] {
      assert xs + ys == ys;
    } else {
      ListBytesAppend(bytes, xs[1..], ys);
      assert (xs + ys)[1..] == xs[1..] + ys;
    }
  }

  lemma RemoveLength<T>(bytes: T -> Bytes, vs: seq<T>, i: nat)
    requires i < |vs|
    ensures |ListBytes(bytes, vs)| == |bytes(vs[i])| + |ListBytes(bytes, vs[..i] + vs[i + 1..])|
  {
    assert vs == vs[..i] + vs[i..];
    ListBytesAppend(bytes, vs[..i], vs[i..]);
    ListBytesAppend(bytes, vs[..i], vs[i + 1..]);
    assert vs[i..][1..] == vs[i + 1..];
  }

  lemma RemoveMultiset<T>(vs: seq<T>, i: nat)
    requires i < |vs|
    ensures multiset(vs[..i] + vs[i + 1..]) == multiset(vs) - multiset{vs[i]}
  {
    assert vs == vs[..i] + [vs[i]] + vs[i + 1..];
  }

  lemma SameLength<T>(a: seq<T>, b: seq<T>)
    requires multiset(a) == multiset(b)
    ensures |a| == |b|
  {
    assert |multiset(a)| == |a| && |multiset(b)| == |b|;
  }

  /** Reordering the entries of a list does not change its encoded length. */
  lemma {:induction false} ReorderedLength<T>(bytes: T -> Bytes, a: seq<T>, b: seq<T>)
    requires multiset(a) == multiset(b)
    ensures |ListBytes(bytes, a)| == |ListBytes(bytes, b)|
    decreases |a|
  {
    SameLength(a, b);
    if a != [] {
      assert a[0] in multiset(b);
      var i :| 0 <= i < |b| && b[i] == a[0];
      RemoveLength(bytes, b, i);
      RemoveMultiset(b, i);
      RemoveMultiset(a, 0);
      assert a[..0] + a[1..] == a[1..];
      ReorderedLength(bytes, a[1..], b[..i] + b[i + 1..]);
    }
  }

  // ----- Sorted maps -----

  /** Byte-lexicographic order, the order of string keys. */
  predicate TextLess(a: Bytes, b: Bytes)
    decreases |a|
  {
    b != [] && (a == [] || a[0] < b[0] || (a[0] == b[0] && TextLess(a[1..], b[1..])))
  }

  predicate NumberLess(a: u64, b: u64) {
    a < b
  }

  ghost predicate StrictOrder<K(!new)>(less: (K, K) -> bool) {
    && (forall a :: !less(a, a))
    && (forall a, b :: less(a, b) || a == b || less(b, a))
    && (forall a, b, c :: less(a, b) && less(b, c) ==> less(a, c))
  }

  lemma {:induction false} TextLessTotal(a: Bytes, b: Bytes)
    ensures !TextLess(a, a)
    ensures TextLess(a, b) || a == b || TextLess(b, a)
    decreases |a|
  {
    if a != [] {
      TextLessTotal(a[1..], if b == [] then [] else b[1..]);
      if b != [] && a[0] == b[0] && a[1..] == b[1..] {
        assert a == [a[0]] + a[1..] == b;
      }
    }
  }

  lemma {:induction false} TextLessTransitive(a: Bytes, b: Bytes, c: Bytes)
    requires TextLess(a, b) && TextLess(b, c)
    ensures TextLess(a, c)
    decreases |a|
  {
    if a != [] && a[0] == b[0] == c[0] {
      TextLessTransitive(a[1..], b[1..], c[1..]);
    }
  }

  lemma TextOrder()
    ensures StrictOrder(TextLess)
  {
    forall a, b ensures !TextLess(a, a) && (TextLess(a, b) || a == b || TextLess(b, a)) {
      TextLessTotal(a, b);
    }
    forall a, b, c | TextLess(a, b) && TextLess(b, c) ensures TextLess(a, c) {
      TextLessTransitive(a, b, c);
    }
  }

  /** A sorted map is the sequence of its entries in key order. */
  predicate Ascending<K, V>(less: (K, K) -> bool, m: seq<(K, V)>) {
    forall i, j :: 0 <= i < j < |m| ==> less(m[i].0, m[j].0)
  }

  /** Insertion that refuses a key already present. */
  function Insert<K(==), V>(less: (K, K) -> bool, m: seq<(K, V)>, e: (K, V)): Option<seq<(K, V)>> {
    if m == [] || less(e.0, m[0].0) then Some([e] + m)
    else if e.0 == m[0].0 then None
    else match Insert(less, m[1..], e) case None => None case Some(tail) => Some([m[0]] + tail)
  }

  lemma {:induction false} InsertAdds<K, V>(less: (K, K) -> bool, m: seq<(K, V)>, e: (K, V))
    requires Insert(less, m, e).Some?
    ensures multiset(Insert(less, m, e).value) == multiset(m) + multiset{e}
  {
    if m != [] && !less(e.0, m[0].0) {
      InsertAdds(less, m[1..], e);
      assert m == [m[0]] + m[1..];
    }
  }

  lemma {:induction false} InsertAscends<K(!new), V>(less: (K, K) -> bool, m: seq<(K, V)>, e: (K, V))
    requires StrictOrder(less) && Ascending(less, m) && Insert(less, m, e).Some?
    ensures Ascending(less, Insert(less, m, e).value)
  {
    if m == [] {
    } else if less(e.0, m[0].0) {
      forall i | 0 <= i < |m| ensures less(e.0, m[i].0) {
      }
    } else {
      var rest := m[1..];
      InsertAscends(less, rest, e);
      InsertAdds(less, rest, e);
      var tail := Insert(less, rest, e).value;
      forall i | 0 <= i < |tail| ensures less(m[0].0, tail[i].0) {
        assert tail[i] in multiset(tail);
        assert tail[i] == e || tail[i] in rest;
      }
    }
  }

  /** A key is refused exactly when the map has it. */
  lemma {:induction false} InsertExactly<K(!new), V>(less: (K, K) -> bool, m: seq<(K, V)>, e: (K, V))
    requires StrictOrder(less) && Ascending(less, m)
    ensures Insert(less, m, e).Some? <==> forall i :: 0 <= i < |m| ==> m[i].0 != e.0
  {
    if m != [] && !less(e.0, m[0].0) && e.0 != m[0].0 {
      InsertExactly(less, m[1..], e);
      assert forall i :: 0 < i < |m| ==> m[i] == m[1..][i - 1];
    }
  }

  predicate DifferentKeys<K(==), V>(m: seq<(K, V)>) {
    forall i, j :: 0 <= i < j < |m| ==> m[i].0 != m[j].0
  }

  lemma {:induction false} NoEntryTwice<K(!new), V>(less: (K, K) -> bool, m: seq<(K, V)>, e: (K, V))
    requires StrictOrder(less) && Ascending(less, m)
    ensures multiset(m)[e] <= 1
  {
    if m != [] {
      NoEntryTwice(less, m[1..], e);
      assert m == [m[0]] + m[1..];
      if e == m[0] {
        assert e !in m[1..];
      }
    }
  }

  /** A map has each key once, in whatever order its entries are written. */
  lemma KeysDiffer<K(!new), V>(less: (K, K) -> bool, m: seq<(K, V)>, entries: seq<(K, V)>)
    requires StrictOrder(less) && Ascending(less, m) && multiset(entries) == multiset(m)
    ensures DifferentKeys(entries)
  {
    forall i, j | 0 <= i < j < |entries| ensures entries[i].0 != entries[j].0 {
      assert entries[i] in multiset(m) && entries[j] in multiset(m);
      if entries[i] == entries[j] {
        assert entries == entries[..j] + entries[j..] && entries[..j][i] == entries[i] && entries[j..][0] == entries[i];
        assert multiset(entries[..j])[entries[i]] >= 1 && multiset(entries[j..])[entries[i]] >= 1;
        NoEntryTwice(less, m, entries[i]);
      }
    }
  }

  /** Two maps with the same entries are the same. */
  lemma {:induction false} SortedOnce<K(!new), V>(less: (K, K) -> bool, a: seq<(K, V)>, b: seq<(K, V)>)
    requires StrictOrder(less) && Ascending(less, a) && Ascending(less, b) && multiset(a) == multiset(b)
    ensures a == b
    decreases |a|
  {
    SameLength(a, b);
    if a != [] {
      assert a[0] in multiset(b) && b[0] in multiset(a);
      assert a[0] in b && b[0] in a;
      assert a[0] == b[0];
      assert a == [a[0]] + a[1..] && b == [b[0]] + b[1..];
      assert multiset(a[1..]) == multiset(a) - multiset{a[0]} && multiset(b[1..]) == multiset(b) - multiset{a[0]};
      SortedOnce(less, a[1..], b[1..]);
    }
  }

  /** Reads `count` entries into a map that already holds `acc`. */
  function ParseMap<K(==), V>(less: (K, K) -> bool, reader: Reader<(K, V)>, fenced: bool, count: nat, s: Bytes,
                              acc: seq<(K, V)>): Parsed<seq<(K, V)>>
    decreases count
  {
    if count == 0 then Got(acc, s)
    else
      var (e, tail) :- reader(fenced, s);
      match Insert(less, acc, e)
      case None => Bad(INVALID_ARGUMENT)
      case Some(next) => ParseMap(less, reader, fenced, count - 1, tail, next)
  }

  lemma {:induction false} MapTransparent<K(!new), V(!new)>(
      less: (K, K) -> bool, reader: Reader<(K, V)>, minimum: nat, suffix: nat, count: nat, s: Bytes, acc: seq<(K, V)>)
    requires Transparent(reader, minimum, suffix)
    ensures TransparentAt(ParseMap(less, reader, true, count, s, acc), ParseMap(less, reader, false, count, s, acc),
                          s, count * minimum, suffix)
    decreases count
  {
    if count > 0 {
      var a, b := reader(true, s), reader(false, s);
      assert TransparentAt(a, b, s, minimum, suffix);
      if b.Got? && Insert(less, acc, b.value).Some? {
        MapTransparent(less, reader, minimum, suffix, count - 1, b.rest, Insert(less, acc, b.value).value);
        assert count * minimum == (count - 1) * minimum + minimum;
      }
    }
  }

  /** No key of one is a key of the other. */
  ghost predicate Apart<K, V>(a: seq<(K, V)>, b: seq<(K, V)>) {
    forall i, j :: 0 <= i < |a| && 0 <= j < |b| ==> a[i].0 != b[j].0
  }

  /** Entries with different keys are all read, in whatever order they stand. */
  lemma {:induction false} MapReads<K(!new), V(!new)>(
      less: (K, K) -> bool, reader: Reader<(K, V)>, legal: ((K, V)) -> bool, bytes: ((K, V)) -> Bytes,
      acc: seq<(K, V)>, entries: seq<(K, V)>, rest: Bytes)
    requires StrictOrder(less) && Complete(reader, legal, bytes) && All(legal, entries)
    requires Ascending(less, acc) && DifferentKeys(entries) && Apart(acc, entries)
    ensures var p := ParseMap(less, reader, false, |entries|, ListBytes(bytes, entries) + rest, acc);
            && p.Got? && p.rest == rest && Ascending(less, p.value)
            && multiset(p.value) == multiset(acc) + multiset(entries)
    decreases |entries|
  {
    if entries == [] {
      assert ListBytes(bytes, entries) + rest == rest;
    } else {
      var e, others := entries[0], entries[1..];
      Regroup(bytes(e), ListBytes(bytes, others), rest);
      InsertExactly(less, acc, e);
      InsertAdds(less, acc, e);
      InsertAscends(less, acc, e);
      var next := Insert(less, acc, e).value;
      assert Apart(next, others) by {
        forall i, j | 0 <= i < |next| && 0 <= j < |others| ensures next[i].0 != others[j].0 {
          assert next[i] in multiset(next) && others[j] == entries[j + 1];
          assert next[i] == e || next[i] in acc;
        }
      }
      MapReads(less, reader, legal, bytes, next, others, rest);
      assert entries == [e] + others;
    }
  }

  /** The entries of a map come back as that map, in whatever order they were written. */
  lemma MapComplete<K(!new), V(!new)>(
      less: (K, K) -> bool, reader: Reader<(K, V)>, legal: ((K, V)) -> bool, bytes: ((K, V)) -> Bytes,
      m: seq<(K, V)>, entries: seq<(K, V)>, rest: Bytes)
    requires StrictOrder(less) && Complete(reader, legal, bytes) && All(legal, m) && Ascending(less, m)
    requires multiset(entries) == multiset(m)
    ensures ParseMap(less, reader, false, |entries|, ListBytes(bytes, entries) + rest, []) == Got(m, rest)
  {
    forall i | 0 <= i < |entries| ensures legal(entries[i]) {
      assert entries[i] in multiset(m);
    }
    KeysDiffer(less, m, entries);
    MapReads(less, reader, legal, bytes, [], entries, rest);
    SortedOnce(less, ParseMap(less, reader, false, |entries|, ListBytes(bytes, entries) + rest, []).value, m);
  }

  lemma {:induction false} MapRejects<K(!new), V(!new)>(
      less: (K, K) -> bool, reader: Reader<(K, V)>, encodable: ((K, V)) -> bool, legal: ((K, V)) -> bool,
      bytes: ((K, V)) -> Bytes, acc: seq<(K, V)>, m: seq<(K, V)>, rest: Bytes)
    requires Complete(reader, legal, bytes) && Rejects(reader, encodable, legal, bytes)
    requires All(encodable, m) && !All(legal, m)
    ensures ParseMap(less, reader, false, |m|, ListBytes(bytes, m) + rest, acc).Bad?
    decreases |m|
  {
    Regroup(bytes(m[0]), ListBytes(bytes, m[1..]), rest);
    if legal(m[0]) && Insert(less, acc, m[0]).Some? {
      MapRejects(less, reader, encodable, legal, bytes, Insert(less, acc, m[0]).value, m[1..], rest);
    }
  }

  /** The entries of an accepted map, in the order they stand on the wire. */
  lemma {:induction false} MapSound<K(!new), V(!new)>(
      less: (K, K) -> bool, reader: Reader<(K, V)>, legal: ((K, V)) -> bool, bytes: ((K, V)) -> Bytes,
      count: nat, s: Bytes, acc: seq<(K, V)>) returns (entries: seq<(K, V)>)
    requires StrictOrder(less) && Sound(reader, legal, bytes) && Ascending(less, acc)
    requires ParseMap(less, reader, false, count, s, acc).Got?
    ensures var Got(m, rest) := ParseMap(less, reader, false, count, s, acc);
            && |entries| == count && All(legal, entries) && s == ListBytes(bytes, entries) + rest
            && Ascending(less, m) && multiset(m) == multiset(acc) + multiset(entries)
    decreases count
  {
    if count == 0 {
      entries := [];
    } else {
      var Got(e, tail) := reader(false, s);
      var next := Insert(less, acc, e).value;
      InsertAdds(less, acc, e);
      InsertAscends(less, acc, e);
      var es := MapSound(less, reader, legal, bytes, count - 1, tail, next);
      entries := [e] + es;
      var rest := ParseMap(less, reader, false, count, s, acc).rest;
      assert entries[1..] == es;
      assert s == bytes(e) + (ListBytes(bytes, es) + rest);
    }
  }

  // ----- Counted collections: a count, its fence, the entries -----

  function ParseCount(width: nat, maximum: nat, contract: CountContract, fenced: bool, s: Bytes): Parsed<nat> {
    var (count, rest) :- ParseUint(width, s);
    if count > maximum || !Fenced(fenced, count, rest, contract) then Bad(INVALID_ARGUMENT) else Got(count, rest)
  }

  function ParseCounted<T>(reader: Reader<T>, width: nat, maximum: nat, contract: CountContract,
                           fenced: bool, s: Bytes): Parsed<seq<T>> {
    var (count, rest) :- ParseCount(width, maximum, contract, fenced, s);
    ParseList(reader, fenced, count, rest)
  }

  function ParseCountedMap<K(==), V>(less: (K, K) -> bool, reader: Reader<(K, V)>, width: nat, maximum: nat,
                                     contract: CountContract, fenced: bool, s: Bytes): Parsed<seq<(K, V)>> {
    var (count, rest) :- ParseCount(width, maximum, contract, fenced, s);
    ParseMap(less, reader, fenced, count, rest, [])
  }

  function CountedBytes<T>(bytes: T -> Bytes, width: nat, vs: seq<T>): Bytes {
    LittleEndian(|vs|, width) + ListBytes(bytes, vs)
  }

  /** A fence whose contract underestimates neither an entry nor the bytes that must follow is transparent. */
  lemma CountedTransparent<T(!new)>(
      reader: Reader<T>, minimum: nat, suffix: nat, width: nat, maximum: nat, contract: CountContract, s: Bytes)
    requires Transparent(reader, minimum, suffix)
    requires 0 < minimum && contract == CountContract(minimum, suffix)
    ensures TransparentAt(ParseCounted(reader, width, maximum, contract, true, s),
                          ParseCounted(reader, width, maximum, contract, false, s), s, width, suffix)
  {
    if width <= |s| {
      var Got(count, rest) := ParseUint(width, s);
      ListTransparent(reader, minimum, suffix, count, rest);
      CountFitsExactly(count, |rest|, contract);
    }
  }

  lemma CountedMapTransparent<K(!new), V(!new)>(
      less: (K, K) -> bool, reader: Reader<(K, V)>, minimum: nat, suffix: nat, width: nat, maximum: nat,
      contract: CountContract, s: Bytes)
    requires Transparent(reader, minimum, suffix)
    requires 0 < minimum && contract == CountContract(minimum, suffix)
    ensures TransparentAt(ParseCountedMap(less, reader, width, maximum, contract, true, s),
                          ParseCountedMap(less, reader, width, maximum, contract, false, s), s, width, suffix)
  {
    if width <= |s| {
      var Got(count, rest) := ParseUint(width, s);
      MapTransparent(less, reader, minimum, suffix, count, rest, []);
      CountFitsExactly(count, |rest|, contract);
    }
  }

  lemma CountedComplete<T(!new)>(
      reader: Reader<T>, legal: T -> bool, bytes: T -> Bytes, width: nat, maximum: nat, contract: CountContract,
      vs: seq<T>, rest: Bytes)
    requires Complete(reader, legal, bytes) && All(legal, vs) && |vs| <= maximum && |vs| < Pow256(width)
    ensures ParseCounted(reader, width, maximum, contract, false, CountedBytes(bytes, width, vs) + rest)
              == Got(vs, rest)
  {
    Regroup(LittleEndian(|vs|, width), ListBytes(bytes, vs), rest);
    UintExact(width, |vs|, ListBytes(bytes, vs) + rest, []);
    ListComplete(reader, legal, bytes, vs, rest);
  }

  lemma CountedSound<T(!new)>(
      reader: Reader<T>, legal: T -> bool, bytes: T -> Bytes, width: nat, maximum: nat, contract: CountContract,
          s: Bytes)
    requires Sound(reader, legal, bytes) && ParseCounted(reader, width, maximum, contract, false, s).Got?
    ensures var Got(vs, rest) := ParseCounted(reader, width, maximum, contract, false, s);
            |vs| <= maximum && All(legal, vs) && s == CountedBytes(bytes, width, vs) + rest
  {
    UintExact(width, 0, [], s);
    var Got(count, tail) := ParseUint(width, s);
    ListSound(reader, legal, bytes, count, tail);
    var Got(vs, rest) := ParseList(reader, false, count, tail);
    Regroup(LittleEndian(count, width), ListBytes(bytes, vs), rest);
  }

  lemma CountedCompleteUpTo<T(!new)>(
      reader: Reader<T>, legal: T -> bool, bytes: T -> Bytes, same: (T, T) -> bool,
      width: nat, maximum: nat, contract: CountContract, wire: seq<T>, vs: seq<T>, rest: Bytes)
    requires CompleteUpTo(reader, legal, bytes, same) && All(legal, vs) && Pointwise(same, wire, vs)
    requires |vs| <= maximum && |vs| < Pow256(width)
    ensures ParseCounted(reader, width, maximum, contract, false, CountedBytes(bytes, width, wire) + rest)
              == Got(vs, rest)
  {
    Regroup(LittleEndian(|wire|, width), ListBytes(bytes, wire), rest);
    UintExact(width, |wire|, ListBytes(bytes, wire) + rest, []);
    ListCompleteUpTo(reader, legal, bytes, same, wire, vs, rest);
  }

  lemma CountedSoundUpTo<T(!new)>(
      reader: Reader<T>, legal: T -> bool, bytes: T -> Bytes, same: (T, T) -> bool,
      width: nat, maximum: nat, contract: CountContract, s: Bytes) returns (wire: seq<T>)
    requires SoundUpTo(reader, legal, bytes, same) && ParseCounted(reader, width, maximum, contract, false, s).Got?
    ensures var Got(vs, rest) := ParseCounted(reader, width, maximum, contract, false, s);
            |vs| <= maximum && All(legal, vs) && Pointwise(same, wire, vs)
                && s == CountedBytes(bytes, width, wire) + rest
  {
    UintExact(width, 0, [], s);
    var Got(count, tail) := ParseUint(width, s);
    wire := ListSoundUpTo(reader, legal, bytes, same, count, tail);
    var rest := ParseList(reader, false, count, tail).rest;
    Regroup(LittleEndian(count, width), ListBytes(bytes, wire), rest);
  }

  lemma CountedMapComplete<K(!new), V(!new)>(
      less: (K, K) -> bool, reader: Reader<(K, V)>, legal: ((K, V)) -> bool, bytes: ((K, V)) -> Bytes,
      width: nat, maximum: nat, contract: CountContract, m: seq<(K, V)>, entries: seq<(K, V)>, rest: Bytes)
    requires StrictOrder(less) && Complete(reader, legal, bytes)
    requires All(legal, m) && Ascending(less, m) && |m| <= maximum && |m| < Pow256(width)
    requires multiset(entries) == multiset(m)
    ensures ParseCountedMap(less, reader, width, maximum, contract, false, CountedBytes(bytes, width, entries) + rest)
            == Got(m, rest)
  {
    SameLength(entries, m);
    Regroup(LittleEndian(|entries|, width), ListBytes(bytes, entries), rest);
    UintExact(width, |entries|, ListBytes(bytes, entries) + rest, []);
    MapComplete(less, reader, legal, bytes, m, entries, rest);
  }

  /** The entries of an accepted map in wire order: the same entries, written in some order. */
  lemma CountedMapSound<K(!new), V(!new)>(
      less: (K, K) -> bool, reader: Reader<(K, V)>, legal: ((K, V)) -> bool, bytes: ((K, V)) -> Bytes,
      width: nat, maximum: nat, contract: CountContract, s: Bytes) returns (entries: seq<(K, V)>)
    requires StrictOrder(less) && Sound(reader, legal, bytes)
    requires ParseCountedMap(less, reader, width, maximum, contract, false, s).Got?
    ensures var Got(m, rest) := ParseCountedMap(less, reader, width, maximum, contract, false, s);
            && |m| <= maximum && All(legal, m) && Ascending(less, m) && multiset(entries) == multiset(m)
            && s == CountedBytes(bytes, width, entries) + rest
  {
    UintExact(width, 0, [], s);
    var Got(count, tail) := ParseUint(width, s);
    entries := MapSound(less, reader, legal, bytes, count, tail, []);
    var Got(m, rest) := ParseMap(less, reader, false, count, tail, []);
    SameLength(entries, m);
    forall i | 0 <= i < |m| ensures legal(m[i]) {
      assert m[i] in multiset(entries);
    }
    Regroup(LittleEndian(count, width), ListBytes(bytes, entries), rest);
  }
}
