/** The strict text validator, against the definition of UTF-8 in sections 3 and 4 of RFC 3629. */
module Utf8 {
  import opened Wire

  // ----- Definition: scalar values and their encodings -----

  predicate Scalar(c: nat) {
    c <= 0x10FFFF && !(0xD800 <= c <= 0xDFFF)
  }

  /** The only encoding of a scalar value: shortest form, six payload bits in each continuation byte. */
  function EncodeScalar(c: nat): (r: Bytes)
    requires Scalar(c)
    ensures 1 <= |r| <= 4
  {
    if c < 0x80 then [c]
    else if c < 0x800 then [0xC0 + c / 64, 0x80 + c % 64]
    else if c < 0x1_0000 then [0xE0 + c / 4096, 0x80 + c / 64 % 64, 0x80 + c % 64]
    else [0xF0 + c / 0x4_0000, 0x80 + c / 4096 % 64, 0x80 + c / 64 % 64, 0x80 + c % 64]
  }

  predicate Scalars(cs: seq<nat>) {
    forall i :: 0 <= i < |cs| ==> Scalar(cs[i])
  }

  function EncodeText(cs: seq<nat>): Bytes
    requires Scalars(cs)
  {
    if cs == [] then [] else EncodeScalar(cs[0]) + EncodeText(cs[1..])
  }

  // ----- The validator's reading of one scalar -----

  predicate Continuation(b: byte) {
    b / 64 == 2
  }

  /** Lead byte class: number of continuation bytes, payload bits of the lead byte, smallest legal scalar. */
  datatype Lead = Lead(continuations: nat, bits: nat, minimum: nat)

  function Classify(first: byte): Option<Lead> {
    if first <= 0x7F then Some(Lead(0, first, 0))
    else if 0xC2 <= first <= 0xDF then Some(Lead(1, first % 32, 0x80))
    else if 0xE0 <= first <= 0xEF then Some(Lead(2, first % 16, 0x800))
    else if 0xF0 <= first <= 0xF4 then Some(Lead(3, first % 8, 0x1_0000))
    else None
  }

  /** Appends the payload bits of `k` continuation bytes of `s`, starting after the lead byte. */
  function Accumulate(s: Bytes, bits: nat, k: nat): Option<nat>
    requires k < |s|
  {
    if k == 0 then Some(bits)
    else
      match Accumulate(s, bits, k - 1)
      case None => None
      case Some(scalar) => if Continuation(s[k]) then Some(scalar * 64 + s[k] % 64) else None
  }

  /** The scalar at the start of `s` with its encoded length, or nothing if `s` does not start with one. */
  function First(s: Bytes): Option<(nat, nat)>
    requires s != []
  {
    match Classify(s[0])
    case None => None
    case Some(lead) =>
      if lead.continuations > |s| - 1 then None
      else
        match Accumulate(s, lead.bits, lead.continuations)
        case None => None
        case Some(scalar) =>
          if scalar < lead.minimum || !Scalar(scalar) then None else Some((scalar, lead.continuations + 1))
  }

  predicate WellFormed(s: Bytes)
    decreases |s|
  {
    s == [] || match First(s) { case None => false case Some((_, n)) => 0 < n <= |s| && WellFormed(s[n..]) }
  }

  // ----- The validator accepts exactly the encodings -----

  /** Two continuation bytes, spelled out. */
  lemma AccumulateTwo(s: Bytes, bits: nat)
    requires |s| > 2 && Continuation(s[1])
    ensures Accumulate(s, bits, 1) == Some(bits * 64 + s[1] as int % 64)
    ensures Continuation(s[2]) ==>
              Accumulate(s, bits, 2) == Some((bits * 64 + s[1] as int % 64) * 64 + s[2] as int % 64)
  {
    assert Accumulate(s, bits, 0) == Some(bits);
  }

  /** Six-bit groups of a number, most significant last. */
  lemma SixBitGroups(c: nat)
    ensures c == c / 64 * 64 + c % 64
    ensures c / 64 == c / 4096 * 64 + c / 64 % 64
    ensures c / 4096 == c / 0x4_0000 * 64 + c / 4096 % 64
  {
    assert c / 64 / 64 == c / 4096;
    assert c / 4096 / 64 == c / 0x4_0000;
  }

  lemma AppendGroup(q: nat, r: nat)
    requires r < 64
    ensures (q * 64 + r) / 64 == q && (q * 64 + r) % 64 == r
  {
  }

  /** Reading back the encoding of a scalar, whatever follows it. */
  lemma FirstOfEncoding(c: nat, rest: Bytes)
    requires Scalar(c)
    ensures First(EncodeScalar(c) + rest) == Some((c, |EncodeScalar(c)|))
  {
    var e := EncodeScalar(c);
    var s := e + rest;
    assert s[0] == e[0] && s[..|e|] == e;
    SixBitGroups(c);
    if |e| == 1 {
      assert Accumulate(s, s[0], 0) == Some(c);
    } else if |e| == 2 {
      assert Accumulate(s, s[0] % 32, 0) == Some(s[0] % 32);
      assert s[1] == e[1];
    } else if |e| == 3 {
      FirstOfThree(c, s);
    } else {
      FirstOfFour(c, s);
    }
  }

  lemma FirstOfThree(c: nat, s: Bytes)
    requires Scalar(c) && 0x800 <= c < 0x1_0000 && |s| >= 3
    requires s[0] == 0xE0 + c / 4096 && s[1] == 0x80 + c / 64 % 64 && s[2] == 0x80 + c % 64
    ensures First(s) == Some((c, 3))
  {
    SixBitGroups(c);
    assert s[0] % 16 == c / 4096 && s[1] % 64 == c / 64 % 64 && s[2] % 64 == c % 64;
    AccumulateTwo(s, s[0] % 16);
  }

  lemma FirstOfFour(c: nat, s: Bytes)
    requires 0x1_0000 <= c <= 0x10FFFF && |s| >= 4
    requires s[0] == 0xF0 + c / 0x4_0000 && s[1] == 0x80 + c / 4096 % 64
    requires s[2] == 0x80 + c / 64 % 64 && s[3] == 0x80 + c % 64
    ensures First(s) == Some((c, 4))
  {
    SixBitGroups(c);
    assert s[0] % 8 == c / 0x4_0000 && s[1] % 64 == c / 4096 % 64;
    assert s[2] % 64 == c / 64 % 64 && s[3] % 64 == c % 64;
    AccumulateTwo(s, s[0] % 8);
  }

  lemma TwoBytes(q: nat, b1: byte)
    requires q < 32 && Continuation(b1) && 0x80 <= q * 64 + b1 as int % 64
    ensures var c: int := q * 64 + b1 as int % 64; EncodeScalar(c) == [0xC0 + q, b1]
  {
    AppendGroup(q, b1 as int % 64);
  }

  lemma ThreeBytes(q: nat, b1: byte, b2: byte)
    requires q < 16 && Continuation(b1) && Continuation(b2)
    requires var c: int := (q * 64 + b1 as int % 64) * 64 + b2 as int % 64; Scalar(c) && 0x800 <= c
    ensures var c: int := (q * 64 + b1 as int % 64) * 64 + b2 as int % 64; EncodeScalar(c) == [0xE0 + q, b1, b2]
  {
    var c1: int := q * 64 + b1 as int % 64;
    var c2: int := c1 * 64 + b2 as int % 64;
    AppendGroup(q, b1 as int % 64);
    AppendGroup(c1, b2 as int % 64);
    assert c2 / 4096 == c2 / 64 / 64;
  }

  lemma FourBytes(q: nat, b1: byte, b2: byte, b3: byte)
    requires q < 8 && Continuation(b1) && Continuation(b2) && Continuation(b3)
    requires var c: int := ((q * 64 + b1 as int % 64) * 64 + b2 as int % 64) * 64 + b3 as int % 64;
             0x1_0000 <= c <= 0x10FFFF
    ensures var c: int := ((q * 64 + b1 as int % 64) * 64 + b2 as int % 64) * 64 + b3 as int % 64;
            EncodeScalar(c) == [0xF0 + q, b1, b2, b3]
  {
    var c1: int := q * 64 + b1 as int % 64;
    var c2: int := c1 * 64 + b2 as int % 64;
    var c3: int := c2 * 64 + b3 as int % 64;
    AppendGroup(q, b1 as int % 64);
    AppendGroup(c1, b2 as int % 64);
    AppendGroup(c2, b3 as int % 64);
    assert c3 / 4096 == c3 / 64 / 64 && c3 / 0x4_0000 == c3 / 64 / 64 / 64;
  }

  lemma FirstIsThree(s: Bytes, c: nat)
    requires s != [] && First(s) == Some((c, 3))
    ensures EncodeScalar(c) == [s[0], s[1], s[2]]
  {
    var q := s[0] % 16;
    assert Accumulate(s, q, 1).Some? && Accumulate(s, q, 0) == Some(q);
    AccumulateTwo(s, q);
    ThreeBytes(q, s[1], s[2]);
  }

  lemma FirstIsFour(s: Bytes, c: nat)
    requires s != [] && First(s) == Some((c, 4))
    ensures EncodeScalar(c) == [s[0], s[1], s[2], s[3]]
  {
    var q := s[0] % 8;
    assert Accumulate(s, q, 2).Some? && Accumulate(s, q, 1).Some? && Accumulate(s, q, 0) == Some(q);
    AccumulateTwo(s, q);
    FourBytes(q, s[1], s[2], s[3]);
  }

  /** Whatever the validator reads as a scalar is that scalar's encoding. */
  lemma FirstIsEncoding(s: Bytes)
    requires s != [] && First(s).Some?
    ensures var (c, n) := First(s).value; Scalar(c) && n <= |s| && EncodeScalar(c) == s[..n]
  {
    var (c, n) := First(s).value;
    if n == 1 {
      assert Accumulate(s, s[0], 0) == Some(c);
    } else if n == 2 {
      assert Accumulate(s, s[0] % 32, 0) == Some(s[0] % 32);
      TwoBytes(s[0] % 32, s[1]);
      assert s[..2] == [s[0], s[1]];
    } else if n == 3 {
      FirstIsThree(s, c);
      assert s[..3] == [s[0], s[1], s[2]];
    } else {
      FirstIsFour(s, c);
      assert s[..4] == [s[0], s[1], s[2], s[3]];
    }
  }

  lemma {:induction false} EncodingsAreWellFormed(cs: seq<nat>)
    requires Scalars(cs)
    ensures WellFormed(EncodeText(cs))
  {
    hide First, EncodeScalar, Scalar;
    if cs != [] {
      var e, tail := EncodeScalar(cs[0]), EncodeText(cs[1..]);
      FirstOfEncoding(cs[0], tail);
      EncodingsAreWellFormed(cs[1..]);
      assert EncodeText(cs)[|e|..] == tail;
    }
  }

  lemma {:induction false} WellFormedIsAnEncoding(s: Bytes) returns (cs: seq<nat>)
    requires WellFormed(s)
    ensures Scalars(cs) && EncodeText(cs) == s
    decreases |s|
  {
    hide First, EncodeScalar, Scalar;
    if s == [] {
      cs := [];
    } else {
      var (c, n) := First(s).value;
      FirstIsEncoding(s);
      var tail := WellFormedIsAnEncoding(s[n..]);
      cs := [c] + tail;
      assert cs[1..] == tail && s == s[..n] + s[n..];
    }
  }

  /** The validator's language is exactly the set of encodings of scalar sequences. */
  lemma WellFormedExactly(s: Bytes)
    ensures WellFormed(s) <==> exists cs :: Scalars(cs) && EncodeText(cs) == s
  {
    if WellFormed(s) {
      var cs := WellFormedIsAnEncoding(s);
    }
    forall cs | Scalars(cs) && EncodeText(cs) == s ensures WellFormed(s) {
      EncodingsAreWellFormed(cs);
    }
  }

  /** A text has at most one decomposition into scalars. */
  lemma {:induction false} DecompositionIsUnique(cs: seq<nat>, ds: seq<nat>)
    requires Scalars(cs) && Scalars(ds) && EncodeText(cs) == EncodeText(ds)
    ensures cs == ds
  {
    if cs != [] && ds != [] {
      FirstOfEncoding(cs[0], EncodeText(cs[1..]));
      FirstOfEncoding(ds[0], EncodeText(ds[1..]));
      var n := |EncodeScalar(cs[0])|;
      assert EncodeText(cs[1..]) == EncodeText(cs)[n..] == EncodeText(ds)[n..] == EncodeText(ds[1..]);
      DecompositionIsUnique(cs[1..], ds[1..]);
    }
  }

  // ----- The loop -----

  /** The inner pass over the continuation bytes after the lead byte at `index`. */
  method Continue(value: Bytes, index: nat, count: nat, bits: nat) returns (scalar: Option<nat>)
    requires index + count < |value|
    ensures scalar == Accumulate(value[index..], bits, count)
  {
    ghost var s := value[index..];
    var sum := bits;
    var continuation := 0;
    while continuation < count
      invariant continuation <= count < |s| && Accumulate(s, bits, continuation) == Some(sum)
    {
      var b := value[index + continuation + 1];
      assert b == s[continuation + 1];
      if b / 64 != 2 {
        AccumulateStops(s, bits, continuation + 1, count);
        return None;
      }
      sum := sum * 64 + b as int % 64;
      continuation := continuation + 1;
    }
    scalar := Some(sum);
  }

  /** The validator itself: one pass with an index over the lead bytes. */
  method Validate(value: Bytes) returns (valid: bool)
    ensures valid == WellFormed(value)
    ensures valid <==> exists cs :: Scalars(cs) && EncodeText(cs) == value
  {
    hide EncodeText;
    WellFormedExactly(value);
    var index := 0;
    while index < |value|
      invariant index <= |value|
      invariant WellFormed(value) == WellFormed(value[index..])
    {
      var first := value[index];
      ghost var s := value[index..];
      if first <= 0x7F {
        assert Accumulate(s, first, 0) == Some(first);
        assert s[1..] == value[index + 1..];
        index := index + 1;
        continue;
      }
      var continuationCount: nat, scalar: nat, minimum: nat := 0, 0, 0;
      if 0xC2 <= first <= 0xDF {
        continuationCount, scalar, minimum := 1, first % 32, 0x80;
      } else if 0xE0 <= first <= 0xEF {
        continuationCount, scalar, minimum := 2, first % 16, 0x800;
      } else if 0xF0 <= first <= 0xF4 {
        continuationCount, scalar, minimum := 3, first % 8, 0x1_0000;
      } else {
        return false;
      }
      if continuationCount > |value| - index - 1 {
        return false;
      }
      var accumulated := Continue(value, index, continuationCount, scalar);
      if accumulated.None? {
        return false;
      }
      scalar := accumulated.value;
      if scalar < minimum || scalar > 0x10FFFF || 0xD800 <= scalar <= 0xDFFF {
        return false;
      }
      assert s[continuationCount + 1..] == value[index + continuationCount + 1..];
      index := index + continuationCount + 1;
    }
    return true;
  }

  lemma {:induction false} AccumulateStops(s: Bytes, bits: nat, k: nat, n: nat)
    requires k <= n < |s| && Accumulate(s, bits, k).None?
    ensures Accumulate(s, bits, n).None?
  {
    if k < n {
      AccumulateStops(s, bits, k, n - 1);
    }
  }
}
