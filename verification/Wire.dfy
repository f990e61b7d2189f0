/** Bytes, bounded integers, status categories and result types shared by every component. */
module Wire {

  type byte = b: nat | b < 256
  type Bytes = seq<byte>
  type u16 = x: nat | x < 0x1_0000
  type u32 = x: nat | x < 0x1_0000_0000
  type u64 = x: nat | x < 0x1_0000_0000_0000_0000
  type i64 = x: int | -0x8000_0000_0000_0000 <= x < 0x8000_0000_0000_0000

  const PROTOCOL_VERSION: u16 := 3
  const MAXIMUM_FRAME_PAYLOAD_BYTES: nat := 4 * 1024 * 1024

  /** Kernel status categories. Only their order matters: success is zero and `INTERNAL` is the largest. */
  type ErrorCode = byte
  const OK: ErrorCode := 0
  const INVALID_ARGUMENT: ErrorCode := 1
  const NOT_FOUND: ErrorCode := 2
  const RESOURCE_EXHAUSTED: ErrorCode := 3
  const CANCELLED: ErrorCode := 4
  const INTERNAL: ErrorCode := 5

  datatype Option<+T> = None | Some(value: T)

  /** A category with its diagnostic text. */
  datatype Status = Status(code: ErrorCode, message: Bytes)

  /** Outcome of an operation that stores its product in the object it works on. */
  datatype Outcome = Pass | Fail(code: ErrorCode) {
    predicate IsFailure() {
      Fail?
    }

    function PropagateFailure(): Outcome
      requires Fail?
    {
      this
    }
  }

  /** A value, or the category of the failure that replaced it. */
  datatype Result<+T> = Ok(value: T) | Err(code: ErrorCode) {
    predicate IsFailure() {
      Err?
    }

    function PropagateFailure<U>(): Result<U>
      requires Err?
    {
      Err(code)
    }

    function Extract(): T
      requires Ok?
    {
      value
    }
  }

  /** Result of reading a prefix of some bytes: the value with the unread rest, or a failure category. */
  datatype Parsed<+T> = Got(value: T, rest: Bytes) | Bad(code: ErrorCode) {
    predicate IsFailure() {
      Bad?
    }

    function PropagateFailure<U>(): Parsed<U>
      requires Bad?
    {
      Bad(code)
    }

    function Extract(): (T, Bytes)
      requires Got?
    {
      (value, rest)
    }
  }

  // ----- Little-endian integers -----

  function Pow256(width: nat): (r: nat)
    ensures r > 0
  {
    if width == 0 then 1 else 256 * Pow256(width - 1)
  }

  function LittleEndian(value: nat, width: nat): (r: Bytes)
    ensures |r| == width
  {
    if width == 0 then [] else [value % 256] + LittleEndian(value / 256, width - 1)
  }

  function FromLittleEndian(s: Bytes): (r: nat)
    ensures r < Pow256(|s|)
  {
    if s == [] then 0 else s[0] + 256 * FromLittleEndian(s[1..])
  }

  lemma {:induction false} LittleEndianInverse(value: nat, width: nat)
    requires value < Pow256(width)
    ensures FromLittleEndian(LittleEndian(value, width)) == value
  {
    if width > 0 {
      LittleEndianInverse(value / 256, width - 1);
      assert LittleEndian(value, width)[1..] == LittleEndian(value / 256, width - 1);
    }
  }

  lemma {:induction false} FromLittleEndianInverse(s: Bytes)
    ensures LittleEndian(FromLittleEndian(s), |s|) == s
  {
    if s != [] {
      FromLittleEndianInverse(s[1..]);
      var n := FromLittleEndian(s);
      assert n % 256 == s[0] && n / 256 == FromLittleEndian(s[1..]);
    }
  }

  lemma Powers()
    ensures Pow256(1) == 0x100 && Pow256(2) == 0x1_0000 && Pow256(4) == 0x1_0000_0000
    ensures Pow256(8) == 0x1_0000_0000_0000_0000
  {
    assert Pow256(2) == 0x1_0000;
    assert Pow256(3) == 0x100_0000;
    assert Pow256(4) == 0x1_0000_0000;
    assert Pow256(5) == 0x100_0000_0000;
    assert Pow256(6) == 0x1_0000_0000_0000;
    assert Pow256(7) == 0x100_0000_0000_0000;
  }

  /** The two's complement pattern of a signed integer. */
  function SignedBits(v: i64): u64 {
    if v < 0 then v + 0x1_0000_0000_0000_0000 else v
  }

  function FromSignedBits(bits: u64): i64 {
    if bits < 0x8000_0000_0000_0000 then bits else bits - 0x1_0000_0000_0000_0000
  }
}
