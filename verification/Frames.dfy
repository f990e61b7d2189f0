/** Length-prefixed frames over a byte stream that may split, interrupt or break any transfer. */
module Frames {
  import opened Wire
  import Grammar
  import Messages

  const CHUNK_BYTES := 16 * 1024
  const LENGTH_BYTES := 4

  // ----- What a stream of bytes means -----

  function Length(size: nat): (r: Bytes)
    requires size < 0x1_0000_0000
    ensures |r| == LENGTH_BYTES
  {
    [size / 0x100_0000, size / 0x1_0000 % 256, size / 0x100 % 256, size % 256]
  }

  function SizeOf(header: Bytes): nat
    requires |header| == LENGTH_BYTES
  {
    header[0] as int * 0x100_0000 + header[1] as int * 0x1_0000 + header[2] as int * 0x100 + header[3] as int
  }

  lemma LengthInverse(size: nat)
    requires size < 0x1_0000_0000
    ensures SizeOf(Length(size)) == size
  {
    var high, middle := size / 0x1_0000, size / 0x100;
    assert high / 256 == size / 0x100_0000 && middle / 256 == high;
    assert size == middle * 256 + size % 256 && middle == high * 256 + middle % 256;
    assert high == high / 256 * 256 + high % 256;
  }

  predicate LegalPayload(p: Bytes) {
    0 < |p| <= MAXIMUM_FRAME_PAYLOAD_BYTES
  }

  function Frame(p: Bytes): Bytes
    requires LegalPayload(p)
  {
    Length(|p|) + p
  }

  /** The first frame of a stream that ends where `s` ends. */
  function FirstFrame(s: Bytes): Parsed<Bytes> {
    if s == [] then Bad(NOT_FOUND)
    else if |s| < LENGTH_BYTES then Bad(INVALID_ARGUMENT)
    else
      var size := SizeOf(s[..LENGTH_BYTES]);
      if size == 0 || size > MAXIMUM_FRAME_PAYLOAD_BYTES || |s| < LENGTH_BYTES + size then Bad(INVALID_ARGUMENT)
      else Got(s[LENGTH_BYTES..LENGTH_BYTES + size], s[LENGTH_BYTES + size..])
  }

  function FrameBytes(ps: seq<Bytes>): Bytes
    requires forall i :: 0 <= i < |ps| ==> LegalPayload(ps[i])
  {
    if ps == [] then [] else Frame(ps[0]) + FrameBytes(ps[1..])
  }

  /** All frames of a stream, and why there are no more. */
  function AllFrames(s: Bytes): (r: (seq<Bytes>, ErrorCode))
    decreases |s|
  {
    match FirstFrame(s)
    case Bad(code) => ([], code)
    case Got(p, rest) => var (ps, end) := AllFrames(rest); ([p] + ps, end)
  }

  lemma FirstFrameIs(p: Bytes, rest: Bytes)
    requires LegalPayload(p)
    ensures FirstFrame(Frame(p) + rest) == Got(p, rest)
  {
    var s := Frame(p) + rest;
    LengthInverse(|p|);
    assert s[..LENGTH_BYTES] == Length(|p|);
    assert s[LENGTH_BYTES..LENGTH_BYTES + |p|] == p && s[LENGTH_BYTES + |p|..] == rest;
  }

  lemma SizeInverse(header: Bytes)
    requires |header| == LENGTH_BYTES
    ensures SizeOf(header) < 0x1_0000_0000 && Length(SizeOf(header)) == header
  {
    var a, b, c, d := header[0] as int, header[1] as int, header[2] as int, header[3] as int;
    var size := SizeOf(header);
    assert size / 0x100_0000 == a && size / 0x1_0000 == a * 256 + b;
    assert size / 0x100 == (a * 256 + b) * 256 + c && size % 256 == d;
    assert (a * 256 + b) % 256 == b && ((a * 256 + b) * 256 + c) % 256 == c;
    assert header == [header[0], header[1], header[2], header[3]];
  }

  /** A stream starts with a frame exactly when it starts with the length and the bytes of a legal payload. */
  lemma FrameExactly(s: Bytes, p: Bytes, rest: Bytes)
    ensures FirstFrame(s) == Got(p, rest) <==> LegalPayload(p) && s == Frame(p) + rest
  {
    if LegalPayload(p) && s == Frame(p) + rest {
      FirstFrameIs(p, rest);
    }
    if FirstFrame(s) == Got(p, rest) {
      SizeInverse(s[..LENGTH_BYTES]);
      assert s == (s[..LENGTH_BYTES] + p) + rest;
    }
  }

  /** The length comes first byte first: a larger payload has the lexicographically larger length. */
  lemma LengthsAreOrdered(a: nat, b: nat)
    requires a < b < 0x1_0000_0000
    ensures Grammar.TextLess(Length(a), Length(b))
  {
    var x, y := Length(a), Length(b);
    assert Grammar.TextLess(x[3..], y[3..]) <==> x[3] < y[3];
    assert x[2..][1..] == x[3..] && y[2..][1..] == y[3..];
    assert x[1..][1..] == x[2..] && y[1..][1..] == y[2..];
    LengthInverse(a);
    LengthInverse(b);
  }

  /** Frames come out as they went in; the stream may then end, or be cut inside one more frame. */
  lemma {:induction false} FramesInOrder(ps: seq<Bytes>, last: Bytes, cut: nat)
    requires forall i :: 0 <= i < |ps| ==> LegalPayload(ps[i])
    requires LegalPayload(last) && cut < |Frame(last)|
    ensures AllFrames(FrameBytes(ps) + Frame(last)[..cut]) == (ps, if cut == 0 then NOT_FOUND else INVALID_ARGUMENT)
  {
    hide Frame, FirstFrame;
    var tail := Frame(last)[..cut];
    if ps == [] {
      assert FrameBytes(ps) + tail == tail;
      CutFrame(last, cut);
    } else {
      var rest := FrameBytes(ps[1..]) + tail;
      Grammar.Regroup(Frame(ps[0]), FrameBytes(ps[1..]), tail);
      FirstFrameIs(ps[0], rest);
      FramesInOrder(ps[1..], last, cut);
      assert ps == [ps[0]] + ps[1..];
    }
  }

  /** A stream that ends at a frame boundary was closed; one that ends anywhere inside a frame was broken off. */
  lemma CutFrame(p: Bytes, cut: nat)
    requires LegalPayload(p) && cut < |Frame(p)|
    ensures FirstFrame(Frame(p)[..cut]) == Bad(if cut == 0 then NOT_FOUND else INVALID_ARGUMENT)
  {
    if cut >= LENGTH_BYTES {
      LengthInverse(|p|);
      assert Frame(p)[..cut][..LENGTH_BYTES] == Length(|p|);
    }
  }

  // ----- What a reader retains of a payload it has not finished -----

  /** The payload bytes kept for correlation when `taken` bytes of a stream were consumed by one read. */
  function Captured(taken: Bytes): Bytes {
    if |taken| <= LENGTH_BYTES then []
    else taken[LENGTH_BYTES..Least(|taken|, LENGTH_BYTES + Messages.HEADER_BYTES)]
  }

  /** The bytes a failed read consumes: nothing after a length outside bounds, everything otherwise. */
  function Consumed(s: Bytes): Bytes {
    if |s| >= LENGTH_BYTES
        && (SizeOf(s[..LENGTH_BYTES]) == 0 || SizeOf(s[..LENGTH_BYTES]) > MAXIMUM_FRAME_PAYLOAD_BYTES)
    then s[..LENGTH_BYTES]
    else s
  }

  lemma CapturedGrows(taken: Bytes, more: Bytes)
    requires |taken| >= LENGTH_BYTES
    ensures var have := Captured(taken);
            var room := Messages.HEADER_BYTES - |have|;
            |have| <= Messages.HEADER_BYTES && Captured(taken + more) == have + more[..Least(|more|, room)]
  {
  }

  lemma CapturedStart(header: Bytes)
    requires |header| == LENGTH_BYTES
    ensures Captured(header + []) == []
  {
  }

  // ----- The stream -----

  /** What the operating system does with one call: move at most so many bytes, be interrupted, or fail. */
  datatype Event = Move(most: nat) | Interrupt | Break

  function Least(a: nat, b: nat): nat {
    if a < b then a else b
  }

  /** The count a receive returns: negative for an interruption or a failure, zero at the end of the stream. */
  function ReceiveCount(events: seq<Event>, available: nat, size: nat): int {
    if events == [] then Least(available, size)
    else
      match events[0]
      case Move(most) => Least(available, Least(size, if most == 0 then 1 else most))
      case _ => -1
  }

  function SendCount(events: seq<Event>, size: nat): int {
    if events == [] then size
    else
      match events[0]
      case Move(most) => Least(size, most)
      case _ => -1
  }

  function Later(events: seq<Event>): seq<Event> {
    if events == [] then [] else events[1..]
  }

  predicate Interrupted(events: seq<Event>) {
    events != [] && events[0].Interrupt?
  }

  /** What is still to come was there from the beginning. */
  ghost predicate Within(now: seq<Event>, all: seq<Event>) {
    forall e :: e in now ==> e in all
  }

  lemma WithinAll(now: seq<Event>, before: seq<Event>, all: seq<Event>)
    ensures Within(all, all)
    ensures Within(now, before) && Within(before, all) ==> Within(now, all)
    ensures Within(now, all) && Break in now ==> Break in all
  {
  }

  class Socket {
    const open: bool
    var incoming: Bytes
    var receiving: seq<Event>
    var outgoing: Bytes
    var sending: seq<Event>

    constructor (open: bool, incoming: Bytes, receiving: seq<Event>, sending: seq<Event>)
      ensures this.open == open && this.incoming == incoming && this.receiving == receiving
      ensures this.sending == sending && outgoing == []
    {
      this.open, this.incoming, this.receiving, this.sending, outgoing := open, incoming, receiving, sending, [];
    }

    method Receive(buffer: array<byte>, offset: nat, size: nat) returns (count: int, interrupted: bool)
      requires size > 0 && offset + size <= buffer.Length
      modifies this`incoming, this`receiving, buffer
      ensures count == ReceiveCount(old(receiving), |old(incoming)|, size) && interrupted == Interrupted(old(receiving))
      ensures receiving == Later(old(receiving))
      ensures var n := if count < 0 then 0 else count;
              && n <= size && incoming == old(incoming)[n..]
              && buffer[..] == old(buffer[..])[..offset] + old(incoming)[..n] + old(buffer[..])[offset + n..]
    {
      count := ReceiveCount(receiving, |incoming|, size);
      interrupted := Interrupted(receiving);
      receiving := Later(receiving);
      if count > 0 {
        forall i | 0 <= i < count {
          buffer[offset + i] := incoming[i];
        }
        incoming := incoming[count..];
      }
    }

    method Send(bytes: Bytes) returns (count: int, interrupted: bool)
      modifies this`outgoing, this`sending
      ensures count == SendCount(old(sending), |bytes|) && interrupted == Interrupted(old(sending))
      ensures sending == Later(old(sending))
      ensures outgoing == old(outgoing) + bytes[..if count < 0 then 0 else count]
    {
      count := SendCount(sending, |bytes|);
      interrupted := Interrupted(sending);
      sending := Later(sending);
      if count > 0 {
        outgoing := outgoing + bytes[..count];
      }
    }
  }

  // ----- Reading -----

  /** The fixed prefix of a payload that is retained while the payload is being read. */
  class FrameReadProgress {
    const prefix: array<byte>
    var size: nat

    ghost predicate Valid()
      reads this
    {
      prefix.Length == Messages.HEADER_BYTES && size <= prefix.Length
    }

    constructor ()
      ensures Valid() && Held() == [] && fresh(prefix)
    {
      prefix := new byte[Messages.HEADER_BYTES];
      size := 0;
    }

    function Held(): Bytes
      requires Valid()
      reads this, prefix
    {
      prefix[..size]
    }

    method Reset()
      requires Valid()
      modifies this`size
      ensures Valid() && Held() == []
    {
      size := 0;
    }

    /** Keeps as much of a chunk as there is room for. */
    method Capture(received: Bytes)
      requires Valid()
      modifies this`size, prefix
      ensures Valid()
      ensures Held() == old(Held()) + received[..Least(|received|, Messages.HEADER_BYTES - |old(Held())|)]
    {
      if size < Messages.HEADER_BYTES {
        var captured := Least(|received|, Messages.HEADER_BYTES - size);
        forall i | 0 <= i < captured {
          prefix[size + i] := received[i];
        }
        size := size + captured;
      }
    }
  }

  /** A read that consumed `taken` and stopped with `outcome`, on a stream that held `before`. */
  ghost predicate ReadUpTo(outcome: Outcome, before: Bytes, taken: Bytes, after: Bytes, size: nat, atStart: bool,
                           events: seq<Event>) {
    && before == taken + after && |taken| <= size
    && match outcome
       case Pass => |taken| == size
       case Fail(code) =>
         || (code == INTERNAL && Break in events)
         || (after == [] && |taken| < size && code == if atStart && taken == [] then NOT_FOUND else INVALID_ARGUMENT)
  }

  method ReadExact(socket: Socket, destination: array<byte>) returns (outcome: Outcome, ghost taken: Bytes)
    modifies socket`incoming, socket`receiving, destination
    ensures ReadUpTo(outcome, old(socket.incoming), taken, socket.incoming, destination.Length, true,
                     old(socket.receiving))
    ensures outcome.Pass? ==> destination[..] == taken
    ensures Within(socket.receiving, old(socket.receiving))
  {
    var offset := 0;
    taken := [];
    while offset < destination.Length
      invariant offset <= destination.Length && |taken| == offset && destination[..offset] == taken
      invariant old(socket.incoming) == taken + socket.incoming
      invariant Within(socket.receiving, old(socket.receiving))
      decreases |socket.receiving|, destination.Length - offset
    {
      ghost var events, before := socket.receiving, socket.incoming;
      var count, interrupted := socket.Receive(destination, offset, destination.Length - offset);
      if count == 0 {
        if offset == 0 {
          return Fail(NOT_FOUND), taken;
        }
        return Fail(INVALID_ARGUMENT), taken;
      }
      if count < 0 {
        if interrupted {
          continue;
        }
        assert events[0] == Break;
        return Fail(INTERNAL), taken;
      }
      Grammar.Regroup(taken, before[..count], socket.incoming);
      assert before[..count] + socket.incoming == before;
      taken := taken + before[..count];
      offset := offset + count;
    }
    assert destination[..] == destination[..offset];
    outcome := Pass;
  }

  /** Reads a payload of known size in chunks, whatever size the stream delivers them in. */
  method ReadPayload(socket: Socket, size: nat, progress: FrameReadProgress?, ghost header: Bytes)
    returns (outcome: Outcome, payload: Bytes)
    requires |header| == LENGTH_BYTES
    requires progress != null ==> progress.Valid() && progress.Held() == []
    modifies socket`incoming, socket`receiving
    modifies if progress == null then {} else {progress, progress.prefix}
    ensures ReadUpTo(outcome, old(socket.incoming), payload, socket.incoming, size, false, old(socket.receiving))
    ensures Within(socket.receiving, old(socket.receiving))
    ensures progress != null ==> progress.Valid() && progress.Held() == Captured(header + payload)
  {
    hide Captured;
    var chunk := new byte[CHUNK_BYTES];
    payload := [];
    CapturedStart(header);
    while |payload| < size
      invariant |payload| <= size && fresh(chunk) && chunk.Length == CHUNK_BYTES
      invariant old(socket.incoming) == payload + socket.incoming
      invariant Within(socket.receiving, old(socket.receiving))
      invariant progress != null ==> progress.Valid() && progress.Held() == Captured(header + payload)
      decreases |socket.receiving|, size - |payload|
    {
      ghost var events, before := socket.receiving, socket.incoming;
      var requested := Least(size - |payload|, CHUNK_BYTES);
      var count, interrupted := socket.Receive(chunk, 0, requested);
      if count == 0 {
        return Fail(INVALID_ARGUMENT), payload;
      }
      if count < 0 {
        if interrupted {
          continue;
        }
        assert events[0] == Break;
        return Fail(INTERNAL), payload;
      }
      var received := chunk[..count];
      assert received == before[..count];
      CapturedGrows(header + payload, received);
      Grammar.Regroup(header, payload, received);
      Grammar.Regroup(payload, received, socket.incoming);
      assert received + socket.incoming == before;
      if progress != null {
        progress.Capture(received);
      }
      payload := payload + received;
    }
    outcome := Pass;
  }

  /**
   * Reads one frame. Unless the stream breaks, the result depends only on its bytes and not on how they arrive; and in
   * every case the progress holds the first payload bytes of this frame, never those of an earlier one.
   */
  method ReadFrame(socket: Socket, progress: FrameReadProgress?) returns (r: Result<Bytes>, ghost taken: Bytes)
    requires progress != null ==> progress.Valid()
    modifies socket`incoming, socket`receiving
    modifies if progress == null then {} else {progress, progress.prefix}
    ensures old(socket.incoming) == taken + socket.incoming
    ensures progress != null ==> progress.Valid() && progress.Held() == Captured(taken)
    ensures Within(socket.receiving, old(socket.receiving))
    ensures !socket.open ==> r == Err(INVALID_ARGUMENT) && taken == []
    ensures socket.open ==>
              || (r == Err(INTERNAL) && Break in old(socket.receiving))
              || (r.Ok? && FirstFrame(old(socket.incoming)) == Got(r.value, socket.incoming))
              || (r.Err? && FirstFrame(old(socket.incoming)) == Bad(r.code) && taken == Consumed(old(socket.incoming)))
  {
    taken := [];
    if progress != null {
      progress.Reset();
    }
    if !socket.open {
      return Err(INVALID_ARGUMENT), taken;
    }
    var header := new byte[LENGTH_BYTES];
    var outcome;
    outcome, taken := ReadExact(socket, header);
    if outcome.Fail? {
      return Err(outcome.code), taken;
    }
    var size := SizeOf(header[..]);
    if size == 0 || size > MAXIMUM_FRAME_PAYLOAD_BYTES {
      return Err(INVALID_ARGUMENT), taken;
    }
    var payload;
    ghost var length := taken;
    outcome, payload := ReadPayload(socket, size, progress, length);
    taken := length + payload;
    Grammar.Regroup(length, payload, socket.incoming);
    FrameSplits(length, payload, socket.incoming, size);
    r := if outcome.Fail? then Err(outcome.code) else Ok(payload);
  }

  lemma FrameSplits(length: Bytes, payload: Bytes, rest: Bytes, size: nat)
    requires |length| == LENGTH_BYTES && size == SizeOf(length) && 0 < size <= MAXIMUM_FRAME_PAYLOAD_BYTES
    ensures |payload| == size ==> FirstFrame(length + (payload + rest)) == Got(payload, rest)
    ensures |payload| < size && rest == [] ==>
              && FirstFrame(length + (payload + rest)) == Bad(INVALID_ARGUMENT)
              && Consumed(length + (payload + rest)) == length + payload
  {
    var s := length + (payload + rest);
    assert s[..LENGTH_BYTES] == length;
    if |payload| == size {
      assert s[LENGTH_BYTES..LENGTH_BYTES + size] == payload && s[LENGTH_BYTES + size..] == rest;
    }
  }

  // ----- Writing -----

  /** The stream refused bytes: it broke, or accepted none. */
  predicate Refuses(e: Event) {
    e == Break || e == Move(0)
  }

  /** A write of `bytes` that got as far as `written`. */
  ghost predicate WroteUpTo(outcome: Outcome, before: Bytes, after: Bytes, bytes: Bytes, events: seq<Event>) {
    match outcome
    case Pass => after == before + bytes
    case Fail(code) =>
      && code == INTERNAL && (exists e :: e in events && Refuses(e))
      && (exists n :: 0 <= n < |bytes| && after == before + bytes[..n])
  }

  method WriteExact(socket: Socket, bytes: Bytes) returns (outcome: Outcome)
    modifies socket`outgoing, socket`sending
    ensures WroteUpTo(outcome, old(socket.outgoing), socket.outgoing, bytes, old(socket.sending))
    ensures Within(socket.sending, old(socket.sending))
  {
    var offset := 0;
    assert socket.outgoing + bytes[..0] == socket.outgoing;
    while offset < |bytes|
      invariant offset <= |bytes| && socket.outgoing == old(socket.outgoing) + bytes[..offset]
      invariant Within(socket.sending, old(socket.sending))
      decreases |socket.sending|, |bytes| - offset
    {
      ghost var events := socket.sending;
      var count, interrupted := socket.Send(bytes[offset..]);
      if count < 0 {
        if interrupted {
          continue;
        }
        assert Refuses(events[0]) && events[0] in old(socket.sending);
        return Fail(INTERNAL);
      }
      if count == 0 {
        assert Refuses(events[0]) && events[0] in old(socket.sending);
        return Fail(INTERNAL);
      }
      Grammar.Regroup(old(socket.outgoing), bytes[..offset], bytes[offset..][..count]);
      assert bytes[..offset] + bytes[offset..][..count] == bytes[..offset + count];
      offset := offset + count;
    }
    assert bytes[..offset] == bytes;
    outcome := Pass;
  }

  /** Writes exactly one frame, or, when the stream refuses, a proper prefix of it. */
  method WriteFrame(socket: Socket, payload: Bytes) returns (outcome: Outcome)
    modifies socket`outgoing, socket`sending
    ensures Within(socket.sending, old(socket.sending))
    ensures !(socket.open && LegalPayload(payload)) ==>
              outcome == Fail(INVALID_ARGUMENT) && socket.outgoing == old(socket.outgoing)
    ensures socket.open && LegalPayload(payload) ==>
              WroteUpTo(outcome, old(socket.outgoing), socket.outgoing, Frame(payload), old(socket.sending))
  {
    if !socket.open || payload == [] || |payload| > MAXIMUM_FRAME_PAYLOAD_BYTES {
      return Fail(INVALID_ARGUMENT);
    }
    var header := Length(|payload|);
    ghost var before := socket.outgoing;
    outcome := WriteExact(socket, header);
    if outcome.Fail? {
      ghost var n :| 0 <= n < |header| && socket.outgoing == before + header[..n];
      assert header[..n] == Frame(payload)[..n];
      return;
    }
    outcome := WriteExact(socket, payload);
    Grammar.Regroup(before, header, payload);
    if outcome.Fail? {
      ghost var n :| 0 <= n < |payload| && socket.outgoing == before + header + payload[..n];
      Grammar.Regroup(before, header, payload[..n]);
      assert header + payload[..n] == Frame(payload)[..LENGTH_BYTES + n];
    }
  }
}
