/** One connection: what a server answers to a stream of bytes, and what a client makes of the answer. */
module Connection {
  import opened Wire
  import opened Messages
  import opened Frames
  import Categories
  import Decoding
  import Documents
  import Encoding
  import Grammar
  import Results

  /** The handler's surroundings: the stop flag at each turn, the service, and the kernel's notion of a valid value. */
  datatype Surroundings = Surroundings(
    stops: nat -> bool, service: (nat, Request) -> Response, shutsDown: nat -> bool, valid: Validity)

  /** A failed status without a diagnostic; what is not a failure category counts as an internal failure. */
  function Failure(code: ErrorCode): (s: Status)
    ensures LegalStatus(s) && s.code != OK && s.message == []
    ensures OK < code <= INTERNAL ==> s.code == code
  {
    Status(if OK < code < INTERNAL then code else INTERNAL, [])
  }

  /** What is left of an unfinished payload serves as the request, if anything is left. */
  function Recovered(held: Bytes): Option<Bytes> {
    if held == [] then None else Some(held)
  }

  predicate Sendable(e: Surroundings, r: Response) {
    EncodableResponse(e.valid, r) && |ResponseBytes(r)| <= MAXIMUM_FRAME_PAYLOAD_BYTES
  }

  predicate Refusal(code: ErrorCode, payload: Option<Bytes>, replies: seq<Bytes>) {
    replies == [ProtocolErrorBytes(Failure(code), payload)]
  }

  /** The read broke off somewhere: the reply is correlated by what had arrived of that frame. */
  ghost predicate BrokenOff(s: Bytes, replies: seq<Bytes>) {
    exists taken, after :: s == taken + after && Refusal(INTERNAL, Recovered(Captured(taken)), replies)
  }

  /** The replies, in order, that a handler at turn `n` gives to a stream of bytes. */
  ghost predicate Served(e: Surroundings, breaks: bool, n: nat, s: Bytes, replies: seq<Bytes>)
    decreases |s|
  {
    if e.stops(n) then replies == []
    else
      || (breaks && BrokenOff(s, replies))
      || match FirstFrame(s)
         case Bad(code) =>
           if code == NOT_FOUND then replies == [] else Refusal(code, Recovered(Captured(Consumed(s))), replies)
         case Got(p, rest) =>
           match DecodeRequest(true, p)
           case Err(code) => Refusal(code, Some(p), replies)
           case Ok(request) =>
             var response := e.service(n, request);
             if !Sendable(e, response) then
               || Refusal(RESOURCE_EXHAUSTED, Some(p), replies)
               || (!EncodableResponse(e.valid, response) && Refusal(INVALID_ARGUMENT, Some(p), replies))
             else
               && replies != [] && replies[0] == ResponseBytes(response)
               && if response.status.code == OK && e.shutsDown(n) then |replies| == 1
                  else Served(e, breaks, n + 1, rest, replies[1..])
  }

  ghost predicate Accepting(events: seq<Event>) {
    forall e :: e in events ==> !Refuses(e)
  }

  /** A best-effort error reply: as much of one frame as the stream accepts. */
  method WriteProtocolFailure(socket: Socket, code: ErrorCode, request: Option<Bytes>, progress: FrameReadProgress?)
    returns (ghost outcome: Outcome)
    requires socket.open && (progress != null ==> progress.Valid())
    modifies socket`outgoing, socket`sending
    ensures var payload := if request.None? && progress != null then Recovered(progress.Held()) else request;
            var reply := ProtocolErrorBytes(Failure(code), payload);
            && LegalPayload(reply)
            && WroteUpTo(outcome, old(socket.outgoing), socket.outgoing, Frame(reply), old(socket.sending))
  {
    var payload := request;
    if request.None? && progress != null && progress.size != 0 {
      payload := Some(progress.prefix[..progress.size]);
    }
    var encoded := Encoding.EncodeProtocolError(Failure(code), payload);
    ErrorIsLegal(code, payload);
    outcome := WriteFrame(socket, encoded.value);
  }

  lemma ErrorIsLegal(code: ErrorCode, payload: Option<Bytes>)
    ensures LegalPayload(ProtocolErrorBytes(Failure(code), payload))
  {
    ProtocolErrorArrives(_ => OK, Failure(code), payload, DAEMON_INFO, 1);
  }

  /** A response that encodes fits a frame. */
  lemma ResponseIsLegal(e: Surroundings, r: Response)
    requires Sendable(e, r)
    ensures LegalPayload(ResponseBytes(r))
  {
  }

  ghost predicate Legal(replies: seq<Bytes>) {
    forall i :: 0 <= i < |replies| ==> LegalPayload(replies[i])
  }

  lemma {:induction false} FrameBytesAppend(a: seq<Bytes>, p: Bytes)
    requires Legal(a) && LegalPayload(p)
    ensures Legal(a + [p]) && FrameBytes(a + [p]) == FrameBytes(a) + Frame(p)
  {
    hide Frame, LegalPayload;
    if a == [] {
      assert a + [p] == [p] && [p][1..] == [];
      assert FrameBytes([]) == [];
      assert Frame(p) + [] == Frame(p) && [] + Frame(p) == Frame(p);
    } else {
      FrameBytesAppend(a[1..], p);
      assert (a + [p])[1..] == a[1..] + [p];
      Grammar.Regroup(Frame(a[0]), FrameBytes(a[1..]), Frame(p));
    }
  }

  /** What is left to serve: earlier replies followed by later ones are the replies of the whole. */
  ghost predicate Continues(e: Surroundings, breaks: bool, s: Bytes, done: seq<Bytes>, n: nat, rest: Bytes) {
    forall later :: Served(e, breaks, n, rest, later) ==> Served(e, breaks, 0, s, done + later)
  }

  /** One more request was answered. */
  lemma ContinuesAnswered(e: Surroundings, breaks: bool, s: Bytes, done: seq<Bytes>, n: nat, rest: Bytes, p: Bytes,
                          after: Bytes)
    requires Continues(e, breaks, s, done, n, rest) && !e.stops(n) && FirstFrame(rest) == Got(p, after)
    requires DecodeRequest(true, p).Ok? && Sendable(e, e.service(n, DecodeRequest(true, p).value))
    requires var r := e.service(n, DecodeRequest(true, p).value); !(r.status.code == OK && e.shutsDown(n))
    ensures Continues(e, breaks, s, done + [ResponseBytes(e.service(n, DecodeRequest(true, p).value))], n + 1, after)
  {
    hide ResponseBytes, DecodeRequest, Sendable, FirstFrame, BrokenOff;
    var reply := ResponseBytes(e.service(n, DecodeRequest(true, p).value));
    forall later | Served(e, breaks, n + 1, after, later) ensures Served(e, breaks, 0, s, (done + [reply]) + later) {
      assert ([reply] + later)[1..] == later;
      assert Served(e, breaks, n, rest, [reply] + later);
      assert (done + [reply]) + later == done + ([reply] + later);
    }
  }

  // ----- The ways a connection ends -----

  lemma EndStopped(e: Surroundings, breaks: bool, s: Bytes, done: seq<Bytes>, n: nat, rest: Bytes)
    requires Continues(e, breaks, s, done, n, rest) && e.stops(n)
    ensures Served(e, breaks, 0, s, done)
  {
    assert Served(e, breaks, n, rest, []);
    assert done + [] == done;
  }

  lemma EndClosed(e: Surroundings, breaks: bool, s: Bytes, done: seq<Bytes>, n: nat, rest: Bytes)
    requires Continues(e, breaks, s, done, n, rest) && !e.stops(n) && FirstFrame(rest) == Bad(NOT_FOUND)
    ensures Served(e, breaks, 0, s, done)
  {
    hide FirstFrame, DecodeRequest, BrokenOff;
    assert Served(e, breaks, n, rest, []);
    assert done + [] == done;
  }

  /** What a failed read took is what had arrived, up to a length outside bounds. */
  lemma EndUnread(e: Surroundings, breaks: bool, s: Bytes, done: seq<Bytes>, n: nat, rest: Bytes, taken: Bytes,
                  after: Bytes, code: ErrorCode)
    requires Continues(e, breaks, s, done, n, rest) && !e.stops(n) && rest == taken + after && code != NOT_FOUND
    requires (code == INTERNAL && breaks) || (FirstFrame(rest) == Bad(code) && taken == Consumed(rest))
    ensures Served(e, breaks, 0, s, done + [ProtocolErrorBytes(Failure(code), Recovered(Captured(taken)))])
  {
    hide FirstFrame, DecodeRequest, ProtocolErrorBytes, Captured, Consumed;
    var reply := [ProtocolErrorBytes(Failure(code), Recovered(Captured(taken)))];
    assert Refusal(code, Recovered(Captured(taken)), reply);
    assert Served(e, breaks, n, rest, reply);
  }

  lemma EndUndecodable(e: Surroundings, breaks: bool, s: Bytes, done: seq<Bytes>, n: nat, rest: Bytes, p: Bytes,
                       after: Bytes)
    requires Continues(e, breaks, s, done, n, rest) && !e.stops(n) && FirstFrame(rest) == Got(p, after)
    requires DecodeRequest(true, p).Err?
    ensures Served(e, breaks, 0, s, done + [ProtocolErrorBytes(Failure(DecodeRequest(true, p).code), Some(p))])
  {
    hide FirstFrame, DecodeRequest, ProtocolErrorBytes, BrokenOff;
    assert Served(e, breaks, n, rest, [ProtocolErrorBytes(Failure(DecodeRequest(true, p).code), Some(p))]);
  }

  lemma EndUnsendable(e: Surroundings, breaks: bool, s: Bytes, done: seq<Bytes>, n: nat, rest: Bytes, p: Bytes,
                      after: Bytes, code: ErrorCode)
    requires Continues(e, breaks, s, done, n, rest) && !e.stops(n) && FirstFrame(rest) == Got(p, after)
    requires DecodeRequest(true, p).Ok? && !Sendable(e, e.service(n, DecodeRequest(true, p).value))
    requires code == RESOURCE_EXHAUSTED
          || (code == INVALID_ARGUMENT && !EncodableResponse(e.valid, e.service(n, DecodeRequest(true, p).value)))
    ensures Served(e, breaks, 0, s, done + [ProtocolErrorBytes(Failure(code), Some(p))])
  {
    hide FirstFrame, DecodeRequest, ProtocolErrorBytes, BrokenOff, Sendable, EncodableResponse;
    assert Served(e, breaks, n, rest, [ProtocolErrorBytes(Failure(code), Some(p))]);
  }

  lemma EndShutdown(e: Surroundings, breaks: bool, s: Bytes, done: seq<Bytes>, n: nat, rest: Bytes, p: Bytes,
                    after: Bytes)
    requires Continues(e, breaks, s, done, n, rest) && !e.stops(n) && FirstFrame(rest) == Got(p, after)
    requires DecodeRequest(true, p).Ok? && Sendable(e, e.service(n, DecodeRequest(true, p).value))
    requires e.service(n, DecodeRequest(true, p).value).status.code == OK && e.shutsDown(n)
    ensures Served(e, breaks, 0, s, done + [ResponseBytes(e.service(n, DecodeRequest(true, p).value))])
  {
    hide FirstFrame, DecodeRequest, ResponseBytes, BrokenOff, Sendable;
    assert Served(e, breaks, n, rest, [ResponseBytes(e.service(n, DecodeRequest(true, p).value))]);
  }

  lemma Start(e: Surroundings, breaks: bool, s: Bytes, before: Bytes)
    ensures Continues(e, breaks, s, [], 0, s) && Legal([]) && before + FrameBytes([]) == before
  {
    assert forall later: seq<Bytes> :: [] + later == later;
  }

  lemma ServedOn(e: Surroundings, breaks: bool, s: Bytes, done: seq<Bytes>, n: nat, rest: Bytes, later: seq<Bytes>)
    requires Continues(e, breaks, s, done, n, rest) && Served(e, breaks, n, rest, later)
    ensures Served(e, breaks, 0, s, done + later)
  {
    hide Served;
  }

  /** Events that are still to come were there from the beginning. */
  lemma WroteMeanwhile(outcome: Outcome, before: Bytes, after: Bytes, p: Bytes, events: seq<Event>, all: seq<Event>)
    requires LegalPayload(p) && WroteUpTo(outcome, before, after, Frame(p), events)
    requires Within(events, all)
    ensures WroteUpTo(outcome, before, after, Frame(p), all)
  {
    hide Frame;
  }

  lemma WroteAll(before: Bytes, after: Bytes, p: Bytes, events: seq<Event>)
    requires LegalPayload(p) && WroteUpTo(Pass, before, after, Frame(p), events)
    ensures after == before + Frame(p)
  {
    hide Frame;
  }

  lemma LastReply(outcome: Outcome, before: Bytes, done: seq<Bytes>, reply: Bytes, after: Bytes, sending: seq<Event>,
                  events: seq<Event>)
    returns (served: seq<Bytes>, replies: seq<Bytes>, partial: Bytes)
    requires Legal(done) && LegalPayload(reply)
    requires WroteUpTo(outcome, before + FrameBytes(done), after, Frame(reply), sending)
    requires Within(sending, events)
    ensures served == done + [reply] && Legal(replies) && Delivered(served, replies, partial, !Accepting(events))
    ensures after == (before + FrameBytes(replies)) + partial
  {
    hide Frame, FrameBytes, LegalPayload, Delivered, WroteUpTo;
    WroteMeanwhile(outcome, before + FrameBytes(done), after, reply, sending, events);
    replies, partial := DeliveredLast(outcome, before, done, reply, [], after, events);
    served := done + [reply];
    assert served + [] == served;
  }

  lemma SendableIs(e: Surroundings, r: Response)
    ensures Sendable(e, r) <==> EncodableResponse(e.valid, r) && |ResponseBytes(r)| <= MAXIMUM_FRAME_PAYLOAD_BYTES
  {
  }

  lemma Shorter(s: Bytes, p: Bytes, rest: Bytes)
    requires FirstFrame(s) == Got(p, rest)
    ensures |rest| < |s|
  {
  }

  ghost function Extended(before: Bytes, replies: seq<Bytes>, reply: Bytes): (r: seq<Bytes>)
    requires Legal(replies) && LegalPayload(reply)
    ensures r == replies + [reply] && Legal(r)
    ensures before + FrameBytes(r) == (before + FrameBytes(replies)) + Frame(reply)
  {
    FrameBytesAppend(replies, reply);
    Grammar.Regroup(before, FrameBytes(replies), Frame(reply));
    replies + [reply]
  }

  /** Something is served to every stream. */
  lemma {:induction false} SomethingIsServed(e: Surroundings, breaks: bool, n: nat, s: Bytes)
    returns (replies: seq<Bytes>)
    ensures Served(e, breaks, n, s, replies) && Legal(replies)
    decreases |s|
  {
    hide DecodeRequest, ProtocolErrorBytes, ResponseBytes, EncodableResponse, Captured, Consumed, BrokenOff,
         LegalPayload;
    if e.stops(n) {
      return [];
    }
    match FirstFrame(s)
    case Bad(code) =>
      if code == NOT_FOUND {
        return [];
      }
      ErrorIsLegal(code, Recovered(Captured(Consumed(s))));
      replies := [ProtocolErrorBytes(Failure(code), Recovered(Captured(Consumed(s))))];
    case Got(p, rest) =>
      match DecodeRequest(true, p) {
        case Err(code) =>
          ErrorIsLegal(code, Some(p));
          replies := [ProtocolErrorBytes(Failure(code), Some(p))];
        case Ok(request) =>
          var response := e.service(n, request);
          if !Sendable(e, response) {
            ErrorIsLegal(RESOURCE_EXHAUSTED, Some(p));
            replies := [ProtocolErrorBytes(Failure(RESOURCE_EXHAUSTED), Some(p))];
          } else {
            ResponseIsLegal(e, response);
            if response.status.code == OK && e.shutsDown(n) {
              return [ResponseBytes(response)];
            }
            var later := SomethingIsServed(e, breaks, n + 1, rest);
            replies := [ResponseBytes(response)] + later;
            assert replies[1..] == later;
          }
      }
  }

  /** How far a handler got: whole replies, and if the stream refused, a piece of the next. */
  ghost predicate Delivered(served: seq<Bytes>, replies: seq<Bytes>, partial: Bytes, refuses: bool) {
    && Legal(served) && replies <= served
    && if |replies| == |served| then partial == []
       else refuses && (exists k :: 0 <= k < |Frame(served[|replies|])| && partial == Frame(served[|replies|])[..k])
  }

  /** The last reply went out, or a piece of it. */
  lemma DeliveredLast(outcome: Outcome, before: Bytes, done: seq<Bytes>, reply: Bytes, rest: seq<Bytes>, after: Bytes,
                      events: seq<Event>)
    returns (replies: seq<Bytes>, partial: Bytes)
    requires Legal(done) && LegalPayload(reply) && Legal(rest) && (outcome.Pass? ==> rest == [])
    requires WroteUpTo(outcome, before + FrameBytes(done), after, Frame(reply), events)
    ensures Legal(replies) && Delivered((done + [reply]) + rest, replies, partial, !Accepting(events))
    ensures after == (before + FrameBytes(replies)) + partial
  {
    hide Frame, FrameBytes, LegalPayload;
    var served := (done + [reply]) + rest;
    if outcome.Pass? {
      replies, partial := Extended(before, done, reply), [];
      assert served == replies && after + [] == after;
    } else {
      var n :| 0 <= n < |Frame(reply)| && after == (before + FrameBytes(done)) + Frame(reply)[..n];
      replies, partial := done, Frame(reply)[..n];
      assert served[|done|] == reply && done <= served;
    }
  }

  lemma DeliveredAll(before: Bytes, done: seq<Bytes>, refuses: bool)
    requires Legal(done)
    ensures Delivered(done, done, [], refuses) && before + FrameBytes(done) == (before + FrameBytes(done)) + []
  {
  }

  lemma AcceptedAll(served: seq<Bytes>, replies: seq<Bytes>, partial: Bytes)
    requires Delivered(served, replies, partial, false)
    ensures replies == served && partial == []
  {
  }

  /** The stream refuses a reply: what comes after it is not sent. */
  lemma EndRefused(e: Surroundings, breaks: bool, s: Bytes, done: seq<Bytes>, reply: Bytes, n: nat, rest: Bytes,
                   outcome: Outcome, before: Bytes, after: Bytes, sending: seq<Event>, events: seq<Event>)
    returns (served: seq<Bytes>, replies: seq<Bytes>, partial: Bytes)
    requires Continues(e, breaks, s, done + [reply], n + 1, rest) && Legal(done) && LegalPayload(reply) && outcome.Fail?
    requires WroteUpTo(outcome, before + FrameBytes(done), after, Frame(reply), sending) && Within(sending, events)
    ensures Served(e, breaks, 0, s, served) && Legal(replies)
    ensures Delivered(served, replies, partial, !Accepting(events)) && after == (before + FrameBytes(replies)) + partial
  {
    hide Served, Continues, Frame, FrameBytes, LegalPayload, WroteUpTo, Delivered, Accepting, Within;
    var later := SomethingIsServed(e, breaks, n + 1, rest);
    ServedOn(e, breaks, s, done + [reply], n + 1, rest, later);
    served := (done + [reply]) + later;
    WroteMeanwhile(outcome, before + FrameBytes(done), after, reply, sending, events);
    replies, partial := DeliveredLast(outcome, before, done, reply, later, after, events);
  }

  /** The last reply of a connection: an error. */
  method Refuse(socket: Socket, code: ErrorCode, request: Option<Bytes>, progress: FrameReadProgress?,
                ghost before: Bytes, ghost done: seq<Bytes>, ghost events: seq<Event>)
    returns (ghost served: seq<Bytes>, ghost replies: seq<Bytes>, ghost partial: Bytes)
    requires socket.open && (progress != null ==> progress.Valid()) && Legal(done)
    requires socket.outgoing == before + FrameBytes(done) && Within(socket.sending, events)
    modifies socket`outgoing, socket`sending
    ensures var payload := if request.None? && progress != null then Recovered(progress.Held()) else request;
            served == done + [ProtocolErrorBytes(Failure(code), payload)]
    ensures Legal(replies) && Delivered(served, replies, partial, !Accepting(events))
    ensures socket.outgoing == (before + FrameBytes(replies)) + partial
  {
    hide ProtocolErrorBytes, Frame, FrameBytes, LegalPayload, WroteUpTo, Recovered, Failure, Delivered, Accepting;
    ghost var payload := if request.None? && progress != null then Recovered(progress.Held()) else request;
    ghost var sending := socket.sending;
    ghost var outcome := WriteProtocolFailure(socket, code, request, progress);
    served, replies, partial :=
      LastReply(outcome, before, done, ProtocolErrorBytes(Failure(code), payload), socket.outgoing, sending, events);
  }

  /**
   * Serves a connection to its end. What it sends, however the requests were split on the way, is a sequence of replies
   * that `Served` describes: all of it, unless the stream refuses bytes, and then whole replies up to the refusal and a
   * proper piece of the next.
   */
  method ServeConnection(socket: Socket, e: Surroundings)
    returns (ghost served: seq<Bytes>, ghost replies: seq<Bytes>, ghost partial: Bytes)
    requires socket.open
    modifies socket`incoming, socket`receiving, socket`outgoing, socket`sending
    ensures Served(e, Break in old(socket.receiving), 0, old(socket.incoming), served)
    ensures Legal(replies) && Delivered(served, replies, partial, !Accepting(old(socket.sending)))
    ensures socket.outgoing == (old(socket.outgoing) + FrameBytes(replies)) + partial
  {
    hide Served, Continues, FirstFrame, DecodeRequest, Sendable, EncodableResponse, ResponseBytes, ProtocolErrorBytes,
         Frame, FrameBytes, Captured, Consumed, LegalPayload, WroteUpTo, Recovered, Failure, Delivered, Accepting,
         CanonicalRequest, SameButParameterOrder, LegalStatus, Within;
    var progress := new FrameReadProgress();
    replies, partial := [], [];
    var n := 0;
    ghost var breaks := Break in socket.receiving;
    ghost var before, stream0, events := socket.outgoing, socket.incoming, socket.sending;
    Start(e, breaks, socket.incoming, socket.outgoing);
    WithinAll([], [], socket.receiving);
    WithinAll([], [], socket.sending);
    while true
      invariant progress.Valid() && fresh(progress) && fresh(progress.prefix)
      invariant Within(socket.receiving, old(socket.receiving))
      invariant Within(socket.sending, events)
      invariant Legal(replies) && Continues(e, breaks, stream0, replies, n, socket.incoming)
      invariant socket.outgoing == before + FrameBytes(replies)
      decreases |socket.incoming|
    {
      DeliveredAll(before, replies, !Accepting(events));
      if e.stops(n) {
        EndStopped(e, breaks, stream0, replies, n, socket.incoming);
        return replies, replies, [];
      }
      ghost var stream, receiving, sending := socket.incoming, socket.receiving, socket.sending;
      var frame;
      ghost var taken;
      frame, taken := ReadFrame(socket, progress);
      WithinAll(receiving, [], old(socket.receiving));
      WithinAll(socket.receiving, receiving, old(socket.receiving));
      if frame.Err? {
        if frame.code == NOT_FOUND {
          EndClosed(e, breaks, stream0, replies, n, stream);
          return replies, replies, [];
        }
        EndUnread(e, breaks, stream0, replies, n, stream, taken, socket.incoming, frame.code);
        served, replies, partial := Refuse(socket, frame.code, None, progress, before, replies, events);
        return;
      }
      ghost var payload := frame.value;
      var request := Decoding.DecodeRequestPayload(frame.value);
      if request.Err? {
        EndUndecodable(e, breaks, stream0, replies, n, stream, payload, socket.incoming);
        served, replies, partial := Refuse(socket, request.code, Some(frame.value), null, before, replies, events);
        return;
      }
      var response := e.service(n, request.value);
      var acceptedShutdown := response.status.code == OK && e.shutsDown(n);
      var encoded := Encoding.EncodeResponse(response, e.valid);
      SendableIs(e, response);
      if encoded.Err? {
        EndUnsendable(e, breaks, stream0, replies, n, stream, payload, socket.incoming, encoded.code);
        served, replies, partial := Refuse(socket, encoded.code, Some(frame.value), null, before, replies, events);
        return;
      }
      ResponseIsLegal(e, response);
      var outcome := WriteFrame(socket, encoded.value);
      WithinAll(socket.sending, sending, events);
      if acceptedShutdown {
        EndShutdown(e, breaks, stream0, replies, n, stream, payload, socket.incoming);
        served, replies, partial :=
          LastReply(outcome, before, replies, encoded.value, socket.outgoing, sending, events);
        return;
      }
      ContinuesAnswered(e, breaks, stream0, replies, n, stream, payload, socket.incoming);
      if outcome.Fail? {
        served, replies, partial := EndRefused(e, breaks, stream0, replies, encoded.value, n, socket.incoming, outcome,
                                               before, socket.outgoing, sending, events);
        return;
      }
      Shorter(stream, payload, socket.incoming);
      WroteAll(before + FrameBytes(replies), socket.outgoing, encoded.value, sending);
      replies := Extended(before, replies, encoded.value);
      n := n + 1;
    }
  }

  // ----- What that means -----

  /** The requests of a well-behaved client, as they arrive. */
  function RequestPayloads(requests: seq<Request>): seq<Bytes> {
    seq(|requests|, i requires 0 <= i < |requests| => RequestBytes(requests[i]))
  }

  /** The service's answers, from turn `n` on. */
  function Answers(e: Surroundings, n: nat, requests: seq<Request>): seq<Bytes> {
    seq(|requests|, i requires 0 <= i < |requests| => ResponseBytes(e.service(n + i, SelectedRequest(requests[i]))))
  }

  /** A request that fits a frame, which the service answers without shutting down. */
  predicate Ordinary(e: Surroundings, n: nat, r: Request) {
    && LegalRequest(r) && LegalPayload(RequestBytes(r)) && Documents.SortedDocument(r.document)
    && Sendable(e, e.service(n, SelectedRequest(r))) && !e.stops(n) && !e.shutsDown(n)
  }

  /** A client that sends well-formed requests gets each of them answered, once, in the order it sent them. */
  lemma {:induction false} AnsweredInOrder(e: Surroundings, n: nat, requests: seq<Request>, ps: seq<Bytes>,
                                           replies: seq<Bytes>)
    requires forall i :: 0 <= i < |requests| ==> Ordinary(e, n + i, requests[i])
    requires ps == RequestPayloads(requests) && Legal(ps) && !e.stops(n + |requests|)
    requires Served(e, false, n, FrameBytes(ps), replies)
    ensures replies == Answers(e, n, requests)
    decreases |requests|
  {
    hide RequestBytes, ResponseBytes, Frame, LegalRequest, SelectedRequest, Sendable, Served;
    if requests == [] {
      NothingServed(e, n, replies);
      assert Answers(e, n, requests) == [];
    } else {
      assert Ordinary(e, n + 0, requests[0]);
      assert ps[0] == RequestBytes(requests[0]);
      ServedFirst(e, n, requests[0], ps[1..], replies);
      forall i | 0 <= i < |requests[1..]| ensures Ordinary(e, (n + 1) + i, requests[1..][i]) {
        assert Ordinary(e, n + (i + 1), requests[i + 1]);
      }
      assert ps[1..] == RequestPayloads(requests[1..]);
      AnsweredInOrder(e, n + 1, requests[1..], ps[1..], replies[1..]);
      AnswersStep(e, n, requests);
      assert replies == [replies[0]] + replies[1..];
    }
  }

  lemma AnswersStep(e: Surroundings, n: nat, requests: seq<Request>)
    requires requests != []
    ensures Answers(e, n, requests)
         == [ResponseBytes(e.service(n, SelectedRequest(requests[0])))] + Answers(e, n + 1, requests[1..])
  {
    hide ResponseBytes, SelectedRequest;
    var rest := Answers(e, n + 1, requests[1..]);
    forall i | 0 < i < |requests| ensures Answers(e, n, requests)[i] == rest[i - 1] {
      assert n + i == (n + 1) + (i - 1);
    }
  }

  /** A stream that starts with an ordinary request is answered first, and the rest after it. */
  lemma ServedFirst(e: Surroundings, n: nat, r: Request, ps: seq<Bytes>, replies: seq<Bytes>)
    requires Ordinary(e, n, r) && Legal(ps)
    requires Served(e, false, n, Frame(RequestBytes(r)) + FrameBytes(ps), replies)
    ensures replies != [] && replies[0] == ResponseBytes(e.service(n, SelectedRequest(r)))
    ensures Served(e, false, n + 1, FrameBytes(ps), replies[1..])
  {
    hide DecodeRequest, RequestBytes, ResponseBytes, Frame, FrameBytes, Sendable, LegalRequest, BrokenOff, FirstFrame,
         SelectedRequest;
    FirstFrameIs(RequestBytes(r), FrameBytes(ps));
    RequestRoundTrip(r);
  }

  lemma NothingServed(e: Surroundings, n: nat, replies: seq<Bytes>)
    requires Served(e, false, n, [], replies)
    ensures replies == []
  {
    hide DecodeRequest, FirstFrame;
    NothingLeft();
  }

  lemma NothingLeft()
    ensures FirstFrame([]) == Bad(NOT_FOUND)
  {
  }

  /**
   * Wherever a frame is cut, the error that answers it carries the id and method of that frame exactly when all eleven
   * bytes of a valid header had arrived, and the sentinel otherwise.
   */
  lemma CorrelationIsOwn(p: Bytes, cut: nat, requestId: u64, methodCode: byte)
    requires LegalPayload(p) && cut <= |Frame(p)| && requestId != 0
    ensures var c := RecoverCorrelation(Recovered(Captured(Frame(p)[..cut])));
            && (c == Correlation(requestId, methodCode) <==>
                  cut >= LENGTH_BYTES + HEADER_BYTES && HasHeader(p, requestId, methodCode))
            && (cut < LENGTH_BYTES + HEADER_BYTES ==> c == SENTINEL)
  {
    var held := Captured(Frame(p)[..cut]);
    if cut >= LENGTH_BYTES + HEADER_BYTES {
      hide RecoverCorrelation, HasHeader;
      assert Frame(p)[..cut][LENGTH_BYTES..LENGTH_BYTES + HEADER_BYTES] == p[..HEADER_BYTES];
      assert held == p[..HEADER_BYTES] && (|p| == HEADER_BYTES ==> p[..HEADER_BYTES] == p);
      RecoverFromPrefix(p);
      RecoverExactly(p, requestId, methodCode);
    } else {
      assert |held| < HEADER_BYTES;
    }
  }

  // ----- The client -----

  datatype Answer = Answered(response: Response) | Unanswered(status: Status)

  /** A failure made up by the client itself. */
  function Local(code: ErrorCode): Answer {
    Unanswered(Status(code, []))
  }

  /** What a client makes of the frame that answers its call, and whether it stays connected. */
  function Judged(kernel: Results.Kernel, p: Bytes, methodCode: byte, requestId: u64): (Answer, bool) {
    match DecodeResponse(kernel, true, p, methodCode, requestId)
    case Ok(response) => (Answered(response), true)
    case Err(code) =>
      match DecodeProtocolError(p)
      case Ok(error) =>
        if error.requestId == 0 && error.methodCode == DAEMON_INFO then (Unanswered(error.status), false)
        else (Local(code), false)
      case Err(_) => (Local(code), false)
  }

  /** What a client makes of the stream after its request. */
  function Replied(kernel: Results.Kernel, s: Bytes, methodCode: byte, requestId: u64): (Answer, bool) {
    match FirstFrame(s)
    case Bad(code) => (Local(if code == NOT_FOUND then INTERNAL else code), false)
    case Got(p, _) => Judged(kernel, p, methodCode, requestId)
  }

  class Client {
    var socket: Socket
    var connected: bool
    var nextRequestId: u64

    constructor (socket: Socket)
      requires socket.open
      ensures this.socket == socket && connected && nextRequestId == 1
    {
      this.socket, connected, nextRequestId := socket, true, 1;
    }

    /** One call: assigns the next id, writes one frame, and reads one frame, which must be its answer. */
    method Call(request: Request, kernel: Results.Kernel) returns (answer: Answer)
      requires socket.open
      modifies this, socket
      ensures socket == old(socket)
      ensures !old(connected) ==>
                && answer == Local(INVALID_ARGUMENT) && !connected && nextRequestId == old(nextRequestId)
                && unchanged(socket)
      ensures old(connected) && old(nextRequestId) == 0 ==>
                answer == Local(RESOURCE_EXHAUSTED) && !connected && nextRequestId == 0 && unchanged(socket)
      ensures old(connected) && old(nextRequestId) != 0 ==>
                var id := old(nextRequestId);
                var sent := request.(requestId := id);
                && nextRequestId == (id + 1) % 0x1_0000_0000_0000_0000
                && if !(LegalRequest(sent) && LegalPayload(RequestBytes(sent))) then
                     answer.Unanswered? && connected && socket.outgoing == old(socket.outgoing)
                         && socket.incoming == old(socket.incoming)
                   else
                     && (connected <==> answer.Answered?)
                     && (|| (WroteUpTo(Fail(INTERNAL), old(socket.outgoing), socket.outgoing,
                                       Frame(RequestBytes(sent)), old(socket.sending))
                             && answer == Local(INTERNAL))
                         || (socket.outgoing == old(socket.outgoing) + Frame(RequestBytes(sent))
                             && ((answer, connected) == Replied(kernel, old(socket.incoming), request.methodCode, id)
                                 || (Break in old(socket.receiving) && answer == Local(INTERNAL)))))
    {
      hide CanonicalResponse, SameButEntryOrder, CanonicalError, StatusBytes;
      if !connected {
        return Local(INVALID_ARGUMENT);
      }
      if nextRequestId == 0 {
        connected := false;
        return Local(RESOURCE_EXHAUSTED);
      }
      var sent := request.(requestId := nextRequestId);
      nextRequestId := (nextRequestId + 1) % 0x1_0000_0000_0000_0000;
      var encoded := Encoding.EncodeRequest(sent);
      if encoded.Err? {
        return Local(encoded.code);
      }
      assert RequestBytes(sent) != [];
      var outcome := WriteFrame(socket, encoded.value);
      if outcome.Fail? {
        connected := false;
        return Local(outcome.code);
      }
      var frame;
      ghost var taken;
      frame, taken := ReadFrame(socket, null);
      if frame.Err? {
        connected := false;
        return Local(if frame.code == NOT_FOUND then INTERNAL else frame.code);
      }
      var response := Decoding.DecodeResponsePayload(kernel, frame.value, request.methodCode, sent.requestId);
      if response.Err? {
        connected := false;
        var sentinel := Decoding.DecodeProtocolErrorPayload(frame.value);
        if sentinel.Ok? && sentinel.value.requestId == 0 && sentinel.value.methodCode == DAEMON_INFO {
          return Unanswered(sentinel.value.status);
        }
        return Local(response.code);
      }
      answer := Answered(response.value);
    }
  }

  /** The response to a call reaches its caller: the status and whatever the method selects. */
  lemma AnswerArrives(valid: Validity, kernel: Results.Kernel, r: Response, rest: Bytes)
    requires SaneKernel(valid, kernel) && EncodableResponse(valid, r) && Results.SortedResult(r.result)
    requires LegalPayload(ResponseBytes(r)) && ReadableResponse(r)
    ensures Replied(kernel, Frame(ResponseBytes(r)) + rest, r.methodCode, r.requestId)
              == (Answered(SelectedResponse(r)), true)
  {
    hide DecodeResponse, ResponseBytes, FirstFrame, DecodeProtocolError, Frame, ReadableResponse, EncodableResponse;
    FirstFrameIs(ResponseBytes(r), rest);
    ResponseRoundTrip(valid, kernel, r);
  }

  /**
   * An error sent before routing reaches the caller too: correlated, it is the failed response of the call and the
   * connection stays; as the sentinel, its status is returned and the connection is given up.
   */
  lemma ErrorArrives(kernel: Results.Kernel, status: Status, payload: Option<Bytes>, methodCode: byte, requestId: u64,
                     rest: Bytes)
    requires LegalStatus(status) && status.code != OK && LegalPayload(ProtocolErrorBytes(status, payload))
    ensures var c := RecoverCorrelation(payload);
            var seen := Replied(kernel, Frame(ProtocolErrorBytes(status, payload)) + rest, methodCode, requestId);
            && (c == Correlation(requestId, methodCode) && c != SENTINEL ==>
                  seen == (Answered(BareResponse(requestId, methodCode, status)), true))
            && (c == SENTINEL ==> seen == (Unanswered(status), false))
            && (c != SENTINEL && c != Correlation(requestId, methodCode) ==> seen == (Local(INVALID_ARGUMENT), false))
  {
    hide DecodeResponse, ProtocolErrorBytes, FirstFrame, DecodeProtocolError, Frame;
    FirstFrameIs(ProtocolErrorBytes(status, payload), rest);
    ProtocolErrorArrives(kernel, status, payload, methodCode, requestId);
    SentinelOnlyForZero(payload);
  }

  lemma SentinelOnlyForZero(payload: Option<Bytes>)
    ensures RecoverCorrelation(payload).requestId == 0 ==> RecoverCorrelation(payload) == SENTINEL
  {
  }

  /**
   * From end to end: an ordinary request, served at any turn to a service that answers under its id and method, and
   * followed by any others, comes back to its caller as the service's answer.
   */
  lemma CallIsAnswered(e: Surroundings, kernel: Results.Kernel, n: nat, r: Request, ps: seq<Bytes>, replies: seq<Bytes>)
    requires Ordinary(e, n, r) && Legal(ps) && Legal(replies)
    requires Served(e, false, n, Frame(RequestBytes(r)) + FrameBytes(ps), replies)
    requires var a := e.service(n, SelectedRequest(r));
             && a.requestId == r.requestId && a.methodCode == r.methodCode
             && SaneKernel(e.valid, kernel) && Results.SortedResult(a.result) && ReadableResponse(a)
    ensures Replied(kernel, FrameBytes(replies), r.methodCode, r.requestId)
         == (Answered(SelectedResponse(e.service(n, SelectedRequest(r)))), true)
  {
    hide Served, Replied, Frame, RequestBytes, SelectedRequest, LegalRequest, ReadableResponse, EncodableResponse,
         Results.SortedResult, ResponseBytes, LegalPayload;
    var a := e.service(n, SelectedRequest(r));
    ServedFirst(e, n, r, ps, replies);
    SendableIs(e, a);
    ResponseIsLegal(e, a);
    AnswerArrives(e.valid, kernel, a, FrameBytes(replies[1..]));
  }

  // ----- Calls that are not answered -----

  /** After a call was sent, the client stays connected exactly if the stream held an answer to it. */
  lemma AnsweredStaysConnected(kernel: Results.Kernel, s: Bytes, methodCode: byte, requestId: u64)
    ensures var (answer, connected) := Replied(kernel, s, methodCode, requestId);
            && (connected <==> answer.Answered?)
            && (connected ==> answer.response.requestId == requestId && answer.response.methodCode == methodCode)
  {
    hide DecodeResponse, DecodeProtocolError, FirstFrame;
    match FirstFrame(s)
    case Bad(_) =>
    case Got(p, _) =>
      if DecodeResponse(kernel, true, p, methodCode, requestId).Ok? {
        ResponseExactly(kernel, p, methodCode, requestId,
                        DecodeResponse(kernel, true, p, methodCode, requestId).value);
      }
  }

  /** A stream that ends without an answer is an internal failure, one that breaks off inside it an invalid one. */
  lemma EndIsNoAnswer(kernel: Results.Kernel, p: Bytes, cut: nat, methodCode: byte, requestId: u64)
    requires LegalPayload(p) && cut < |Frame(p)|
    ensures Replied(kernel, Frame(p)[..cut], methodCode, requestId)
         == (Local(if cut == 0 then INTERNAL else INVALID_ARGUMENT), false)
  {
    hide FirstFrame, Frame;
    CutFrame(p, cut);
  }

  /** The answer to another call is refused, and the connection given up. */
  lemma ForeignAnswerIsRefused(kernel: Results.Kernel, r: Response, rest: Bytes, methodCode: byte, requestId: u64)
    requires LegalPayload(ResponseBytes(r)) && r.requestId != 0
    requires r.requestId != requestId || r.methodCode != methodCode
    ensures Replied(kernel, Frame(ResponseBytes(r)) + rest, methodCode, requestId) == (Local(INVALID_ARGUMENT), false)
  {
    hide FirstFrame, Frame, ReadHeader, HeaderBytes, StatusBytes, ResponseBody, ReadStatus, ReadResponseBody;
    FirstFrameIs(ResponseBytes(r), rest);
    HeaderExact(r.requestId, r.methodCode, StatusBytes(r.status) + ResponseBody(r), []);
  }

  // ----- What a client is told about a request that cannot be served -----

  lemma OneFrame(p: Bytes)
    requires LegalPayload(p)
    ensures Legal([p]) && FrameBytes([p]) == Frame(p) + []
  {
    hide Frame;
    assert [p][1..] == [];
    assert FrameBytes([]) == [];
  }

  /** What the caller makes of an error reply. */
  function Told(code: ErrorCode, c: Correlation, methodCode: byte, requestId: u64): (Answer, bool) {
    if c == SENTINEL then (Unanswered(Status(code, [])), false)
    else if c == Correlation(requestId, methodCode)
        then (Answered(BareResponse(requestId, methodCode, Status(code, []))), true)
    else (Local(INVALID_ARGUMENT), false)
  }

  lemma ErrorIsTold(kernel: Results.Kernel, code: ErrorCode, payload: Option<Bytes>, methodCode: byte, requestId: u64)
    requires OK < code <= INTERNAL
    ensures var replies := [ProtocolErrorBytes(Failure(code), payload)];
            && Legal(replies)
            && Replied(kernel, FrameBytes(replies), methodCode, requestId)
                 == Told(code, RecoverCorrelation(payload), methodCode, requestId)
  {
    hide Replied, Frame, ProtocolErrorBytes, RecoverCorrelation, LegalPayload, LegalStatus;
    var reply := ProtocolErrorBytes(Failure(code), payload);
    ErrorIsLegal(code, payload);
    OneFrame(reply);
    ErrorArrives(kernel, Failure(code), payload, methodCode, requestId, []);
    assert Failure(code) == Status(code, []);
  }

  /**
   * A frame that is no request is answered once, with the decoder's category, and ends the connection: the caller whose
   * header it carries is told so, and without a valid header every caller is.
   */
  lemma MalformedIsAnswered(e: Surroundings, kernel: Results.Kernel, n: nat, p: Bytes, rest: Bytes,
                            replies: seq<Bytes>, methodCode: byte, requestId: u64)
    requires LegalPayload(p) && DecodeRequest(true, p).Err? && !e.stops(n)
    requires Served(e, false, n, Frame(p) + rest, replies)
    ensures |replies| == 1 && Legal(replies)
    ensures Replied(kernel, FrameBytes(replies), methodCode, requestId)
         == Told(INVALID_ARGUMENT, RecoverCorrelation(Some(p)), methodCode, requestId)
  {
    hide DecodeRequest, Frame, FirstFrame, ProtocolErrorBytes, RecoverCorrelation, Replied, LegalPayload, BrokenOff,
         ResponseBytes, Sendable, EncodableResponse, Told, FrameBytes;
    FirstFrameIs(p, rest);
    Categories.RequestCategory(p);
    ErrorIsTold(kernel, INVALID_ARGUMENT, Some(p), methodCode, requestId);
  }

  /** So is a frame that breaks off, under its own id and method exactly if its whole header had arrived. */
  lemma CutIsAnswered(e: Surroundings, kernel: Results.Kernel, n: nat, p: Bytes, cut: nat, replies: seq<Bytes>,
                      methodCode: byte, requestId: u64)
    requires LegalPayload(p) && 0 < cut < |Frame(p)| && requestId != 0 && !e.stops(n)
    requires Served(e, false, n, Frame(p)[..cut], replies)
    ensures |replies| == 1 && Legal(replies)
    ensures var seen := Replied(kernel, FrameBytes(replies), methodCode, requestId);
            && (cut >= LENGTH_BYTES + HEADER_BYTES && HasHeader(p, requestId, methodCode) ==>
                  seen == (Answered(BareResponse(requestId, methodCode, Status(INVALID_ARGUMENT, []))), true))
            && (cut < LENGTH_BYTES + HEADER_BYTES ==> seen == (Unanswered(Status(INVALID_ARGUMENT, [])), false))
  {
    hide DecodeRequest, Frame, FirstFrame, ProtocolErrorBytes, RecoverCorrelation, Replied, LegalPayload, BrokenOff,
         Captured, Consumed, HasHeader, FrameBytes;
    CutFrame(p, cut);
    CutIsConsumed(p, cut);
    ErrorIsTold(kernel, INVALID_ARGUMENT, Recovered(Captured(Frame(p)[..cut])), methodCode, requestId);
    CorrelationIsOwn(p, cut, requestId, methodCode);
  }

  lemma CutIsConsumed(p: Bytes, cut: nat)
    requires LegalPayload(p) && cut < |Frame(p)|
    ensures Consumed(Frame(p)[..cut]) == Frame(p)[..cut]
  {
    if cut >= LENGTH_BYTES {
      LengthInverse(|p|);
      assert Frame(p)[..cut][..LENGTH_BYTES] == Length(|p|);
    }
  }

  /** A length outside bounds is answered with the sentinel, whatever follows it. */
  lemma BadLengthIsAnswered(e: Surroundings, kernel: Results.Kernel, n: nat, length: Bytes, rest: Bytes,
                            replies: seq<Bytes>, methodCode: byte, requestId: u64)
    requires |length| == LENGTH_BYTES && !(0 < SizeOf(length) <= MAXIMUM_FRAME_PAYLOAD_BYTES) && !e.stops(n)
    requires Served(e, false, n, length + rest, replies)
    ensures |replies| == 1 && Legal(replies)
    ensures Replied(kernel, FrameBytes(replies), methodCode, requestId)
         == (Unanswered(Status(INVALID_ARGUMENT, [])), false)
  {
    hide DecodeRequest, ProtocolErrorBytes, Replied, LegalPayload, BrokenOff, FrameBytes, Frame;
    assert (length + rest)[..LENGTH_BYTES] == length;
    assert Recovered(Captured(Consumed(length + rest))) == None;
    ErrorIsTold(kernel, INVALID_ARGUMENT, None, methodCode, requestId);
  }

  /** The answer to an accepted shutdown reaches its caller, and nothing after it is served. */
  lemma ShutdownIsLast(e: Surroundings, kernel: Results.Kernel, n: nat, r: Request, rest: Bytes, replies: seq<Bytes>)
    requires LegalRequest(r) && LegalPayload(RequestBytes(r)) && Documents.SortedDocument(r.document) && !e.stops(n)
    requires Served(e, false, n, Frame(RequestBytes(r)) + rest, replies)
    requires var a := e.service(n, SelectedRequest(r));
             && Sendable(e, a) && a.status.code == OK && e.shutsDown(n)
             && a.requestId == r.requestId && a.methodCode == r.methodCode
             && SaneKernel(e.valid, kernel) && Results.SortedResult(a.result) && ReadableResponse(a)
    ensures |replies| == 1 && Legal(replies)
    ensures Replied(kernel, FrameBytes(replies), r.methodCode, r.requestId)
         == (Answered(SelectedResponse(e.service(n, SelectedRequest(r)))), true)
  {
    hide DecodeRequest, RequestBytes, ResponseBytes, Frame, FrameBytes, Sendable, LegalRequest, BrokenOff, FirstFrame,
         SelectedRequest, Replied, ReadableResponse, EncodableResponse, Results.SortedResult, SelectedResponse;
    var a := e.service(n, SelectedRequest(r));
    FirstFrameIs(RequestBytes(r), rest);
    RequestRoundTrip(r);
    SendableIs(e, a);
    ResponseIsLegal(e, a);
    OneFrame(ResponseBytes(a));
    assert replies == [ResponseBytes(a)];
    AnswerArrives(e.valid, kernel, a, []);
  }

  /** A request whose answer does not fit a frame is told that the resources are exhausted. */
  lemma OversizedIsAnswered(e: Surroundings, kernel: Results.Kernel, n: nat, r: Request, rest: Bytes,
                            replies: seq<Bytes>)
    requires LegalRequest(r) && LegalPayload(RequestBytes(r)) && Documents.SortedDocument(r.document) && !e.stops(n)
    requires Served(e, false, n, Frame(RequestBytes(r)) + rest, replies)
    requires var a := e.service(n, SelectedRequest(r)); EncodableResponse(e.valid, a) && !Sendable(e, a)
    ensures |replies| == 1 && Legal(replies)
    ensures Replied(kernel, FrameBytes(replies), r.methodCode, r.requestId)
         == (Answered(BareResponse(r.requestId, r.methodCode, Status(RESOURCE_EXHAUSTED, []))), true)
  {
    hide DecodeRequest, RequestBytes, Frame, FrameBytes, Sendable, LegalRequest, BrokenOff, FirstFrame,
         SelectedRequest, Replied, EncodableResponse, ProtocolErrorBytes, RecoverCorrelation;
    FirstFrameIs(RequestBytes(r), rest);
    RequestRoundTrip(r);
    ErrorIsTold(kernel, RESOURCE_EXHAUSTED, Some(RequestBytes(r)), r.methodCode, r.requestId);
    OwnHeader(r);
  }

  lemma OwnHeader(r: Request)
    requires LegalRequest(r)
    ensures RecoverCorrelation(Some(RequestBytes(r))) == Correlation(r.requestId, r.methodCode) != SENTINEL
  {
    hide RequestBody, RecoverCorrelation;
    assert HeaderBytes(r.requestId, r.methodCode) <= RequestBytes(r);
    RecoverExactly(RequestBytes(r), r.requestId, r.methodCode);
  }
}
