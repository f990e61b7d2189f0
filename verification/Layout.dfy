/** Where each field stands on the wire, as the protocol document lays it out. */
module Layout {
  import opened Wire
  import opened Grammar
  import opened Messages

  /** The byte of weight 256 to the `i`. */
  function Digit(v: nat, i: nat): byte {
    v / Pow256(i) % 256
  }

  lemma Quotient(v: nat, d: nat, q: nat, r: nat)
    requires v == q * d + r && r < d
    ensures v / d == q
  {
    var x := v / d - q;
    assert x * d == v / d * d - q * d == r - v % d;
    assert x >= 1 ==> x * d >= d;
    assert x <= -1 ==> x * d + d <= 0;
  }

  lemma DivideTwice(v: nat, d: nat)
    requires d > 0
    ensures v / 256 / d == v / (256 * d)
  {
    var q, r := v / 256 / d, v / 256 % d;
    assert v / 256 == q * d + r;
    assert v == q * (256 * d) + (256 * r + v % 256);
    assert 256 * r + v % 256 < 256 * d;
    Quotient(v, 256 * d, q, 256 * r + v % 256);
  }

  /** Little-endian: the digits of a number stand in the order of their weight. */
  lemma {:induction false} DigitsInOrder(v: nat, width: nat, i: nat)
    requires i < width
    ensures LittleEndian(v, width)[i] == Digit(v, i)
    decreases width
  {
    if i > 0 {
      DigitsInOrder(v / 256, width - 1, i - 1);
      DivideTwice(v, Pow256(i - 1));
    }
  }

  /** A number of that width stands at that place. */
  predicate Holds(s: Bytes, at: nat, v: nat, width: nat) {
    at + width <= |s| && forall i :: 0 <= i < width ==> s[at + i] == Digit(v, i)
  }

  lemma Placed(s: Bytes, before: Bytes, v: nat, width: nat, after: Bytes)
    requires s == before + (LittleEndian(v, width) + after)
    ensures Holds(s, |before|, v, width)
  {
    forall i | 0 <= i < width ensures s[|before| + i] == Digit(v, i) {
      DigitsInOrder(v, width, i);
    }
  }

  /** An identity: the daemon instance, then the sequence number. */
  predicate HoldsId(s: Bytes, at: nat, id: Id) {
    Holds(s, at, id.instance, 8) && Holds(s, at + 8, id.value, 8)
  }

  lemma PlacedId(s: Bytes, before: Bytes, id: Id, after: Bytes)
    requires s == before + (IdBytes(id) + after)
    ensures HoldsId(s, |before|, id)
  {
    var a, b := LittleEndian(id.instance, 8), LittleEndian(id.value, 8);
    Regroup(a, b, after);
    Placed(s, before, id.instance, 8, b + after);
    Regroup(before, a, b + after);
    Placed(s, before + a, id.value, 8, after);
  }

  /** The version, the request id and the method code. */
  predicate HoldsHeader(s: Bytes, requestId: u64, methodCode: byte) {
    Holds(s, 0, 3, 2) && Holds(s, 2, requestId, 8) && |s| >= 11 && s[10] == methodCode
  }

  lemma PlacedHeader(s: Bytes, requestId: u64, methodCode: byte, after: Bytes)
    requires s == HeaderBytes(requestId, methodCode) + after
    ensures HoldsHeader(s, requestId, methodCode)
  {
    var a, b := LittleEndian(PROTOCOL_VERSION, 2), LittleEndian(requestId, 8);
    Regroup(a, b + [methodCode], after);
    Regroup(b, [methodCode], after);
    assert [] + (a + (b + ([methodCode] + after))) == s;
    Placed(s, [], 3, 2, b + ([methodCode] + after));
    Placed(s, a, requestId, 8, [methodCode] + after);
  }

  /**
   * Requests: the header; for a close the session; for a submission the session, the GPU flag and the parallelism; for
   * the methods on a job the job; nothing for the daemon methods.
   */
  lemma RequestLayout(r: Request)
    requires ValidMethod(r.methodCode)
    ensures var s := RequestBytes(r);
            && HoldsHeader(s, r.requestId, r.methodCode)
            && (r.methodCode == SESSION_CLOSE ==> |s| == 27 && HoldsId(s, 11, r.session))
            && (r.methodCode == JOB_SUBMIT ==>
                  |s| == 32 && HoldsId(s, 11, r.session) && s[27] == (if r.allowGpu then 1 else 0)
                      && Holds(s, 28, r.maximumParallelism, 4))
            && (NamesJob(r.methodCode) ==> |s| == 27 && HoldsId(s, 11, r.job))
            && (r.methodCode == DAEMON_INFO || r.methodCode == DAEMON_SHUTDOWN ==> |s| == 11)
  {
    hide HoldsId, HoldsHeader, Holds, IdBytes;
    var s, header := RequestBytes(r), HeaderBytes(r.requestId, r.methodCode);
    PlacedHeader(s, r.requestId, r.methodCode, RequestBody(r));
    IdLength(r.session);
    IdLength(r.job);
    if r.methodCode == SESSION_CLOSE {
      assert IdBytes(r.session) + [] == IdBytes(r.session);
      PlacedId(s, header, r.session, []);
    } else if r.methodCode == JOB_SUBMIT {
      var gpu, parallelism := BoolBytes(r.allowGpu), LittleEndian(r.maximumParallelism, 4);
      PlacedId(s, header, r.session, gpu + parallelism);
      Regroup(header, IdBytes(r.session), gpu + parallelism);
      Regroup(header + IdBytes(r.session), gpu, parallelism);
      assert parallelism + [] == parallelism;
      Placed(s, (header + IdBytes(r.session)) + gpu, r.maximumParallelism, 4, []);
    } else if NamesJob(r.methodCode) {
      assert IdBytes(r.job) + [] == IdBytes(r.job);
      PlacedId(s, header, r.job, []);
    }
  }

  lemma IdLength(id: Id)
    ensures |IdBytes(id)| == 16
  {
  }

  lemma StatusLength(s: Status)
    ensures |StatusBytes(s)| == 5 + |s.message|
  {
  }

  /** A status: its category, then the length of its diagnostic and the diagnostic. */
  predicate HoldsStatus(s: Bytes, at: nat, status: Status) {
    && at + 5 + |status.message| <= |s| && s[at] == status.code && Holds(s, at + 1, |status.message|, 4)
    && s[at + 5..at + 5 + |status.message|] == status.message
  }

  lemma PlacedStatus(s: Bytes, before: Bytes, status: Status, after: Bytes)
    requires s == before + (StatusBytes(status) + after)
    ensures HoldsStatus(s, |before|, status)
  {
    var size, text := LittleEndian(|status.message|, 4), status.message;
    Regroup([status.code], BlobBytes(text), after);
    Regroup(size, text, after);
    Regroup(before, [status.code], size + (text + after));
    Placed(s, before + [status.code], |text|, 4, text + after);
    Regroup(before + [status.code], size, text + after);
    var start := (before + [status.code]) + size;
    assert s == start + (text + after) && |start| == |before| + 5;
    assert s[|start|..|start| + |text|] == text;
  }

  /**
   * Responses: the header and the status; after a success the new session, the new job, or a snapshot: the job, its
   * session, its state and its outcome.
   */
  lemma ResponseLayout(r: Response)
    ensures var s := ResponseBytes(r); var at := 16 + |r.status.message|;
            && HoldsHeader(s, r.requestId, r.methodCode) && HoldsStatus(s, 11, r.status)
            && (r.status.code != OK ==> |s| == at)
            && (r.status.code == OK && r.methodCode == SESSION_CREATE ==> |s| == at + 16 && HoldsId(s, at, r.session))
            && (r.status.code == OK && r.methodCode == JOB_SUBMIT ==> |s| == at + 16 && HoldsId(s, at, r.job))
            && (r.status.code == OK && r.methodCode == JOB_STATUS ==>
                  && HoldsId(s, at, r.jobStatus.job) && HoldsId(s, at + 16, r.jobStatus.session)
                  && |s| == at + 38 + |r.jobStatus.outcome.message| && s[at + 32] == r.jobStatus.state
                  && HoldsStatus(s, at + 33, r.jobStatus.outcome))
  {
    hide HoldsId, HoldsHeader, HoldsStatus, IdBytes, StatusBytes, JobStatusBytes;
    var header, status, body := HeaderBytes(r.requestId, r.methodCode), StatusBytes(r.status), ResponseBody(r);
    var s := ResponseBytes(r);
    PlacedHeader(s, r.requestId, r.methodCode, status + body);
    PlacedStatus(s, header, r.status, body);
    Regroup(header, status, body);
    StatusLength(r.status);
    if r.status.code == OK && (r.methodCode == SESSION_CREATE || r.methodCode == JOB_SUBMIT) {
      var id := if r.methodCode == SESSION_CREATE then r.session else r.job;
      IdLength(id);
      assert IdBytes(id) + [] == IdBytes(id);
      PlacedId(s, header + status, id, []);
    } else if r.status.code == OK && r.methodCode == JOB_STATUS {
      PlacedSnapshot(s, header + status, r.jobStatus);
    }
  }

  lemma PlacedSnapshot(s: Bytes, before: Bytes, v: JobStatus)
    requires s == before + JobStatusBytes(v)
    ensures var at := |before|;
            && HoldsId(s, at, v.job) && HoldsId(s, at + 16, v.session)
            && |s| == at + 38 + |v.outcome.message| && s[at + 32] == v.state && HoldsStatus(s, at + 33, v.outcome)
  {
    hide HoldsId, HoldsStatus, IdBytes, StatusBytes;
    var job, session, outcome := IdBytes(v.job), IdBytes(v.session), StatusBytes(v.outcome);
    IdLength(v.job);
    IdLength(v.session);
    StatusLength(v.outcome);
    PlacedId(s, before, v.job, session + ([v.state] + outcome));
    Regroup(before, job, session + ([v.state] + outcome));
    PlacedId(s, before + job, v.session, [v.state] + outcome);
    Regroup(before + job, session, [v.state] + outcome);
    Regroup((before + job) + session, [v.state], outcome);
    assert outcome + [] == outcome;
    PlacedStatus(s, ((before + job) + session) + [v.state], v.outcome, []);
  }
}
