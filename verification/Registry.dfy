/** The job registry in place: its map, queue and id counter, and that each method is the machine's step. */
module Registry {
  import opened Wire
  import opened Jobs
  import opened Machine
  import opened MachineInvariant
  import opened MachineSteps
  import Messages

  /** What the registry lock protects. */
  datatype Tables = Tables(heap: seq<Record>, jobs: map<u64, Ref>, queue: seq<Ref>, nextJob: u64)

  function TablesOf(sh: Shared): Tables {
    Tables(sh.heap, sh.jobs, sh.queue, sh.nextJob)
  }

  lemma {:induction false} LeastKey(keys: set<u64>) returns (k: u64)
    requires keys != {}
    ensures k in keys && forall j :: j in keys ==> k <= j
  {
    k :| k in keys;
    if keys != {k} {
      var rest := keys - {k};
      assert keys == rest + {k};
      var l := LeastKey(rest);
      assert forall j :: j in keys ==> j == k || j in rest;
      if l < k {
        k := l;
      }
    }
  }

  predicate InHeap(rs: seq<Ref>, heap: seq<Record>) {
    forall i :: 0 <= i < |rs| ==> rs[i] < |heap|
  }

  /** Each entry of the map leads to the record with that id. */
  predicate KeyedById(jobs: map<u64, Ref>, heap: seq<Record>) {
    forall k :: k in jobs ==> jobs[k] < |heap| && heap[jobs[k]].id == k
  }

  function Without(jobs: map<u64, Ref>, rs: seq<Ref>): map<u64, Ref> {
    map k | k in jobs && jobs[k] !in rs :: jobs[k]
  }

  lemma WithoutKeyed(jobs: map<u64, Ref>, heap: seq<Record>, rs: seq<Ref>)
    requires KeyedById(jobs, heap)
    ensures KeyedById(Without(jobs, rs), heap)
  {
  }

  // ----- The loops of a close, step by step -----

  lemma QueueStep(sh: Shared, kept: seq<Ref>, queued: seq<Ref>, rest: seq<Ref>, session: u64)
    requires rest != []
    ensures queued + OwnQueue(sh, rest, session)
         == (if OfSession(sh, rest[0], session) then queued + [rest[0]] else queued) + OwnQueue(sh, rest[1..], session)
    ensures kept + OtherQueue(sh, rest, session)
         == (if OfSession(sh, rest[0], session) then kept else kept + [rest[0]]) + OtherQueue(sh, rest[1..], session)
  {
    var own, other := OwnQueue(sh, rest[1..], session), OtherQueue(sh, rest[1..], session);
    if OfSession(sh, rest[0], session) {
      assert OwnQueue(sh, rest, session) == [rest[0]] + own && OtherQueue(sh, rest, session) == other;
      Shift(queued, rest[0], own);
    } else {
      assert OwnQueue(sh, rest, session) == own && OtherQueue(sh, rest, session) == [rest[0]] + other;
      Shift(kept, rest[0], other);
    }
  }

  lemma Shift(a: seq<Ref>, x: Ref, b: seq<Ref>)
    ensures a + ([x] + b) == (a + [x]) + b
  {
  }

  lemma QueueEnd(sh: Shared, session: u64)
    ensures OwnQueue(sh, [], session) == [] && OtherQueue(sh, [], session) == []
  {
  }

  /** The map entries still ahead of the iterator, and those behind it that belong to other sessions. */
  function OfOthers(heap: seq<Record>, jobs: map<u64, Ref>, session: u64, ahead: set<u64>): map<u64, Ref>
    requires KeyedById(jobs, heap)
  {
    map k | k in jobs && (k in ahead || heap[jobs[k]].session != session) :: jobs[k]
  }

  predicate Detached(heap: seq<Record>, jobs: map<u64, Ref>, session: u64, ahead: set<u64>, r: Ref) {
    && r < |heap| && heap[r].session == session && heap[r].id in jobs && jobs[heap[r].id] == r
    && heap[r].id !in ahead
  }

  predicate Earlier(heap: seq<Record>, a: Ref, b: Ref) {
    a < |heap| && b < |heap| && heap[a].id < heap[b].id
  }

  /** `running` lists, by ascending id, the entries of the session that are behind the iterator. */
  predicate IsDetached(heap: seq<Record>, jobs: map<u64, Ref>, session: u64, ahead: set<u64>, running: seq<Ref>)
    requires KeyedById(jobs, heap)
  {
    && (forall i :: 0 <= i < |running| ==> Detached(heap, jobs, session, ahead, running[i]))
    && (forall k :: k in jobs && k !in ahead && heap[jobs[k]].session == session ==> jobs[k] in running)
    && (forall i, j :: 0 <= i < j < |running| ==> Earlier(heap, running[i], running[j]))
    && (forall i, k :: 0 <= i < |running| && k in ahead ==> running[i] < |heap| && heap[running[i]].id < k)
  }

  lemma DetachStep(heap: seq<Record>, jobs: map<u64, Ref>, session: u64, ahead: set<u64>, running: seq<Ref>, k: u64)
    requires KeyedById(jobs, heap) && IsDetached(heap, jobs, session, ahead, running)
    requires k in ahead && ahead <= jobs.Keys && forall j :: j in ahead ==> k <= j
    ensures IsDetached(heap, jobs, session, ahead - {k},
                       if heap[jobs[k]].session == session then running + [jobs[k]] else running)
  {
    var next := if heap[jobs[k]].session == session then running + [jobs[k]] else running;
    forall i, j | 0 <= i < |next| && j in ahead - {k} ensures next[i] < |heap| && heap[next[i]].id < j {
      assert i < |running| ==> heap[running[i]].id < j;
    }
    forall i | 0 <= i < |next| ensures Detached(heap, jobs, session, ahead - {k}, next[i]) {
      assert i < |running| ==> Detached(heap, jobs, session, ahead, running[i]);
    }
    forall j | j in jobs && j !in ahead - {k} && heap[jobs[j]].session == session ensures jobs[j] in next {
      assert j != k ==> jobs[j] in running;
    }
    forall i, j | 0 <= i < j < |next| ensures Earlier(heap, next[i], next[j]) {
      assert j < |running| ==> Earlier(heap, running[i], running[j]);
    }
  }

  lemma OwnInHeap(sh: Shared, session: u64)
    ensures InHeap(OwnQueue(sh, sh.queue, session), sh.heap)
    ensures forall r :: r in OwnQueue(sh, sh.queue, session) ==> OfSession(sh, r, session)
  {
    var own := OwnQueue(sh, sh.queue, session);
    OwnQueueIs(sh, sh.queue, session);
    forall i | 0 <= i < |own| ensures own[i] < |sh.heap| {
      assert own[i] in own;
    }
  }

  /** In every reachable state of the machine the registry's methods may be called. */
  lemma InvariantGives(sh: Shared)
    requires SharedOk(sh)
    ensures InHeap(sh.queue, sh.heap) && KeyedById(sh.jobs, sh.heap)
  {
    forall i | 0 <= i < |sh.queue| ensures sh.queue[i] < |sh.heap| {
      assert sh.queue[i] in sh.queue;
    }
    forall k | k in sh.jobs ensures sh.jobs[k] < |sh.heap| && sh.heap[sh.jobs[k]].id == k {
      assert Retains(sh, k, sh.jobs[k]);
    }
  }

  lemma DetachedIsLeft(sh: Shared, session: u64, queued: seq<Ref>, running: seq<Ref>)
    requires KeyedById(sh.jobs, sh.heap) && forall r :: r in queued ==> OfSession(sh, r, session)
    requires IsDetached(sh.heap, Without(sh.jobs, queued), session, {}, running)
    ensures LeftInMap(sh, session, queued, running)
    ensures OfOthers(sh.heap, Without(sh.jobs, queued), session, {}) == OtherJobs(sh, sh.jobs, session)
  {
    var jobs := Without(sh.jobs, queued);
    forall r | r in running
      ensures r < |sh.heap| && r !in queued && OfSession(sh, r, session) && sh.heap[r].id in sh.jobs
      ensures sh.jobs[sh.heap[r].id] == r
    {
      var i :| 0 <= i < |running| && running[i] == r;
      assert Detached(sh.heap, jobs, session, {}, running[i]);
    }
    forall k | k in sh.jobs && OfSession(sh, sh.jobs[k], session)
      ensures sh.jobs[k] in queued || sh.jobs[k] in running
    {
      assert sh.jobs[k] !in queued ==> k in jobs;
    }
    forall i, j | 0 <= i < j < |running| ensures IdBefore(sh, running[i], running[j]) {
      assert Earlier(sh.heap, running[i], running[j]);
    }
  }

  lemma OthersStep(heap: seq<Record>, jobs: map<u64, Ref>, session: u64, ahead: set<u64>, k: u64)
    requires KeyedById(jobs, heap) && k in ahead && ahead <= jobs.Keys
    ensures k in OfOthers(heap, jobs, session, ahead) && OfOthers(heap, jobs, session, ahead)[k] == jobs[k]
    ensures OfOthers(heap, jobs, session, ahead - {k})
         == if heap[jobs[k]].session == session then OfOthers(heap, jobs, session, ahead) - {k}
            else OfOthers(heap, jobs, session, ahead)
  {
  }

  lemma OthersStart(heap: seq<Record>, jobs: map<u64, Ref>, session: u64)
    requires KeyedById(jobs, heap)
    ensures OfOthers(heap, jobs, session, jobs.Keys) == jobs && IsDetached(heap, jobs, session, jobs.Keys, [])
  {
  }

  /** What the passes of a close make of one record. */
  function Settled(r: Record, queued: bool, running: bool): Record {
    if queued then AsCancelled(r.(cancelled := true)) else if running then WithCancelRequested(r) else r
  }

  function SettledAll(heap: seq<Record>, queued: seq<Ref>, running: seq<Ref>): seq<Record> {
    seq(|heap|, r requires 0 <= r < |heap| => Settled(heap[r], r in queued, r in running))
  }

  lemma TakenTables(st: State, t: Tid, session: u64, sref: Ref, running: seq<Ref>)
    requires sref < |st.sh.sessionHeap|
    ensures TablesOf(DoTakeJobs(st, t, session, sref, running).sh)
         == Tables(st.sh.heap, OtherJobs(st.sh, st.sh.jobs, session), OtherQueue(st.sh, st.sh.queue, session),
                   st.sh.nextJob)
  {
  }

  class JobRegistry {
    const instance: u64
    const maximumJobs: nat
    var heap: seq<Record>
    var jobs: map<u64, Ref>
    var queue: seq<Ref>
    var nextJob: u64

    constructor (instance: u64, maximumJobs: nat)
      ensures View() == TablesOf(Initial(0).sh)
    {
      this.instance, this.maximumJobs := instance, maximumJobs;
      heap, jobs, queue, nextJob := [], map[], [], 1;
    }

    function View(): Tables
      reads this
    {
      Tables(heap, jobs, queue, nextJob)
    }

    /** Admits a job for a session that was found open. */
    method Submit(session: u64, allocation: Allocation, ghost c: Config, ghost st: State, ghost t: Tid, ghost sref: Ref)
      returns (r: Result<u64>)
      requires View() == TablesOf(st.sh) && c.maximumJobs == maximumJobs
      requires sref < |st.sh.sessionHeap| && st.sh.sessionHeap[sref].id == session
      modifies this
      ensures View() == TablesOf(DoEnqueue(c, st, t, sref, allocation).sh)
      ensures r.Ok? <==> |old(jobs)| < maximumJobs && old(nextJob) != 0 && allocation.Succeeds?
                         && old(nextJob) !in old(jobs)
      ensures r.Err? ==> r.code == if |old(jobs)| < maximumJobs && old(nextJob) != 0 && allocation.Succeeds?
                                   then INTERNAL else RESOURCE_EXHAUSTED
      ensures r.Ok? <==> |jobs| == |old(jobs)| + 1 && queue == old(queue) + [|old(heap)|]
      ensures r.Ok? ==>
                r.value == old(nextJob) && jobs == old(jobs)[r.value := |old(heap)|]
                    && heap == old(heap) + [Fresh(r.value, session)]
      ensures r.Err? ==> jobs == old(jobs) && queue == old(queue) && heap == old(heap)
    {
      if |jobs| >= maximumJobs {
        return Err(RESOURCE_EXHAUSTED);
      }
      if nextJob == 0 {
        return Err(RESOURCE_EXHAUSTED);
      }
      if allocation.FailsBeforeId? {
        return Err(RESOURCE_EXHAUSTED);
      }
      var id := nextJob;
      nextJob := Increment(nextJob);
      if allocation.FailsAfterId? {
        return Err(RESOURCE_EXHAUSTED);
      }
      if id in jobs {
        return Err(INTERNAL);
      }
      jobs := jobs[id := |heap|];
      queue := queue + [|heap|];
      heap := heap + [Fresh(id, session)];
      r := Ok(id);
    }

    method Find(id: Messages.Id, ghost c: Config, ghost sh: Shared) returns (r: Option<Ref>)
      requires View() == TablesOf(sh) && c.instance == instance
      ensures r == if Retained(c, sh, id) then Some(sh.jobs[id.value]) else None
    {
      if id.instance != instance || id.value == 0 || id.value !in jobs {
        return None;
      }
      r := Some(jobs[id.value]);
    }

    method Release(id: Messages.Id, ghost c: Config, ghost st: State, ghost t: Tid) returns (r: Result<()>)
      requires View() == TablesOf(st.sh) && c.instance == instance
      requires forall k :: k in jobs ==> jobs[k] < |heap|
      modifies this`jobs
      ensures var gone := Retained(c, st.sh, id) && Terminal(old(heap)[old(jobs)[id.value]].state);
              View() == if gone then TablesOf(DoErase(st, t, id.value).sh) else old(View())
      ensures r == if !Retained(c, st.sh, id) then Err(NOT_FOUND)
                   else if !Terminal(old(heap)[old(jobs)[id.value]].state) then Err(INVALID_ARGUMENT)
                   else Ok(())
    {
      if id.instance != instance || id.value == 0 || id.value !in jobs {
        return Err(NOT_FOUND);
      }
      if !Terminal(heap[jobs[id.value]].state) {
        return Err(INVALID_ARGUMENT);
      }
      jobs := jobs - {id.value};
      r := Ok(());
    }

    /** What a worker takes when the queue is not empty. */
    method PopFront(ghost st: State, ghost w: nat) returns (r: Ref)
      requires View() == TablesOf(st.sh) && queue != [] && w < |st.workers| && ValidRef(st.sh, queue[0])
      modifies this`queue
      ensures View() == TablesOf(DoPop(st, w).sh) && r == old(queue)[0]
    {
      r := queue[0];
      queue := queue[1..];
    }

    /** First loop of a close: the queue entries of the session leave the queue, in order. */
    method DetachQueued(session: u64, ghost sh: Shared) returns (queued: seq<Ref>)
      requires View() == TablesOf(sh) && InHeap(queue, heap)
      modifies this`queue
      ensures queued == OwnQueue(sh, old(queue), session) && queue == OtherQueue(sh, old(queue), session)
    {
      hide OwnQueue, OtherQueue;
      queued := [];
      var i := 0;
      ghost var kept, rest := [], queue;
      while i < |queue|
        invariant i == |kept| && queue == kept + rest && InHeap(rest, heap) && heap == sh.heap
        invariant OwnQueue(sh, old(queue), session) == queued + OwnQueue(sh, rest, session)
        invariant OtherQueue(sh, old(queue), session) == kept + OtherQueue(sh, rest, session)
        decreases |queue| - i
      {
        var r := queue[i];
        assert r == rest[0];
        QueueStep(sh, kept, queued, rest, session);
        if heap[r].session != session {
          kept, rest := kept + [r], rest[1..];
          i := i + 1;
          continue;
        }
        queued := queued + [r];
        rest := rest[1..];
        queue := queue[..i] + queue[i + 1..];
      }
      QueueEnd(sh, session);
      assert rest == [];
    }

    /** Second loop: those records leave the map, each only if it is the one the map holds under its id. */
    method DetachFromMap(queued: seq<Ref>)
      requires InHeap(queued, heap) && KeyedById(jobs, heap)
      modifies this`jobs
      ensures jobs == Without(old(jobs), queued)
    {
      var i := 0;
      while i < |queued|
        invariant i <= |queued| && jobs == Without(old(jobs), queued[..i])
      {
        var id := heap[queued[i]].id;
        if id in jobs && jobs[id] == queued[i] {
          jobs := jobs - {id};
        }
        assert queued[..i + 1] == queued[..i] + [queued[i]];
        i := i + 1;
      }
      assert queued[..i] == queued;
    }

    /** Third loop: what the map still holds of the session leaves it, by ascending id. */
    method DetachRunning(session: u64) returns (running: seq<Ref>)
      requires KeyedById(jobs, heap)
      modifies this`jobs
      ensures jobs == OfOthers(heap, old(jobs), session, {})
      ensures IsDetached(heap, old(jobs), session, {}, running)
    {
      hide OfOthers, IsDetached;
      OthersStart(heap, jobs, session);
      running := [];
      var ahead := jobs.Keys;
      while ahead != {}
        invariant ahead <= old(jobs).Keys
        invariant jobs == OfOthers(heap, old(jobs), session, ahead)
        invariant IsDetached(heap, old(jobs), session, ahead, running)
        decreases |ahead|
      {
        ghost var least := LeastKey(ahead);
        var k :| k in ahead && forall j :: j in ahead ==> k <= j;
        DetachStep(heap, old(jobs), session, ahead, running, k);
        OthersStep(heap, old(jobs), session, ahead, k);
        ahead := ahead - {k};
        if heap[jobs[k]].session == session {
          running := running + [jobs[k]];
          jobs := jobs - {k};
        }
      }
    }

    /** The registry part of a close. */
    method CloseSession(session: u64, ghost st: State, ghost t: Tid, ghost sref: Ref)
      returns (queued: seq<Ref>, running: seq<Ref>)
      requires View() == TablesOf(st.sh) && sref < |st.sh.sessionHeap|
      requires InHeap(queue, heap) && KeyedById(jobs, heap)
      modifies this
      ensures View() == TablesOf(DoTakeJobs(st, t, session, sref, running).sh)
      ensures queued == OwnQueue(st.sh, st.sh.queue, session) && LeftInMap(st.sh, session, queued, running)
    {
      ghost var sh := st.sh;
      hide OwnQueue, OtherQueue, OtherJobs, IsDetached, OfOthers, LeftInMap, DoTakeJobs, Without;
      queued := DetachQueued(session, sh);
      OwnInHeap(sh, session);
      DetachFromMap(queued);
      WithoutKeyed(sh.jobs, sh.heap, queued);
      running := DetachRunning(session);
      DetachedIsLeft(sh, session, queued, running);
      TakenTables(st, t, session, sref, running);
    }

    /** The passes of a close over the records it took, up to the wait. */
    method SettleCloseRecords(queued: seq<Ref>, running: seq<Ref>)
      requires InHeap(queued, heap) && InHeap(running, heap) && forall r :: r in queued ==> r !in running
      modifies this`heap
      ensures heap == SettledAll(old(heap), queued, running)
    {
      var i := 0;
      while i < |queued|
        invariant i <= |queued| && |heap| == |old(heap)|
        invariant forall r :: 0 <= r < |heap| ==> heap[r] == Settled(old(heap)[r], r in queued[..i], false)
      {
        var r := queued[i];
        heap := heap[r := heap[r].(cancelled := true)];
        heap := heap[r := heap[r].(result := None, state := Running)];
        heap := heap[r := heap[r].(outcome := CANCELLED, state := Cancelled)];
        assert queued[..i + 1] == queued[..i] + [r];
        i := i + 1;
      }
      assert queued[..i] == queued;
      ghost var settled := heap;
      i := 0;
      while i < |running|
        invariant i <= |running| && |heap| == |old(heap)|
        invariant forall r :: 0 <= r < |heap| ==> heap[r] == Settled(settled[r], false, r in running[..i])
      {
        var r := running[i];
        assert running[..i + 1] == running[..i] + [r];
        i := i + 1;
        if Terminal(heap[r].state) {
          continue;
        }
        heap := heap[r := heap[r].(cancelled := true)];
      }
      assert running[..i] == running;
    }
  }
}
