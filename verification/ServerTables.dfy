/** The server's tables in place: handler records with their slots, and the listed connections. */
module ServerTables {
  import opened Wire
  import opened Server
  import opened ServerSafety

  function Unfinished(records: seq<Hid>, finished: set<Hid>): seq<Hid> {
    if records == [] then []
    else (if records[0] in finished then [] else [records[0]]) + Unfinished(records[1..], finished)
  }

  lemma ReapStep(kept: seq<Hid>, rest: seq<Hid>, finished: set<Hid>)
    requires rest != []
    ensures kept + Unfinished(rest, finished)
         == (if rest[0] in finished then kept else kept + [rest[0]]) + Unfinished(rest[1..], finished)
  {
    var later := Unfinished(rest[1..], finished);
    if rest[0] in finished {
      assert Unfinished(rest, finished) == later;
    } else {
      assert Unfinished(rest, finished) == [rest[0]] + later;
      Shift(kept, rest[0], later);
    }
  }

  lemma Shift(a: seq<Hid>, x: Hid, b: seq<Hid>)
    ensures a + ([x] + b) == (a + [x]) + b
  {
  }

  lemma NoneUnfinished(finished: set<Hid>)
    ensures Unfinished([], finished) == []
  {
  }

  /** What becomes of a connection that was accepted while there was a slot. */
  datatype Creation = NoFlag | NoRecord | NoThread | Created

  /** What the accept loop and the handlers share about handlers. */
  datatype Table = Table(records: seq<Hid>, finished: set<Hid>, activeHandlers: nat)

  function TableOf(st: State): Table {
    Table(st.records, st.finished, st.activeHandlers)
  }

  /** The steps of the accept loop that deal with one accepted connection. */
  function AdmissionSteps(room: bool, creation: Creation): seq<Step> {
    if !room then [CheckCapacity]
    else
      match creation
      case NoFlag => [CheckCapacity, Reserve(false)]
      case NoRecord => [CheckCapacity, Reserve(true), Push(false), Undo]
      case NoThread => [CheckCapacity, Reserve(true), Push(true), Spawn(false), Undo]
      case Created => [CheckCapacity, Reserve(true), Push(true), Spawn(true)]
  }

  lemma FromPushing(maximum: nat, st: State, creation: Creation)
    requires st.runner.Pushing? && st.runner.fd in st.open && st.activeHandlers > 0
    requires creation == NoRecord || creation == NoThread || creation == Created
    ensures var steps := if creation == NoRecord then [Push(false)] + [Undo]
                         else if creation == NoThread then [Push(true)] + ([Spawn(false)] + [Undo])
                         else [Push(true)] + [Spawn(true)];
            && Possible(maximum, st, steps)
            && TableOf(Later(maximum, st, steps)) ==
                 (if creation == Created then Table(st.records + [st.runner.h], st.finished, st.activeHandlers)
                  else Table(st.records, st.finished, st.activeHandlers - 1))
  {
    hide Possible, Later;
    var fd, h := st.runner.fd, st.runner.h;
    var undoing := st.(runner := Undoing(fd, h));
    var spawning := st.(records := st.records + [h], runner := Spawning(fd, h));
    OneStep(maximum, undoing, Undo);
    match creation
    case NoRecord =>
      assert Guard(st, Push(false)) && Apply(maximum, st, Push(false)) == undoing;
      StepThen(maximum, st, Push(false), [Undo]);
    case NoThread =>
      assert Guard(st, Push(true)) && Apply(maximum, st, Push(true)) == spawning;
      assert (st.records + [h])[..|st.records|] == st.records;
      assert Guard(spawning, Spawn(false)) && Apply(maximum, spawning, Spawn(false)) == undoing;
      StepThen(maximum, spawning, Spawn(false), [Undo]);
      StepThen(maximum, st, Push(true), [Spawn(false)] + [Undo]);
    case Created =>
      assert Guard(st, Push(true)) && Apply(maximum, st, Push(true)) == spawning;
      OneStep(maximum, spawning, Spawn(true));
      StepThen(maximum, st, Push(true), [Spawn(true)]);
  }

  lemma AdmissionIsSteps(maximum: nat, st: State, creation: Creation)
    requires st.runner.Checking? && st.runner.fd in st.open
    ensures var steps := AdmissionSteps(st.activeHandlers < maximum, creation);
            && Possible(maximum, st, steps)
            && TableOf(Later(maximum, st, steps)) ==
                 (if st.activeHandlers < maximum && creation == Created
                  then Table(st.records + [st.nextHandler], st.finished, st.activeHandlers + 1) else TableOf(st))
  {
    hide Possible, Later;
    var fd := st.runner.fd;
    if st.activeHandlers >= maximum {
      OneStep(maximum, st, CheckCapacity);
    } else {
      var reserving := st.(runner := Reserving(fd));
      assert Guard(st, CheckCapacity) && Apply(maximum, st, CheckCapacity) == reserving;
      if creation == NoFlag {
        OneStep(maximum, reserving, Reserve(false));
        StepThen(maximum, st, CheckCapacity, [Reserve(false)]);
        assert [CheckCapacity] + [Reserve(false)] == AdmissionSteps(true, creation);
      } else {
        var pushing := Apply(maximum, reserving, Reserve(true));
        FromPushing(maximum, pushing, creation);
        var rest := if creation == NoRecord then [Push(false)] + [Undo]
                    else if creation == NoThread then [Push(true)] + ([Spawn(false)] + [Undo])
                    else [Push(true)] + [Spawn(true)];
        StepThen(maximum, reserving, Reserve(true), rest);
        StepThen(maximum, st, CheckCapacity, [Reserve(true)] + rest);
        assert [CheckCapacity] + ([Reserve(true)] + rest) == AdmissionSteps(true, creation);
      }
    }
  }

  lemma CompletionIsSteps(maximum: nat, st: State, h: Hid)
    requires At(st, h, Finishing) && st.activeHandlers > 0
    ensures Possible(maximum, st, [Finish(h), Release(h)])
    ensures TableOf(Later(maximum, st, [Finish(h), Release(h)]))
         == Table(st.records, st.finished + {h}, st.activeHandlers - 1)
  {
    hide Possible, Later;
    OneStep(maximum, Apply(maximum, st, Finish(h)), Release(h));
    StepThen(maximum, st, Finish(h), [Release(h)]);
    assert [Finish(h)] + [Release(h)] == [Finish(h), Release(h)];
  }

  class HandlerTable {
    const maximum: nat
    var records: seq<Hid>
    var finished: set<Hid>
    var activeHandlers: nat

    constructor (maximum: nat)
      ensures this.maximum == maximum && records == [] && finished == {} && activeHandlers == 0
    {
      this.maximum, records, finished, activeHandlers := maximum, [], {}, 0;
    }

    /** Erases, while iterating, the records of handlers that have finished. */
    method ReapFinishedHandlers()
      modifies this`records
      ensures records == Unfinished(old(records), finished)
    {
      hide Unfinished;
      var i := 0;
      ghost var kept, rest := [], records;
      while i < |records|
        invariant i == |kept| && records == kept + rest
        invariant Unfinished(old(records), finished) == kept + Unfinished(rest, finished)
        decreases |records| - i
      {
        assert records[i] == rest[0];
        ReapStep(kept, rest, finished);
        if records[i] !in finished {
          kept, rest := kept + [rest[0]], rest[1..];
          i := i + 1;
        } else {
          rest := rest[1..];
          records := records[..i] + records[i + 1..];
        }
      }
      assert rest == [];
      NoneUnfinished(finished);
    }

    function View(): Table
      reads this
    {
      Table(records, finished, activeHandlers)
    }

    /**
     * Takes a slot, then retains a record, then starts the thread; each failure undoes what came before it. That is
     * what the accept loop does in its steps.
     */
    method Admit(h: Hid, creation: Creation, ghost st: State) returns (admitted: bool)
      requires View() == TableOf(st) && st.runner.Checking? && st.runner.fd in st.open && h == st.nextHandler
      modifies this
      ensures var steps := AdmissionSteps(st.activeHandlers < maximum, creation);
              Possible(maximum, st, steps) && View() == TableOf(Later(maximum, st, steps))
      ensures finished == old(finished)
      ensures admitted <==> old(activeHandlers) < maximum && creation == Created
      ensures admitted ==> activeHandlers == old(activeHandlers) + 1 && records == old(records) + [h]
      ensures !admitted ==> activeHandlers == old(activeHandlers) && records == old(records)
      ensures old(activeHandlers) <= maximum ==> activeHandlers <= maximum
    {
      AdmissionIsSteps(maximum, st, creation);
      if activeHandlers >= maximum {
        return false;
      }
      if creation == NoFlag {
        return false;
      }
      activeHandlers := activeHandlers + 1;
      if creation == NoRecord {
        activeHandlers := activeHandlers - 1;
        return false;
      }
      records := records + [h];
      if creation == NoThread {
        records := records[..|records| - 1];
        activeHandlers := activeHandlers - 1;
        return false;
      }
      admitted := true;
    }

    /** The end of a handler: the flag first, then the slot, as in its last two steps. */
    method Complete(h: Hid, ghost st: State)
      requires View() == TableOf(st) && At(st, h, Finishing) && activeHandlers > 0
      modifies this`finished, this`activeHandlers
      ensures Possible(maximum, st, [Finish(h), Release(h)])
      ensures View() == TableOf(Later(maximum, st, [Finish(h), Release(h)]))
    {
      CompletionIsSteps(maximum, st, h);
      finished := finished + {h};
      activeHandlers := activeHandlers - 1;
    }
  }

  class ConnectionTable {
    var open: map<Fd, Descriptor>
    var active: set<Fd>

    /** Shuts down every listed connection, and no other. */
    method Sweep()
      requires forall fd :: fd in active ==> fd in open
      modifies this`open
      ensures open == ShutDown(old(open), active)
    {
      var todo := active;
      while todo != {}
        invariant todo <= active && open.Keys == old(open).Keys
        invariant open == ShutDown(old(open), active - todo)
        decreases |todo|
      {
        var fd :| fd in todo;
        open := open[fd := open[fd].(shut := true)];
        todo := todo - {fd};
      }
      assert active - {} == active;
    }
  }

  function ShutDown(open: map<Fd, Descriptor>, fds: set<Fd>): map<Fd, Descriptor> {
    map fd | fd in open :: if fd in fds then open[fd].(shut := true) else open[fd]
  }

  // ----- The same as the machine does in steps -----

  /** A whole reaping, as steps of the accept loop while no handler finishes. */
  lemma {:induction false} ReapingIsSteps(maximum: nat, st: State) returns (steps: seq<Step>)
    requires st.runner.Reaping? && st.records == st.runner.kept + st.runner.rest
    requires forall h :: h in st.runner.rest && h in st.finished ==> At(st, h, Exited)
    ensures Possible(maximum, st, steps)
    ensures var kept := st.runner.kept + Unfinished(st.runner.rest, st.finished);
            Later(maximum, st, steps) == st.(records := kept, runner := Reaping(st.runner.fd, kept, [], st.runner.held))
    decreases |st.runner.rest|
  {
    hide Unfinished, Guard, Apply;
    var r := st.runner;
    if r.rest == [] {
      NoneUnfinished(st.finished);
      assert r.kept + [] == r.kept;
      steps := [];
    } else {
      ReapOneIs(maximum, st);
      ReapStep(r.kept, r.rest, st.finished);
      var more := ReapingIsSteps(maximum, Apply(maximum, st, ReapOne));
      steps := [ReapOne] + more;
      assert steps[1..] == more;
    }
  }

  lemma ReapOneIs(maximum: nat, st: State)
    requires st.runner.Reaping? && st.records == st.runner.kept + st.runner.rest && st.runner.rest != []
    requires forall h :: h in st.runner.rest && h in st.finished ==> At(st, h, Exited)
    ensures Guard(st, ReapOne)
    ensures var r := st.runner;
            var kept := if r.rest[0] in st.finished then r.kept else r.kept + [r.rest[0]];
            Apply(maximum, st, ReapOne)
                == st.(records := kept + r.rest[1..], runner := Reaping(r.fd, kept, r.rest[1..], r.held))
  {
    var r := st.runner;
    assert r.rest == [r.rest[0]] + r.rest[1..];
    assert (r.kept + [r.rest[0]]) + r.rest[1..] == r.kept + r.rest;
    assert r.rest[0] in r.rest;
  }

  /** A whole sweep, as steps under the mutex. */
  lemma {:induction false} SweepIsSteps(maximum: nat, st: State) returns (steps: seq<Step>)
    requires st.stop.Sweeping? && forall fd :: fd in st.stop.todo ==> fd in st.open
    ensures Possible(maximum, st, steps) && forall i :: 0 <= i < |steps| ==> steps[i].SweepOne?
    ensures Later(maximum, st, steps) == st.(open := ShutDown(st.open, st.stop.todo), stop := Sweeping(st.stop.who, {}))
    decreases |st.stop.todo|
  {
    if st.stop.todo == {} {
      steps := [];
      assert ShutDown(st.open, {}) == st.open;
    } else {
      var fd :| fd in st.stop.todo;
      var next := Apply(maximum, st, SweepOne(fd));
      var more := SweepIsSteps(maximum, next);
      steps := [SweepOne(fd)] + more;
      assert steps[1..] == more;
      assert ShutDown(next.open, next.stop.todo) == ShutDown(st.open, st.stop.todo);
    }
  }
}
