/** The session table in place, and the reservation that a session being created holds. */
module Sessions {
  import opened Wire
  import opened Machine
  import Messages

  /** What the lifecycle and session locks protect. */
  datatype Rooms = Rooms(records: seq<SessionRecord>, sessions: map<u64, Ref>, pending: nat, nextSession: u64)

  function RoomsOf(sh: Shared): Rooms {
    Rooms(sh.sessionHeap, sh.sessions, sh.pending, sh.nextSession)
  }

  class SessionTable {
    const instance: u64
    const maximumSessions: nat
    var records: seq<SessionRecord>
    var sessions: map<u64, Ref>
    var pending: nat
    var nextSession: u64

    constructor (instance: u64, maximumSessions: nat)
      ensures View() == RoomsOf(Initial(0).sh) && this.instance == instance && this.maximumSessions == maximumSessions
    {
      this.instance, this.maximumSessions := instance, maximumSessions;
      records, sessions, pending, nextSession := [], map[], 0, 1;
    }

    function View(): Rooms
      reads this
    {
      Rooms(records, sessions, pending, nextSession)
    }
  }

  /** One pending slot: taken once, then given up or turned into a session. */
  class Reservation {
    const table: SessionTable
    var active: bool

    constructor (table: SessionTable)
      ensures this.table == table && !active
    {
      this.table := table;
      active := false;
    }

    method ReserveWhileLocked()
      requires !active
      modifies this, table`pending
      ensures active && table.pending == old(table.pending) + 1
    {
      table.pending := table.pending + 1;
      active := true;
    }

    method CommitWhileLocked()
      requires active && table.pending > 0
      modifies this, table`pending
      ensures !active && table.pending == old(table.pending) - 1
    {
      table.pending := table.pending - 1;
      active := false;
    }

    /** Runs on every way out of a creation. */
    method Destroy()
      requires active ==> table.pending > 0
      modifies this, table`pending
      ensures !active && table.pending == old(table.pending) - (if old(active) then 1 else 0)
    {
      if !active {
        return;
      }
      table.pending := table.pending - 1;
      active := false;
    }
  }

  /** What becomes of a creation that got its slot. */
  datatype Fate = DoesNotCompile(code: ErrorCode) | ThrowsOnPublication | Publishes

  /** The state a creation leaves behind when nobody else steps in between: the machine's steps, one after the other. */
  ghost function Created(c: Config, st: State, t: Tid, fate: Fate): State
    requires t in st.handlers && st.handlers[t] == CreateAdmit
  {
    var admitted := DoAdmit(c, st, t);
    if t !in admitted.handlers then admitted
    else if fate.DoesNotCompile? then DoRollback(Goto(admitted, t, CreateRollback), t)
    else
      var published := DoPublish(Goto(admitted, t, CreatePublish), t, fate == ThrowsOnPublication);
      if t in published.handlers then DoRollback(published, t) else published
  }

  predicate Succeeds(rooms: Rooms, maximum: nat, fate: Fate) {
    && |rooms.sessions| + rooms.pending < maximum && rooms.nextSession != 0 && rooms.nextSession !in rooms.sessions
    && fate == Publishes
  }

  /** Why a creation fails: no room or id, the compiler's category, an exception, or a duplicate. */
  function Refusal(rooms: Rooms, maximum: nat, fate: Fate): ErrorCode {
    if |rooms.sessions| + rooms.pending >= maximum || rooms.nextSession == 0 then RESOURCE_EXHAUSTED
    else
      match fate
      case DoesNotCompile(code) => code
      case ThrowsOnPublication => RESOURCE_EXHAUSTED
      case Publishes => INTERNAL
  }

  lemma CreatedIs(c: Config, st: State, t: Tid, fate: Fate)
    requires t in st.handlers && st.handlers[t] == CreateAdmit
    ensures var rooms := RoomsOf(st.sh);
            RoomsOf(Created(c, st, t, fate).sh) ==
              if !Succeeds(rooms, c.maximumSessions, fate) then rooms
              else Rooms(rooms.records + [SessionRecord(rooms.nextSession, false, None, false)],
                         rooms.sessions[rooms.nextSession := |rooms.records|], rooms.pending,
                             Increment(rooms.nextSession))
  {
  }

  /** `session.create`: reserve, build without locks, publish; every failure gives the slot back and spends no id. */
  method CreateSession(table: SessionTable, fate: Fate, ghost c: Config, ghost st: State, ghost t: Tid)
    returns (r: Result<u64>)
    requires table.View() == RoomsOf(st.sh) && t in st.handlers && st.handlers[t] == CreateAdmit
    requires c.maximumSessions == table.maximumSessions
    modifies table
    ensures table.View() == RoomsOf(Created(c, st, t, fate).sh)
    ensures table.pending == old(table.pending)
    ensures r.Err? ==> table.View() == old(table.View())
    ensures r.Ok? ==>
              && r.value == old(table.nextSession) != 0 && fate == Publishes
              && |old(table.sessions)| + table.pending < table.maximumSessions
              && table.sessions == old(table.sessions)[r.value := |old(table.records)|]
              && table.nextSession == Increment(r.value)
    ensures r.Err? <==> !Succeeds(old(table.View()), table.maximumSessions, fate)
    ensures r.Err? ==> r.code == Refusal(old(table.View()), table.maximumSessions, fate)
  {
    hide Created, RoomsOf;
    CreatedIs(c, st, t, fate);
    var reservation := new Reservation(table);
    if |table.sessions| >= table.maximumSessions || table.pending >= table.maximumSessions - |table.sessions| {
      reservation.Destroy();
      return Err(RESOURCE_EXHAUSTED);
    }
    if table.nextSession == 0 {
      reservation.Destroy();
      return Err(RESOURCE_EXHAUSTED);
    }
    reservation.ReserveWhileLocked();
    if fate.DoesNotCompile? {
      reservation.Destroy();
      return Err(fate.code);
    }
    if fate == ThrowsOnPublication {
      reservation.Destroy();
      return Err(RESOURCE_EXHAUSTED);
    }
    var id := table.nextSession;
    if id in table.sessions {
      reservation.Destroy();
      return Err(INTERNAL);
    }
    table.sessions := table.sessions[id := |table.records|];
    table.records := table.records + [SessionRecord(id, false, None, false)];
    reservation.CommitWhileLocked();
    table.nextSession := Increment(table.nextSession);
    reservation.Destroy();
    r := Ok(id);
  }
}
