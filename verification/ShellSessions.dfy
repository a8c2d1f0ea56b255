/** The controller's shell session service: objects changed in place behind two maps. */
module ShellSessions {
  import opened Prelude
  import opened ShellDesk

  class ShellSession {
    const sessionId: string
    const deviceId: string
    const organizationId: int
    const userId: int
    var ticket: Option<string>
    var ticketExpiresAt: int
    var active: bool
    var openedAt: int

    constructor (r: Request, expires: int)
      ensures sessionId == r.id && View() == Entry(r.device, r.org, r.user, Some(r.ticket), expires, false, 0)
    {
      sessionId, deviceId, organizationId, userId := r.id, r.device, r.org, r.user;
      ticket, ticketExpiresAt, active, openedAt := Some(r.ticket), expires, false, 0;
    }

    function View(): Entry
      reads this
    {
      Entry(deviceId, organizationId, userId, ticket, ticketExpiresAt, active, openedAt)
    }

    method Open(now: int)
      modifies this
      ensures View() == old(View()).(ticket := None, active := true, openedAt := now)
    {
      ticket, active, openedAt := None, true, now;
    }
  }

  class ShellSessionService {
    const limits: Limits
    var sessions: map<string, ShellSession>
    var ticketIndex: map<string, string>
    var audit: seq<Audit>
    /** What the session objects hold. */
    ghost var table: map<string, Entry>

    ghost predicate Valid()
      reads this, sessions.Values
    {
      && sessions.Keys == table.Keys
      && forall id :: id in sessions ==> sessions[id].sessionId == id && sessions[id].View() == table[id]
    }

    ghost function View(): Desk
      reads this
    {
      Desk(table, ticketIndex, audit)
    }

    constructor (limits: Limits)
      ensures Valid() && this.limits == limits && View() == Start().desk
    {
      this.limits, sessions, ticketIndex, audit, table := limits, map[], map[], [], map[];
    }

    method CountOnDevice(device: string) returns (n: nat)
      requires Valid()
      ensures n == |OnDevice(table, device)|
    {
      var todo, found := sessions.Keys, {};
      while todo != {}
        invariant todo <= sessions.Keys
        invariant forall id :: id in found <==> id in table && id !in todo && table[id].device == device
        decreases |todo|
      {
        var id :| id in todo;
        assert sessions[id].deviceId == table[id].device;
        found := found + if sessions[id].deviceId == device then {id} else {};
        todo := todo - {id};
      }
      assert found == OnDevice(table, device);
      n := |found|;
    }

    method CountInOrg(org: int) returns (n: nat)
      requires Valid()
      ensures n == |InOrg(table, org)|
    {
      var todo, found := sessions.Keys, {};
      while todo != {}
        invariant todo <= sessions.Keys
        invariant forall id :: id in found <==> id in table && id !in todo && table[id].org == org
        decreases |todo|
      {
        var id :| id in todo;
        assert sessions[id].organizationId == table[id].org;
        found := found + if sessions[id].organizationId == org then {id} else {};
        todo := todo - {id};
      }
      assert found == InOrg(table, org);
      n := |found|;
    }

    /** Dropping one reservation if it is expired. */
    method DropExpired(id: string, now: int)
      requires Valid() && id in sessions
      modifies this`sessions, this`ticketIndex, this`table
      ensures Valid() && View() == PurgedAmong(old(View()), {id}, now)
      ensures old(sessions.Keys) - {id} <= sessions.Keys <= old(sessions.Keys)
    {
      var s := sessions[id];
      assert table[id] == s.View();
      if !s.active && now > s.ticketExpiresAt {
        assert ExpiredIds(table, now) * {id} == {id};
        assert TicketsOf(table, {id}) == if s.ticket.Some? then {s.ticket.value} else {};
        if s.ticket.Some? {
          ticketIndex := ticketIndex - {s.ticket.value};
        }
        sessions := sessions - {id};
        table := table - {id};
      } else {
        assert ExpiredIds(table, now) * {id} == {};
        assert TicketsOf(table, {}) == {};
      }
    }

    /** All ids but those still to do have been looked at. */
    ghost predicate Swept(d: Desk, todo: set<string>, now: int)
      reads this, sessions.Values
    {
      Valid() && todo <= sessions.Keys <= d.sessions.Keys && View() == PurgedAmong(d, d.sessions.Keys - todo, now)
    }

    method DropNext(id: string, now: int, ghost d: Desk, ghost todo: set<string>)
      requires Swept(d, todo, now) && id in todo
      modifies this`sessions, this`ticketIndex, this`table
      ensures Swept(d, todo - {id}, now)
    {
      ghost var seen := d.sessions.Keys - todo;
      PurgedMore(d, seen, id, now);
      assert seen + {id} == d.sessions.Keys - (todo - {id});
      DropExpired(id, now);
    }

    method PurgeExpired(now: int)
      requires Valid()
      modifies this`sessions, this`ticketIndex, this`table
      ensures Valid() && View() == Purged(old(View()), now)
      ensures sessions.Keys <= old(sessions.Keys)
    {
      ghost var d := View();
      var todo := sessions.Keys;
      PurgedNone(d, now);
      while todo != {}
        invariant Swept(d, todo, now)
        decreases |todo|
      {
        var id :| id in todo;
        DropNext(id, now, d, todo);
        todo := todo - {id};
      }
      PurgedAll(d, now);
    }

    method Reserve(r: Request, expires: int)
      requires Valid() && r.id !in sessions
      modifies this`sessions, this`ticketIndex, this`table
      ensures Valid() && ticketIndex == old(ticketIndex)[r.ticket := r.id]
      ensures table == old(table)[r.id := Entry(r.device, r.org, r.user, Some(r.ticket), expires, false, 0)]
    {
      var s := new ShellSession(r, expires);
      sessions := sessions[r.id := s];
      ticketIndex := ticketIndex[r.ticket := r.id];
      table := table[r.id := s.View()];
    }

    method Create(r: Request, now: int) returns (c: Creation)
      requires Valid() && r.id !in sessions
      modifies this`sessions, this`ticketIndex, this`table
      ensures Valid() && View() == Created(old(View()), limits, r, now)
      ensures c == CreationOf(old(View()), limits, r, now)
    {
      if r.state == Missing {
        return NotFound;
      }
      if r.state != Online {
        return NotOnline;
      }
      PurgeExpired(now);
      var n := CountOnDevice(r.device);
      if n >= limits.perDevice {
        return TooManyOnDevice;
      }
      n := CountInOrg(r.org);
      if n >= limits.perOrg {
        return TooManyInOrg;
      }
      Reserve(r, now + limits.ttl);
      c := Ticketed(r.id, r.ticket);
    }

    method Activate(ticket: string, now: int) returns (session: ShellSession?)
      requires Valid()
      modifies this, sessions.Values
      ensures Valid() && View() == AfterActivate(old(View()), ticket, now)
      ensures session != null <==> ActivationOf(old(View()), ticket, now).Activated?
      ensures session != null ==> old(ticketIndex[ticket] in sessions) && session == old(sessions[ticketIndex[ticket]])
    {
      if ticket !in ticketIndex {
        assert ticketIndex - {ticket} == ticketIndex;
        return null;
      }
      var id := ticketIndex[ticket];
      ticketIndex := ticketIndex - {ticket};
      if id !in sessions {
        return null;
      }
      session := sessions[id];
      if now > session.ticketExpiresAt {
        sessions, table := sessions - {id}, table - {id};
        return null;
      }
      session.Open(now);
      table := table[id := session.View()];
      audit := audit + [Opened(session.organizationId, session.userId, session.deviceId, id)];
    }

    method Close(id: string, reason: string, now: int)
      requires Valid()
      modifies this
      ensures Valid() && View() == AfterClose(old(View()), id, reason, now)
    {
      if id !in sessions {
        return;
      }
      var s := sessions[id];
      assert s.View() == table[id];
      sessions, table := sessions - {id}, table - {id};
      if s.ticket.Some? {
        ticketIndex := ticketIndex - {s.ticket.value};
      }
      if s.active {
        audit := audit + [Closed(s.organizationId, s.userId, s.deviceId, id, now - s.openedAt, reason)];
      }
    }
  }

  /** The purge restricted to some ids: what the loop has done so far. */
  ghost function PurgedAmong(d: Desk, ids: set<string>, now: int): Desk {
    var gone := ExpiredIds(d.sessions, now) * ids;
    d.(sessions := d.sessions - gone, tickets := d.tickets - TicketsOf(d.sessions, gone))
  }

  lemma PurgedNone(d: Desk, now: int)
    ensures PurgedAmong(d, d.sessions.Keys - d.sessions.Keys, now) == d
  {
    assert d.sessions.Keys - d.sessions.Keys == {};
    assert ExpiredIds(d.sessions, now) * {} == {} && TicketsOf(d.sessions, {}) == {};
  }

  lemma PurgedAll(d: Desk, now: int)
    ensures PurgedAmong(d, d.sessions.Keys - {}, now) == Purged(d, now)
  {
    assert d.sessions.Keys - {} == d.sessions.Keys;
    assert ExpiredIds(d.sessions, now) * d.sessions.Keys == ExpiredIds(d.sessions, now);
  }

  lemma PurgedMore(d: Desk, ids: set<string>, id: string, now: int)
    requires id in d.sessions && id !in ids
    ensures PurgedAmong(PurgedAmong(d, ids, now), {id}, now) == PurgedAmong(d, ids + {id}, now)
  {
    var e := PurgedAmong(d, ids, now);
    var one, gone := ExpiredIds(e.sessions, now) * {id}, ExpiredIds(d.sessions, now) * ids;
    assert ExpiredIds(d.sessions, now) * (ids + {id}) == gone + one;
    TicketsAdd(d.sessions, gone, one);
    assert TicketsOf(e.sessions, one) == TicketsOf(d.sessions, one);
  }

  lemma TicketsAdd(table: map<string, Entry>, a: set<string>, b: set<string>)
    ensures TicketsOf(table, a + b) == TicketsOf(table, a) + TicketsOf(table, b)
  {}
}
