/** What every run of shell session operations keeps. */
module ShellTheorems {
  import opened Prelude
  import opened ShellDesk

  // ---- the ticket index ----

  lemma IndexedPurge(d: Desk, now: int)
    requires Indexed(d)
    ensures Indexed(Purged(d, now))
  {
    var gone, p := ExpiredIds(d.sessions, now), Purged(d, now);
    forall id | id in p.sessions && p.sessions[id].ticket.Some?
      ensures p.sessions[id].ticket.value in p.tickets
    {
      assert p.sessions[id].ticket.value !in TicketsOf(d.sessions, gone);
    }
  }

  lemma IndexedCreate(w: World, l: Limits, r: Request, now: int)
    requires Indexed(w.desk) && Known(w) && Fresh(w, Create(r, now))
    ensures Indexed(Next(w, l, Create(r, now)).desk)
  {
    IndexedPurge(w.desk, now);
  }

  lemma IndexedActivate(d: Desk, ticket: string, now: int)
    requires Indexed(d)
    ensures Indexed(AfterActivate(d, ticket, now))
  {}

  lemma IndexedClose(d: Desk, id: string, reason: string, now: int)
    requires Indexed(d)
    ensures Indexed(AfterClose(d, id, reason, now))
  {}

  lemma IndexedStep(w: World, l: Limits, s: Step)
    requires Indexed(w.desk) && Known(w) && Fresh(w, s)
    ensures Indexed(Next(w, l, s).desk)
  {
    match s
    case Create(r, now) => IndexedCreate(w, l, r, now);
    case Activate(t, now) => IndexedActivate(w.desk, t, now);
    case Close(id, reason, now) => IndexedClose(w.desk, id, reason, now);
  }

  lemma KnownStep(w: World, l: Limits, s: Step)
    requires Known(w) && Fresh(w, s)
    ensures Known(Next(w, l, s))
  {}

  // ---- limits ----

  /** Sessions only disappear, or change without moving to another device or organisation. */
  ghost predicate Shrinks(before: map<string, Entry>, after: map<string, Entry>) {
    forall id :: id in after ==>
      id in before && after[id].device == before[id].device && after[id].org == before[id].org
  }

  lemma LimitedShrinks(d: Desk, d': Desk, l: Limits)
    requires Limited(d, l) && Shrinks(d.sessions, d'.sessions)
    ensures Limited(d', l)
  {
    forall device ensures |OnDevice(d'.sessions, device)| <= l.perDevice {
      SubsetCard(OnDevice(d'.sessions, device), OnDevice(d.sessions, device));
    }
    forall org ensures |InOrg(d'.sessions, org)| <= l.perOrg {
      SubsetCard(InOrg(d'.sessions, org), InOrg(d.sessions, org));
    }
  }

  lemma DeviceInsert(sessions: map<string, Entry>, id: string, e: Entry, device: string)
    requires id !in sessions
    ensures OnDevice(sessions[id := e], device) == OnDevice(sessions, device) + if device == e.device then {id} else {}
  {}

  lemma OrgInsert(sessions: map<string, Entry>, id: string, e: Entry, org: int)
    requires id !in sessions
    ensures InOrg(sessions[id := e], org) == InOrg(sessions, org) + if org == e.org then {id} else {}
  {}

  lemma LimitedInsert(p: Desk, l: Limits, id: string, e: Entry, d: Desk)
    requires Limited(p, l) && id !in p.sessions && d.sessions == p.sessions[id := e]
    requires |OnDevice(p.sessions, e.device)| < l.perDevice && |InOrg(p.sessions, e.org)| < l.perOrg
    ensures Limited(d, l)
  {
    forall device ensures |OnDevice(d.sessions, device)| <= l.perDevice {
      DeviceInsert(p.sessions, id, e, device);
    }
    forall org ensures |InOrg(d.sessions, org)| <= l.perOrg {
      OrgInsert(p.sessions, id, e, org);
    }
  }

  lemma LimitedCreate(d: Desk, l: Limits, r: Request, now: int)
    requires Limited(d, l) && r.id !in d.sessions
    ensures Limited(Created(d, l, r, now), l)
  {
    var p := Purged(d, now);
    LimitedShrinks(d, p, l);
    if CreationOf(d, l, r, now).Ticketed? {
      LimitedInsert(p, l, r.id, Created(d, l, r, now).sessions[r.id], Created(d, l, r, now));
    }
  }

  lemma LimitedStep(w: World, l: Limits, s: Step)
    requires Limited(w.desk, l) && Known(w) && Fresh(w, s)
    ensures Limited(Next(w, l, s).desk, l)
  {
    match s
    case Create(r, now) => LimitedCreate(w.desk, l, r, now);
    case _ => LimitedShrinks(w.desk, Next(w, l, s).desk, l);
  }

  // ---- tickets are used once ----

  lemma OnceStep(w: World, l: Limits, s: Step)
    requires OnceEach(w) && Known(w) && Indexed(w.desk) && Fresh(w, s)
    ensures OnceEach(Next(w, l, s))
  {}

  /** A successful activation uses an indexed ticket of a session not past its expiry, and takes it out. */
  lemma ActivatesInTime(d: Desk, ticket: string, now: int)
    requires Indexed(d)
    ensures ActivationOf(d, ticket, now).Activated? <==>
      exists id :: id in d.sessions && d.sessions[id].ticket == Some(ticket) && now <= d.sessions[id].expires
    ensures ActivationOf(AfterActivate(d, ticket, now), ticket, now) == Unknown
  {
    if id :| id in d.sessions && d.sessions[id].ticket == Some(ticket) && now <= d.sessions[id].expires {
      assert d.tickets[ticket] == id;
    }
  }

  // ---- who gets a session ----

  /** The sessions that count: active ones, and reservations whose time is not over. */
  function StillOpen(d: Desk, now: int): set<string> {
    set id | id in d.sessions && (d.sessions[id].active || now <= d.sessions[id].expires)
  }

  function StillOpenOn(d: Desk, device: string, now: int): set<string> {
    set id | id in StillOpen(d, now) && d.sessions[id].device == device
  }

  function StillOpenIn(d: Desk, org: int, now: int): set<string> {
    set id | id in StillOpen(d, now) && d.sessions[id].org == org
  }

  /**
    A session is reserved exactly for a device that is online while fewer sessions than allowed are open on it and in
    its organisation; every refusal says which of these failed first.
   */
  lemma CreatesExactly(d: Desk, l: Limits, r: Request, now: int)
    ensures var c := CreationOf(d, l, r, now);
      var onDevice, inOrg := |StillOpenOn(d, r.device, now)|, |StillOpenIn(d, r.org, now)|;
      && (c == NotFound <==> r.state == Missing) && (c == NotOnline <==> r.state == Offline)
      && (c == TooManyOnDevice <==> r.state == Online && onDevice >= l.perDevice)
      && (c == TooManyInOrg <==> r.state == Online && onDevice < l.perDevice && inOrg >= l.perOrg)
      && (c == Ticketed(r.id, r.ticket) <==> r.state == Online && onDevice < l.perDevice && inOrg < l.perOrg)
  {
    var p := Purged(d, now);
    assert OnDevice(p.sessions, r.device) == StillOpenOn(d, r.device, now);
    assert InOrg(p.sessions, r.org) == StillOpenIn(d, r.org, now);
  }

  /** A reservation stores the caller's session, waiting with its ticket until its time is over, beside the rest. */
  lemma ReservesExactly(d: Desk, l: Limits, r: Request, now: int)
    requires CreationOf(d, l, r, now).Ticketed? && r.id !in d.sessions
    ensures var d' := Created(d, l, r, now);
      && d'.sessions.Keys == StillOpen(d, now) + {r.id} && d'.audit == d.audit
      && d'.sessions[r.id] == Entry(r.device, r.org, r.user, Some(r.ticket), now + l.ttl, false, 0)
      && (forall id :: id in StillOpen(d, now) ==> d'.sessions[id] == d.sessions[id])
      && r.ticket in d'.tickets && d'.tickets[r.ticket] == r.id
  {}

  // ---- how long a session lasts ----

  /** Session id is active since the given time. */
  predicate ActiveSince(d: Desk, id: string, e: Entry, since: int) {
    id in d.sessions && d.sessions[id] == e && e.active && e.openedAt == since && e.ticket.None?
  }

  predicate Closes(s: Step, id: string) {
    s.Close? && s.id == id
  }

  lemma StaysActiveStep(w: World, l: Limits, s: Step, id: string, e: Entry, since: int)
    requires Inv(w, l) && Fresh(w, s) && ActiveSince(w.desk, id, e, since) && !Closes(s, id)
    ensures ActiveSince(Next(w, l, s).desk, id, e, since)
  {}

  predicate NoneCloses(steps: seq<Step>, id: string) {
    steps == [] || (!Closes(steps[0], id) && NoneCloses(steps[1..], id))
  }

  lemma {:induction false} StaysActive(w: World, l: Limits, steps: seq<Step>, id: string, e: Entry, since: int)
    requires Inv(w, l) && FreshRun(w, l, steps) && ActiveSince(w.desk, id, e, since) && NoneCloses(steps, id)
    ensures ActiveSince(After(w, l, steps).desk, id, e, since)
    decreases |steps|
  {
    if steps != [] {
      StaysActiveStep(w, l, steps[0], id, e, since);
      InvStep(w, l, steps[0]);
      StaysActive(Next(w, l, steps[0]), l, steps[1..], id, e, since);
    }
  }

  /**
    A session activated at one time and closed at another, whatever happens between, is logged as opened at activation
    and as closed with the time between the two; nothing but its closing ends it.
   */
  lemma DurationExact(w: World, l: Limits, ticket: string, start: int, between: seq<Step>, reason: string, end: int)
    requires Inv(w, l) && ActivationOf(w.desk, ticket, start).Activated?
    requires FreshRun(Next(w, l, Activate(ticket, start)), l, between)
    requires NoneCloses(between, w.desk.tickets[ticket])
    ensures var id, w1 := w.desk.tickets[ticket], Next(w, l, Activate(ticket, start));
      var e, w2 := w.desk.sessions[id], After(w1, l, between);
      && w1.desk.audit == w.desk.audit + [Opened(e.org, e.user, e.device, id)]
      && Next(w2, l, Close(id, reason, end)).desk.audit ==
           w2.desk.audit + [Closed(e.org, e.user, e.device, id, end - start, reason)]
      && id !in Next(w2, l, Close(id, reason, end)).desk.sessions
  {
    var id, s := w.desk.tickets[ticket], Activate(ticket, start);
    var e := w.desk.sessions[id].(ticket := None, active := true, openedAt := start);
    InvStep(w, l, s);
    StaysActive(Next(w, l, s), l, between, id, e, start);
  }

  // ---- audit ----

  lemma AppendIds(audit: seq<Audit>, a: Audit)
    ensures OpenedIds(audit + [a]) == OpenedIds(audit) + if a.Opened? then {a.sessionId} else {}
    ensures ClosedIds(audit + [a]) == ClosedIds(audit) + if a.Closed? then {a.sessionId} else {}
  {
    assert (audit + [a])[..|audit + [a]| - 1] == audit;
  }

  lemma {:induction false} IdsInLog(audit: seq<Audit>, id: string)
    ensures id in OpenedIds(audit) <==> exists i :: 0 <= i < |audit| && audit[i].Opened? && audit[i].sessionId == id
    ensures id in ClosedIds(audit) <==> exists i :: 0 <= i < |audit| && audit[i].Closed? && audit[i].sessionId == id
    decreases |audit|
  {
    if audit != [] {
      var init, last := audit[..|audit| - 1], audit[|audit| - 1];
      IdsInLog(init, id);
      assert audit == init + [last];
      assert forall i :: 0 <= i < |init| ==> init[i] == audit[i];
    }
  }

  lemma OpensOnce(audit: seq<Audit>, a: Audit)
    requires OpenThenClose(audit) && a.Opened? && a.sessionId !in OpenedIds(audit)
    ensures OpenThenClose(audit + [a])
  {
    AppendIds(audit, a);
    IdsInLog(audit, a.sessionId);
    assert a.sessionId !in ClosedIds(audit);
  }

  lemma ClosesOnce(audit: seq<Audit>, a: Audit)
    requires OpenThenClose(audit) && a.Closed? && a.sessionId in OpenedIds(audit) - ClosedIds(audit)
    ensures OpenThenClose(audit + [a])
  {
    AppendIds(audit, a);
    IdsInLog(audit, a.sessionId);
  }

  lemma AuditedCreate(w: World, l: Limits, r: Request, now: int)
    requires Audited(w.desk) && Known(w) && r.id !in w.ids
    ensures Audited(Created(w.desk, l, r, now))
  {
    var d, d' := w.desk, Created(w.desk, l, r, now);
    IdsInLog(d.audit, r.id);
    assert ActiveIds(d'.sessions) == ActiveIds(d.sessions);
  }

  lemma AuditedOpen(d: Desk, id: string, now: int, d': Desk)
    requires Audited(d) && id in d.sessions && !d.sessions[id].active
    requires d'.sessions == d.sessions[id := d.sessions[id].(ticket := None, active := true, openedAt := now)]
    requires var e := d.sessions[id]; d'.audit == d.audit + [Opened(e.org, e.user, e.device, id)]
    ensures Audited(d')
  {
    var a := d'.audit[|d.audit|];
    assert id !in ActiveIds(d.sessions) && id in d.sessions.Keys;
    assert id !in d.sessions.Keys * OpenedIds(d.audit);
    OpensOnce(d.audit, a);
    AppendIds(d.audit, a);
    assert ActiveIds(d'.sessions) == ActiveIds(d.sessions) + {id};
  }

  lemma AuditedActivate(d: Desk, ticket: string, now: int)
    requires Audited(d) && Indexed(d)
    ensures Audited(AfterActivate(d, ticket, now))
  {
    var d' := AfterActivate(d, ticket, now);
    match ActivationOf(d, ticket, now)
    case Unknown =>
    case TooLate =>
      assert !d.sessions[d.tickets[ticket]].active;
      assert ActiveIds(d'.sessions) == ActiveIds(d.sessions);
    case Activated(id) => AuditedOpen(d, id, now, d');
  }

  lemma AuditedClose(d: Desk, id: string, reason: string, now: int)
    requires Audited(d)
    ensures Audited(AfterClose(d, id, reason, now))
  {
    if id in d.sessions {
      var e, d' := d.sessions[id], AfterClose(d, id, reason, now);
      assert ActiveIds(d'.sessions) == ActiveIds(d.sessions) - {id};
      if e.active {
        var a := Closed(e.org, e.user, e.device, id, now - e.openedAt, reason);
        assert id in ActiveIds(d.sessions);
        ClosesOnce(d.audit, a);
        AppendIds(d.audit, a);
      } else {
        assert d'.audit == d.audit;
      }
    }
  }

  lemma AuditedStep(w: World, l: Limits, s: Step)
    requires Audited(w.desk) && Indexed(w.desk) && Known(w) && Fresh(w, s)
    ensures Audited(Next(w, l, s).desk)
  {
    match s
    case Create(r, now) => AuditedCreate(w, l, r, now);
    case Activate(t, now) => AuditedActivate(w.desk, t, now);
    case Close(id, reason, now) => AuditedClose(w.desk, id, reason, now);
  }

  // ---- every run ----

  lemma InvStep(w: World, l: Limits, s: Step)
    requires Inv(w, l) && Fresh(w, s)
    ensures Inv(Next(w, l, s), l)
  {
    IndexedStep(w, l, s);
    KnownStep(w, l, s);
    LimitedStep(w, l, s);
    OnceStep(w, l, s);
    AuditedStep(w, l, s);
  }

  lemma {:induction false} InvRun(w: World, l: Limits, steps: seq<Step>)
    requires Inv(w, l) && FreshRun(w, l, steps)
    ensures Inv(After(w, l, steps), l)
    decreases |steps|
  {
    if steps != [] {
      InvStep(w, l, steps[0]);
      InvRun(Next(w, l, steps[0]), l, steps[1..]);
    }
  }

  /**
    In every reachable state the ticket index is exactly the map of the sessions waiting for activation, limits
    hold, no ticket was used twice or after its deadline, and the audit log's open sessions are the active ones.
   */
  lemma Agreement(l: Limits, steps: seq<Step>)
    requires FreshRun(Start(), l, steps)
    ensures Inv(After(Start(), l, steps), l)
  {
    assert forall device :: OnDevice(Start().desk.sessions, device) == {};
    assert forall org :: InOrg(Start().desk.sessions, org) == {};
    InvRun(Start(), l, steps);
  }
}
