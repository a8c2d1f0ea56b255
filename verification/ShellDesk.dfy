/** The controller's shell session tables as values: one atomic step per public operation. */
module ShellDesk {
  import opened Prelude

  datatype Limits = Limits(ttl: nat, perDevice: nat, perOrg: nat)

  /** A reserved or live session; it carries its ticket until that is consumed. */
  datatype Entry = Entry(device: string, org: int, user: int, ticket: Option<string>, expires: int, active: bool,
                         openedAt: int)

  datatype Audit =
    | Opened(org: int, user: int, device: string, sessionId: string)
    | Closed(org: int, user: int, device: string, sessionId: string, duration: int, reason: string)

  datatype Desk = Desk(sessions: map<string, Entry>, tickets: map<string, string>, audit: seq<Audit>)

  predicate Expired(e: Entry, now: int) {
    !e.active && now > e.expires
  }

  function ExpiredIds(sessions: map<string, Entry>, now: int): set<string> {
    set id | id in sessions && Expired(sessions[id], now)
  }

  function TicketsOf(sessions: map<string, Entry>, ids: set<string>): set<string> {
    set id | id in ids && id in sessions && sessions[id].ticket.Some? :: sessions[id].ticket.value
  }

  function Purged(d: Desk, now: int): Desk {
    var gone := ExpiredIds(d.sessions, now);
    d.(sessions := d.sessions - gone, tickets := d.tickets - TicketsOf(d.sessions, gone))
  }

  function OnDevice(sessions: map<string, Entry>, device: string): set<string> {
    set id | id in sessions && sessions[id].device == device
  }

  function InOrg(sessions: map<string, Entry>, org: int): set<string> {
    set id | id in sessions && sessions[id].org == org
  }

  datatype DeviceState = Missing | Offline | Online

  datatype Creation = NotFound | NotOnline | TooManyOnDevice | TooManyInOrg | Ticketed(id: string, ticket: string)

  datatype Request = Request(device: string, org: int, user: int, state: DeviceState, id: string, ticket: string)

  function CreationOf(d: Desk, l: Limits, r: Request, now: int): Creation {
    match r.state
    case Missing => NotFound
    case Offline => NotOnline
    case Online =>
      var p := Purged(d, now);
      if |OnDevice(p.sessions, r.device)| >= l.perDevice then TooManyOnDevice
      else if |InOrg(p.sessions, r.org)| >= l.perOrg then TooManyInOrg
      else Ticketed(r.id, r.ticket)
  }

  /** Expired reservations are purged even when a limit then refuses the new one. */
  function Created(d: Desk, l: Limits, r: Request, now: int): Desk {
    var c := CreationOf(d, l, r, now);
    if c.NotFound? || c.NotOnline? then d
    else
      var p := Purged(d, now);
      if c.Ticketed? then
        p.(sessions := p.sessions[r.id := Entry(r.device, r.org, r.user, Some(r.ticket), now + l.ttl, false, 0)],
           tickets := p.tickets[r.ticket := r.id])
      else p
  }

  datatype Activation = Unknown | TooLate | Activated(id: string)

  function ActivationOf(d: Desk, ticket: string, now: int): Activation {
    if ticket !in d.tickets || d.tickets[ticket] !in d.sessions then Unknown
    else if now > d.sessions[d.tickets[ticket]].expires then TooLate
    else Activated(d.tickets[ticket])
  }

  /** A ticket is consumed even by an activation that fails; a late one also removes the session. */
  function AfterActivate(d: Desk, ticket: string, now: int): Desk {
    var tickets := d.tickets - {ticket};
    match ActivationOf(d, ticket, now)
    case Unknown => d.(tickets := tickets)
    case TooLate => d.(tickets := tickets, sessions := d.sessions - {d.tickets[ticket]})
    case Activated(id) =>
      var e := d.sessions[id];
      Desk(d.sessions[id := e.(ticket := None, active := true, openedAt := now)], tickets,
           d.audit + [Opened(e.org, e.user, e.device, id)])
  }

  function AfterClose(d: Desk, id: string, reason: string, now: int): Desk {
    if id !in d.sessions then d
    else
      var e := d.sessions[id];
      Desk(d.sessions - {id}, if e.ticket.Some? then d.tickets - {e.ticket.value} else d.tickets,
           d.audit + if e.active then [Closed(e.org, e.user, e.device, id, now - e.openedAt, reason)] else [])
  }

  // ---- runs ----

  datatype Step =
    | Create(request: Request, now: int)
    | Activate(ticket: string, now: int)
    | Close(id: string, reason: string, now: int)

  datatype Use = Use(ticket: string, now: int)

  /**
    The tables, every id and ticket ever drawn, tickets with their deadline, and the successful activations in order.
   */
  datatype World = World(desk: Desk, ids: set<string>, drawn: map<string, int>, used: seq<Use>)

  function Next(w: World, l: Limits, s: Step): World {
    match s
    case Create(r, now) =>
      w.(desk := Created(w.desk, l, r, now), ids := w.ids + {r.id}, drawn := w.drawn[r.ticket := now + l.ttl])
    case Activate(t, now) =>
      w.(desk := AfterActivate(w.desk, t, now),
         used := w.used + if ActivationOf(w.desk, t, now).Activated? then [Use(t, now)] else [])
    case Close(id, reason, now) => w.(desk := AfterClose(w.desk, id, reason, now))
  }

  /** Random ids and tickets do not repeat. */
  predicate Fresh(w: World, s: Step) {
    s.Create? ==> s.request.id !in w.ids && s.request.ticket !in w.drawn
  }

  predicate FreshRun(w: World, l: Limits, steps: seq<Step>)
    decreases |steps|
  {
    steps == [] || (Fresh(w, steps[0]) && FreshRun(Next(w, l, steps[0]), l, steps[1..]))
  }

  function After(w: World, l: Limits, steps: seq<Step>): World
    decreases |steps|
  {
    if steps == [] then w else After(Next(w, l, steps[0]), l, steps[1..])
  }

  function Start(): World {
    World(Desk(map[], map[], []), {}, map[], [])
  }

  // ---- the invariant ----

  /** The ticket index is exactly the ticket-to-id map of the sessions not yet active. */
  predicate Indexed(d: Desk) {
    && (forall id :: id in d.sessions ==> d.sessions[id].ticket.Some? == !d.sessions[id].active)
    && (forall id :: id in d.sessions && d.sessions[id].ticket.Some? ==>
          d.sessions[id].ticket.value in d.tickets && d.tickets[d.sessions[id].ticket.value] == id)
    && (forall t :: t in d.tickets ==> d.tickets[t] in d.sessions && d.sessions[d.tickets[t]].ticket == Some(t))
  }

  predicate Known(w: World) {
    && w.desk.sessions.Keys <= w.ids
    && w.desk.tickets.Keys <= w.drawn.Keys
    && (forall id :: id in w.desk.sessions && w.desk.sessions[id].ticket.Some? ==>
          && w.desk.sessions[id].ticket.value in w.drawn
          && w.drawn[w.desk.sessions[id].ticket.value] == w.desk.sessions[id].expires)
    && (forall i :: 0 <= i < |w.desk.audit| ==> w.desk.audit[i].sessionId in w.ids)
  }

  ghost predicate Limited(d: Desk, l: Limits) {
    && (forall device :: |OnDevice(d.sessions, device)| <= l.perDevice)
    && (forall org :: |InOrg(d.sessions, org)| <= l.perOrg)
  }

  /** No ticket was used twice or after its deadline, and used ones are no longer in the index. */
  predicate OnceEach(w: World) {
    && (forall i, j :: 0 <= i < j < |w.used| ==> w.used[i].ticket != w.used[j].ticket)
    && (forall i :: 0 <= i < |w.used| ==>
          w.used[i].ticket in w.drawn && w.used[i].now <= w.drawn[w.used[i].ticket] &&
          w.used[i].ticket !in w.desk.tickets)
  }

  /** The sessions an audit log reports as opened, and as closed. */
  function OpenedIds(audit: seq<Audit>): set<string>
    decreases |audit|
  {
    if audit == [] then {}
    else
      var last := audit[|audit| - 1];
      OpenedIds(audit[..|audit| - 1]) + if last.Opened? then {last.sessionId} else {}
  }

  function ClosedIds(audit: seq<Audit>): set<string>
    decreases |audit|
  {
    if audit == [] then {}
    else
      var last := audit[|audit| - 1];
      ClosedIds(audit[..|audit| - 1]) + if last.Closed? then {last.sessionId} else {}
  }

  function ActiveIds(sessions: map<string, Entry>): set<string> {
    set id | id in sessions && sessions[id].active
  }

  /** Entries about one session are one opening, followed by at most one closing. */
  predicate OpenThenClose(audit: seq<Audit>) {
    && (forall i, j :: 0 <= i < j < |audit| && audit[i].sessionId == audit[j].sessionId ==>
          audit[i].Opened? && audit[j].Closed?)
    && ClosedIds(audit) <= OpenedIds(audit)
  }

  /** The active sessions are exactly those opened and not closed; sessions not yet active are not in the log. */
  predicate Audited(d: Desk) {
    && OpenThenClose(d.audit)
    && ActiveIds(d.sessions) == OpenedIds(d.audit) - ClosedIds(d.audit)
    && d.sessions.Keys * OpenedIds(d.audit) == ActiveIds(d.sessions)
  }

  ghost predicate Inv(w: World, l: Limits) {
    Indexed(w.desk) && Known(w) && Limited(w.desk, l) && OnceEach(w) && Audited(w.desk)
  }
}
