/** The agent's attempts counted over a run: when the next tick does nothing, tries again, or gives up. */
module RenewalHistory {
  import opened Prelude
  import opened CertificateTables
  import opened RenewalAgent
  import opened RenewalHandshake

  /** The attempts since the last answer installed, restart or surrender, and the time of the last. */
  datatype History = History(tries: nat, last: Option<Instant>)

  const NONE := History(0, None)

  /** Inside the last 14 days, rested, and not yet beyond hope. */
  predicate Tries(h: History, left: int, now: Instant) {
    left <= 14 * 24 * 3600 * 1_000_000_000 && Rested(h.last, now) && !TooLate(left, h.tries)
  }

  predicate GivesUp(h: History, left: int, now: Instant) {
    Rested(h.last, now) && TooLate(left, h.tries)
  }

  function Record(w: World, h: History, e: Event): History {
    match e
    case Ticked(now, _, _) =>
      var left := w.agent.identity.notAfter - now;
      if GivesUp(h, left, now) then NONE else if Tries(h, left, now) then History(h.tries + 1, Some(now)) else h
    case ResponseArrives(r, _, io) =>
      if r in w.responses && w.agent.stash.Some? && io.key && io.cert && io.loads then NONE else h
    case Reboot => NONE
    case _ => h
  }

  function Told(w: World, h: History, events: seq<Event>): History
    decreases |events|
  {
    if events == [] then h else Told(Next(w, events[0]), Record(w, h, events[0]), events[1..])
  }

  predicate Remembers(a: Agent, h: History) {
    a.failed == h.tries && a.lastAttempt == h.last
  }

  lemma RemembersStep(w: World, h: History, e: Event)
    requires Remembers(w.agent, h)
    ensures Remembers(Next(w, e).agent, Record(w, h, e))
  {
    if e.Ticked? {
      TickExactly(w.agent, e.now, e.newKey, e.sending);
      TickChanges(w.agent, e.now, e.newKey, e.sending);
    }
  }

  /** Over every run the agent counts exactly the attempts since its last success, restart or surrender. */
  lemma {:induction false} CountsAttempts(w: World, h: History, events: seq<Event>)
    requires Remembers(w.agent, h)
    ensures Remembers(After(w, events).agent, Told(w, h, events))
    decreases |events|
  {
    if events != [] {
      RemembersStep(w, h, events[0]);
      CountsAttempts(Next(w, events[0]), Record(w, h, events[0]), events[1..]);
    }
  }

  /**
    Over every run from a fresh start, a tick gives up if and only if at most 24 hours are left, three attempts or more
    were made since the last success or restart, and the last is four hours old; it tries again, or does nothing,
    exactly as the attempts made so far say.
   */
  lemma GivesUpExactly(w: World, events: seq<Event>, now: Instant, newKey: Key, sending: Sending)
    requires w.agent.failed == 0 && w.agent.lastAttempt.None?
    ensures var a, h := After(w, events).agent, Told(w, NONE, events);
      var left, attempt := a.identity.notAfter - now, Tick(a, now, newKey, sending);
      && (attempt == Fatal <==>
            left <= 24 * 3600 * 1_000_000_000 && h.tries >= 3 &&
            (h.last.None? || now - h.last.value >= 4 * 3600 * 1_000_000_000))
      && (attempt.Published? || attempt == Unpublished <==> Tries(h, left, now))
  {
    CountsAttempts(w, NONE, events);
    TickExactly(After(w, events).agent, now, newKey, sending);
  }
}
