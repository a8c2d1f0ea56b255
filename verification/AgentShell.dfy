/** The agent's shell sessions: a limit checked under one lock acquisition and spent under the next. */
module AgentShell {
  import opened Prelude
  import opened AgentShellSteps

  const DEFAULT_MAX_SESSIONS: nat := 2

  datatype ReadError = Eof | ClosedPipe | Other(message: string)
  datatype Read = Read(data: string, error: Option<ReadError>)

  /** End of file and a closed pipe are ordinary exits. */
  function ExitOf(e: ReadError): Option<ReadError> {
    if e.Other? then Some(e) else None
  }

  /** What a pump forwards: the data of every read up to the first that reports an error, which may carry data too. */
  function Pumped(input: seq<Read>): string {
    if input == [] then ""
    else input[0].data + if input[0].error.Some? then "" else Pumped(input[1..])
  }

  /** The first error the pump meets. */
  function FirstError(input: seq<Read>): Option<ReadError> {
    if input == [] then None
    else if input[0].error.Some? then input[0].error
    else FirstError(input[1..])
  }

  class Session {
    var closed: bool
    var exited: bool
    var ptyCloses: nat
    var output: seq<string>
    var exits: seq<Option<ReadError>>

    /** The terminal is closed, and the exit reported, once at most. */
    ghost predicate Valid()
      reads this
    {
      ptyCloses == (if closed then 1 else 0) && |exits| == (if exited then 1 else 0)
    }

    constructor ()
      ensures Valid() && !closed && !exited && output == []
    {
      closed, exited, ptyCloses, output, exits := false, false, 0, [], [];
    }

    /** Closing again does nothing. */
    method Close()
      requires Valid()
      modifies this`closed, this`ptyCloses
      ensures Valid() && closed
    {
      if !closed {
        closed := true;
        ptyCloses := ptyCloses + 1;
      }
    }

    /** The first report wins; later ones are dropped. */
    method ReportExit(e: ReadError)
      requires Valid()
      modifies this`exited, this`exits
      ensures Valid() && exited
      ensures exits == if old(exited) then old(exits) else [if e == Eof || e == ClosedPipe then None else Some(e)]
    {
      if !exited {
        exited := true;
        exits := exits + [ExitOf(e)];
      }
    }

    /** One read's data, copied into a message unless there is none. */
    method Forward(data: string)
      modifies this`output
      ensures Joined(output) == Joined(old(output)) + data
      ensures output == old(output) + if data == "" then [] else [data]
    {
      if |data| > 0 {
        JoinedAppend(output, data);
        output := output + [data];
      }
    }

    /** Forwarding what the terminal yields, in non-empty chunks, until it reports an error. */
    method ReadPump(input: seq<Read>)
      requires Valid() && !exited
      modifies this`output, this`exited, this`exits
      ensures Valid() && Joined(output) == Joined(old(output)) + Pumped(input)
      ensures old(output) <= output && "" !in output[|old(output)|..]
      ensures exits == match FirstError(input) case Some(e) => [ExitOf(e)] case None => []
    {
      for i := 0 to |input|
        invariant Valid() && !exited && old(output) <= output && "" !in output[|old(output)|..]
        invariant Joined(output) + Pumped(input[i..]) == Joined(old(output)) + Pumped(input)
        invariant FirstError(input[i..]) == FirstError(input)
      {
        assert input[i..][1..] == input[i + 1..] && input[i..][0] == input[i];
        Forward(input[i].data);
        if input[i].error.Some? {
          ReportExit(input[i].error.value);
          return;
        }
      }
    }
  }

  function Joined(chunks: seq<string>): string {
    if chunks == [] then "" else chunks[0] + Joined(chunks[1..])
  }

  lemma {:induction false} JoinedAppend(chunks: seq<string>, c: string)
    ensures Joined(chunks + [c]) == Joined(chunks) + c
  {
    if chunks == [] {
      assert [c][1..] == [];
    } else {
      assert (chunks + [c])[1..] == chunks[1..] + [c];
      JoinedAppend(chunks[1..], c);
    }
  }

  /** All the data of some reads. */
  function DataOf(input: seq<Read>): string {
    if input == [] then "" else input[0].data + DataOf(input[1..])
  }

  predicate ErrorFree(input: seq<Read>) {
    forall i :: 0 <= i < |input| ==> input[i].error.None?
  }

  lemma {:induction false} PumpedOn(good: seq<Read>, rest: seq<Read>)
    requires ErrorFree(good)
    ensures Pumped(good + rest) == DataOf(good) + Pumped(rest) && FirstError(good + rest) == FirstError(rest)
  {
    if good == [] {
      assert good + rest == rest;
    } else {
      assert (good + rest)[0] == good[0] && (good + rest)[1..] == good[1..] + rest;
      PumpedOn(good[1..], rest);
    }
  }

  /** What is forwarded is the data of all reads up to the failing one, its own included, and of none behind it. */
  lemma PumpedExactly(good: seq<Read>, bad: Read, rest: seq<Read>)
    requires ErrorFree(good) && bad.error.Some?
    ensures Pumped(good + ([bad] + rest)) == DataOf(good) + bad.data
    ensures FirstError(good + ([bad] + rest)) == bad.error
    ensures Pumped(good) == DataOf(good) && FirstError(good).None?
  {
    PumpedOn(good, [bad] + rest);
    PumpedOn(good, []);
    assert good + [] == good;
  }

  datatype EventType = StartedEvent | ExitedEvent | ErrorEvent
  datatype Event = Event(sessionId: nat, kind: EventType)

  class Manager {
    const maxSessions: nat
    var sessions: map<nat, Session>
    var events: seq<Event>
    /** The interleaving so far, and the session objects by number. */
    ghost var world: World
    ghost var started: seq<Session>

    ghost predicate Valid()
      reads this
    {
      && sessions.Keys == world.live.Keys && |started| == |world.objects|
      && forall id :: id in sessions ==> world.live[id] < |started| && sessions[id] == started[world.live[id]]
    }

    constructor (max: int)
      ensures Valid() && maxSessions == (if max <= 0 then DEFAULT_MAX_SESSIONS else max)
      ensures world == Start() && sessions == map[] && events == []
    {
      maxSessions, sessions, events := if max <= 0 then DEFAULT_MAX_SESSIONS else max, map[], [];
      world, started := Start(), [];
    }

    /** The first critical section of opening: the limit is checked, nothing is reserved. */
    method Admit(ghost thread: nat, id: nat) returns (a: Admission)
      requires Valid() && thread !in world.pending
      modifies this`events, this`world
      ensures Valid() && world == Next(old(world), maxSessions, Check(thread, id))
      ensures a == AdmissionOf(sessions.Keys, maxSessions, id)
      ensures a == Duplicate <==> id in sessions
      ensures a == Refused <==> id !in sessions && |sessions| >= maxSessions
      ensures events == old(events) + if a == Refused then [Event(id, ErrorEvent)] else []
    {
      world := Next(world, maxSessions, Check(thread, id));
      assert |sessions| == |sessions.Keys|;
      if id in sessions {
        return Duplicate;
      }
      if |sessions| >= maxSessions {
        events := events + [Event(id, ErrorEvent)];
        return Refused;
      }
      a := Admitted;
    }

    method PtyFailed(ghost thread: nat, id: nat)
      requires Valid() && thread in world.pending && world.pending[thread] == id
      modifies this`events, this`world
      ensures Valid() && world == Next(old(world), maxSessions, PtyFails(thread))
      ensures events == old(events) + [Event(id, ErrorEvent)]
    {
      world := Next(world, maxSessions, PtyFails(thread));
      events := events + [Event(id, ErrorEvent)];
    }

    /** The second critical section: the new session takes the id, whatever held it. */
    method Insert(ghost thread: nat, id: nat) returns (s: Session)
      requires Valid() && thread in world.pending && world.pending[thread] == id
      modifies this`sessions, this`world, this`started
      ensures Valid() && world == Next(old(world), maxSessions, Step.Insert(thread))
      ensures fresh(s) && s.Valid() && !s.exited && sessions == old(sessions)[id := s] && started == old(started) + [s]
    {
      s := new Session();
      sessions := sessions[id := s];
      world := Next(world, maxSessions, Step.Insert(thread));
      started := started + [s];
    }

    /** The started event is published without a lock, when the session may have exited already. */
    method Announce(ghost n: nat, id: nat)
      requires Valid() && n < |world.objects| && n !in world.announced && world.objects[n] == id
      modifies this`events, this`world
      ensures Valid() && world == Next(old(world), maxSessions, Step.Announce(n))
      ensures events == old(events) + [Event(id, StartedEvent)]
    {
      events := events + [Event(id, StartedEvent)];
      world := Next(world, maxSessions, Step.Announce(n));
    }

    /** A session's exit removes whatever its id stands for. */
    method OnSessionExit(ghost n: nat, id: nat, e: Option<ReadError>)
      requires Valid() && n < |world.objects| && n !in world.exited && world.objects[n] == id
      modifies this`sessions, this`events, this`world
      ensures Valid() && world == Next(old(world), maxSessions, Exit(n)) && sessions == old(sessions) - {id}
      ensures events == old(events) + [Event(id, if e.Some? then ErrorEvent else ExitedEvent)]
    {
      sessions := sessions - {id};
      events := events + [Event(id, if e.Some? then ErrorEvent else ExitedEvent)];
      world := Next(world, maxSessions, Exit(n));
    }

    method CloseAll()
      requires forall id :: id in sessions ==> sessions[id].Valid()
      modifies sessions.Values
      ensures forall id :: id in sessions ==> sessions[id].Valid() && sessions[id].closed
    {
      var todo := sessions.Keys;
      while todo != {}
        invariant todo <= sessions.Keys
        invariant forall id :: id in sessions ==> sessions[id].Valid() && (id in todo || sessions[id].closed)
        decreases |todo|
      {
        var id :| id in todo;
        sessions[id].Close();
        todo := todo - {id};
      }
    }
  }
}
