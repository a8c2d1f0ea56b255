/** Opens and exits of shell sessions as steps between locks. */
module AgentShellSteps {
  datatype Admission = Duplicate | Refused | Admitted

  function AdmissionOf(live: set<nat>, max: nat, id: nat): Admission {
    if id in live then Duplicate else if |live| >= max then Refused else Admitted
  }

  /**
    Sessions are numbered in the order of their insertion: objects[n] is the id of session n. The manager's map is
    by id; pending are the opens between their check and their insertion, by thread. A session is announced, by its
    started event, some time after its insertion.
   */
  datatype World = World(live: map<nat, nat>, pending: map<nat, nat>, objects: seq<nat>, exited: set<nat>,
                         announced: set<nat>, asked: set<nat>)

  datatype Step =
    | Check(thread: nat, id: nat)
    | PtyFails(thread: nat)
    | Insert(thread: nat)
    | Announce(session: nat)
    | Exit(session: nat)

  /** A thread opens one session at a time; a session is announced once and exits once, after its insertion. */
  predicate Enabled(w: World, s: Step) {
    match s
    case Check(t, _) => t !in w.pending
    case PtyFails(t) => t in w.pending
    case Insert(t) => t in w.pending
    case Announce(n) => n < |w.objects| && n !in w.announced
    case Exit(n) => n < |w.objects| && n !in w.exited
  }

  function Next(w: World, max: nat, s: Step): World
    requires Enabled(w, s)
  {
    match s
    case Check(t, id) =>
      w.(asked := w.asked + {id},
         pending := if AdmissionOf(w.live.Keys, max, id) == Admitted then w.pending[t := id] else w.pending)
    case PtyFails(t) => w.(pending := w.pending - {t})
    case Insert(t) =>
      w.(pending := w.pending - {t}, live := w.live[w.pending[t] := |w.objects|], objects := w.objects + [w.pending[t]])
    case Announce(n) => w.(announced := w.announced + {n})
    case Exit(n) => w.(live := w.live - {w.objects[n]}, exited := w.exited + {n})
  }

  function Start(): World {
    World(map[], map[], [], {}, {}, {})
  }
}
