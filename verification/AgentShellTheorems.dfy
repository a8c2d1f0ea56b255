/** Opens and exits of shell sessions interleaved at every lock. */
module AgentShellTheorems {
  import opened Prelude
  import opened AgentShellSteps

  /** A run never has more than k opens between check and insertion. */
  predicate Runs(w: World, max: nat, k: nat, steps: seq<Step>)
    decreases |steps|
  {
    |w.pending| <= k &&
    (steps == [] || (Enabled(w, steps[0]) && Runs(Next(w, max, steps[0]), max, k, steps[1..])))
  }

  function After(w: World, max: nat, k: nat, steps: seq<Step>): World
    requires Runs(w, max, k, steps)
    decreases |steps|
  {
    if steps == [] then w else After(Next(w, max, steps[0]), max, k, steps[1..])
  }

  // ---- the limit ----

  lemma RemoveCard(m: map<nat, nat>, key: nat)
    ensures |m - {key}| == if key in m then |m| - 1 else |m|
  {
    assert (m - {key}).Keys == m.Keys - {key};
    assert |m| == |m.Keys| && |m - {key}| == |(m - {key}).Keys|;
  }

  lemma UpdateCard(m: map<nat, nat>, key: nat, v: nat)
    ensures |m[key := v]| == if key in m then |m| else |m| + 1
  {
    assert m[key := v].Keys == m.Keys + {key};
    assert |m| == |m.Keys| && |m[key := v]| == |m[key := v].Keys|;
  }

  /** Live and half-open sessions together stay below the limit plus the opens at once. */
  lemma BoundStep(w: World, max: nat, k: nat, s: Step)
    requires Enabled(w, s) && |w.live| + |w.pending| < max + k && |Next(w, max, s).pending| <= k
    ensures |Next(w, max, s).live| + |Next(w, max, s).pending| < max + k
  {
    match s
    case Check(t, id) => assert |w.live| == |w.live.Keys|;
    case PtyFails(t) => RemoveCard(w.pending, t);
    case Insert(t) =>
      RemoveCard(w.pending, t);
      UpdateCard(w.live, w.pending[t], |w.objects|);
    case Announce(_) =>
    case Exit(n) => RemoveCard(w.live, w.objects[n]);
  }

  lemma {:induction false} BoundRun(w: World, max: nat, k: nat, steps: seq<Step>)
    requires Runs(w, max, k, steps) && |w.live| + |w.pending| < max + k
    ensures var w' := After(w, max, k, steps); |w'.live| + |w'.pending| < max + k
    decreases |steps|
  {
    if steps != [] {
      BoundStep(w, max, k, steps[0]);
      BoundRun(Next(w, max, steps[0]), max, k, steps[1..]);
    }
  }

  /** With at most k opens half-way at once there are never more than max + k - 1 sessions: max for serial opens. */
  lemma LimitHolds(max: nat, k: nat, steps: seq<Step>)
    requires max >= 1 && k >= 1 && Runs(Start(), max, k, steps)
    ensures |After(Start(), max, k, steps).live| <= max + k - 1
  {
    BoundRun(Start(), max, k, steps);
  }

  // ---- the map and the sessions ----

  /** The map holds exactly the sessions inserted and not yet exited, each under its id. */
  ghost predicate Exact(w: World) {
    && (forall n :: n in w.exited ==> n < |w.objects|)
    && (forall id :: id in w.live ==>
          w.live[id] < |w.objects| && w.live[id] !in w.exited && w.objects[w.live[id]] == id)
    && (forall n :: 0 <= n < |w.objects| && n !in w.exited ==> w.objects[n] in w.live && w.live[w.objects[n]] == n)
  }

  /** An insertion under an id that is taken. */
  predicate Clashes(w: World, s: Step) {
    s.Insert? && Enabled(w, s) && w.pending[s.thread] in w.live
  }

  /** Every step keeps this, except an insertion under an id that is taken, which always breaks it. */
  lemma ExactStep(w: World, max: nat, s: Step)
    requires Exact(w) && Enabled(w, s)
    ensures Exact(Next(w, max, s)) <==> !Clashes(w, s)
  {
    var w' := Next(w, max, s);
    match s
    case Check(_, _) =>
    case PtyFails(_) =>
    case Insert(t) =>
      var id := w.pending[t];
      if id in w.live {
        var n := w.live[id];
        assert w'.objects[n] == id && n !in w'.exited && w'.live[id] != n;
      }
    case Announce(_) =>
    case Exit(n) =>
      var id := w.objects[n];
      forall m | 0 <= m < |w'.objects| && m !in w'.exited ensures w'.objects[m] in w'.live {
        assert w.live[w.objects[m]] == m;
      }
  }

  /** No two opens ask for the same id. */
  predicate DistinctIds(asked: set<nat>, steps: seq<Step>)
    decreases |steps|
  {
    steps == [] ||
    (if steps[0].Check? then steps[0].id !in asked && DistinctIds(asked + {steps[0].id}, steps[1..])
     else DistinctIds(asked, steps[1..]))
  }

  /** Half-open ids are distinct, and none of them is live. */
  ghost predicate NoClash(w: World) {
    && (forall t, u :: t in w.pending && u in w.pending && t != u ==> w.pending[t] != w.pending[u])
    && (forall t :: t in w.pending ==> w.pending[t] !in w.live)
    && (forall t :: t in w.pending ==> w.pending[t] in w.asked)
    && w.live.Keys <= w.asked
  }

  lemma NoClashStep(w: World, max: nat, s: Step)
    requires NoClash(w) && Enabled(w, s) && (s.Check? ==> s.id !in w.asked)
    ensures NoClash(Next(w, max, s))
  {}

  predicate NoneClashes(w: World, max: nat, k: nat, steps: seq<Step>)
    requires Runs(w, max, k, steps)
    decreases |steps|
  {
    steps == [] || (!Clashes(w, steps[0]) && NoneClashes(Next(w, max, steps[0]), max, k, steps[1..]))
  }

  ghost predicate AlwaysExact(w: World, max: nat, k: nat, steps: seq<Step>)
    requires Runs(w, max, k, steps)
    decreases |steps|
  {
    Exact(w) && (steps == [] || AlwaysExact(Next(w, max, steps[0]), max, k, steps[1..]))
  }

  lemma {:induction false} ExactRun(w: World, max: nat, k: nat, steps: seq<Step>)
    requires Runs(w, max, k, steps) && Exact(w)
    ensures AlwaysExact(w, max, k, steps) <==> NoneClashes(w, max, k, steps)
    ensures NoneClashes(w, max, k, steps) ==> Exact(After(w, max, k, steps))
    decreases |steps|
  {
    if steps != [] {
      ExactStep(w, max, steps[0]);
      if !Clashes(w, steps[0]) {
        ExactRun(Next(w, max, steps[0]), max, k, steps[1..]);
      }
    }
  }

  /**
    The map is exact throughout a run if and only if no insertion finds its id taken; ids may be used again after
    their session ended.
   */
  lemma MapIsExact(max: nat, k: nat, steps: seq<Step>)
    requires Runs(Start(), max, k, steps)
    ensures AlwaysExact(Start(), max, k, steps) <==> NoneClashes(Start(), max, k, steps)
    ensures NoneClashes(Start(), max, k, steps) ==> Exact(After(Start(), max, k, steps))
  {
    ExactRun(Start(), max, k, steps);
  }

  /** Distinct ids never clash. */
  lemma {:induction false} DistinctNeverClash(w: World, max: nat, k: nat, steps: seq<Step>)
    requires Runs(w, max, k, steps) && DistinctIds(w.asked, steps) && NoClash(w)
    ensures NoneClashes(w, max, k, steps)
    decreases |steps|
  {
    if steps != [] {
      NoClashStep(w, max, steps[0]);
      DistinctNeverClash(Next(w, max, steps[0]), max, k, steps[1..]);
    }
  }

  /** The sessions whose shell runs, whether or not the map still knows them. */
  function Running(w: World): set<nat> {
    set n | 0 <= n < |w.objects| && n !in w.exited
  }

  lemma {:induction false} ValuesCard(m: map<nat, nat>)
    requires forall a, b :: a in m && b in m && m[a] == m[b] ==> a == b
    ensures |m.Values| == |m|
    decreases |m|
  {
    if m == map[] {
      assert m.Values == {};
    } else {
      var k :| k in m;
      var rest := m - {k};
      forall v | v in m.Values - {m[k]} ensures v in rest.Values {
        var a :| a in m && m[a] == v;
        assert a in rest && rest[a] == v;
      }
      forall v | v in rest.Values ensures v in m.Values - {m[k]} {
        var a :| a in rest && rest[a] == v;
        assert a in m && m[a] == v;
      }
      assert rest.Values == m.Values - {m[k]};
      RemoveCard(m, k);
      ValuesCard(rest);
    }
  }

  /** An exact map has one entry per running session. */
  lemma ExactCard(w: World)
    requires Exact(w)
    ensures |Running(w)| == |w.live|
  {
    assert Running(w) == w.live.Values;
    ValuesCard(w.live);
  }

  /** Without clashes there are never more than max + k - 1 running shells with k opens half-way at once. */
  lemma RunningBounded(max: nat, k: nat, steps: seq<Step>)
    requires max >= 1 && k >= 1 && Runs(Start(), max, k, steps) && NoneClashes(Start(), max, k, steps)
    ensures |Running(After(Start(), max, k, steps))| <= max + k - 1
  {
    MapIsExact(max, k, steps);
    ExactCard(After(Start(), max, k, steps));
    LimitHolds(max, k, steps);
  }

  /** With an exact map, an exit removes that session and no other, and nothing else removes any. */
  lemma RemovedByOwnExit(w: World, max: nat, s: Step, n: nat)
    requires Exact(w) && Enabled(w, s) && !Clashes(w, s)
    requires n < |w.objects| && n !in w.exited
    ensures var w' := Next(w, max, s);
      w.objects[n] in w'.live && w'.live[w.objects[n]] == n <==> s != Exit(n)
  {
    ExactStep(w, max, s);
  }

  /** A session may exit before its started event is published. */
  lemma ExitBeforeStarted(max: nat)
    requires max >= 1
    ensures exists steps :: Runs(Start(), max, 1, steps) &&
                            (var w := After(Start(), max, 1, steps); 0 in w.exited && Enabled(w, Announce(0)))
  {
    var w1 := Start().(pending := map[0 := 0], asked := {0});
    var w2 := w1.(pending := map[], live := map[0 := 0], objects := [0]);
    var w3 := w2.(live := map[], exited := {0});
    assert Next(Start(), max, Check(0, 0)) == w1 && Next(w1, max, Insert(0)) == w2 && Next(w2, max, Exit(0)) == w3;
    Prepend(w2, max, 1, Exit(0), []);
    Prepend(w1, max, 1, Insert(0), [Exit(0)] + []);
    Prepend(Start(), max, 1, Check(0, 0), [Insert(0)] + ([Exit(0)] + []));
  }

  // ---- runs that reach the bounds ----

  lemma Prepend(w: World, max: nat, k: nat, s: Step, rest: seq<Step>)
    requires |w.pending| <= k && Enabled(w, s) && Runs(Next(w, max, s), max, k, rest)
    ensures Runs(w, max, k, [s] + rest) && After(w, max, k, [s] + rest) == After(Next(w, max, s), max, k, rest)
  {
    assert ([s] + rest)[1..] == rest;
  }

  lemma {:induction false} Append(w: World, max: nat, k: nat, a: seq<Step>, b: seq<Step>)
    requires Runs(w, max, k, a) && Runs(After(w, max, k, a), max, k, b)
    ensures Runs(w, max, k, a + b) && After(w, max, k, a + b) == After(After(w, max, k, a), max, k, b)
    decreases |a|
  {
    if a == [] {
      assert a + b == b;
    } else {
      var c := a + b;
      assert c[0] == a[0] && c[1..] == a[1..] + b;
      Append(Next(w, max, a[0]), max, k, a[1..], b);
      assert Runs(w, max, k, c);
    }
  }

  /** Ids below a number, threads below another. */
  ghost predicate Below(w: World, b: nat, p: nat) {
    && (forall id :: id in w.live || id in w.asked ==> id < b)
    && (forall t :: t in w.pending <==> 0 <= t < p) && |w.pending| == p
  }

  /** More threads pass their check while there is room. */
  lemma {:induction false} ManyChecks(w: World, max: nat, k: nat, j: nat, b: nat) returns (steps: seq<Step>)
    requires Below(w, b, |w.pending|) && NoClash(w) && |w.live| < max && |w.pending| + j <= k
    ensures Runs(w, max, k, steps)
    ensures var w' := After(w, max, k, steps);
      NoClash(w') && w'.live == w.live && |w'.pending| == |w.pending| + j && forall id :: id in w'.asked ==> id < b + j
    decreases j
  {
    steps := [];
    if j > 0 {
      var s := Check(|w.pending|, b);
      var w1 := Next(w, max, s);
      assert |w.live| == |w.live.Keys|;
      UpdateCard(w.pending, |w.pending|, b);
      NoClashStep(w, max, s);
      var rest := ManyChecks(w1, max, k, j - 1, b + 1);
      Prepend(w, max, k, s, rest);
      steps := [s] + rest;
    }
  }

  /** Then each of them inserts. */
  lemma {:induction false} ManyInserts(w: World, max: nat, k: nat) returns (steps: seq<Step>)
    requires NoClash(w) && |w.pending| <= k
    ensures Runs(w, max, k, steps)
    ensures var w' := After(w, max, k, steps);
      NoClash(w') && w'.pending == map[] && |w'.live| == |w.live| + |w.pending| && w'.asked == w.asked
    decreases |w.pending|
  {
    steps := [];
    if w.pending != map[] {
      var t :| t in w.pending;
      var s := Insert(t);
      RemoveCard(w.pending, t);
      UpdateCard(w.live, w.pending[t], |w.objects|);
      NoClashStep(w, max, s);
      var rest := ManyInserts(Next(w, max, s), max, k);
      Prepend(w, max, k, s, rest);
      steps := [s] + rest;
    } else {
      assert |w.pending| == 0;
    }
  }

  /** Opens of which j are half-way at once, from a state without any. */
  lemma Race(w: World, max: nat, k: nat, j: nat, b: nat) returns (steps: seq<Step>)
    requires Below(w, b, 0) && NoClash(w) && |w.live| < max && j <= k
    ensures Runs(w, max, k, steps)
    ensures var w' := After(w, max, k, steps); NoClash(w') && Below(w', b + j, 0) && |w'.live| == |w.live| + j
  {
    var checks := ManyChecks(w, max, k, j, b);
    var w1 := After(w, max, k, checks);
    var inserts := ManyInserts(w1, max, k);
    Append(w, max, k, checks, inserts);
    steps := checks + inserts;
  }

  lemma {:induction false} Serial(w: World, max: nat, k: nat, n: nat, b: nat) returns (steps: seq<Step>)
    requires Below(w, b, 0) && NoClash(w) && |w.live| + n <= max && k >= 1
    ensures Runs(w, max, k, steps)
    ensures var w' := After(w, max, k, steps); NoClash(w') && Below(w', b + n, 0) && |w'.live| == |w.live| + n
    decreases n
  {
    steps := [];
    if n > 0 {
      var first := Race(w, max, k, 1, b);
      var rest := Serial(After(w, max, k, first), max, k, n - 1, b + 1);
      Append(w, max, k, first, rest);
      steps := first + rest;
    }
  }

  /** The bound is reached, for every limit and every number of opens at once. */
  lemma LimitIsTight(max: nat, k: nat)
    requires max >= 1 && k >= 1
    ensures exists steps :: Runs(Start(), max, k, steps) && |After(Start(), max, k, steps).live| == max + k - 1
  {
    var serial := Serial(Start(), max, k, max - 1, 0);
    var race := Race(After(Start(), max, k, serial), max, k, k, max - 1);
    Append(Start(), max, k, serial, race);
  }

  lemma BothCheck(w: World, max: nat, id: nat) returns (steps: seq<Step>)
    requires max >= 1 && w.live == map[] && w.pending == map[]
    ensures Runs(w, max, 2, steps)
    ensures After(w, max, 2, steps) == w.(pending := map[0 := id, 1 := id], asked := w.asked + {id})
  {
    var w1 := w.(pending := map[0 := id], asked := w.asked + {id});
    var w2 := w.(pending := map[0 := id, 1 := id], asked := w.asked + {id});
    assert Next(w, max, Check(0, id)) == w1 && Next(w1, max, Check(1, id)) == w2;
    Prepend(w1, max, 2, Check(1, id), []);
    Prepend(w, max, 2, Check(0, id), [Check(1, id)] + []);
    steps := [Check(0, id)] + ([Check(1, id)] + []);
  }

  lemma BothInsert(w: World, max: nat, id: nat) returns (steps: seq<Step>)
    requires w.live == map[] && w.pending == map[0 := id, 1 := id]
    ensures Runs(w, max, 2, steps)
    ensures After(w, max, 2, steps) ==
            w.(pending := map[], live := map[id := |w.objects| + 1], objects := w.objects + [id, id])
  {
    var w1 := w.(pending := map[1 := id], live := map[id := |w.objects|], objects := w.objects + [id]);
    var w2 := w.(pending := map[], live := map[id := |w.objects| + 1], objects := w.objects + [id, id]);
    assert w.pending - {0} == w1.pending && w1.pending - {1} == w2.pending;
    assert w1.objects + [id] == w2.objects;
    assert Next(w, max, Insert(0)) == w1 && Next(w1, max, Insert(1)) == w2;
    Prepend(w1, max, 2, Insert(1), []);
    Prepend(w, max, 2, Insert(0), [Insert(1)] + []);
    steps := [Insert(0)] + ([Insert(1)] + []);
  }

  lemma FirstExit(w: World, max: nat, id: nat, n: nat)
    requires w.live.Keys == {id} && w.pending == map[] && n < |w.objects| && w.objects[n] == id && n !in w.exited
    ensures Runs(w, max, 2, [Exit(n)])
    ensures After(w, max, 2, [Exit(n)]) == w.(live := map[], exited := w.exited + {n})
  {
    assert Next(w, max, Exit(n)) == w.(live := map[], exited := w.exited + {n});
    Prepend(w, max, 2, Exit(n), []);
    assert [Exit(n)] + [] == [Exit(n)];
  }

  /** Nothing in the map and nothing half-way, whatever runs outside it. */
  predicate Idle(w: World) {
    w.live == map[] && w.pending == map[] && forall n :: n in w.exited ==> n < |w.objects|
  }

  /** Both sessions inserted under one id: the map knows the second only. */
  function Twice(w: World, id: nat): World {
    w.(pending := map[], live := map[id := |w.objects| + 1], objects := w.objects + [id, id], asked := w.asked + {id})
  }

  lemma OpenTwice(w: World, max: nat, id: nat) returns (steps: seq<Step>)
    requires max >= 1 && w.live == map[] && w.pending == map[]
    ensures Runs(w, max, 2, steps) && After(w, max, 2, steps) == Twice(w, id)
  {
    var checks := BothCheck(w, max, id);
    var inserts := BothInsert(w.(pending := map[0 := id, 1 := id], asked := w.asked + {id}), max, id);
    Append(w, max, 2, checks, inserts);
    steps := checks + inserts;
  }

  lemma OneMoreRuns(w: World, id: nat)
    requires Idle(w)
    ensures var w' := Twice(w, id).(live := map[], exited := w.exited + {|w.objects|});
      Idle(w') && Running(w') == Running(w) + {|w.objects| + 1}
  {}

  /**
    Two opens of one id past their checks: the first exit then takes the second, still running, session off the map.
   */
  lemma LoseOne(w: World, max: nat, id: nat) returns (steps: seq<Step>)
    requires max >= 1 && Idle(w)
    ensures Runs(w, max, 2, steps) && Idle(After(w, max, 2, steps))
    ensures Running(After(w, max, 2, steps)) == Running(w) + {|w.objects| + 1}
  {
    var opens := OpenTwice(w, max, id);
    FirstExit(Twice(w, id), max, id, |w.objects|);
    OneMoreRuns(w, id);
    Append(w, max, 2, opens, [Exit(|w.objects|)]);
    steps := opens + [Exit(|w.objects|)];
  }

  lemma {:induction false} LoseMany(w: World, max: nat, id: nat, n: nat) returns (steps: seq<Step>)
    requires max >= 1 && Idle(w)
    ensures Runs(w, max, 2, steps) && Idle(After(w, max, 2, steps))
    ensures |Running(After(w, max, 2, steps))| == |Running(w)| + n
    decreases n
  {
    steps := [];
    if n > 0 {
      var first := LoseOne(w, max, id);
      var rest := LoseMany(After(w, max, 2, first), max, id, n - 1);
      Append(w, max, 2, first, rest);
      steps := first + rest;
    }
  }

  /** So with repeated ids any number of shells can run outside an empty map, with two opens at once and any limit. */
  lemma RepeatedIdsLoseSessions(max: nat, id: nat, n: nat)
    requires max >= 1
    ensures exists steps :: Runs(Start(), max, 2, steps) &&
                            (var w := After(Start(), max, 2, steps); w.live == map[] && |Running(w)| == n)
  {
    assert Running(Start()) == {};
    var steps := LoseMany(Start(), max, id, n);
  }
}
