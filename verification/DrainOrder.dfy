/**
  The order in which drains publish: exactly when it is the order of the keys, and exactly when the order of the keys is
  the order in which the messages were put in.
 */
module DrainOrder {
  import opened QueueOrder
  import opened OfflineQueues
  import opened MqttClients
  import opened DrainInterleaving

  // ---- the messages still to publish, as one line ----

  predicate InRange(flights: seq<seq<Keyed>>, line: seq<nat>) {
    forall i :: 0 <= i < |line| ==> line[i] < |flights|
  }

  /** What the drains of a line hold, one after the other. */
  function Held(flights: seq<seq<Keyed>>, line: seq<nat>): seq<Keyed>
    requires InRange(flights, line)
  {
    if line == [] then [] else flights[line[0]] + Held(flights, line[1..])
  }

  /** The line has exactly the drains that hold something, each once. */
  ghost predicate Lined(flights: seq<seq<Keyed>>, line: seq<nat>) {
    && InRange(flights, line)
    && (forall i :: 0 <= i < |line| ==> flights[line[i]] != [])
    && (forall i, j :: 0 <= i < j < |line| ==> line[i] != line[j])
    && (forall d: nat :: d < |flights| && flights[d] != [] ==> d in line)
  }

  /** Everything held, in the order it was taken, and then everything queued. */
  function Waiting(w: World): seq<Keyed>
    requires InRange(w.flights, w.line)
  {
    Held(w.flights, w.line) + Loaded(w.queue.items)
  }

  lemma {:induction false} HeldJoin(flights: seq<seq<Keyed>>, a: seq<nat>, b: seq<nat>)
    requires InRange(flights, a) && InRange(flights, b)
    ensures Held(flights, a + b) == Held(flights, a) + Held(flights, b)
  {
    if a == [] {
      assert a + b == b;
    } else {
      assert (a + b)[1..] == a[1..] + b;
      HeldJoin(flights, a[1..], b);
    }
  }

  /** What other drains hold does not count. */
  lemma {:induction false} HeldSame(f: seq<seq<Keyed>>, g: seq<seq<Keyed>>, line: seq<nat>)
    requires InRange(f, line) && InRange(g, line) && forall i :: 0 <= i < |line| ==> f[line[i]] == g[line[i]]
    ensures Held(f, line) == Held(g, line)
  {
    if line != [] {
      HeldSame(f, g, line[1..]);
    }
  }

  lemma {:induction false} LoadedJoin(a: seq<Item>, b: seq<Item>)
    ensures Loaded(a + b) == Loaded(a) + Loaded(b)
  {
    if a == [] {
      assert a + b == b;
    } else {
      assert (a + b)[1..] == a[1..] + b;
      LoadedJoin(a[1..], b);
    }
  }

  lemma {:induction false} WithoutCuts(line: seq<nat>, p: nat)
    requires p < |line| && line[p] !in line[..p]
    ensures Without(line, line[p]) == line[..p] + line[p + 1..]
  {
    if p > 0 {
      assert line[0] in line[..p] && line[1..][..p - 1] == line[..p][1..];
      WithoutCuts(line[1..], p - 1);
      assert line[..p] + line[p + 1..] == [line[0]] + (line[1..][..p - 1] + line[1..][p..]);
    }
  }

  /** Drain d is in the line once, with p others before it. */
  predicate At(line: seq<nat>, p: nat, d: nat) {
    p < |line| && line[p] == d && d !in line[..p] && d !in line[p + 1..]
  }

  lemma Place(flights: seq<seq<Keyed>>, line: seq<nat>, d: nat) returns (p: nat)
    requires Lined(flights, line) && d < |flights| && flights[d] != []
    ensures At(line, p, d)
  {
    p :| p < |line| && line[p] == d;
  }

  lemma HeldAround(flights: seq<seq<Keyed>>, line: seq<nat>, p: nat)
    requires InRange(flights, line) && p < |line|
    ensures Held(flights, line) == Held(flights, line[..p]) + flights[line[p]] + Held(flights, line[p + 1..])
  {
    assert line == line[..p] + line[p..] && line[p..][1..] == line[p + 1..];
    HeldJoin(flights, line[..p], line[p..]);
  }

  /** Another batch for d leaves what the others hold. */
  lemma HeldReplace(flights: seq<seq<Keyed>>, line: seq<nat>, p: nat, d: nat, batch: seq<Keyed>)
    requires InRange(flights, line) && At(line, p, d)
    ensures Held(flights[d := batch], line) == Held(flights, line[..p]) + batch + Held(flights, line[p + 1..])
  {
    HeldAround(flights[d := batch], line, p);
    HeldSame(flights, flights[d := batch], line[..p]);
    HeldSame(flights, flights[d := batch], line[p + 1..]);
  }

  lemma HeldRemove(flights: seq<seq<Keyed>>, line: seq<nat>, p: nat, d: nat, batch: seq<Keyed>)
    requires InRange(flights, line) && At(line, p, d)
    ensures InRange(flights, Without(line, d))
    ensures Held(flights[d := batch], Without(line, d)) == Held(flights, line[..p]) + Held(flights, line[p + 1..])
  {
    WithoutCuts(line, p);
    HeldSame(flights, flights[d := batch], line[..p]);
    HeldSame(flights, flights[d := batch], line[p + 1..]);
    HeldJoin(flights[d := batch], line[..p], line[p + 1..]);
  }

  lemma LinedRemove(flights: seq<seq<Keyed>>, line: seq<nat>, p: nat, d: nat)
    requires Lined(flights, line) && At(line, p, d)
    ensures Lined(flights[d := []], Without(line, d))
  {
    RestIs(line, p, d);
    LinedRest(flights, line, Without(line, d), p, d);
  }

  lemma LinedRest(flights: seq<seq<Keyed>>, line: seq<nat>, rest: seq<nat>, p: nat, d: nat)
    requires Lined(flights, line) && p < |line| && line[p] == d && |rest| == |line| - 1
    requires forall i :: 0 <= i < |rest| ==> rest[i] == line[if i < p then i else i + 1]
    ensures Lined(flights[d := []], rest)
  {
    forall c: nat | c < |flights| && c != d && flights[c] != [] ensures c in rest {
      var q :| 0 <= q < |line| && line[q] == c;
      assert c == rest[if q < p then q else q - 1];
    }
  }

  lemma RestIs(line: seq<nat>, p: nat, d: nat)
    requires At(line, p, d)
    ensures var rest := Without(line, d);
      |rest| == |line| - 1 && d !in rest && forall i :: 0 <= i < |rest| ==> rest[i] == line[if i < p then i else i + 1]
  {
    WithoutCuts(line, p);
  }

  lemma HeldEmpty(flights: seq<seq<Keyed>>, line: seq<nat>)
    requires InRange(flights, line) && forall i :: 0 <= i < |line| ==> flights[line[i]] != []
    ensures Held(flights, line) == [] <==> line == []
  {}

  // ---- how each event changes the line ----

  lemma PutWaits(w: World, m: Message)
    requires Lined(w.flights, w.line)
    ensures Waiting(Next(w, Put(m))) == Waiting(w) + [Keyed(w.queue.sequence + 1, m)]
  {
    LoadedAgain(w.queue, m);
  }

  lemma ConnectWaits(w: World)
    requires Lined(w.flights, w.line)
    ensures var w' := Next(w, Connect); Lined(w'.flights, w'.line) && Waiting(w') == Waiting(w)
  {
    HeldSame(w.flights, w.flights + [[]], w.line);
  }

  lemma TakeWaits(w: World, d: nat)
    requires Lined(w.flights, w.line) && Enabled(w, Take(d))
    ensures var w' := Next(w, Take(d)); Lined(w'.flights, w'.line) && Waiting(w') == Waiting(w)
  {
    BatchFirst(w.queue);
    if Batch(w.queue) == [] {
      assert w.flights[d := []] == w.flights;
    } else {
      LinedTake(w.flights, w.line, d, Batch(w.queue));
    }
  }

  lemma BatchFirst(q: Queue)
    ensures Loaded(q.items) == Batch(q) + Loaded(Step(q, Dequeue(BATCH)).items)
  {
    var c := Passed(q.items, BATCH);
    LoadedJoin(q.items[..c], q.items[c..]);
    assert q.items == q.items[..c] + q.items[c..];
  }

  lemma LinedTake(flights: seq<seq<Keyed>>, line: seq<nat>, d: nat, batch: seq<Keyed>)
    requires Lined(flights, line) && d < |flights| && flights[d] == [] && batch != []
    ensures Lined(flights[d := batch], line + [d])
    ensures Held(flights[d := batch], line + [d]) == Held(flights, line) + batch
  {
    assert d !in line;
    forall c: nat | c < |flights| && (c == d || flights[c] != []) ensures c in line + [d] {}
    HeldSame(flights, flights[d := batch], line);
    HeldJoin(flights[d := batch], line, [d]);
    assert [d][1..] == [] && Held(flights[d := batch], [d]) == batch + [];
  }

  lemma Ends(flights: seq<seq<Keyed>>, line: seq<nat>, p: nat, d: nat)
    requires Lined(flights, line) && At(line, p, d)
    ensures Held(flights, line[..p]) == [] <==> line[0] == d
    ensures Held(flights, line[p + 1..]) == [] <==> line[|line| - 1] == d
  {
    HeldEmpty(flights, line[..p]);
    HeldEmpty(flights, line[p + 1..]);
  }

  /** What the line holds once drain d holds only rest, and what the drains before and after it hold. */
  lemma HeldLess(flights: seq<seq<Keyed>>, line: seq<nat>, d: nat, rest: seq<Keyed>)
    returns (a: seq<Keyed>, b: seq<Keyed>)
    requires Lined(flights, line) && d < |flights| && flights[d] != []
    ensures var line' := if rest == [] then Without(line, d) else line;
      Lined(flights[d := rest], line') && Held(flights[d := rest], line') == a + rest + b
    ensures Held(flights, line) == a + flights[d] + b && line != []
    ensures (a == [] <==> line[0] == d) && (b == [] <==> line[|line| - 1] == d)
  {
    var p := Place(flights, line, d);
    a, b := Held(flights, line[..p]), Held(flights, line[p + 1..]);
    HeldAround(flights, line, p);
    Ends(flights, line, p, d);
    if rest == [] {
      HeldRemove(flights, line, p, d, []);
      LinedRemove(flights, line, p, d);
      assert a + [] + b == a + b;
    } else {
      HeldReplace(flights, line, p, d, rest);
      LinedKeep(flights, line, d, rest);
    }
  }

  lemma LinedKeep(flights: seq<seq<Keyed>>, line: seq<nat>, d: nat, rest: seq<Keyed>)
    requires Lined(flights, line) && d < |flights| && flights[d] != [] && rest != []
    ensures Lined(flights[d := rest], line)
  {}

  lemma Regroup<T>(a: seq<T>, batch: seq<T>, b: seq<T>, queued: seq<T>)
    requires batch != []
    ensures a + batch + b + queued == a + [batch[0]] + (batch[1..] + b + queued)
    ensures a + batch[1..] + b + queued == a + (batch[1..] + b + queued)
  {}

  /** Publishing takes the first message of d's batch out of the line; it is the first of all if d is first. */
  lemma ConfirmWaits(w: World, d: nat) returns (a: seq<Keyed>, b: seq<Keyed>)
    requires Lined(w.flights, w.line) && Enabled(w, Confirm(d))
    ensures var w' := Next(w, Confirm(d)); Lined(w'.flights, w'.line) && Waiting(w') == a + b
    ensures Waiting(w) == a + [w.flights[d][0]] + b
    ensures w.line != [] && (a == [] <==> w.line[0] == d)
  {
    var rest := w.flights[d][1..];
    var after;
    a, after := HeldLess(w.flights, w.line, d, rest);
    b := rest + after + Loaded(w.queue.items);
    Regroup(a, w.flights[d], after, Loaded(w.queue.items));
  }

  /** A failure takes d's whole batch out of the line and puts its first message, under a new key, at the end. */
  lemma FailWaits(w: World, d: nat) returns (a: seq<Keyed>, b: seq<Keyed>)
    requires Lined(w.flights, w.line) && Enabled(w, Fail(d))
    ensures var w', again := Next(w, Fail(d)), Keyed(w.queue.sequence + 1, w.flights[d][0].msg);
      Lined(w'.flights, w'.line) && Waiting(w') == a + b + [again]
    ensures Waiting(w) == a + w.flights[d] + b
    ensures w.line != [] && (b == [] <==> w.line[|w.line| - 1] == d && Loaded(w.queue.items) == [])
  {
    LoadedAgain(w.queue, w.flights[d][0].msg);
    a, b := FailedLine(w.flights, w.line, d, Loaded(w.queue.items),
                       [Keyed(w.queue.sequence + 1, w.flights[d][0].msg)]);
  }

  lemma FailedLine(flights: seq<seq<Keyed>>, line: seq<nat>, d: nat, queued: seq<Keyed>, more: seq<Keyed>)
    returns (a: seq<Keyed>, b: seq<Keyed>)
    requires Lined(flights, line) && d < |flights| && flights[d] != []
    ensures Lined(flights[d := []], Without(line, d))
    ensures Held(flights[d := []], Without(line, d)) + (queued + more) == a + b + more
    ensures Held(flights, line) + queued == a + flights[d] + b
    ensures line != [] && (b == [] <==> line[|line| - 1] == d && queued == [])
  {
    var after;
    a, after := HeldLess(flights, line, d, []);
    b := after + queued;
    Extended(a, flights[d], after, queued, more);
  }

  lemma LoadedAgain(q: Queue, m: Message)
    ensures Loaded(Step(q, Enqueue(m)).items) == Loaded(q.items) + [Keyed(q.sequence + 1, m)]
  {
    LoadedJoin(q.items, [Item(q.sequence + 1, Valid(m))]);
    assert [Item(q.sequence + 1, Valid(m))][1..] == [];
  }

  lemma Extended<T>(a: seq<T>, batch: seq<T>, b: seq<T>, queued: seq<T>, more: seq<T>)
    ensures a + batch + b + queued == a + batch + (b + queued)
    ensures a + [] + b + (queued + more) == a + (b + queued) + more
  {}

  // ---- rising keys ----

  /** Under this renaming every message counts as one that was put in under the key it has. */
  const AS_STORED: map<nat, nat> := map[]

  /** The first keys of the messages rise: the keys themselves for AS_STORED. */
  ghost predicate Rising(renamed: map<nat, nat>, s: seq<Keyed>) {
    forall i, j :: 0 <= i < j < |s| ==> Origin(renamed, s[i].n) < Origin(renamed, s[j].n)
  }

  lemma RisingCut(f: map<nat, nat>, a: seq<Keyed>, middle: seq<Keyed>, b: seq<Keyed>)
    requires Rising(f, a + middle + b)
    ensures Rising(f, a + b)
  {
    var s, t := a + middle + b, a + b;
    forall i, j | 0 <= i < j < |t| ensures Origin(f, t[i].n) < Origin(f, t[j].n) {
      var i', j' := if i < |a| then i else i + |middle|, if j < |a| then j else j + |middle|;
      assert t[i] == s[i'] && t[j] == s[j'];
    }
  }

  lemma RisingEnd(f: map<nat, nat>, s: seq<Keyed>, x: Keyed)
    ensures Rising(f, s + [x]) <==>
            Rising(f, s) && forall i :: 0 <= i < |s| ==> Origin(f, s[i].n) < Origin(f, x.n)
  {
    var t := s + [x];
    assert forall i :: 0 <= i < |s| ==> t[i] == s[i];
    assert t[|s|] == x;
  }

  /** Numbers up to the queue's sequence, also as first keys. */
  ghost predicate Drawn(f: map<nat, nat>, s: seq<Keyed>, sequence: nat) {
    && (forall k :: k in f ==> k <= sequence && f[k] <= sequence)
    && (forall i :: 0 <= i < |s| ==> s[i].n <= sequence)
  }

  /** A new key is larger than all others. */
  lemma RisingNew(f: map<nat, nat>, s: seq<Keyed>, sequence: nat, m: Message)
    requires Rising(f, s) && Drawn(f, s, sequence)
    ensures Rising(f, s + [Keyed(sequence + 1, m)])
  {
    RisingEnd(f, s, Keyed(sequence + 1, m));
  }

  /** A new entry in the renaming does not matter to older keys. */
  lemma RisingRenamed(f: map<nat, nat>, s: seq<Keyed>, sequence: nat, first: nat)
    requires Rising(f, s) && Drawn(f, s, sequence)
    ensures Rising(f[sequence + 1 := first], s)
  {}

  /** A message queued again comes behind the earlier ones, and stands in the order if nothing else is left. */
  lemma RisingAgain(f: map<nat, nat>, a: seq<Keyed>, batch: seq<Keyed>, b: seq<Keyed>, sequence: nat)
    requires batch != [] && Rising(f, a + batch + b) && Drawn(f, a + batch + b, sequence)
    ensures var f' := f[sequence + 1 := Origin(f, batch[0].n)];
      Rising(f', a + b + [Keyed(sequence + 1, batch[0].msg)]) <==> b == []
  {
    var f', again := f[sequence + 1 := Origin(f, batch[0].n)], Keyed(sequence + 1, batch[0].msg);
    RisingCut(f, a, batch, b);
    DrawnCut(f, [], a, batch, b, sequence);
    RisingRenamed(f, a + b, sequence, Origin(f, batch[0].n));
    RisingEnd(f', a + b, again);
    AgainLater(f, a, batch, b);
    if b == [] {
      assert a + b == a;
    } else {
      assert (a + b)[|a|] == b[0] && b[0].n <= sequence;
    }
  }

  lemma AgainLater(f: map<nat, nat>, a: seq<Keyed>, batch: seq<Keyed>, b: seq<Keyed>)
    requires batch != [] && Rising(f, a + batch + b)
    ensures forall i :: 0 <= i < |a| ==> Origin(f, a[i].n) < Origin(f, batch[0].n)
    ensures b != [] ==> Origin(f, batch[0].n) < Origin(f, b[0].n)
  {
    var s := a + batch + b;
    assert s[|a|] == batch[0];
    assert forall i :: 0 <= i < |a| ==> s[i] == a[i];
    assert b != [] ==> s[|a| + |batch|] == b[0];
  }

  // ---- the line stays sorted by key ----

  ghost predicate Sorted(w: World) {
    && Lined(w.flights, w.line)
    && Drawn(w.renamed, w.published + Waiting(w), w.queue.sequence) && Rising(AS_STORED, Waiting(w))
  }

  lemma DrawnPart(w: World, f: map<nat, nat>)
    requires Sorted(w) && (f == AS_STORED || f == w.renamed)
    ensures Drawn(f, Waiting(w), w.queue.sequence)
  {
    var all := w.published + Waiting(w);
    assert forall i :: 0 <= i < |Waiting(w)| ==> all[|w.published| + i] == Waiting(w)[i];
  }

  lemma SortedConfirm(w: World, d: nat)
    requires Sorted(w) && Enabled(w, Confirm(d))
    ensures Sorted(Next(w, Confirm(d)))
  {
    var a, b := ConfirmWaits(w, d);
    var x := w.flights[d][0];
    RisingCut(AS_STORED, a, [x], b);
    DrawnPart(w, w.renamed);
    DrawnMoved(w.renamed, w.published, a, x, b, w.queue.sequence);
  }

  lemma DrawnMoved(f: map<nat, nat>, p: seq<Keyed>, a: seq<Keyed>, x: Keyed, b: seq<Keyed>, sequence: nat)
    requires Drawn(f, p + (a + [x] + b), sequence)
    ensures Drawn(f, p + [x] + (a + b), sequence)
  {
    var s, t := p + (a + [x] + b), p + [x] + (a + b);
    forall i | 0 <= i < |t| ensures t[i].n <= sequence {
      assert t[i] == s[if i < |p| then i else if i == |p| then |p| + |a| else if i <= |p| + |a| then i - 1 else i];
    }
  }

  lemma SortedFail(w: World, d: nat)
    requires Sorted(w) && Enabled(w, Fail(d))
    ensures Sorted(Next(w, Fail(d)))
  {
    var a, b := FailWaits(w, d);
    DrawnPart(w, AS_STORED);
    RisingCut(AS_STORED, a, w.flights[d], b);
    DrawnCut(AS_STORED, [], a, w.flights[d], b, w.queue.sequence);
    RisingNew(AS_STORED, a + b, w.queue.sequence, w.flights[d][0].msg);
    DrawnCut(w.renamed, w.published, a, w.flights[d], b, w.queue.sequence);
    OriginDrawn(w, d, a, b);
    DrawnNew(w.renamed, w.published, a + b, w.queue.sequence, Origin(w.renamed, w.flights[d][0].n),
             w.flights[d][0].msg);
  }

  lemma OriginDrawn(w: World, d: nat, a: seq<Keyed>, b: seq<Keyed>)
    requires Sorted(w) && d < |w.flights| && w.flights[d] != [] && Waiting(w) == a + w.flights[d] + b
    ensures Origin(w.renamed, w.flights[d][0].n) <= w.queue.sequence
  {
    DrawnPart(w, w.renamed);
    assert Waiting(w)[|a|] == w.flights[d][0];
  }

  lemma DrawnCut(f: map<nat, nat>, p: seq<Keyed>, a: seq<Keyed>, middle: seq<Keyed>, b: seq<Keyed>, sequence: nat)
    requires Drawn(f, p + (a + middle + b), sequence)
    ensures Drawn(f, p + (a + b), sequence) && Drawn(f, a + b, sequence)
  {
    var s, t := p + (a + middle + b), a + b;
    forall i | 0 <= i < |t| ensures t[i].n <= sequence {
      assert t[i] == s[if i < |a| then |p| + i else |p| + |middle| + i];
    }
    forall i | 0 <= i < |p| ensures p[i].n <= sequence {
      assert p[i] == s[i];
    }
  }

  lemma DrawnNew(f: map<nat, nat>, p: seq<Keyed>, s: seq<Keyed>, sequence: nat, first: nat, m: Message)
    requires Drawn(f, p + s, sequence) && first <= sequence
    ensures Drawn(f, p + (s + [Keyed(sequence + 1, m)]), sequence + 1)
    ensures Drawn(f[sequence + 1 := first], p + (s + [Keyed(sequence + 1, m)]), sequence + 1)
  {
    assert p + (s + [Keyed(sequence + 1, m)]) == (p + s) + [Keyed(sequence + 1, m)];
  }

  lemma SortedStep(w: World, e: Event)
    requires Sorted(w)
    ensures Sorted(Next(w, e))
  {
    if Enabled(w, e) {
      match e
      case Put(m) =>
        PutWaits(w, m);
        DrawnPart(w, AS_STORED);
        RisingNew(AS_STORED, Waiting(w), w.queue.sequence, m);
        DrawnNew(w.renamed, w.published, Waiting(w), w.queue.sequence, 0, m);
      case Connect => ConnectWaits(w);
      case Take(d) => TakeWaits(w, d);
      case Confirm(d) => SortedConfirm(w, d);
      case Fail(d) => SortedFail(w, d);
    }
  }

  // ---- overtaking ----

  /** A drain publishes that is not the first in line. */
  predicate Overtakes(w: World, e: Event) {
    e.Confirm? && Enabled(w, e) && w.line != [] && w.line[0] != e.drain
  }

  /** Another drain holds, or the queue has, a message put in earlier than the first one d holds. */
  ghost predicate EarlierHeld(w: World, renamed: map<nat, nat>, d: nat)
    requires d < |w.flights| && w.flights[d] != []
  {
    exists c: nat, x :: c < |w.flights| && c != d && x in w.flights[c] &&
      Origin(renamed, x.n) < Origin(renamed, w.flights[d][0].n)
  }

  ghost predicate EarlierQueued(w: World, renamed: map<nat, nat>, d: nat)
    requires d < |w.flights| && w.flights[d] != []
  {
    exists x :: x in Loaded(w.queue.items) && Origin(renamed, x.n) < Origin(renamed, w.flights[d][0].n)
  }

  lemma {:induction false} InHeld(flights: seq<seq<Keyed>>, line: seq<nat>, c: nat, x: Keyed)
    requires InRange(flights, line) && c in line && x in flights[c]
    ensures x in Held(flights, line)
  {
    if line[0] != c {
      InHeld(flights, line[1..], c, x);
    }
  }

  /**
    A publishing drain overtakes if and only if another drain holds an earlier message; what is queued is always
    later. By key this is so in every reachable world, and by first key as long as the line is in that order.
   */
  lemma OvertakesExactly(w: World, renamed: map<nat, nat>, d: nat)
    requires Lined(w.flights, w.line) && Rising(renamed, Waiting(w)) && Enabled(w, Confirm(d))
    ensures Overtakes(w, Confirm(d)) <==> EarlierHeld(w, renamed, d)
    ensures !EarlierQueued(w, renamed, d)
  {
    var a, b := ConfirmWaits(w, d);
    var s, head := Waiting(w), w.flights[d][0];
    assert s[|a|] == head;
    forall x | x in Loaded(w.queue.items) ensures Origin(renamed, head.n) <= Origin(renamed, x.n) {
      QueuedLater(w, renamed, d, x);
    }
    if w.line[0] != d {
      var c := w.line[0];
      assert w.flights[c][0] == s[0] == a[0] && w.flights[c][0] in w.flights[c];
    } else {
      forall c: nat, x | c < |w.flights| && c != d && x in w.flights[c]
        ensures Origin(renamed, head.n) <= Origin(renamed, x.n)
      {
        InHeld(w.flights, w.line, c, x);
        assert x in s;
      }
    }
  }

  lemma QueuedLater(w: World, renamed: map<nat, nat>, d: nat, x: Keyed)
    requires Lined(w.flights, w.line) && Rising(renamed, Waiting(w))
    requires d < |w.flights| && w.flights[d] != [] && x in Loaded(w.queue.items)
    ensures Origin(renamed, w.flights[d][0].n) < Origin(renamed, x.n)
  {
    var held, queued := Held(w.flights, w.line), Loaded(w.queue.items);
    InHeld(w.flights, w.line, d, w.flights[d][0]);
    var i :| 0 <= i < |held| && held[i] == w.flights[d][0];
    var j :| 0 <= j < |queued| && queued[j] == x;
    assert Waiting(w)[i] == held[i] && Waiting(w)[|held| + j] == queued[j];
  }

  predicate NoneOvertakes(w: World, events: seq<Event>)
    decreases |events|
  {
    events == [] || (!Overtakes(w, events[0]) && NoneOvertakes(Next(w, events[0]), events[1..]))
  }

  /** The event does not publish while a message of smaller key is held or queued. */
  ghost predicate TakesOldest(w: World, renamed: map<nat, nat>, e: Event) {
    e.Confirm? && Enabled(w, e) ==> !EarlierHeld(w, renamed, e.drain) && !EarlierQueued(w, renamed, e.drain)
  }

  ghost predicate AlwaysOldest(w: World, events: seq<Event>)
    decreases |events|
  {
    events == [] || (TakesOldest(w, AS_STORED, events[0]) && AlwaysOldest(Next(w, events[0]), events[1..]))
  }

  lemma {:induction false} OldestRun(w: World, events: seq<Event>)
    requires Sorted(w)
    ensures AlwaysOldest(w, events) <==> NoneOvertakes(w, events)
    decreases |events|
  {
    if events != [] {
      if events[0].Confirm? && Enabled(w, events[0]) {
        OvertakesExactly(w, AS_STORED, events[0].drain);
      }
      SortedStep(w, events[0]);
      OldestRun(Next(w, events[0]), events[1..]);
    }
  }

  // ---- the order in which messages were put in ----

  /** A publish fails while messages put in later are held or queued, so that its message falls behind them. */
  predicate Displaces(w: World, e: Event) {
    e.Fail? && Enabled(w, e) && w.line != [] && (w.line[|w.line| - 1] != e.drain || Loaded(w.queue.items) != [])
  }

  /** What is held and queued stands in the order in which it was put in. */
  ghost predicate InPutOrder(w: World)
    requires Sorted(w)
  {
    Rising(w.renamed, Waiting(w))
  }

  /** Every event keeps that order, except a displacing failure, which always breaks it. */
  lemma PutOrderStep(w: World, e: Event)
    requires Sorted(w) && InPutOrder(w)
    ensures Sorted(Next(w, e)) && (InPutOrder(Next(w, e)) <==> !Displaces(w, e))
  {
    SortedStep(w, e);
    if Enabled(w, e) {
      match e
      case Put(m) =>
        PutWaits(w, m);
        DrawnPart(w, w.renamed);
        RisingNew(w.renamed, Waiting(w), w.queue.sequence, m);
      case Connect => ConnectWaits(w);
      case Take(d) => TakeWaits(w, d);
      case Confirm(d) =>
        var a, b := ConfirmWaits(w, d);
        RisingCut(w.renamed, a, [w.flights[d][0]], b);
      case Fail(d) => PutOrderFail(w, d);
    }
  }

  lemma PutOrderFail(w: World, d: nat)
    requires Sorted(w) && InPutOrder(w) && Enabled(w, Fail(d)) && Sorted(Next(w, Fail(d)))
    ensures InPutOrder(Next(w, Fail(d))) <==> !Displaces(w, Fail(d))
  {
    var a, b := FailWaits(w, d);
    DrawnPart(w, w.renamed);
    RisingAgain(w.renamed, a, w.flights[d], b, w.queue.sequence);
  }

  predicate NoneDisplaces(w: World, events: seq<Event>)
    decreases |events|
  {
    events == [] || (!Displaces(w, events[0]) && NoneDisplaces(Next(w, events[0]), events[1..]))
  }

  /** In every state the messages wait in the order in which they were put in, and the earliest is published. */
  ghost predicate AlwaysInPutOrder(w: World, events: seq<Event>)
    decreases |events|
  {
    && InRange(w.flights, w.line) && Rising(w.renamed, Waiting(w))
    && (events == [] || (TakesOldest(w, w.renamed, events[0]) && AlwaysInPutOrder(Next(w, events[0]), events[1..])))
  }

  lemma {:induction false} PutOrderRun(w: World, events: seq<Event>)
    requires Sorted(w) && InPutOrder(w)
    ensures AlwaysInPutOrder(w, events) <==> NoneOvertakes(w, events) && NoneDisplaces(w, events)
    decreases |events|
  {
    if events != [] {
      if events[0].Confirm? && Enabled(w, events[0]) {
        OvertakesExactly(w, w.renamed, events[0].drain);
      }
      PutOrderStep(w, events[0]);
      if Displaces(w, events[0]) {
        assert !AlwaysInPutOrder(Next(w, events[0]), events[1..]);
      } else {
        PutOrderRun(Next(w, events[0]), events[1..]);
      }
    }
  }

  // ---- what has been published ----

  /** What was published, followed by what waits, rises. */
  ghost predicate Flowing(w: World, renamed: map<nat, nat>)
    requires InRange(w.flights, w.line)
  {
    Rising(renamed, w.published + Waiting(w))
  }

  lemma FlowPart(w: World, renamed: map<nat, nat>)
    requires InRange(w.flights, w.line) && Flowing(w, renamed)
    ensures Rising(renamed, Waiting(w)) && Rising(renamed, w.published)
  {
    assert [] + w.published + Waiting(w) == w.published + Waiting(w) && [] + Waiting(w) == Waiting(w);
    RisingCut(renamed, [], w.published, Waiting(w));
    assert w.published + Waiting(w) + [] == w.published + Waiting(w) && w.published + [] == w.published;
    RisingCut(renamed, w.published, Waiting(w), []);
  }

  lemma FlowConfirm(w: World, renamed: map<nat, nat>, d: nat)
    requires Sorted(w) && Flowing(w, renamed) && Enabled(w, Confirm(d)) && !Overtakes(w, Confirm(d))
    ensures Sorted(Next(w, Confirm(d))) && Flowing(Next(w, Confirm(d)), renamed)
  {
    var a, b := ConfirmWaits(w, d);
    SortedConfirm(w, d);
    FirstMoves(w.published, a, w.flights[d][0], b);
  }

  lemma FirstMoves<T>(p: seq<T>, a: seq<T>, x: T, b: seq<T>)
    requires a == []
    ensures p + (a + [x] + b) == p + [x] + (a + b)
  {}

  lemma FlowFail(w: World, d: nat)
    requires Sorted(w) && Enabled(w, Fail(d))
    ensures Sorted(Next(w, Fail(d)))
    ensures Flowing(w, AS_STORED) ==> Flowing(Next(w, Fail(d)), AS_STORED)
    ensures Flowing(w, w.renamed) && !Displaces(w, Fail(d)) ==>
      Flowing(Next(w, Fail(d)), Next(w, Fail(d)).renamed)
  {
    var a, b := FailWaits(w, d);
    SortedFail(w, d);
    if Flowing(w, AS_STORED) {
      FlowMoved(AS_STORED, w.published, a, w.flights[d], b, w.queue.sequence);
    }
    if Flowing(w, w.renamed) && !Displaces(w, Fail(d)) {
      FlowAgain(w.renamed, w.published, a, w.flights[d], w.queue.sequence);
    }
  }

  lemma FlowMoved(f: map<nat, nat>, p: seq<Keyed>, a: seq<Keyed>, batch: seq<Keyed>, b: seq<Keyed>, n: nat)
    requires batch != [] && Rising(f, p + (a + batch + b)) && Drawn(f, p + (a + batch + b), n)
    ensures Rising(f, p + (a + b + [Keyed(n + 1, batch[0].msg)]))
  {
    var again := Keyed(n + 1, batch[0].msg);
    assert p + (a + batch + b) == (p + a) + batch + b;
    assert p + (a + b + [again]) == ((p + a) + b) + [again];
    DrawnCut(f, [], p + a, batch, b, n);
    RisingCut(f, p + a, batch, b);
    RisingNew(f, (p + a) + b, n, batch[0].msg);
  }

  lemma FlowAgain(f: map<nat, nat>, p: seq<Keyed>, a: seq<Keyed>, batch: seq<Keyed>, n: nat)
    requires batch != [] && Rising(f, p + (a + batch + [])) && Drawn(f, p + (a + batch + []), n)
    ensures Rising(f[n + 1 := Origin(f, batch[0].n)], p + (a + [] + [Keyed(n + 1, batch[0].msg)]))
  {
    var again := Keyed(n + 1, batch[0].msg);
    assert p + (a + batch + []) == (p + a) + batch + [];
    assert p + (a + [] + [again]) == (p + a) + [] + [again];
    RisingAgain(f, p + a, batch, [], n);
  }

  lemma FlowStep(w: World, e: Event)
    requires Sorted(w) && !Overtakes(w, e)
    ensures Sorted(Next(w, e))
    ensures Flowing(w, AS_STORED) ==> Flowing(Next(w, e), AS_STORED)
    ensures Flowing(w, w.renamed) && !Displaces(w, e) ==> Flowing(Next(w, e), Next(w, e).renamed)
  {
    SortedStep(w, e);
    if Enabled(w, e) {
      match e
      case Put(m) => FlowPut(w, m);
      case Connect => ConnectWaits(w);
      case Take(d) => TakeWaits(w, d);
      case Confirm(d) =>
        if Flowing(w, AS_STORED) { FlowConfirm(w, AS_STORED, d); }
        if Flowing(w, w.renamed) { FlowConfirm(w, w.renamed, d); }
      case Fail(d) => FlowFail(w, d);
    }
  }

  lemma FlowPut(w: World, m: Message)
    requires Sorted(w)
    ensures Sorted(Next(w, Put(m)))
    ensures Flowing(w, AS_STORED) ==> Flowing(Next(w, Put(m)), AS_STORED)
    ensures Flowing(w, w.renamed) ==> Flowing(Next(w, Put(m)), w.renamed)
  {
    var n, all := w.queue.sequence, w.published + Waiting(w);
    SortedStep(w, Put(m));
    PutWaits(w, m);
    assert w.published + (Waiting(w) + [Keyed(n + 1, m)]) == all + [Keyed(n + 1, m)];
    if Flowing(w, AS_STORED) { RisingNew(AS_STORED, all, n, m); }
    if Flowing(w, w.renamed) { RisingNew(w.renamed, all, n, m); }
  }

  lemma {:induction false} FlowRun(w: World, events: seq<Event>)
    requires Sorted(w) && Flowing(w, AS_STORED) && NoneOvertakes(w, events)
    ensures Rising(AS_STORED, After(w, events).published)
    ensures Flowing(w, w.renamed) && NoneDisplaces(w, events) ==>
      Rising(After(w, events).renamed, After(w, events).published)
    decreases |events|
  {
    if events == [] {
      FlowPart(w, AS_STORED);
      if Flowing(w, w.renamed) { FlowPart(w, w.renamed); }
    } else {
      FlowStep(w, events[0]);
      FlowRun(Next(w, events[0]), events[1..]);
    }
  }

  // ---- runs from a store as it is found ----

  /** The keys of a store rise up to its sequence number. */
  ghost predicate Found(q: Queue) {
    Climbing(q.items) && Within(q.items, 1, q.sequence)
  }

  lemma FoundInStore(b: Bucket, sequence: nat)
    ensures Found(Queue(Ordered(b, 1, sequence), sequence))
  {
    OrderedListing(b, 1, sequence);
  }

  lemma {:induction false} LoadedFrom(items: seq<Item>, x: Keyed)
    requires x in Loaded(items)
    ensures exists i :: 0 <= i < |items| && items[i].n == x.n
  {
    if !(items[0].entry.Valid? && x == Keyed(items[0].n, items[0].entry.msg)) {
      LoadedFrom(items[1..], x);
      var i :| 0 <= i < |items[1..]| && items[1..][i].n == x.n;
      assert items[i + 1].n == x.n;
    }
  }

  lemma {:induction false} LoadedRises(items: seq<Item>)
    requires Climbing(items)
    ensures Rising(AS_STORED, Loaded(items))
  {
    if items != [] {
      var rest := Loaded(items[1..]);
      LoadedRises(items[1..]);
      forall i | 0 <= i < |rest| ensures items[0].n < rest[i].n {
        LoadedFrom(items[1..], rest[i]);
      }
    }
  }

  lemma StartSorted(q: Queue)
    requires Found(q)
    ensures Sorted(Start(q)) && Flowing(Start(q), AS_STORED)
  {
    var s := Loaded(q.items);
    LoadedRises(q.items);
    forall i | 0 <= i < |s| ensures s[i].n <= q.sequence {
      LoadedFrom(q.items, s[i]);
    }
    assert Waiting(Start(q)) == s && [] + s == s;
  }

  /**
    Over every run with any number of drains and failures: no message is published while one with a smaller key is
    held by another drain or queued, if and only if no drain overtakes; and then the published keys rise.
   */
  lemma OldestExactly(q: Queue, events: seq<Event>)
    requires Found(q)
    ensures AlwaysOldest(Start(q), events) <==> NoneOvertakes(Start(q), events)
    ensures NoneOvertakes(Start(q), events) ==> Rising(AS_STORED, After(Start(q), events).published)
  {
    StartSorted(q);
    OldestRun(Start(q), events);
    if NoneOvertakes(Start(q), events) {
      FlowRun(Start(q), events);
    }
  }

  /**
    What waits is always in the order in which it was put in, and the earliest is published, if and only if no drain
    overtakes and no failure displaces its message; and then the messages are published in that order.
   */
  lemma PutOrderExactly(q: Queue, events: seq<Event>)
    requires Found(q)
    ensures AlwaysInPutOrder(Start(q), events) <==> NoneOvertakes(Start(q), events) && NoneDisplaces(Start(q), events)
    ensures NoneOvertakes(Start(q), events) && NoneDisplaces(Start(q), events) ==>
      Rising(After(Start(q), events).renamed, After(Start(q), events).published)
  {
    StartSorted(q);
    PutOrderRun(Start(q), events);
    if NoneOvertakes(Start(q), events) && NoneDisplaces(Start(q), events) {
      FlowRun(Start(q), events);
    }
  }

  // ---- runs that break the order ----

  lemma BothTaken(a: Message, b: Message)
    ensures var w := Start(Queue([], 1)).(flights := [[Keyed(1, a)], []], line := [0], put := [a]);
      Next(Next(w, Put(b)), Take(1)) ==
      Start(Queue([], 2)).(flights := [[Keyed(1, a)], [Keyed(2, b)]], line := [0, 1], put := [a, b])
  {
    TakesOne(Queue([Item(2, Valid(b))], 2), b);
    assert Step(Queue([], 1), Enqueue(b)).items == [Item(2, Valid(b))];
  }

  /** A second drain may overtake the first: the younger message is then published before the older one. */
  lemma Overtaken(a: Message, b: Message)
    ensures var events := [Connect, Connect, Take(0), Put(b), Take(1), Confirm(1), Confirm(0)];
      Contents(After(Start(Queue([Item(1, Valid(a))], 1)), events).published) == [b, a]
  {
    var q := Queue([Item(1, Valid(a))], 1);
    var w3 := Start(Queue([], 1)).(flights := [[Keyed(1, a)], []], line := [0], put := [a]);
    var w5 := Start(Queue([], 2)).(flights := [[Keyed(1, a)], [Keyed(2, b)]], line := [0, 1], put := [a, b]);
    var first, second, third := [Connect, Connect, Take(0)], [Put(b), Take(1), Confirm(1)], [Confirm(0)];
    assert Messages(q.items) == [a];
    TakesOne(q, a);
    assert Next(Next(Next(Start(q), Connect), Connect), Take(0)) == w3;
    Three(Start(q), first, second + third);
    BothTaken(a, b);
    Three(w3, second, third);
    var w6 := Next(w5, Confirm(1));
    assert third[1..] == [] && After(w6, third) == After(Next(w6, Confirm(0)), []);
    assert first + (second + third) == [Connect, Connect, Take(0), Put(b), Take(1), Confirm(1), Confirm(0)];
  }

  lemma TakenThenPut(a: Message, b: Message)
    ensures Next(Next(Next(Start(Queue([Item(1, Valid(a))], 1)), Connect), Take(0)), Put(b)) ==
            Start(Queue([Item(2, Valid(b))], 2)).(flights := [[Keyed(1, a)]], line := [0], put := [a, b])
  {
    TakesOne(Queue([Item(1, Valid(a))], 1), a);
    assert Messages([Item(1, Valid(a))]) == [a];
    assert Step(Queue([], 1), Enqueue(b)).items == [Item(2, Valid(b))];
  }

  lemma RetakenBehind(a: Message, b: Message)
    ensures
      var w3 := Start(Queue([Item(2, Valid(b))], 2)).(flights := [[Keyed(1, a)]], line := [0], put := [a, b]);
      Next(Next(Next(w3, Fail(0)), Connect), Take(1)) ==
      World(Queue([], 3), [[], [Keyed(2, b), Keyed(3, a)]], [1], map[3 := 1], [a, b], [], [], 1)
  {
    var w3 := Start(Queue([Item(2, Valid(b))], 2)).(flights := [[Keyed(1, a)]], line := [0], put := [a, b]);
    var q := Queue([Item(2, Valid(b)), Item(3, Valid(a))], 3);
    var w4 := World(q, [[]], [], map[3 := 1], [a, b], [], [], 1);
    assert Step(w3.queue, Enqueue(a)) == q;
    assert Next(w3, Fail(0)) == w4;
    TakesTwo(q, b, a);
  }

  /** A failing publish puts its message behind one that was put in later, which is then published first. */
  lemma FailureReorders(a: Message, b: Message)
    ensures var events := [Connect, Take(0), Put(b), Fail(0), Connect, Take(1), Confirm(1), Confirm(1)];
      Contents(After(Start(Queue([Item(1, Valid(a))], 1)), events).published) == [b, a]
  {
    var q := Queue([Item(1, Valid(a))], 1);
    var w3 := Start(Queue([Item(2, Valid(b))], 2)).(flights := [[Keyed(1, a)]], line := [0], put := [a, b]);
    var w6 := World(Queue([], 3), [[], [Keyed(2, b), Keyed(3, a)]], [1], map[3 := 1], [a, b], [], [], 1);
    var first, second, third := [Connect, Take(0), Put(b)], [Fail(0), Connect, Take(1)], [Confirm(1), Confirm(1)];
    TakenThenPut(a, b);
    Three(Start(q), first, second + third);
    RetakenBehind(a, b);
    Three(w3, second, third);
    var w7 := Next(w6, Confirm(1));
    assert third[1..] == [Confirm(1)] && [Confirm(1)][1..] == [];
    assert After(w6, third) == After(w7, [Confirm(1)]) == After(Next(w7, Confirm(1)), []);
    assert first + (second + third) ==
           [Connect, Take(0), Put(b), Fail(0), Connect, Take(1), Confirm(1), Confirm(1)];
  }
}
