/**
  Draining while messages keep arriving: every reconnect starts another drain, and each takes batches from the one
  queue and publishes them message by message between the steps of the others.
 */
module DrainInterleaving {
  import opened Prelude
  import opened QueueOrder
  import opened MqttClients

  /** A message with the key it was stored under. */
  datatype Keyed = Keyed(n: nat, msg: Message)

  /** The messages among some items; corrupted entries carry none. */
  function Loaded(items: seq<Item>): seq<Keyed> {
    if items == [] then []
    else (if items[0].entry.Valid? then [Keyed(items[0].n, items[0].entry.msg)] else []) + Loaded(items[1..])
  }

  function Contents(s: seq<Keyed>): seq<Message> {
    seq(|s|, i requires 0 <= i < |s| => s[i].msg)
  }

  /**
    The queue, what each drain holds of its batch, and what became of the messages put in. Two records for the proofs:
    line lists the drains that hold something in the order they took it, and renamed gives, for the key of a message
    that was queued again, the key it had first.
   */
  datatype World = World(queue: Queue, flights: seq<seq<Keyed>>, line: seq<nat>, renamed: map<nat, nat>,
                         put: seq<Message>, published: seq<Keyed>, lost: seq<Keyed>, failures: nat)

  datatype Event =
    | Put(msg: Message)
    | Connect
    | Take(drain: nat)
    | Confirm(drain: nat)
    | Fail(drain: nat)

  /** A drain dequeues when its batch is done, and publishes or fails on the first message it holds. */
  predicate Enabled(w: World, e: Event) {
    match e
    case Take(d) => d < |w.flights| && w.flights[d] == []
    case Confirm(d) => d < |w.flights| && w.flights[d] != []
    case Fail(d) => d < |w.flights| && w.flights[d] != []
    case _ => true
  }

  function Without(line: seq<nat>, d: nat): seq<nat> {
    if line == [] then [] else if line[0] == d then line[1..] else [line[0]] + Without(line[1..], d)
  }

  /** The key under which the message with key n was put in first. */
  function Origin(renamed: map<nat, nat>, n: nat): nat {
    if n in renamed then renamed[n] else n
  }

  /** The batch a dequeue returns, with its keys. */
  function Batch(q: Queue): seq<Keyed> {
    Loaded(q.items[..Passed(q.items, BATCH)])
  }

  function Next(w: World, e: Event): World {
    if !Enabled(w, e) then w
    else
      match e
      case Put(m) => w.(queue := Step(w.queue, Enqueue(m)), put := w.put + [m])
      case Connect => w.(flights := w.flights + [[]])
      case Take(d) =>
        w.(queue := Step(w.queue, Dequeue(BATCH)), flights := w.flights[d := Batch(w.queue)],
           line := if Batch(w.queue) == [] then w.line else w.line + [d])
      case Confirm(d) =>
        w.(published := w.published + [w.flights[d][0]], flights := w.flights[d := w.flights[d][1..]],
           line := if |w.flights[d]| == 1 then Without(w.line, d) else w.line)
      case Fail(d) =>
        var x := w.flights[d][0];
        w.(queue := Step(w.queue, Enqueue(x.msg)), flights := w.flights[d := []], line := Without(w.line, d),
           renamed := w.renamed[w.queue.sequence + 1 := Origin(w.renamed, x.n)],
           lost := w.lost + w.flights[d][1..], failures := w.failures + 1)
  }

  function After(w: World, events: seq<Event>): World
    decreases |events|
  {
    if events == [] then w else After(Next(w, events[0]), events[1..])
  }

  lemma {:induction false} LoadedMessages(items: seq<Item>)
    ensures Contents(Loaded(items)) == Messages(items)
  {
    if items != [] {
      LoadedMessages(items[1..]);
      ContentsJoined(if items[0].entry.Valid? then [Keyed(items[0].n, items[0].entry.msg)] else [], Loaded(items[1..]));
    }
  }

  lemma ContentsJoined(a: seq<Keyed>, b: seq<Keyed>)
    ensures Contents(a + b) == Contents(a) + Contents(b)
  {}

  // ---- where every message is ----

  /** How often a message occurs. */
  function Times(s: seq<Message>, x: Message): nat {
    multiset(s)[x]
  }

  function Count(s: seq<Keyed>, x: Message): nat {
    Times(Contents(s), x)
  }

  function InFlight(flights: seq<seq<Keyed>>, x: Message): nat {
    if flights == [] then 0 else Count(flights[0], x) + InFlight(flights[1..], x)
  }

  lemma {:induction false} FlightUpdate(flights: seq<seq<Keyed>>, d: nat, batch: seq<Keyed>, x: Message)
    requires d < |flights|
    ensures InFlight(flights[d := batch], x) + Count(flights[d], x) == InFlight(flights, x) + Count(batch, x)
    decreases d
  {
    if d == 0 {
      assert flights[0 := batch][1..] == flights[1..];
    } else {
      assert flights[d := batch][1..] == flights[1..][d - 1 := batch];
      FlightUpdate(flights[1..], d - 1, batch, x);
    }
  }

  lemma {:induction false} FlightAppend(flights: seq<seq<Keyed>>, x: Message)
    ensures InFlight(flights + [[]], x) == InFlight(flights, x)
  {
    if flights == [] {
      assert (flights + [[]])[1..] == flights;
    } else {
      assert (flights + [[]])[1..] == flights[1..] + [[]];
      FlightAppend(flights[1..], x);
    }
  }

  lemma TimesJoined(a: seq<Message>, b: seq<Message>, x: Message)
    ensures Times(a + b, x) == Times(a, x) + Times(b, x)
  {}

  lemma CountJoined(a: seq<Keyed>, b: seq<Keyed>, x: Message)
    ensures Count(a + b, x) == Count(a, x) + Count(b, x)
  {
    ContentsJoined(a, b);
    TimesJoined(Contents(a), Contents(b), x);
  }

  lemma CountSplit(batch: seq<Keyed>, x: Message)
    requires batch != []
    ensures Count(batch, x) == Times([batch[0].msg], x) + Count(batch[1..], x)
  {
    assert batch == [batch[0]] + batch[1..];
    CountJoined([batch[0]], batch[1..], x);
    assert Contents([batch[0]]) == [batch[0].msg];
  }

  /** As often as it was put in, a message is published, lost, held by a drain or queued. */
  predicate AccountedFor(w: World, x: Message) {
    Times(w.put, x) ==
      Count(w.published, x) + Count(w.lost, x) + InFlight(w.flights, x) + Times(Messages(w.queue.items), x)
  }

  predicate Limited(w: World) {
    && |w.lost| <= (BATCH - 1) * w.failures
    && forall d :: 0 <= d < |w.flights| ==> |w.flights[d]| <= BATCH
  }

  lemma TakeAccounts(w: World, d: nat, x: Message)
    requires AccountedFor(w, x) && Enabled(w, Take(d))
    ensures AccountedFor(Next(w, Take(d)), x)
  {
    var taken := Taken(w.queue, Dequeue(BATCH));
    LoadedMessages(w.queue.items[..Passed(w.queue.items, BATCH)]);
    FlightUpdate(w.flights, d, Batch(w.queue), x);
    FifoDequeue(w.queue, BATCH);
    TimesJoined(taken, Messages(Step(w.queue, Dequeue(BATCH)).items), x);
  }

  lemma ConfirmAccounts(w: World, d: nat, x: Message)
    requires AccountedFor(w, x) && Enabled(w, Confirm(d))
    ensures AccountedFor(Next(w, Confirm(d)), x)
  {
    var batch := w.flights[d];
    FlightUpdate(w.flights, d, batch[1..], x);
    CountSplit(batch, x);
    CountJoined(w.published, [batch[0]], x);
    assert Contents([batch[0]]) == [batch[0].msg];
  }

  lemma FailAccounts(w: World, d: nat, x: Message)
    requires AccountedFor(w, x) && Enabled(w, Fail(d))
    ensures AccountedFor(Next(w, Fail(d)), x)
  {
    var batch := w.flights[d];
    FlightUpdate(w.flights, d, [], x);
    CountSplit(batch, x);
    CountJoined(w.lost, batch[1..], x);
    FifoEnqueue(w.queue, batch[0].msg);
    TimesJoined(Messages(w.queue.items), [batch[0].msg], x);
  }

  lemma AccountedStep(w: World, e: Event, x: Message)
    requires AccountedFor(w, x)
    ensures AccountedFor(Next(w, e), x)
  {
    if Enabled(w, e) {
      match e
      case Put(m) =>
        FifoEnqueue(w.queue, m);
        TimesJoined(w.put, [m], x);
        TimesJoined(Messages(w.queue.items), [m], x);
      case Connect => FlightAppend(w.flights, x);
      case Take(d) => TakeAccounts(w, d, x);
      case Confirm(d) => ConfirmAccounts(w, d, x);
      case Fail(d) => FailAccounts(w, d, x);
    }
  }

  lemma LimitedStep(w: World, e: Event)
    requires Limited(w)
    ensures Limited(Next(w, e))
  {
    if Enabled(w, e) && e.Take? {
      DequeueTakesOldest(w.queue, BATCH);
      LoadedMessages(w.queue.items[..Passed(w.queue.items, BATCH)]);
      assert |Batch(w.queue)| == |Contents(Batch(w.queue))|;
    }
  }

  lemma {:induction false} AccountedRun(w: World, events: seq<Event>, x: Message)
    requires AccountedFor(w, x) && Limited(w)
    ensures AccountedFor(After(w, events), x) && Limited(After(w, events))
    decreases |events|
  {
    if events != [] {
      AccountedStep(w, events[0], x);
      LimitedStep(w, events[0]);
      AccountedRun(Next(w, events[0]), events[1..], x);
    }
  }

  /** A store found with messages in it, and no drain yet. */
  function Start(q: Queue): World {
    World(q, [], [], map[], Messages(q.items), [], [], 0)
  }

  /**
    However enqueues and any number of drains interleave: every message is published, lost, held or queued exactly as
    often as it was put in, and each failure loses at most nine.
   */
  lemma DrainsAccount(q: Queue, events: seq<Event>, x: Message)
    ensures AccountedFor(After(Start(q), events), x) && Limited(After(Start(q), events))
  {
    AccountedRun(Start(q), events, x);
  }

  /** A publish fails on a message that is not the last its drain holds. */
  predicate Losing(w: World, e: Event) {
    Enabled(w, e) && e.Fail? && |w.flights[e.drain]| > 1
  }

  predicate NoneLosing(w: World, events: seq<Event>)
    decreases |events|
  {
    events == [] || (!Losing(w, events[0]) && NoneLosing(Next(w, events[0]), events[1..]))
  }

  lemma {:induction false} LostGrows(w: World, events: seq<Event>)
    ensures w.lost <= After(w, events).lost
    decreases |events|
  {
    if events != [] {
      LostGrows(Next(w, events[0]), events[1..]);
    }
  }

  /** A run loses a message if and only if some publish fails on a message that is not the last its drain holds. */
  lemma {:induction false} LosesExactly(w: World, events: seq<Event>)
    ensures After(w, events).lost == w.lost <==> NoneLosing(w, events)
    decreases |events|
  {
    if events != [] {
      if Losing(w, events[0]) {
        LostGrows(Next(w, events[0]), events[1..]);
      } else {
        LosesExactly(Next(w, events[0]), events[1..]);
      }
    }
  }

  /** Two messages in one batch: the failure on the first queues it again, and the second is nowhere. */
  lemma FailureLosesRest(a: Message, b: Message)
    ensures var w := After(Start(Queue([Item(1, Valid(a)), Item(2, Valid(b))], 2)), [Connect, Take(0), Fail(0)]);
      Contents(w.lost) == [b] && w.published == [] && Messages(w.queue.items) == [a]
  {
    var q := Queue([Item(1, Valid(a)), Item(2, Valid(b))], 2);
    var w := Start(Queue([], 2)).(flights := [[Keyed(1, a), Keyed(2, b)]], line := [0], put := [a, b]);
    TakesTwo(q, a, b);
    assert Next(Next(Start(q), Connect), Take(0)) == w;
    var events := [Connect, Take(0), Fail(0)];
    Three(Start(q), events, []);
    assert events + [] == events;
    assert [Item(3, Valid(a))][1..] == [];
  }

  lemma TakesTwo(q: Queue, a: Message, b: Message)
    requires |q.items| == 2 && q.items[0].entry == Valid(a) && q.items[1].entry == Valid(b)
    ensures Messages(q.items) == [a, b]
    ensures Batch(q) == [Keyed(q.items[0].n, a), Keyed(q.items[1].n, b)]
    ensures Step(q, Dequeue(BATCH)) == q.(items := [])
  {
    var rest := q.(items := q.items[1..]);
    assert rest.items[1..] == [] && q.items[..2] == q.items;
    assert Passed(rest.items, BATCH - 1) == 1 + Passed(rest.items[1..], BATCH - 2) == 1;
    assert Passed(q.items, BATCH) == 1 + Passed(q.items[1..], BATCH - 1) == 2;
    assert Messages(rest.items) == [b] + Messages(rest.items[1..]) == [b];
    assert Messages(q.items) == [a] + Messages(q.items[1..]) == [a, b];
    assert Loaded(rest.items) == [Keyed(q.items[1].n, b)] + Loaded(rest.items[1..]);
    assert Loaded(q.items) == [Keyed(q.items[0].n, a)] + Loaded(q.items[1..]);
  }

  lemma TakesOne(q: Queue, m: Message)
    requires |q.items| == 1 && q.items[0].entry == Valid(m)
    ensures Batch(q) == [Keyed(q.items[0].n, m)] && Step(q, Dequeue(BATCH)) == q.(items := [])
  {
    assert q.items[1..] == [] && q.items[..1] == q.items;
    assert Passed(q.items, BATCH) == 1 + Passed(q.items[1..], BATCH - 1) == 1;
    assert Loaded(q.items) == [Keyed(q.items[0].n, m)] + Loaded(q.items[1..]);
  }

  lemma Three(w: World, three: seq<Event>, rest: seq<Event>)
    requires |three| == 3
    ensures After(w, three + rest) == After(Next(Next(Next(w, three[0]), three[1]), three[2]), rest)
  {
    var all := three + rest;
    assert all[1..][1..][1..] == rest && all[1..][0] == three[1] && all[1..][1..][0] == three[2];
    assert After(w, all) == After(Next(w, all[0]), all[1..]);
    assert After(Next(w, all[0]), all[1..]) == After(Next(Next(w, three[0]), three[1]), all[1..][1..]);
  }
}
