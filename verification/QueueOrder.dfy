/**
  The offline queue as a sequence of items in key order, and what a cursor that skips corrupted entries takes from it.
 */
module QueueOrder {
  import opened Prelude

  type Message = nat

  /** A stored value decodes to a message, or is corrupted. */
  datatype Entry = Valid(msg: Message) | Corrupted
  datatype Item = Item(n: nat, entry: Entry)

  function Messages(q: seq<Item>): seq<Message> {
    if q == [] then []
    else (if q[0].entry.Valid? then [q[0].entry.msg] else []) + Messages(q[1..])
  }

  /** How many leading items the cursor passes to collect up to limit messages. */
  function Passed(q: seq<Item>, limit: nat): (c: nat)
    ensures c <= |q|
  {
    if q == [] || limit == 0 then 0
    else 1 + Passed(q[1..], if q[0].entry.Valid? then limit - 1 else limit)
  }

  lemma {:induction false} MessagesAppend(a: seq<Item>, b: seq<Item>)
    ensures Messages(a + b) == Messages(a) + Messages(b)
  {
    if a == [] {
      assert a + b == b;
    } else {
      var c := a + b;
      assert c[0] == a[0] && c[1..] == a[1..] + b;
      MessagesAppend(a[1..], b);
      var first := if a[0].entry.Valid? then [a[0].entry.msg] else [];
      assert first + (Messages(a[1..]) + Messages(b)) == (first + Messages(a[1..])) + Messages(b);
    }
  }

  /** The cursor takes exactly the oldest messages and leaves the rest. */
  lemma {:induction false} PassedTakes(q: seq<Item>, limit: nat)
    ensures var c := Passed(q, limit);
      var k := Min(limit, |Messages(q)|);
      Messages(q[..c]) == Messages(q)[..k] && Messages(q[c..]) == Messages(q)[k..]
  {
    if q != [] && limit > 0 {
      var rest := if q[0].entry.Valid? then limit - 1 else limit;
      var c := Passed(q, limit);
      PassedTakes(q[1..], rest);
      assert q[..c][1..] == q[1..][..c - 1];
      assert q[c..] == q[1..][c - 1..];
      if q[0].entry.Valid? {
        assert Messages(q) == [q[0].entry.msg] + Messages(q[1..]);
      }
    }
  }

  /** Stopping at limit a and resuming with limit b passes the same items as limit a + b. */
  lemma {:induction false} PassedTwice(q: seq<Item>, a: nat, b: nat)
    ensures Passed(q, a + b) == Passed(q, a) + Passed(q[Passed(q, a)..], b)
  {
    if q == [] || a == 0 {
      assert q[0..] == q;
      assert Passed(q, a) == 0;
    } else {
      var rest := if q[0].entry.Valid? then a - 1 else a;
      PassedTwice(q[1..], rest, b);
      assert q[Passed(q, a)..] == q[1..][Passed(q[1..], rest)..];
    }
  }

  /** Asking for at least all messages passes everything, if the queue cannot fill the limit. */
  lemma {:induction false} PassedAll(q: seq<Item>, limit: nat)
    requires |Messages(q)| < limit
    ensures Passed(q, limit) == |q|
  {
    if q != [] {
      PassedAll(q[1..], if q[0].entry.Valid? then limit - 1 else limit);
    }
  }

  // ---- whole runs of the queue ----

  datatype Op = Enqueue(msg: Message) | Dequeue(limit: nat)

  datatype Queue = Queue(items: seq<Item>, sequence: nat)

  function Step(q: Queue, op: Op): Queue {
    match op
    case Enqueue(m) => Queue(q.items + [Item(q.sequence + 1, Valid(m))], q.sequence + 1)
    case Dequeue(limit) => q.(items := q.items[Passed(q.items, limit)..])
  }

  function Taken(q: Queue, op: Op): seq<Message> {
    if op.Dequeue? then Messages(q.items[..Passed(q.items, op.limit)]) else []
  }

  lemma DequeueTakesOldest(q: Queue, limit: nat)
    ensures Taken(q, Dequeue(limit)) == Messages(q.items)[..Min(limit, |Messages(q.items)|)]
  {
    PassedTakes(q.items, limit);
  }

  function Run(q: Queue, ops: seq<Op>): Queue
    decreases |ops|
  {
    if ops == [] then q else Run(Step(q, ops[0]), ops[1..])
  }

  function AllTaken(q: Queue, ops: seq<Op>): seq<Message>
    decreases |ops|
  {
    if ops == [] then [] else Taken(q, ops[0]) + AllTaken(Step(q, ops[0]), ops[1..])
  }

  function Enqueued(ops: seq<Op>): seq<Message> {
    if ops == [] then [] else (if ops[0].Enqueue? then [ops[0].msg] else []) + Enqueued(ops[1..])
  }

  lemma FifoEnqueue(q: Queue, m: Message)
    ensures Messages(Step(q, Enqueue(m)).items) == Messages(q.items) + [m]
  {
    MessagesAppend(q.items, [Item(q.sequence + 1, Valid(m))]);
  }

  lemma FifoDequeue(q: Queue, limit: nat)
    ensures Taken(q, Dequeue(limit)) + Messages(Step(q, Dequeue(limit)).items) == Messages(q.items)
  {
    var c := Passed(q.items, limit);
    MessagesAppend(q.items[..c], q.items[c..]);
    assert q.items[..c] + q.items[c..] == q.items;
  }

  /**
    First in, first out: what was taken, followed by what is still queued, is what was there and what was added, in
    order.
   */
  lemma {:induction false} Fifo(q: Queue, ops: seq<Op>)
    ensures AllTaken(q, ops) + Messages(Run(q, ops).items) == Messages(q.items) + Enqueued(ops)
    decreases |ops|
  {
    if ops == [] {
      assert [] + Messages(q.items) == Messages(q.items) + [];
    } else {
      var q' := Step(q, ops[0]);
      var later, left, added := AllTaken(q', ops[1..]), Messages(Run(q, ops).items), Enqueued(ops[1..]);
      Fifo(q', ops[1..]);
      match ops[0]
      case Enqueue(m) =>
        FifoEnqueue(q, m);
        JoinAdded(later, left, Messages(q.items), m, added);
      case Dequeue(limit) =>
        FifoDequeue(q, limit);
        JoinTaken(Taken(q, ops[0]), later, left, Messages(q'.items), Messages(q.items), added);
    }
  }

  lemma JoinTaken<T>(taken: seq<T>, later: seq<T>, left: seq<T>, between: seq<T>, before: seq<T>, added: seq<T>)
    requires later + left == between + added && taken + between == before
    ensures (taken + later) + left == before + ([] + added)
  {
    assert (taken + later) + left == taken + (later + left);
    assert taken + (between + added) == (taken + between) + added;
  }

  lemma JoinAdded<T>(later: seq<T>, left: seq<T>, before: seq<T>, m: T, added: seq<T>)
    requires later + left == (before + [m]) + added
    ensures ([] + later) + left == before + ([m] + added)
  {
    assert [] + later == later;
  }
}
