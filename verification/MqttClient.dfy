/**
  The agent's publishing client: direct publishing with a fallback to the store, and draining the store after a
  reconnect.
 */
module MqttClients {
  import opened Prelude
  import opened QueueKeys
  import opened QueueOrder
  import opened OfflineQueues

  const BATCH: nat := 10

  /** The first attempt in [from, n) that is not confirmed, or n. */
  function FirstFailure(ok: nat -> bool, from: nat, n: nat): (f: nat)
    requires from <= n
    ensures from <= f <= n && (f < n ==> !ok(f))
    ensures forall i: nat :: from <= i < f ==> ok(i)
    decreases n - from
  {
    if from == n || !ok(from) then from else FirstFailure(ok, from + 1, n)
  }

  lemma FirstFailureIs(ok: nat -> bool, n: nat, f: nat)
    requires f <= n && (f < n ==> !ok(f)) && forall i: nat :: i < f ==> ok(i)
    ensures FirstFailure(ok, 0, n) == f
  {}

  /** The end of the batch that message f was dequeued with. */
  function BatchEnd(f: nat): nat {
    f - f % BATCH + BATCH
  }

  /** What a drain that first fails at message f leaves: f is the number of messages if none fails. */
  ghost predicate DrainedAt(q: Queue, published: seq<Message>, f: nat, q': Queue, published': seq<Message>) {
    var all := Messages(q.items);
    && f <= |all| && published' == published + all[..f]
    && (f == |all| ==> q' == Queue([], q.sequence))
    && (f < |all| ==> q' == Step(q.(items := q.items[Passed(q.items, BatchEnd(f))..]), Enqueue(all[f])))
  }

  datatype Outcome = Sent | Queued | Refused

  class MqttClient {
    var store: Store?
    var published: seq<Message>

    constructor (store: Store?)
      ensures this.store == store && published == []
    {
      this.store, published := store, [];
    }

    /** Publish, or queue when the broker is away or does not confirm in time; without a store that is an error. */
    method PublishWithQueue(msg: Message, connected: bool, acked: bool) returns (outcome: Outcome)
      requires store != null ==> store.Valid() && store.sequence + 1 < TWO_64
      modifies this`published, store
      ensures store != null ==> store.Valid()
      ensures outcome == if connected && acked then Sent else if store != null then Queued else Refused
      ensures published == old(published) + if outcome == Sent then [msg] else []
      ensures store != null ==>
        store.State() == if outcome == Queued then Step(old(store.State()), Enqueue(msg)) else old(store.State())
    {
      if connected && acked {
        published := published + [msg];
        return Sent;
      }
      if store == null {
        return Refused;
      }
      store.EnqueueMessage(msg);
      return Queued;
    }

    /**
      connected(i) and acked(i) say what happens at the i-th message of the drain. All messages before the first
      failure f are published in order; if there is none the queue ends empty. Otherwise message f goes to the
      tail under a new key, and what remains of its batch is gone.
     */
    method DrainOfflineQueue(connected: nat -> bool, acked: nat -> bool)
      requires store != null ==> store.Valid() && store.sequence + 1 < TWO_64
      modifies this`published, store
      ensures store == null ==> published == old(published)
      ensures store != null ==> store.Valid()
      ensures store != null ==>
        var f := FirstFailure((i: nat) => connected(i) && acked(i), 0, |Messages(old(store.Items()))|);
        DrainedAt(old(store.State()), old(published), f, store.State(), published)
    {
      if store == null {
        return;
      }
      ghost var ok := (i: nat) => connected(i) && acked(i);
      ghost var q, sent := store.State(), published;
      ghost var asked: nat := 0;
      var done := 0;
      DrainStarts(q, sent, ok);
      var finished := false;
      while !finished
        invariant store != null && store == old(store) && store.Valid()
        invariant finished ==> DrainedAt(q, sent, FirstFailure(ok, 0, |Messages(q.items)|), store.State(), published)
        invariant !finished ==> Draining(q, sent, asked, done, ok, store.State(), published)
        invariant !finished ==> store.sequence == old(store.sequence)
        decreases !finished, |Messages(q.items)| - done
      {
        finished, done := DrainBatch(q, sent, asked, done, ok, connected, acked);
        asked := asked + BATCH;
      }
    }

    method DrainBatch(ghost q: Queue, ghost sent: seq<Message>, ghost asked: nat, done: nat, ghost ok: nat -> bool,
                      connected: nat -> bool, acked: nat -> bool) returns (finished: bool, done': nat)
      requires store != null && store.Valid() && store.sequence + 1 < TWO_64
      requires Draining(q, sent, asked, done, ok, store.State(), published)
      requires forall i: nat :: ok(i) == (connected(i) && acked(i))
      modifies this`published, store
      ensures store.Valid()
      ensures finished ==> DrainedAt(q, sent, FirstFailure(ok, 0, |Messages(q.items)|), store.State(), published)
      ensures !finished ==> Draining(q, sent, asked + BATCH, done', ok, store.State(), published)
      ensures !finished ==> done < done' <= |Messages(q.items)| && store.sequence == old(store.sequence)
    {
      ghost var before, out := store.State(), published;
      var msgs := store.DequeueMessages(BATCH);
      if |msgs| == 0 {
        DrainEnds(q, sent, asked, done, ok, before, out);
        return true, done;
      }
      var count := PublishBatch(msgs, done, connected, acked);
      if count < |msgs| {
        DrainFails(q, sent, asked, done, ok, before, out, msgs, count);
        return true, done;
      }
      assert msgs[..count] == msgs;
      DrainGoesOn(q, sent, asked, done, ok, before, out, msgs);
      return false, done + |msgs|;
    }

    /** Publishes one batch up to the first failure, and re-queues the message that failed. */
    method PublishBatch(msgs: seq<Message>, base: nat, connected: nat -> bool, acked: nat -> bool) returns (count: nat)
      requires store != null && store.Valid() && store.sequence + 1 < TWO_64
      modifies this`published, store
      ensures store.Valid() && count <= |msgs| && published == old(published) + msgs[..count]
      ensures forall k: nat :: base <= k < base + count ==> connected(k) && acked(k)
      ensures count < |msgs| ==> !(connected(base + count) && acked(base + count))
      ensures store.State() ==
        if count < |msgs| then Step(old(store.State()), Enqueue(msgs[count])) else old(store.State())
    {
      for i := 0 to |msgs|
        invariant store.Valid() && store == old(store) && store.State() == old(store.State())
        invariant published == old(published) + msgs[..i]
        invariant forall k: nat :: base <= k < base + i ==> connected(k) && acked(k)
      {
        if !connected(base + i) {
          store.EnqueueMessage(msgs[i]);
          return i;
        }
        if !acked(base + i) {
          store.EnqueueMessage(msgs[i]);
          return i;
        }
        published := published + [msgs[i]];
        assert msgs[..i + 1] == msgs[..i] + [msgs[i]];
      }
      count := |msgs|;
      assert msgs[..|msgs|] == msgs;
    }
  }

  /** Whole batches up to asked messages are out, all confirmed, and the store holds the rest. */
  ghost predicate Draining(q: Queue, published: seq<Message>, asked: nat, done: nat, ok: nat -> bool,
                           q': Queue, published': seq<Message>) {
    && asked % BATCH == 0 && done == Min(asked, |Messages(q.items)|)
    && q' == q.(items := q.items[Passed(q.items, asked)..])
    && published' == published + Messages(q.items)[..done]
    && forall i: nat :: i < done ==> ok(i)
  }

  lemma DrainStarts(q: Queue, published: seq<Message>, ok: nat -> bool)
    ensures Draining(q, published, 0, 0, ok, q, published)
  {
    assert Passed(q.items, 0) == 0 && q.items[0..] == q.items;
    assert published + Messages(q.items)[..0] == published;
  }

  lemma BatchTaken(q: Queue, asked: nat, now: Queue, done: nat)
    requires now == q.(items := q.items[Passed(q.items, asked)..]) && done == Min(asked, |Messages(q.items)|)
    ensures Taken(now, Dequeue(BATCH)) == Messages(q.items)[done..Min(asked + BATCH, |Messages(q.items)|)]
    ensures Step(now, Dequeue(BATCH)) == q.(items := q.items[Passed(q.items, asked + BATCH)..])
  {
    BatchAfter(q.items, asked);
  }

  lemma DrainEnds(q: Queue, published: seq<Message>, asked: nat, done: nat, ok: nat -> bool, now: Queue,
                  published': seq<Message>)
    requires Draining(q, published, asked, done, ok, now, published') && Taken(now, Dequeue(BATCH)) == []
    ensures DrainedAt(q, published, FirstFailure(ok, 0, |Messages(q.items)|), Step(now, Dequeue(BATCH)), published')
  {
    BatchTaken(q, asked, now, done);
    FirstFailureIs(ok, |Messages(q.items)|, |Messages(q.items)|);
    PassedAll(q.items, asked + BATCH);
  }

  lemma BatchSpan(f: nat)
    ensures f < BatchEnd(f) <= f + BATCH && (BatchEnd(f) == f + 1 <==> f % BATCH == 9)
    ensures forall asked: nat :: asked % BATCH == 0 && asked <= f < asked + BATCH ==> BatchEnd(f) == asked + BATCH
  {}

  lemma InsideBatch(all: seq<Message>, published: seq<Message>, asked: nat, done: nat, msgs: seq<Message>, count: nat)
    requires done == Min(asked, |all|) && msgs == all[done..Min(asked + BATCH, |all|)] && count < |msgs|
    ensures done == asked && count < BATCH && msgs[count] == all[done + count]
    ensures published + all[..done] + msgs[..count] == published + all[..done + count]
  {
    assert all[..done] + msgs[..count] == all[..done + count];
  }

  lemma DrainFails(q: Queue, published: seq<Message>, asked: nat, done: nat, ok: nat -> bool, now: Queue,
                   published': seq<Message>, msgs: seq<Message>, count: nat)
    requires Draining(q, published, asked, done, ok, now, published')
    requires msgs == Taken(now, Dequeue(BATCH)) && count < |msgs|
    requires !ok(done + count) && forall k: nat :: done <= k < done + count ==> ok(k)
    ensures DrainedAt(q, published, FirstFailure(ok, 0, |Messages(q.items)|),
      Step(Step(now, Dequeue(BATCH)), Enqueue(msgs[count])), published' + msgs[..count])
  {
    var all := Messages(q.items);
    BatchTaken(q, asked, now, done);
    InsideBatch(all, published, asked, done, msgs, count);
    FirstFailureIs(ok, |all|, done + count);
    BatchSpan(done + count);
  }

  lemma WholeBatch(all: seq<Message>, published: seq<Message>, done: nat, msgs: seq<Message>)
    requires done <= |all| && msgs <= all[done..]
    ensures published + all[..done] + msgs == published + all[..done + |msgs|]
  {
    assert all[..done] + msgs == all[..done + |msgs|];
  }

  lemma DrainGoesOn(q: Queue, published: seq<Message>, asked: nat, done: nat, ok: nat -> bool, now: Queue,
                    published': seq<Message>, msgs: seq<Message>)
    requires Draining(q, published, asked, done, ok, now, published')
    requires msgs == Taken(now, Dequeue(BATCH)) && msgs != []
    requires forall k: nat :: done <= k < done + |msgs| ==> ok(k)
    ensures Draining(q, published, asked + BATCH, done + |msgs|, ok,
      Step(now, Dequeue(BATCH)), published' + msgs)
  {
    var all := Messages(q.items);
    BatchTaken(q, asked, now, done);
    WholeBatch(all, published, done, msgs);
  }

  /** The batch after asked messages, and what stays behind it. */
  lemma BatchAfter(q: seq<Item>, asked: nat)
    ensures var rest := q[Passed(q, asked)..];
      && Messages(rest[..Passed(rest, BATCH)]) ==
        Messages(q)[Min(asked, |Messages(q)|)..Min(asked + BATCH, |Messages(q)|)]
      && rest[Passed(rest, BATCH)..] == q[Passed(q, asked + BATCH)..]
  {
    var rest := q[Passed(q, asked)..];
    PassedTakes(q, asked);
    PassedTakes(rest, BATCH);
    PassedTwice(q, asked, BATCH);
  }

  /** The messages of the failing batch behind the failing one. */
  function Lost(q: seq<Item>, f: nat): seq<Message>
    requires f < |Messages(q)|
  {
    Messages(q)[f + 1..Min(BatchEnd(f), |Messages(q)|)]
  }

  lemma FailedBatch(q: seq<Item>, f: nat)
    requires f < |Messages(q)|
    ensures var all, e := Messages(q), Min(BatchEnd(f), |Messages(q)|);
      f < e && all == all[..f] + [all[f]] + Lost(q, f) + all[e..]
    ensures |Lost(q, f)| <= 9
    ensures Lost(q, f) == [] <==> f % BATCH == 9 || f + 1 == |Messages(q)|
  {
    BatchSpan(f);
    Parts(Messages(q), f, Min(BatchEnd(f), |Messages(q)|));
  }

  lemma Parts<T>(all: seq<T>, f: nat, e: nat)
    requires f < e <= |all|
    ensures all == all[..f] + [all[f]] + all[f + 1..e] + all[e..]
  {}

  lemma RequeuedBehind(q: Queue, f: nat)
    requires f < |Messages(q.items)|
    ensures var all := Messages(q.items);
      var beyond := q.items[Passed(q.items, BatchEnd(f))..];
      var after := Step(Queue(beyond, q.sequence), Enqueue(all[f]));
      && Messages(beyond) == all[Min(BatchEnd(f), |all|)..]
      && Messages(after.items) == Messages(beyond) + [all[f]]
      && after.items[|after.items| - 1].n == q.sequence + 1
  {
    PassedTakes(q.items, BatchEnd(f));
    FifoEnqueue(Queue(q.items[Passed(q.items, BatchEnd(f))..], q.sequence), Messages(q.items)[f]);
  }

  /**
    Exact accounting of a drain that first fails at message f: published, requeued, lost and untouched messages
    are the old queue, in order; at most nine are lost; and none is lost exactly when f was the last of its batch.
   */
  lemma DrainAccounting(q: Queue, f: nat)
    requires f < |Messages(q.items)|
    ensures var all := Messages(q.items);
      var beyond := q.items[Passed(q.items, BatchEnd(f))..];
      var after := Step(Queue(beyond, q.sequence), Enqueue(all[f]));
      && all == all[..f] + [all[f]] + Lost(q.items, f) + Messages(beyond)
      && Messages(after.items) == Messages(beyond) + [all[f]]
      && after.items[|after.items| - 1].n == q.sequence + 1
    ensures |Lost(q.items, f)| <= 9
    ensures Lost(q.items, f) == [] <==> f % BATCH == 9 || f + 1 == |Messages(q.items)|
  {
    FailedBatch(q.items, f);
    RequeuedBehind(q, f);
  }
}
