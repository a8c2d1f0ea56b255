/** The agent's store: an ordered bucket of encoded messages keyed by a never-reused sequence number. */
module OfflineQueues {
  import opened Prelude
  import opened Decimals
  import opened QueueKeys
  import opened QueueOrder

  type Bucket = map<string, Entry>

  /** The entries under the keys of lo, lo + 1, ..., hi, in that order. */
  function Ordered(b: Bucket, lo: nat, hi: nat): seq<Item>
    decreases hi + 1 - lo
  {
    if lo > hi then []
    else (if Key(lo) in b then [Item(lo, b[Key(lo)])] else []) + Ordered(b, lo + 1, hi)
  }

  /** Every item is stored in the bucket under its key. */
  ghost predicate Stored(b: Bucket, q: seq<Item>) {
    forall i :: 0 <= i < |q| ==> Key(q[i].n) in b && q[i].entry == b[Key(q[i].n)]
  }

  ghost predicate Within(q: seq<Item>, lo: nat, hi: nat) {
    forall i :: 0 <= i < |q| ==> lo <= q[i].n <= hi
  }

  ghost predicate Climbing(q: seq<Item>) {
    forall i, j :: 0 <= i < j < |q| ==> q[i].n < q[j].n
  }

  /** Stored items with climbing numbers between lo and hi. */
  ghost predicate Listing(b: Bucket, q: seq<Item>, lo: nat, hi: nat) {
    Stored(b, q) && Within(q, lo, hi) && Climbing(q)
  }

  lemma Prepend(b: Bucket, x: Item, q: seq<Item>, hi: nat)
    requires Listing(b, q, x.n + 1, hi)
    requires x.n <= hi && Key(x.n) in b && x.entry == b[Key(x.n)]
    ensures Listing(b, [x] + q, x.n, hi)
  {}

  lemma Widen(b: Bucket, q: seq<Item>, lo: nat, hi: nat)
    requires Listing(b, q, lo + 1, hi)
    ensures Listing(b, q, lo, hi)
  {}

  lemma OrderedFirst(b: Bucket, lo: nat, hi: nat)
    requires lo <= hi
    ensures Ordered(b, lo, hi) ==
            if Key(lo) in b then [Item(lo, b[Key(lo)])] + Ordered(b, lo + 1, hi) else Ordered(b, lo + 1, hi)
  {}

  lemma {:induction false} OrderedListing(b: Bucket, lo: nat, hi: nat)
    ensures Listing(b, Ordered(b, lo, hi), lo, hi)
    decreases hi + 1 - lo
  {
    if lo <= hi {
      OrderedListing(b, lo + 1, hi);
      OrderedFirst(b, lo, hi);
      if Key(lo) in b {
        Prepend(b, Item(lo, b[Key(lo)]), Ordered(b, lo + 1, hi), hi);
      } else {
        Widen(b, Ordered(b, lo + 1, hi), lo, hi);
      }
    }
  }

  lemma OrderedItems(b: Bucket, lo: nat, hi: nat)
    ensures Stored(b, Ordered(b, lo, hi)) && Within(Ordered(b, lo, hi), lo, hi) && Climbing(Ordered(b, lo, hi))
  {
    OrderedListing(b, lo, hi);
  }

  lemma {:induction false} OrderedComplete(b: Bucket, lo: nat, hi: nat, n: nat)
    requires lo <= n <= hi && Key(n) in b
    ensures Item(n, b[Key(n)]) in Ordered(b, lo, hi)
    decreases hi + 1 - lo
  {
    if lo < n {
      OrderedComplete(b, lo + 1, hi, n);
    }
  }

  lemma {:induction false} OrderedSplit(b: Bucket, lo: nat, mid: nat, hi: nat)
    requires 1 <= lo <= mid <= hi + 1
    ensures Ordered(b, lo, hi) == Ordered(b, lo, mid - 1) + Ordered(b, mid, hi)
    decreases mid - lo
  {
    if lo < mid {
      OrderedSplit(b, lo + 1, mid, hi);
    }
  }

  lemma {:induction false} OrderedSame(b: Bucket, b': Bucket, lo: nat, hi: nat)
    requires forall n :: lo <= n <= hi ==> (Key(n) in b <==> Key(n) in b') && (Key(n) in b ==> b[Key(n)] == b'[Key(n)])
    ensures Ordered(b, lo, hi) == Ordered(b', lo, hi)
    decreases hi + 1 - lo
  {
    if lo <= hi {
      OrderedSame(b, b', lo + 1, hi);
    }
  }

  lemma {:induction false} OrderedEmpty(b: Bucket, lo: nat, hi: nat)
    requires forall n :: lo <= n <= hi ==> Key(n) !in b
    ensures Ordered(b, lo, hi) == []
    decreases hi + 1 - lo
  {
    if lo <= hi {
      OrderedEmpty(b, lo + 1, hi);
    }
  }

  /** The keys of the first c items. */
  ghost function KeysOf(q: seq<Item>): set<string> {
    set i | 0 <= i < |q| :: Key(q[i].n)
  }

  lemma SplitAt(q: seq<Item>, front: seq<Item>, back: seq<Item>, mid: nat, c: nat)
    requires q == front + back && c <= |q|
    requires forall i :: 0 <= i < |front| ==> front[i].n < mid
    requires forall i :: 0 <= i < |back| ==> mid <= back[i].n
    requires forall i :: 0 <= i < |q| ==> (q[i].n < mid <==> i < c)
    ensures front == q[..c] && back == q[c..]
  {
    forall i | 0 <= i < |q| ensures i < |front| <==> q[i].n < mid {
      assert q[i] == if i < |front| then front[i] else back[i - |front|];
    }
    assert |front| < |q| ==> !(q[|front|].n < mid);
    assert c < |q| ==> !(q[c].n < mid);
  }

  /** Deleting the first c items of a bucket leaves exactly the others. */
  lemma DeletePrefix(b: Bucket, hi: nat, c: nat)
    requires hi < TWO_64 && c <= |Ordered(b, 1, hi)|
    ensures Ordered(b - KeysOf(Ordered(b, 1, hi)[..c]), 1, hi) == Ordered(b, 1, hi)[c..]
  {
    var q := Ordered(b, 1, hi);
    var gone := KeysOf(q[..c]);
    OrderedItems(b, 1, hi);
    var mid := if c < |q| then q[c].n else hi + 1;
    SplitOrdered(b, hi, c, mid);
    OrderedSplit(b - gone, 1, mid, hi);
    forall n | 1 <= n <= mid - 1 ensures Key(n) !in b - gone {
      if Key(n) in b {
        KeyInPrefix(b, mid - 1, n);
      }
    }
    OrderedEmpty(b - gone, 1, mid - 1);
    forall n | mid <= n <= hi ensures Key(n) !in gone {
      KeyNotInPrefix(q[..c], n);
    }
    OrderedSame(b, b - gone, mid, hi);
  }

  lemma SplitOrdered(b: Bucket, hi: nat, c: nat, mid: nat)
    requires c <= |Ordered(b, 1, hi)|
    requires mid == if c < |Ordered(b, 1, hi)| then Ordered(b, 1, hi)[c].n else hi + 1
    ensures 1 <= mid <= hi + 1
    ensures Ordered(b, 1, mid - 1) == Ordered(b, 1, hi)[..c] && Ordered(b, mid, hi) == Ordered(b, 1, hi)[c..]
    ensures forall i :: 0 <= i < c ==> Ordered(b, 1, hi)[i].n < mid
  {
    OrderedItems(b, 1, hi);
    OrderedSplit(b, 1, mid, hi);
    OrderedItems(b, 1, mid - 1);
    OrderedItems(b, mid, hi);
    SplitAt(Ordered(b, 1, hi), Ordered(b, 1, mid - 1), Ordered(b, mid, hi), mid, c);
  }

  lemma KeyInPrefix(b: Bucket, hi: nat, n: nat)
    requires 1 <= n <= hi && Key(n) in b
    ensures Key(n) in KeysOf(Ordered(b, 1, hi))
  {
    OrderedComplete(b, 1, hi, n);
    var i :| 0 <= i < |Ordered(b, 1, hi)| && Ordered(b, 1, hi)[i] == Item(n, b[Key(n)]);
  }

  lemma KeyNotInPrefix(q: seq<Item>, n: nat)
    requires n < TWO_64 && forall i :: 0 <= i < |q| ==> q[i].n < n
    ensures Key(n) !in KeysOf(q)
  {
    forall i | 0 <= i < |q| ensures Key(q[i].n) != Key(n) {
      KeyOrder(q[i].n, n);
    }
  }

  /** The cursor's next key is the least one left. */
  ghost predicate IsLeast(k: string, keys: set<string>) {
    k in keys && forall j :: j in keys && j != k ==> Less(k, j)
  }

  lemma NextKey(b: Bucket, hi: nat, c: nat, rest: set<string>)
    requires hi < TWO_64 && c < |Ordered(b, 1, hi)|
    requires rest == KeysOf(Ordered(b, 1, hi)[c..])
    ensures IsLeast(Key(Ordered(b, 1, hi)[c].n), rest)
    ensures forall k :: IsLeast(k, rest) ==> k == Key(Ordered(b, 1, hi)[c].n)
    ensures rest - {Key(Ordered(b, 1, hi)[c].n)} == KeysOf(Ordered(b, 1, hi)[c + 1..])
  {
    var q := Ordered(b, 1, hi);
    OrderedItems(b, 1, hi);
    var k := Key(q[c].n);
    assert q[c..][0] == q[c];
    forall i | c < i < |q| ensures Less(k, Key(q[i].n)) && k != Key(q[i].n) && !Less(Key(q[i].n), k) {
      KeyOrder(q[c].n, q[i].n);
      KeyOrder(q[i].n, q[c].n);
    }
    forall j | j in rest && j != k ensures Less(k, j) && !Less(j, k) {
      var i :| 0 <= i < |q[c..]| && j == Key(q[c..][i].n);
      assert q[c..][i] == q[c + i];
    }
    forall j | j in rest - {k} ensures j in KeysOf(q[c + 1..]) {
      var i :| 0 <= i < |q[c..]| && j == Key(q[c..][i].n);
      assert q[c..][i] == q[c + i] && i > 0;
      assert q[c + 1..][i - 1] == q[c + i];
    }
    forall j | j in KeysOf(q[c + 1..]) ensures j in rest - {k} {
      var i :| 0 <= i < |q[c + 1..]| && j == Key(q[c + 1..][i].n);
      assert q[c + 1..][i] == q[c + 1 + i] == q[c..][i + 1];
    }
  }

  /** The cursor stands before item c of q: what is left, what was collected and what will be deleted. */
  ghost predicate CursorAt(q: seq<Item>, c: nat, rest: set<string>, keys: seq<string>, messages: seq<Message>,
                           count: nat, limit: nat) {
    && c <= |q| && count <= limit
    && rest == KeysOf(q[c..]) && (set k | k in keys) == KeysOf(q[..c])
    && messages == Messages(q[..c])
    && Passed(q, limit) == c + Passed(q[c..], limit - count)
  }

  lemma CursorStarts(q: seq<Item>, rest: set<string>, limit: nat)
    requires rest == KeysOf(q[0..])
    ensures CursorAt(q, 0, rest, [], [], 0, limit)
  {
    assert q[0..] == q && q[..0] == [];
  }

  /** Passing item c, whose key is k. */
  lemma CursorPasses(q: seq<Item>, c: nat, rest: set<string>, k: string, keys: seq<string>, messages: seq<Message>,
                     count: nat, limit: nat)
    requires CursorAt(q, c, rest, keys, messages, count, limit) && count < limit && c < |q| && k == Key(q[c].n)
    requires rest - {k} == KeysOf(q[c + 1..])
    ensures CursorAt(q, c + 1, rest - {k}, keys + [k],
      if q[c].entry.Valid? then messages + [q[c].entry.msg] else messages,
      if q[c].entry.Valid? then count + 1 else count, limit)
  {
    CursorMoves(q, c, limit - count);
    assert (set j | j in keys + [k]) == (set j | j in keys) + {k};
  }

  lemma CursorNext(b: Bucket, hi: nat, c: nat, rest: set<string>, k: string, keys: seq<string>,
                   messages: seq<Message>, count: nat, limit: nat)
    requires hi < TWO_64 && CursorAt(Ordered(b, 1, hi), c, rest, keys, messages, count, limit)
    requires count < limit && IsLeast(k, rest)
    ensures c < |Ordered(b, 1, hi)| && k in b && b[k] == Ordered(b, 1, hi)[c].entry
    ensures CursorAt(Ordered(b, 1, hi), c + 1, rest - {k}, keys + [k],
      if b[k].Valid? then messages + [b[k].msg] else messages, if b[k].Valid? then count + 1 else count, limit)
  {
    NotDone(Ordered(b, 1, hi), c, rest);
    NextKey(b, hi, c, rest);
    ItemUnderCursor(b, hi, c);
    CursorPasses(Ordered(b, 1, hi), c, rest, k, keys, messages, count, limit);
  }

  lemma LeastExists(b: Bucket, hi: nat, c: nat, rest: set<string>)
    requires hi < TWO_64 && c <= |Ordered(b, 1, hi)| && rest == KeysOf(Ordered(b, 1, hi)[c..]) && rest != {}
    ensures exists k :: IsLeast(k, rest)
  {
    NotDone(Ordered(b, 1, hi), c, rest);
    NextKey(b, hi, c, rest);
  }

  /** The cursor walk: messages collected and keys passed until the limit or the end is reached. */
  method Scan(b: Bucket, hi: nat, limit: nat) returns (messages: seq<Message>, keysToDelete: seq<string>)
    requires hi < TWO_64 && b.Keys == KeysOf(Ordered(b, 1, hi)[0..])
    ensures messages == Messages(Ordered(b, 1, hi)[..Passed(Ordered(b, 1, hi), limit)])
    ensures (set k | k in keysToDelete) == KeysOf(Ordered(b, 1, hi)[..Passed(Ordered(b, 1, hi), limit)])
  {
    ghost var q := Ordered(b, 1, hi);
    ghost var c := 0;
    messages, keysToDelete := [], [];
    var count := 0;
    var rest := b.Keys;
    CursorStarts(q, rest, limit);
    while rest != {} && count < limit
      invariant CursorAt(q, c, rest, keysToDelete, messages, count, limit)
      decreases |q| - c
    {
      LeastExists(b, hi, c, rest);
      ghost var least :| IsLeast(least, rest);
      var k :| k in rest && forall j :: j in rest && j != k ==> Less(k, j);
      assert IsLeast(k, rest);
      CursorNext(b, hi, c, rest, k, keysToDelete, messages, count, limit);
      var value := b[k];
      rest := rest - {k};
      keysToDelete := keysToDelete + [k];
      if value.Valid? {
        messages := messages + [value.msg];
        count := count + 1;
      }
      c := c + 1;
    }
    PassedStops(q, c, limit - count, rest);
  }

  /** Every key of the bucket was made from a number drawn so far. */
  ghost predicate Numbered(b: Bucket, hi: nat) {
    forall k :: k in b ==> exists n :: 1 <= n <= hi && k == Key(n)
  }

  lemma NumberedMinus(b: Bucket, hi: nat, gone: set<string>)
    requires Numbered(b, hi)
    ensures Numbered(b - gone, hi)
  {}

  /** Deleting the items a cursor passed is the dequeue step. */
  lemma Dequeued(b: Bucket, hi: nat, limit: nat)
    requires hi < TWO_64
    ensures var q := Ordered(b, 1, hi);
      Queue(Ordered(b - KeysOf(q[..Passed(q, limit)]), 1, hi), hi) == Step(Queue(q, hi), Dequeue(limit))
  {
    DeletePrefix(b, hi, Passed(Ordered(b, 1, hi), limit));
  }

  class Store {
    var bucket: Bucket
    var sequence: nat

    ghost predicate Valid()
      reads this
    {
      sequence < TWO_64 && Numbered(bucket, sequence)
    }

    /** The queued items, oldest first. */
    ghost function Items(): seq<Item>
      reads this
    {
      Ordered(bucket, 1, sequence)
    }

    ghost function State(): Queue
      reads this
    {
      Queue(Items(), sequence)
    }

    constructor ()
      ensures Valid() && State() == Queue([], 0)
    {
      bucket, sequence := map[], 0;
    }

    method EnqueueMessage(msg: Message)
      requires Valid() && sequence + 1 < TWO_64
      modifies this
      ensures Valid() && State() == Step(old(State()), Enqueue(msg))
    {
      sequence := sequence + 1;
      var key := Key(sequence);
      bucket := bucket[key := QueueOrder.Valid(msg)];
      forall n | 1 <= n < sequence ensures Key(n) != key { KeyOrder(n, sequence); }
      OrderedSame(old(bucket), bucket, 1, sequence - 1);
      OrderedSplit(bucket, 1, sequence, sequence);
      assert Ordered(bucket, sequence, sequence) == [Item(sequence, QueueOrder.Valid(msg))];
    }

    lemma AllKeys()
      requires Valid()
      ensures bucket.Keys == KeysOf(Items()[0..])
    {
      var q := Items();
      OrderedItems(bucket, 1, sequence);
      forall k | k in bucket ensures k in KeysOf(q) {
        var n :| 1 <= n <= sequence && k == Key(n);
        KeyInPrefix(bucket, sequence, n);
      }
      assert Stored(bucket, q) && q[0..] == q;
    }

    method DequeueMessages(limit: nat) returns (messages: seq<Message>)
      requires Valid()
      modifies this`bucket
      ensures Valid() && State() == Step(old(State()), Dequeue(limit))
      ensures messages == Taken(old(State()), Dequeue(limit))
      ensures messages == Messages(old(Items()))[..Min(limit, |Messages(old(Items()))|)]
    {
      var keysToDelete;
      AllKeys();
      messages, keysToDelete := Scan(bucket, sequence, limit);
      Dequeued(bucket, sequence, limit);
      DequeueTakesOldest(State(), limit);
      NumberedMinus(bucket, sequence, set k | k in keysToDelete);
      Delete(keysToDelete);
    }

    method Delete(keys: seq<string>)
      modifies this`bucket
      ensures bucket == old(bucket) - set k | k in keys
    {
      for i := 0 to |keys|
        invariant bucket == old(bucket) - set k | k in keys[..i]
      {
        bucket := bucket - {keys[i]};
        assert keys[..i + 1] == keys[..i] + [keys[i]];
      }
      assert keys[..|keys|] == keys;
    }
  }

  lemma ItemUnderCursor(b: Bucket, hi: nat, c: nat)
    requires c < |Ordered(b, 1, hi)|
    ensures Key(Ordered(b, 1, hi)[c].n) in b && Ordered(b, 1, hi)[c].entry == b[Key(Ordered(b, 1, hi)[c].n)]
  {
    OrderedItems(b, 1, hi);
  }

  lemma CursorMoves(q: seq<Item>, c: nat, left: nat)
    requires c < |q| && left > 0
    ensures Messages(q[..c + 1]) == Messages(q[..c]) + (if q[c].entry.Valid? then [q[c].entry.msg] else [])
    ensures Passed(q[c..], left) == 1 + Passed(q[c + 1..], if q[c].entry.Valid? then left - 1 else left)
    ensures KeysOf(q[..c + 1]) == KeysOf(q[..c]) + {Key(q[c].n)}
  {
    assert q[c..][0] == q[c] && q[c..][1..] == q[c + 1..];
    assert q[..c + 1] == q[..c] + [q[c]];
    MessagesAppend(q[..c], [q[c]]);
    KeysOfNext(q, c);
  }

  lemma KeysOfNext(q: seq<Item>, c: nat)
    requires c < |q|
    ensures KeysOf(q[..c + 1]) == KeysOf(q[..c]) + {Key(q[c].n)}
  {
    forall k | k in KeysOf(q[..c + 1]) ensures k in KeysOf(q[..c]) + {Key(q[c].n)} {
      var i :| 0 <= i < c + 1 && k == Key(q[..c + 1][i].n);
      if i < c {
        assert q[..c][i] == q[..c + 1][i];
      }
    }
    forall k | k in KeysOf(q[..c]) ensures k in KeysOf(q[..c + 1]) {
      var i :| 0 <= i < c && k == Key(q[..c][i].n);
      assert q[..c + 1][i] == q[..c][i];
    }
    assert q[..c + 1][c] == q[c];
  }

  lemma NotDone(q: seq<Item>, c: nat, rest: set<string>)
    requires c <= |q| && rest == KeysOf(q[c..]) && rest != {}
    ensures c < |q|
  {}

  lemma PassedStops(q: seq<Item>, c: nat, left: nat, rest: set<string>)
    requires c <= |q| && rest == KeysOf(q[c..]) && (rest == {} || left == 0)
    ensures Passed(q[c..], left) == 0
  {
    if c < |q| {
      assert Key(q[c..][0].n) in rest;
    }
  }
}
