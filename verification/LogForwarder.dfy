/** The bounded log buffer that drops its oldest entries, and flushes that may fail while entries keep arriving. */
module LogForwarders {
  import opened Prelude

  /** The newest n entries. */
  function LastN<T>(s: seq<T>, n: nat): seq<T> {
    if |s| <= n then s else s[|s| - n..]
  }

  /** Pushing onto a buffer of capacity max; slicing an empty buffer panics. */
  function Pushed<T>(buffer: seq<T>, max: nat, e: T): Option<seq<T>> {
    if |buffer| < max then Some(buffer + [e])
    else if buffer == [] then None
    else Some(buffer[1..] + [e])
  }

  /** Putting a failed batch back in front of what arrived meanwhile, as far as there is room. */
  function PutBack<T>(batch: seq<T>, buffer: seq<T>, max: nat): seq<T> {
    if |buffer| >= max then buffer
    else if |batch| > max - |buffer| then batch[|batch| - (max - |buffer|)..] + buffer
    else batch + buffer
  }

  function PushedAll<T>(buffer: seq<T>, max: nat, es: seq<T>): seq<T>
    requires max > 0
    decreases |es|
  {
    if es == [] then buffer else PushedAll(Pushed(buffer, max, es[0]).value, max, es[1..])
  }

  datatype Delivery = Unencodable | Failed | Delivered

  class Forwarder<T> {
    const maxSize: nat
    var buffer: seq<T>
    var sent: seq<T>

    ghost predicate Valid()
      reads this
    {
      maxSize > 0 && |buffer| <= maxSize
    }

    constructor (maxSize: nat)
      requires maxSize > 0
      ensures Valid() && this.maxSize == maxSize && buffer == [] && sent == []
    {
      this.maxSize, buffer, sent := maxSize, [], [];
    }

    method Push(entry: T)
      requires Valid()
      modifies this`buffer
      ensures Valid() && Some(buffer) == Pushed(old(buffer), maxSize, entry)
    {
      if |buffer| >= maxSize {
        buffer := buffer[1..];
      }
      buffer := buffer + [entry];
    }

    /** The first critical section of a flush: the whole buffer becomes the batch. */
    method Take() returns (batch: seq<T>)
      requires Valid()
      modifies this`buffer
      ensures Valid() && batch == old(buffer) && buffer == []
    {
      batch := buffer;
      buffer := [];
    }

    /** The second critical section of a flush that failed. */
    method Restore(failed: seq<T>)
      requires Valid()
      modifies this`buffer
      ensures Valid() && buffer == PutBack(failed, old(buffer), maxSize)
    {
      var batch := failed;
      var remaining := maxSize - |buffer|;
      if remaining > 0 {
        if |batch| > remaining {
          batch := batch[|batch| - remaining..];
        }
        buffer := batch + buffer;
      }
    }

    /**
      A flush during whose publishing the given entries are pushed. A failed one leaves exactly the buffer that
      pushing alone would have left.
     */
    method Flush(meanwhile: seq<T>, delivery: Delivery)
      requires Valid()
      modifies this`buffer, this`sent
      ensures Valid()
      ensures delivery == Failed ==> buffer == LastN(old(buffer) + meanwhile, maxSize) && sent == old(sent)
      ensures delivery != Failed && old(buffer) != [] ==> buffer == LastN(meanwhile, maxSize)
      ensures delivery == Delivered ==> sent == old(sent) + old(buffer)
      ensures delivery == Unencodable ==> sent == old(sent)
      ensures old(buffer) == [] ==> buffer == LastN(meanwhile, maxSize) && sent == old(sent)
    {
      var batch := [];
      if buffer != [] {
        batch := Take();
      }
      for i := 0 to |meanwhile|
        invariant Valid() && sent == old(sent)
        invariant buffer == LastN(meanwhile[..i], maxSize)
      {
        Push(meanwhile[i]);
        assert meanwhile[..i + 1] == meanwhile[..i] + [meanwhile[i]];
      }
      assert meanwhile[..|meanwhile|] == meanwhile;
      if delivery == Delivered {
        sent := sent + batch;
      } else if delivery == Failed && batch != [] {
        PutBackRefines(batch, meanwhile, maxSize);
        Restore(batch);
      }
      assert [] + meanwhile == meanwhile;
    }
  }

  /** Pushing keeps the newest max entries. */
  lemma {:induction false} PushedAllLast<T>(buffer: seq<T>, max: nat, es: seq<T>)
    requires 0 < max && |buffer| <= max
    ensures PushedAll(buffer, max, es) == LastN(buffer + es, max)
    decreases |es|
  {
    if es == [] {
      assert buffer + es == buffer;
    } else {
      PushedAllLast(Pushed(buffer, max, es[0]).value, max, es[1..]);
      PushedLast(buffer, max, es[0], es[1..]);
      assert buffer + es == (buffer + [es[0]]) + es[1..];
    }
  }

  /** An entry dropped for a push would not have been among the newest anyway. */
  lemma PushedLast<T>(buffer: seq<T>, max: nat, e: T, rest: seq<T>)
    requires 0 < max && |buffer| <= max
    ensures LastN(Pushed(buffer, max, e).value + rest, max) == LastN((buffer + [e]) + rest, max)
  {
    if |buffer| == max {
      assert (buffer + [e]) + rest == buffer[..1] + ((buffer[1..] + [e]) + rest);
    }
  }

  /** A failed flush refines pushing alone, whatever arrived while it was publishing. */
  lemma PutBackRefines<T>(batch: seq<T>, meanwhile: seq<T>, max: nat)
    requires |batch| <= max
    ensures PutBack(batch, LastN(meanwhile, max), max) == LastN(batch + meanwhile, max)
  {}

  lemma FailedFlushRefinesPushes<T>(batch: seq<T>, meanwhile: seq<T>, max: nat)
    requires 0 < max && |batch| <= max
    ensures PutBack(batch, PushedAll([], max, meanwhile), max) == PushedAll(batch, max, meanwhile)
  {
    PushedAllLast([], max, meanwhile);
    PushedAllLast(batch, max, meanwhile);
    assert [] + meanwhile == meanwhile;
    PutBackRefines(batch, meanwhile, max);
  }

  // ---- runs: pushes from any thread, flushes from one ----

  datatype Event<T> = Push(entry: T) | Begin | Finish(delivery: Delivery)

  /**
    The batch being published, if a flush is under way; and how many entries overflow and failed encoding have cost.
   */
  datatype World<T> = World(buffer: seq<T>, batch: Option<seq<T>>, sent: seq<T>, overflowed: nat, unencodable: nat)

  function Excess(size: nat, max: nat): nat {
    if size > max then size - max else 0
  }

  /** A push that panics is the end of the run. */
  function Next<T>(w: World<T>, max: nat, e: Event<T>): World<T> {
    match e
    case Push(x) =>
      var pushed := Pushed(w.buffer, max, x);
      if pushed.None? then w else
      w.(buffer := pushed.value, overflowed := w.overflowed + Excess(|w.buffer| + 1, max))
    case Begin => if w.batch.Some? || w.buffer == [] then w else w.(buffer := [], batch := Some(w.buffer))
    case Finish(delivery) =>
      if w.batch.None? then w else
      match delivery
      case Delivered => w.(batch := None, sent := w.sent + w.batch.value)
      case Failed => w.(batch := None, buffer := PutBack(w.batch.value, w.buffer, max),
                        overflowed := w.overflowed + Excess(|w.batch.value| + |w.buffer|, max))
      case Unencodable => w.(batch := None, unencodable := w.unencodable + |w.batch.value|)
  }

  function After<T>(w: World<T>, max: nat, events: seq<Event<T>>): World<T>
    decreases |events|
  {
    if events == [] then w else After(Next(w, max, events[0]), max, events[1..])
  }

  function Start<T>(): World<T> {
    World([], None, [], 0, 0)
  }

  predicate Panics<T>(w: World<T>, max: nat, events: seq<Event<T>>)
    decreases |events|
  {
    events != [] &&
    ((events[0].Push? && Pushed(w.buffer, max, events[0].entry).None?)
     || Panics(Next(w, max, events[0]), max, events[1..]))
  }

  /** A buffer with room for at least one entry never makes a push panic. */
  lemma {:induction false} RoomNeverPanics<T>(w: World<T>, max: nat, events: seq<Event<T>>)
    requires max > 0
    ensures !Panics(w, max, events)
    decreases |events|
  {
    if events != [] {
      RoomNeverPanics(Next(w, max, events[0]), max, events[1..]);
    }
  }

  /** A run panics if and only if the buffer has capacity zero and something is pushed. */
  lemma {:induction false} PanicsExactly<T>(max: nat, events: seq<Event<T>>)
    ensures Panics(Start(), max, events) <==> max == 0 && exists i :: 0 <= i < |events| && events[i].Push?
    decreases |events|
  {
    if max > 0 {
      RoomNeverPanics(Start(), max, events);
    } else if events != [] && !events[0].Push? {
      PanicsExactly(max, events[1..]);
      assert forall i :: 1 <= i < |events| ==> events[i] == events[1..][i - 1];
      assert forall i :: 0 <= i < |events[1..]| ==> events[1..][i] == events[i + 1];
    }
  }

  function InFlight<T>(w: World<T>): seq<T> {
    match w.batch case Some(b) => b case None => []
  }

  /** Everything that was sent, is being sent or is buffered, in that order. */
  function Kept<T>(w: World<T>): seq<T> {
    w.sent + InFlight(w) + w.buffer
  }

  /** Entries stamped with their position among the pushes. */
  datatype Stamped<T> = Stamped(n: nat, entry: T)

  /** Pushes carry the next stamps, in order. */
  predicate StampsInOrder<T>(events: seq<Event<Stamped<T>>>, from: nat)
    decreases |events|
  {
    events == [] ||
    (if events[0].Push? then events[0].entry.n == from && StampsInOrder(events[1..], from + 1)
     else StampsInOrder(events[1..], from))
  }

  function PushCount<T>(events: seq<Event<T>>): nat {
    if events == [] then 0 else (if events[0].Push? then 1 else 0) + PushCount(events[1..])
  }

  predicate Rising<T>(s: seq<Stamped<T>>, below: nat) {
    && (forall i, j :: 0 <= i < j < |s| ==> s[i].n < s[j].n)
    && (forall i :: 0 <= i < |s| ==> s[i].n < below)
  }

  predicate Bounded<T>(w: World<T>, max: nat) {
    |w.buffer| <= max && (w.batch.Some? ==> |w.batch.value| <= max)
  }

  /** Removing a middle stretch, or appending a later stamp, keeps stamps rising. */
  lemma RisingCut<T>(a: seq<Stamped<T>>, b: seq<Stamped<T>>, c: seq<Stamped<T>>, below: nat)
    requires Rising(a + b + c, below)
    ensures Rising(a + c, below)
  {
    var s, t := a + b + c, a + c;
    forall i, j | 0 <= i < j < |t| ensures t[i].n < t[j].n {
      var i', j' := if i < |a| then i else i + |b|, if j < |a| then j else j + |b|;
      assert s[i'] == t[i] && s[j'] == t[j];
    }
    forall i | 0 <= i < |t| ensures t[i].n < below {
      assert s[if i < |a| then i else i + |b|] == t[i];
    }
  }

  lemma RisingPush<T>(s: seq<Stamped<T>>, x: Stamped<T>, below: nat)
    requires Rising(s, below) && x.n == below
    ensures Rising(s + [x], below + 1)
  {}

  /** The first n entries pushed are kept in push order, overflowed, or were in a batch that could not be encoded. */
  predicate Accounted<T>(w: World<Stamped<T>>, max: nat, n: nat) {
    && Bounded(w, max)
    && Rising(Kept(w), n)
    && |Kept(w)| + w.overflowed + w.unencodable == n
  }

  lemma KeptPush<T>(w: World<Stamped<T>>, max: nat, x: Stamped<T>, n: nat)
    requires max > 0 && Accounted(w, max, n) && x.n == n
    ensures Accounted(Next(w, max, Push(x)), max, n + 1)
  {
    var w', front := Next(w, max, Push(x)), w.sent + InFlight(w);
    RisingPush(Kept(w), x, n);
    if |w.buffer| >= max {
      var dropped, stay := w.buffer[..1], w.buffer[1..] + [x];
      assert Kept(w) + [x] == front + dropped + stay;
      RisingCut(front, dropped, stay, n + 1);
      assert Kept(w') == front + stay;
    } else {
      assert Kept(w') == Kept(w) + [x];
    }
  }

  lemma KeptBegin<T>(w: World<Stamped<T>>, max: nat, n: nat)
    requires max > 0 && Accounted(w, max, n)
    ensures Accounted(Next(w, max, Begin), max, n)
  {
    assert Kept(Next(w, max, Begin)) == Kept(w);
  }

  lemma KeptFailed<T>(w: World<Stamped<T>>, max: nat, n: nat)
    requires max > 0 && Accounted(w, max, n) && w.batch.Some?
    ensures Accounted(Next(w, max, Finish(Failed)), max, n)
  {
    var w', batch := Next(w, max, Finish(Failed)), w.batch.value;
    var cut := Excess(|batch| + |w.buffer|, max);
    var dropped, stay := batch[..cut], batch[cut..] + w.buffer;
    assert Kept(w) == w.sent + dropped + stay;
    RisingCut(w.sent, dropped, stay, n);
    assert w'.buffer == stay;
    assert Kept(w') == w.sent + stay;
  }

  lemma KeptFinish<T>(w: World<Stamped<T>>, max: nat, delivery: Delivery, n: nat)
    requires max > 0 && Accounted(w, max, n)
    ensures Accounted(Next(w, max, Finish(delivery)), max, n)
  {
    var w' := Next(w, max, Finish(delivery));
    if w.batch.Some? {
      match delivery
      case Delivered => assert Kept(w') == Kept(w);
      case Unencodable =>
        RisingCut(w.sent, w.batch.value, w.buffer, n);
        assert Kept(w') == w.sent + w.buffer;
      case Failed => KeptFailed(w, max, n);
    }
  }

  lemma {:induction false} KeptRun<T>(w: World<Stamped<T>>, max: nat, events: seq<Event<Stamped<T>>>, n: nat)
    requires max > 0 && Accounted(w, max, n) && StampsInOrder(events, n)
    ensures Accounted(After(w, max, events), max, n + PushCount(events))
    decreases |events|
  {
    if events != [] {
      match events[0] {
        case Push(x) => KeptPush(w, max, x, n);
        case Begin => KeptBegin(w, max, n);
        case Finish(delivery) => KeptFinish(w, max, delivery, n);
      }
      KeptRun(Next(w, max, events[0]), max, events[1..], n + if events[0].Push? then 1 else 0);
    }
  }

  /**
    Over every run, the batches sent, the one in flight and the buffer together list pushed entries in push
    order, none twice; what is missing overflowed, or was in a batch that could not be encoded.
   */
  lemma InOrderOnce<T>(max: nat, events: seq<Event<Stamped<T>>>)
    requires max > 0 && StampsInOrder(events, 0)
    ensures var w := After(Start(), max, events);
      Rising(Kept(w), PushCount(events)) && |Kept(w)| + w.overflowed + w.unencodable == PushCount(events)
  {
    KeptRun(Start(), max, events, 0);
  }
}
