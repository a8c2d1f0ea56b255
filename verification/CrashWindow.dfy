/** The watchdog's crash log: recorded times, compacted in place to those inside the crash window. */
module CrashWindow {

  /** The times after the cutoff, in order. */
  function Recent(times: seq<int>, cutoff: int): seq<int> {
    if times == [] then []
    else if times[0] > cutoff then [times[0]] + Recent(times[1..], cutoff)
    else Recent(times[1..], cutoff)
  }

  lemma {:induction false} RecentAppend(a: seq<int>, b: seq<int>, cutoff: int)
    ensures Recent(a + b, cutoff) == Recent(a, cutoff) + Recent(b, cutoff)
  {
    if a == [] {
      assert a + b == b;
    } else {
      assert (a + b)[1..] == a[1..] + b;
      RecentAppend(a[1..], b, cutoff);
    }
  }

  /** Pruning at an earlier cutoff loses nothing a later one needs. */
  lemma {:induction false} RecentTwice(times: seq<int>, early: int, late: int)
    requires early <= late
    ensures Recent(Recent(times, early), late) == Recent(times, late)
  {
    if times != [] {
      RecentTwice(times[1..], early, late);
      if times[0] > early {
        assert Recent(times, early)[1..] == Recent(times[1..], early);
      }
    }
  }

  /**
    Membership and order: what is kept is exactly what lies after the cutoff, and on ascending times it is a suffix.
   */
  lemma {:induction false} RecentMembers(times: seq<int>, cutoff: int, t: int)
    ensures t in Recent(times, cutoff) <==> t in times && t > cutoff
  {
    if times != [] {
      RecentMembers(times[1..], cutoff, t);
      assert times == [times[0]] + times[1..];
    }
  }

  predicate Ascending(times: seq<int>) {
    forall i, j :: 0 <= i < j < |times| ==> times[i] <= times[j]
  }

  lemma {:induction false} RecentSuffix(times: seq<int>, cutoff: int) returns (k: nat)
    requires Ascending(times)
    ensures k <= |times| && Recent(times, cutoff) == times[k..]
  {
    if times == [] {
      k := 0;
    } else if times[0] > cutoff {
      k := RecentSuffix(times[1..], cutoff);
      if k > 0 {
        RecentMembers(times[1..], cutoff, times[1]);
        assert times[1] in times[1..] && times[1] in Recent(times[1..], cutoff);
        AllRecent(times[1..], cutoff);
      }
      k := 0;
    } else {
      k := RecentSuffix(times[1..], cutoff);
      k := k + 1;
    }
  }

  lemma {:induction false} AllRecent(times: seq<int>, cutoff: int)
    requires forall i :: 0 <= i < |times| ==> times[i] > cutoff
    ensures Recent(times, cutoff) == times
  {
    if times != [] {
      AllRecent(times[1..], cutoff);
    }
  }

  class CrashLog {
    var times: array<int>
    var count: nat

    ghost predicate Valid()
      reads this
    {
      count <= times.Length
    }

    function Contents(): seq<int>
      reads this, times
      requires Valid()
    {
      times[..count]
    }

    constructor ()
      ensures Valid() && Contents() == [] && fresh(times)
    {
      times := new int[4];
      count := 0;
    }

    method Clear()
      modifies this
      ensures Valid() && Contents() == [] && fresh(times)
    {
      times := new int[4];
      count := 0;
    }

    method Append(t: int)
      requires Valid()
      modifies this, times
      ensures Valid() && Contents() == old(Contents()) + [t]
      ensures times == old(times) || fresh(times)
    {
      if count == times.Length {
        var bigger := new int[2 * count + 1];
        for i := 0 to count
          invariant times == old(times) && count == old(count) && times[..] == old(times[..])
          invariant bigger[..i] == times[..i]
        {
          bigger[i] := times[i];
        }
        times := bigger;
      }
      times[count] := t;
      count := count + 1;
    }

    /** The filter writes over the slots it has read. */
    method Prune(cutoff: int)
      requires Valid()
      modifies this`count, times
      ensures Valid() && Contents() == Recent(old(Contents()), cutoff)
    {
      var kept := 0;
      for i := 0 to count
        invariant kept <= i && count == old(count) && times == old(times)
        invariant times[..kept] == Recent(old(times[..i]), cutoff)
        invariant forall k :: i <= k < count ==> times[k] == old(times[k])
      {
        ghost var before := old(times[..i]);
        assert old(times[..i + 1]) == before + [times[i]];
        RecentAppend(before, [times[i]], cutoff);
        if times[i] > cutoff {
          times[kept] := times[i];
          kept := kept + 1;
        }
      }
      count := kept;
    }
  }
}
