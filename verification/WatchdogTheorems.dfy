/**
  What the watchdog keeps over every run of launches: a binary to fall back on, the right rollback, the exact crash
  window.
 */
module WatchdogTheorems {
  import opened Prelude
  import opened CrashWindow
  import opened WatchdogSteps

  // ---- a binary survives ----

  /** The active binary or its backup is on disk. */
  predicate Recoverable(files: Files) {
    Active in files || Backup in files
  }

  lemma RecoverableStep(w: Watch, l: Launch)
    requires Recoverable(w.files)
    ensures Recoverable(Iterate(w, l).files)
  {}

  /** Whichever renames fail, every reachable state can still be recovered. */
  lemma {:induction false} RecoverableRun(w: Watch, launches: seq<Launch>)
    requires Recoverable(w.files)
    ensures Recoverable(Runs(w, launches).files)
    decreases |launches|
  {
    if launches != [] {
      RecoverableStep(w, launches[0]);
      RecoverableRun(Iterate(w, launches[0]), launches[1..]);
    }
  }

  predicate FaultFree(launches: seq<Launch>) {
    forall k :: 0 <= k < |launches| ==> launches[k].faults == NO_FAULTS
  }

  /** With no rename failures every launch finds an active binary. */
  lemma {:induction false} AlwaysLaunches(w: Watch, launches: seq<Launch>)
    requires Active in w.files && FaultFree(launches)
    ensures Active in Runs(w, launches).files
    decreases |launches|
  {
    if launches != [] {
      AlwaysLaunches(Iterate(w, launches[0]), launches[1..]);
    }
  }

  // ---- rollback after a swap ----

  /** Exit 42 with nothing in staging. */
  predicate IdleExits(launches: seq<Launch>) {
    forall k :: 0 <= k < |launches| ==> launches[k].exit == Ota && launches[k].staging.None?
  }

  lemma {:induction false} IdleKeeps(w: Watch, launches: seq<Launch>)
    requires Active in w.files && IdleExits(launches) && w.justSwapped
    ensures var w' := Runs(w, launches);
      w'.justSwapped && w'.files - {Staging} == w.files - {Staging} && w'.crashes == w.crashes
    decreases |launches|
  {
    if launches != [] {
      IdleKeeps(Iterate(w, launches[0]), launches[1..]);
    }
  }

  /** Exits 42 of which none swaps: nothing is staged, or a rename fails. */
  predicate FailedSwaps(w: Watch, launches: seq<Launch>)
    decreases |launches|
  {
    launches == [] ||
    (&& ExitOf(w, launches[0]) == Ota && !Swap(FilesAtExit(w, launches[0]), launches[0].faults).ok
     && FailedSwaps(Iterate(w, launches[0]), launches[1..]))
  }

  /** The active binary was moved over the backup, and the staged one could not follow. */
  predicate Drops(l: Launch) {
    l.staging.Some? && !l.faults.first && l.faults.second
  }

  predicate NoneDrops(launches: seq<Launch>) {
    forall k :: 0 <= k < |launches| ==> !Drops(launches[k])
  }

  /** Running the new binary with the replaced one as backup. */
  predicate Swapped(w: Watch, replaced: Content, newer: Content) {
    && w.justSwapped && Active in w.files && Backup in w.files
    && w.files[Active] == newer && w.files[Backup] == replaced
  }

  /** The replaced binary is gone from both paths. */
  predicate Dropped(w: Watch, newer: Content) {
    && w.justSwapped && Recoverable(w.files)
    && (Active in w.files ==> w.files[Active] == newer) && (Backup in w.files ==> w.files[Backup] == newer)
  }

  lemma FailedSwapStep(w: Watch, l: Launch, replaced: Content, newer: Content)
    requires Swapped(w, replaced, newer) && ExitOf(w, l) == Ota && !Swap(FilesAtExit(w, l), l.faults).ok
    ensures if Drops(l) then Dropped(Iterate(w, l), newer) else Swapped(Iterate(w, l), replaced, newer)
  {}

  lemma {:induction false} StaysDropped(w: Watch, launches: seq<Launch>, newer: Content)
    requires Dropped(w, newer) && FailedSwaps(w, launches)
    ensures Dropped(Runs(w, launches), newer)
    decreases |launches|
  {
    if launches != [] {
      StaysDropped(Iterate(w, launches[0]), launches[1..], newer);
    }
  }

  lemma {:induction false} FailedSwapsKeep(w: Watch, launches: seq<Launch>, replaced: Content, newer: Content)
    requires Swapped(w, replaced, newer) && FailedSwaps(w, launches)
    ensures var w' := Runs(w, launches);
      if NoneDrops(launches) then Swapped(w', replaced, newer) else Dropped(w', newer)
    decreases |launches|
  {
    if launches != [] {
      var l := launches[0];
      FailedSwapStep(w, l, replaced, newer);
      if Drops(l) {
        StaysDropped(Iterate(w, l), launches[1..], newer);
      } else {
        FailedSwapsKeep(Iterate(w, l), launches[1..], replaced, newer);
        assert NoneDrops(launches) <==> NoneDrops(launches[1..]) by {
          assert forall k :: 1 <= k < |launches| ==> launches[k] == launches[1..][k - 1];
        }
      }
    }
  }

  /** The states after a successful swap, further exits 42 that swap nothing, and one error exit. */
  function SwapThenCrash(w: Watch, swap: Launch, failed: seq<Launch>, crash: Launch): Watch {
    Iterate(Runs(Iterate(w, swap), failed), crash)
  }

  /**
    An error exit after a successful swap and any number of exits 42 that swap nothing: the next launch runs exactly
    the binary the swap replaced if and only if the backup can be renamed back and no exit in between moved the new
    binary over it.
   */
  lemma SwapThenCrashRestores(w: Watch, swap: Launch, failed: seq<Launch>, crash: Launch)
    requires Active in w.files && swap.exit == Ota && Swap(FilesAtExit(w, swap), swap.faults).ok
    requires swap.staging.value != w.files[Active]
    requires FailedSwaps(Iterate(w, swap), failed) && ExitOf(Runs(Iterate(w, swap), failed), crash) == Error
    ensures var w' := SwapThenCrash(w, swap, failed, crash);
      && (Active in w'.files && w'.files[Active] == w.files[Active] <==> !crash.faults.second && NoneDrops(failed))
      && (!crash.faults.second && NoneDrops(failed) ==> w'.crashes == [])
      && (crash.faults.second && NoneDrops(failed) ==>
            Backup in w'.files && w'.files[Backup] == w.files[Active] && (Active in w'.files <==> crash.faults.first))
      && !w'.justSwapped
  {
    var w1 := Iterate(w, swap);
    assert Swapped(w1, w.files[Active], swap.staging.value);
    FailedSwapsKeep(w1, failed, w.files[Active], swap.staging.value);
    CrashAfterSwap(Runs(w1, failed), crash, w.files[Active], swap.staging.value);
  }

  lemma CrashAfterSwap(w: Watch, crash: Launch, replaced: Content, newer: Content)
    requires ExitOf(w, crash) == Error
    ensures var w' := Iterate(w, crash);
      && (Swapped(w, replaced, newer) ==>
            && !w'.justSwapped
            && (Active in w'.files && crash.faults.second ==> w'.files[Active] == newer)
            && (crash.faults.second ==>
                  Backup in w'.files && w'.files[Backup] == replaced && (Active in w'.files <==> crash.faults.first))
            && (!crash.faults.second ==> Active in w'.files && w'.files[Active] == replaced && w'.crashes == []))
      && (Dropped(w, newer) ==> !w'.justSwapped && (Active in w'.files ==> w'.files[Active] == newer))
  {}

  /** The binary that was missing is back. */
  predicate Restored(w: Watch, content: Content) {
    Active in w.files && w.files[Active] == content
  }

  /** Nothing to launch, but a backup. */
  predicate Missing(w: Watch, backup: Content) {
    Active !in w.files && Backup in w.files && w.files[Backup] == backup && !w.justSwapped
  }

  /** A failed launch brings the backup back, or only lengthens the log; it does the former from three crashes on. */
  lemma NothingLaunches(w: Watch, l: Launch, backup: Content)
    requires Missing(w, backup)
    ensures var w' := Iterate(w, l);
      var recent := Recent(w.crashes + [l.now], l.now - CRASH_WINDOW);
      && (Restored(w', backup) || (Missing(w', backup) && w'.crashes == recent))
      && (|recent| >= CRASH_THRESHOLD && !l.faults.second ==> Restored(w', backup))
  {}

  /** The log after a failed launch ends with its time, behind those earlier ones that are still recent. */
  lemma LogEnds(log: seq<Instant>, tail: seq<Instant>, now: Instant)
    requires forall i :: 0 <= i < |tail| ==> now - CRASH_WINDOW < tail[i]
    ensures Recent(log + tail + [now], now - CRASH_WINDOW) == Recent(log, now - CRASH_WINDOW) + (tail + [now])
  {
    assert log + tail + [now] == log + (tail + [now]);
    RecentAppend(log, tail + [now], now - CRASH_WINDOW);
    AllRecent(tail + [now], now - CRASH_WINDOW);
  }

  /**
    Whatever the log holds and whichever earlier renames fail, the third of three failed launches inside the crash
    window brings the backup back at the latest, if it can be renamed then.
   */
  lemma MissingBinaryReturns(w: Watch, a: Launch, b: Launch, c: Launch, backup: Content)
    requires Missing(w, backup)
    requires a.now <= b.now <= c.now < a.now + CRASH_WINDOW && !c.faults.second
    ensures var w1 := Iterate(w, a);
      var w2 := Iterate(w1, b);
      Restored(w1, backup) || Restored(w2, backup) || Restored(Iterate(w2, c), backup)
  {
    var w1 := Iterate(w, a);
    NothingLaunches(w, a, backup);
    if !Restored(w1, backup) {
      LogEnds(w.crashes, [], a.now);
      assert w.crashes + [] + [a.now] == w.crashes + [a.now] && [] + [a.now] == [a.now];
      var log1 := Recent(w.crashes, a.now - CRASH_WINDOW);
      TwoMore(w1, log1, a.now, b, c, backup);
    }
  }

  lemma TwoMore(w: Watch, log: seq<Instant>, first: Instant, b: Launch, c: Launch, backup: Content)
    requires Missing(w, backup) && w.crashes == log + [first]
    requires first <= b.now <= c.now < first + CRASH_WINDOW && !c.faults.second
    ensures Restored(Iterate(w, b), backup) || Restored(Iterate(Iterate(w, b), c), backup)
  {
    var w1 := Iterate(w, b);
    NothingLaunches(w, b, backup);
    if !Restored(w1, backup) {
      LogEnds(log, [first], b.now);
      var log1 := Recent(log, b.now - CRASH_WINDOW);
      assert [first] + [b.now] == [first, b.now];
      LogEnds(log1, [first, b.now], c.now);
      assert w1.crashes == log1 + [first, b.now];
      NothingLaunches(w1, c, backup);
    }
  }

  // ---- the crash window ----

  /** Launches in time order, each starting no earlier than the pause after the one before. */
  predicate Timely(w: Watch, ready: Instant, launches: seq<Launch>)
    decreases |launches|
  {
    launches == [] ||
    (ready <= launches[0].now &&
     Timely(Iterate(w, launches[0]), launches[0].now + Pause(w, launches[0]), launches[1..]))
  }

  predicate Records(w: Watch, l: Launch) {
    ExitOf(w, l) == Error && !w.justSwapped
  }

  predicate RollsBack(w: Watch, l: Launch) {
    ExitOf(w, l) == Error && Rollback(FilesAtExit(w, l), l.faults).ok &&
    (w.justSwapped || |Recent(w.crashes + [l.now], l.now - CRASH_WINDOW)| >= CRASH_THRESHOLD)
  }

  /** Every crash recorded since the last successful rollback, never pruned. */
  function History(w: Watch, h: seq<Instant>, launches: seq<Launch>): seq<Instant>
    decreases |launches|
  {
    if launches == [] then h else
    var l := launches[0];
    var h' := if RollsBack(w, l) then [] else if Records(w, l) then h + [l.now] else h;
    History(Iterate(w, l), h', launches[1..])
  }

  /** The cutoff used when the log was last pruned. */
  function Cutoff(w: Watch, cutoff: Instant, launches: seq<Launch>): Instant
    decreases |launches|
  {
    if launches == [] then cutoff
    else
      var l := launches[0];
      Cutoff(Iterate(w, l), if Records(w, l) then l.now - CRASH_WINDOW else cutoff, launches[1..])
  }

  lemma WindowStep(w: Watch, h: seq<Instant>, cutoff: Instant, l: Launch)
    requires w.crashes == Recent(h, cutoff) && cutoff <= l.now - CRASH_WINDOW && Records(w, l)
    ensures Recent(w.crashes + [l.now], l.now - CRASH_WINDOW) == Recent(h + [l.now], l.now - CRASH_WINDOW)
  {
    RecentAppend(w.crashes, [l.now], l.now - CRASH_WINDOW);
    RecentAppend(h, [l.now], l.now - CRASH_WINDOW);
    RecentTwice(h, cutoff, l.now - CRASH_WINDOW);
  }

  /**
    The log holds exactly the crashes since the last successful rollback that the last cutoff lets through, in order.
   */
  lemma {:induction false} WindowExact(w: Watch, h: seq<Instant>, cutoff: Instant, ready: Instant,
                                       launches: seq<Launch>)
    requires w.crashes == Recent(h, cutoff) && cutoff <= ready - CRASH_WINDOW && Timely(w, ready, launches)
    requires w.backoff >= 0
    ensures Runs(w, launches).crashes == Recent(History(w, h, launches), Cutoff(w, cutoff, launches))
    decreases |launches|
  {
    if launches != [] {
      var l := launches[0];
      var w' := Iterate(w, l);
      var h' := if RollsBack(w, l) then [] else if Records(w, l) then h + [l.now] else h;
      var cutoff' := if Records(w, l) then l.now - CRASH_WINDOW else cutoff;
      if Records(w, l) {
        WindowStep(w, h, cutoff, l);
      }
      WindowExact(w', h', cutoff', l.now + Pause(w, l), launches[1..]);
    }
  }

  /**
    A crash that no swap explains attempts a rollback exactly when three or more crashes lie in the last five minutes,
    whichever renames fail; the log is cleared exactly if that rollback works.
   */
  lemma ThresholdExact(w: Watch, h: seq<Instant>, cutoff: Instant, l: Launch)
    requires w.crashes == Recent(h, cutoff) && cutoff <= l.now - CRASH_WINDOW && Records(w, l)
    ensures var recent, files := Recent(h + [l.now], l.now - CRASH_WINDOW), FilesAtExit(w, l);
      && Iterate(w, l).files == (if |recent| >= 3 then Rollback(files, l.faults).files else files)
      && Iterate(w, l).crashes == if |recent| >= 3 && Rollback(files, l.faults).ok then [] else recent
  {
    WindowStep(w, h, cutoff, l);
  }

  /** Recorded crashes are at least a second apart. */
  predicate Spaced(times: seq<Instant>) {
    forall i, j :: 0 <= i < j < |times| ==> times[j] - times[i] >= (j - i) * SECOND
  }

  predicate BackoffInRange(w: Watch) {
    INITIAL_BACKOFF <= w.backoff <= MAX_BACKOFF
  }

  lemma SpacedBound(times: seq<Instant>, now: Instant)
    requires Spaced(times) && times != [] && times[|times| - 1] == now
    requires forall i :: 0 <= i < |times| ==> times[i] > now - CRASH_WINDOW
    ensures |times| <= 300
  {
    if |times| > 1 {
      assert times[|times| - 1] - times[0] >= (|times| - 1) * SECOND;
    }
  }

  /** What bounds the log: spaced crashes, the last one at least a second before the next launch. */
  predicate LogBounded(w: Watch, ready: Instant) {
    && BackoffInRange(w) && Spaced(w.crashes) && |w.crashes| <= 300
    && (w.crashes != [] ==> w.crashes[|w.crashes| - 1] + SECOND <= ready)
  }

  lemma SpacedAppend(times: seq<Instant>, now: Instant)
    requires Spaced(times) && (times != [] ==> times[|times| - 1] + SECOND <= now)
    ensures Spaced(times + [now]) && Ascending(times + [now])
  {
    var s := times + [now];
    forall i, j | 0 <= i < j < |s| ensures s[j] - s[i] >= (j - i) * SECOND && s[i] <= s[j] {
      if j == |times| && i < |times| - 1 {
        assert times[|times| - 1] - times[i] >= (|times| - 1 - i) * SECOND;
      }
    }
  }

  /** A launch that records no crash leaves the log, or empties it. */
  lemma UnrecordedStep(w: Watch, l: Launch)
    requires BackoffInRange(w) && !Records(w, l)
    ensures Iterate(w, l).crashes == w.crashes || Iterate(w, l).crashes == []
    ensures BackoffInRange(Iterate(w, l)) && Pause(w, l) >= 0
  {}

  lemma RecordedStep(w: Watch, l: Launch)
    requires BackoffInRange(w) && Records(w, l)
    ensures Iterate(w, l).crashes == Recent(w.crashes + [l.now], l.now - CRASH_WINDOW) || Iterate(w, l).crashes == []
    ensures BackoffInRange(Iterate(w, l)) && Pause(w, l) >= SECOND
  {}

  lemma BoundedStep(w: Watch, ready: Instant, l: Launch)
    requires LogBounded(w, ready) && ready <= l.now
    ensures LogBounded(Iterate(w, l), l.now + Pause(w, l))
  {
    if Records(w, l) {
      RecordedStep(w, l);
      PruneBounded(w.crashes, l.now);
    } else {
      UnrecordedStep(w, l);
    }
  }

  /** What pruning keeps is a suffix, recent and still spaced. */
  lemma PruneKeeps(all: seq<Instant>, cutoff: Instant)
    requires Ascending(all) && Spaced(all)
    ensures Spaced(Recent(all, cutoff)) && forall i :: 0 <= i < |Recent(all, cutoff)| ==>
      Recent(all, cutoff)[i] > cutoff
    ensures |Recent(all, cutoff)| <= |all| && Recent(all, cutoff) == all[|all| - |Recent(all, cutoff)|..]
  {
    var k := RecentSuffix(all, cutoff);
    var kept := Recent(all, cutoff);
    forall i | 0 <= i < |kept| ensures kept[i] > cutoff {
      RecentMembers(all, cutoff, kept[i]);
    }
  }

  lemma PruneBounded(times: seq<Instant>, now: Instant)
    requires Spaced(times) && (times != [] ==> times[|times| - 1] + SECOND <= now)
    ensures var kept := Recent(times + [now], now - CRASH_WINDOW);
      kept != [] && kept[|kept| - 1] == now && Spaced(kept) && |kept| <= 300
  {
    var all := times + [now];
    SpacedAppend(times, now);
    PruneKeeps(all, now - CRASH_WINDOW);
    RecentMembers(all, now - CRASH_WINDOW, now);
    SpacedBound(Recent(all, now - CRASH_WINDOW), now);
  }

  /** Since the backoff stays between a second and five minutes, the log never exceeds 300 entries. */
  lemma {:induction false} LogNeverExceeds300(w: Watch, ready: Instant, launches: seq<Launch>)
    requires LogBounded(w, ready) && Timely(w, ready, launches)
    ensures |Runs(w, launches).crashes| <= 300 && BackoffInRange(Runs(w, launches))
    decreases |launches|
  {
    if launches != [] {
      BoundedStep(w, ready, launches[0]);
      LogNeverExceeds300(Iterate(w, launches[0]), launches[0].now + Pause(w, launches[0]), launches[1..]);
    }
  }

  lemma StartIsBounded(files: Files, ready: Instant)
    ensures LogBounded(Started(files), ready)
    ensures Started(files).crashes == Recent([], ready - CRASH_WINDOW)
  {}
}
