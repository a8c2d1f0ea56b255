/**
  The watchdog's state read off the history of its launches: when the swap flag is up, which crashes are recorded, how
  long the pauses are, and where the binaries are.
 */
module WatchdogHistory {
  import opened Prelude
  import opened CrashWindow
  import opened WatchdogSteps

  // ---- the swap flag ----

  /** The agent ran and asked for a swap. */
  predicate Asks(w: Watch, l: Launch) {
    Active in w.files && l.exit == Ota
  }

  /** It had staged a binary, and both renames worked. */
  predicate Swaps(w: Watch, l: Launch) {
    Asks(w, l) && l.staging.Some? && !l.faults.first && !l.faults.second
  }

  /** Some launch swapped, and every launch since asked for a swap. */
  ghost predicate SwappedSince(files: Files, launches: seq<Launch>) {
    exists k :: 0 <= k < |launches| && SwapsAt(files, launches, k) &&
      forall j :: k < j < |launches| ==> AsksAt(files, launches, j)
  }

  predicate SwapsAt(files: Files, launches: seq<Launch>, k: nat)
    requires k < |launches|
  {
    Swaps(Runs(Started(files), launches[..k]), launches[k])
  }

  predicate AsksAt(files: Files, launches: seq<Launch>, k: nat)
    requires k < |launches|
  {
    Asks(Runs(Started(files), launches[..k]), launches[k])
  }

  lemma RunsLast(w: Watch, launches: seq<Launch>, l: Launch)
    ensures Runs(w, launches + [l]) == Iterate(Runs(w, launches), l)
  {
    RunsAppend(w, launches, [l]);
    assert [l][1..] == [];
  }

  lemma FlagStep(w: Watch, l: Launch)
    ensures Iterate(w, l).justSwapped <==> Swaps(w, l) || (Asks(w, l) && w.justSwapped)
  {}

  lemma SwappedAppend(files: Files, launches: seq<Launch>, l: Launch)
    ensures var w := Runs(Started(files), launches);
      SwappedSince(files, launches + [l]) <==> Swaps(w, l) || (Asks(w, l) && SwappedSince(files, launches))
  {
    var all, n := launches + [l], |launches|;
    assert all[..n] == launches && all[n] == l;
    forall k | 0 <= k < n
      ensures SwapsAt(files, all, k) == SwapsAt(files, launches, k)
      ensures AsksAt(files, all, k) == AsksAt(files, launches, k)
    {
      assert all[..k] == launches[..k];
    }
    if Swaps(Runs(Started(files), launches), l) {
      assert SwapsAt(files, all, n);
    }
    if SwappedSince(files, all) {
      var k :| 0 <= k <= n && SwapsAt(files, all, k) && forall j :: k < j <= n ==> AsksAt(files, all, j);
      assert k < n ==> AsksAt(files, all, n) && SwapsAt(files, launches, k);
    }
    if AsksAt(files, all, n) && SwappedSince(files, launches) {
      var k :| 0 <= k < n && SwapsAt(files, launches, k) && forall j :: k < j < n ==> AsksAt(files, launches, j);
      assert SwapsAt(files, all, k);
    }
  }

  /** Over every run: the flag is up if and only if some launch swapped and every launch since asked for a swap. */
  lemma {:induction false} FlagExactly(files: Files, launches: seq<Launch>)
    ensures Runs(Started(files), launches).justSwapped <==> SwappedSince(files, launches)
    decreases |launches|
  {
    if launches != [] {
      var init, l := launches[..|launches| - 1], launches[|launches| - 1];
      assert launches == init + [l];
      FlagExactly(files, init);
      RunsLast(Started(files), init, l);
      FlagStep(Runs(Started(files), init), l);
      SwappedAppend(files, init, l);
    }
  }

  // ---- crashes ----

  /** Nothing could be launched, or what was launched ended with an error. */
  predicate Crashes(w: Watch, l: Launch) {
    Active !in w.files || l.exit == Error
  }

  function At(files: Files, path: Path): Option<Content> {
    if path in files then Some(files[path]) else None
  }

  /** Active binary, backup and failed one are where they were; the staged one belongs to the agent. */
  predicate SameBinaries(files: Files, files': Files) {
    At(files', Active) == At(files, Active) && At(files', Backup) == At(files, Backup) &&
    At(files', Failed) == At(files, Failed)
  }

  predicate BackupReturns(files: Files, faults: Faults) {
    Backup in files && !faults.second
  }

  /** With a backup, the active binary is set aside as failed if it can be, and the backup takes its place if it can. */
  predicate RollsBack(files: Files, files': Files, faults: Faults) {
    var aside := Backup in files && Active in files && !faults.first;
    && At(files', Failed) == At(files, if aside then Active else Failed)
    && At(files', Backup) == (if BackupReturns(files, faults) then None else At(files, Backup))
    && At(files', Active) ==
       if BackupReturns(files, faults) then At(files, Backup) else if aside then None else At(files, Active)
  }

  lemma RollbackMoves(files: Files, faults: Faults)
    ensures RollsBack(files, Rollback(files, faults).files, faults)
    ensures Rollback(files, faults).ok <==> BackupReturns(files, faults)
  {}

  lemma StagedAside(w: Watch, l: Launch)
    ensures SameBinaries(w.files, FilesAtExit(w, l))
    ensures forall files' :: RollsBack(FilesAtExit(w, l), files', l.faults) <==> RollsBack(w.files, files', l.faults)
    ensures BackupReturns(FilesAtExit(w, l), l.faults) <==> BackupReturns(w.files, l.faults)
  {}

  lemma CrashAfterSwap(w: Watch, crash: Launch)
    requires Crashes(w, crash) && w.justSwapped
    ensures var w' := Iterate(w, crash);
      && RollsBack(w.files, w'.files, crash.faults) && !w'.justSwapped
      && w'.crashes == (if BackupReturns(w.files, crash.faults) then [] else w.crashes)
  {
    StagedAside(w, crash);
    RollbackMoves(FilesAtExit(w, crash), crash.faults);
  }

  lemma CrashAlone(w: Watch, crash: Launch)
    requires Crashes(w, crash) && !w.justSwapped
    ensures var w', recent := Iterate(w, crash), Recent(w.crashes + [crash.now], crash.now - 300 * 1_000_000_000);
      && !w'.justSwapped
      && (|recent| < 3 ==> SameBinaries(w.files, w'.files) && w'.crashes == recent)
      && (|recent| >= 3 ==>
            && RollsBack(w.files, w'.files, crash.faults)
            && w'.crashes == if BackupReturns(w.files, crash.faults) then [] else recent)
  {
    StagedAside(w, crash);
    RollbackMoves(FilesAtExit(w, crash), crash.faults);
  }

  /**
    Over every run: a crash is rolled back at once, and left out of the log, exactly in the wake of a swap. Any other is
    recorded, and binaries are rolled back only if it is the third within five minutes.
   */
  lemma CrashExactly(files: Files, launches: seq<Launch>, crash: Launch)
    requires Crashes(Runs(Started(files), launches), crash)
    ensures var w := Runs(Started(files), launches);
      var w', recent := Iterate(w, crash), Recent(w.crashes + [crash.now], crash.now - 300 * 1_000_000_000);
      if SwappedSince(files, launches) then
        && RollsBack(w.files, w'.files, crash.faults)
        && w'.crashes == (if BackupReturns(w.files, crash.faults) then [] else w.crashes)
      else if |recent| < 3 then SameBinaries(w.files, w'.files) && w'.crashes == recent && crash.now in recent
      else
        && RollsBack(w.files, w'.files, crash.faults)
        && w'.crashes == (if BackupReturns(w.files, crash.faults) then [] else recent)
  {
    var w := Runs(Started(files), launches);
    FlagExactly(files, launches);
    if w.justSwapped {
      CrashAfterSwap(w, crash);
    } else {
      CrashAlone(w, crash);
      RecentMembers(w.crashes + [crash.now], crash.now - 300 * 1_000_000_000, crash.now);
    }
  }

  /** So a crash after a clean exit is never rolled back at once, however recent the last swap. */
  lemma CleanExitEndsWake(files: Files, launches: seq<Launch>, clean: Launch)
    requires Active in Runs(Started(files), launches).files && clean.exit == Clean
    ensures !SwappedSince(files, launches + [clean])
    ensures var w := Runs(Started(files), launches);
      var w' := Runs(Started(files), launches + [clean]);
      SameBinaries(w.files, w'.files) && w'.crashes == w.crashes
  {
    SwappedAppend(files, launches, clean);
    RunsLast(Started(files), launches, clean);
  }

  // ---- swaps ----

  /**
    A swap puts the staged binary in place and the active one aside as backup, or nothing moves; only if the second
    rename and its undoing fail is the active binary left as the backup.
   */
  lemma SwapMoves(w: Watch, l: Launch)
    requires Asks(w, l)
    ensures var files' := Iterate(w, l).files;
      && At(files', Failed) == At(w.files, Failed)
      && (Swaps(w, l) ==>
            && At(files', Active) == l.staging && At(files', Backup) == At(w.files, Active) && Staging !in files')
      && (l.staging.None? || l.faults.first ==> SameBinaries(w.files, files') && At(files', Staging) == l.staging)
      && (l.staging.Some? && !l.faults.first && l.faults.second ==>
            && At(files', Staging) == l.staging
            && (l.faults.undo ==> Active !in files' && At(files', Backup) == At(w.files, Active))
            && (!l.faults.undo ==> At(files', Active) == At(w.files, Active) && Backup !in files'))
  {}

  // ---- pauses ----

  /** How many crashes were recorded since the watchdog started, an agent ended otherwise, or a swap was rolled back. */
  ghost function Streak(files: Files, launches: seq<Launch>): nat
    decreases |launches|
  {
    if launches == [] then 0
    else
      var init, l := launches[..|launches| - 1], launches[|launches| - 1];
      if !Crashes(Runs(Started(files), init), l) || SwappedSince(files, init) then 0 else Streak(files, init) + 1
  }

  function Pow2(n: nat): nat {
    if n == 0 then 1 else 2 * Pow2(n - 1)
  }

  /** The backoff doubles from one second with every crash of a streak, up to five minutes. */
  lemma {:induction false} BackoffExactly(files: Files, launches: seq<Launch>)
    ensures Runs(Started(files), launches).backoff == Min(Pow2(Streak(files, launches)), 300) * 1_000_000_000
    decreases |launches|
  {
    if launches != [] {
      var init, l := launches[..|launches| - 1], launches[|launches| - 1];
      assert launches == init + [l];
      BackoffExactly(files, init);
      FlagExactly(files, init);
      RunsLast(Started(files), init, l);
    }
  }

  /** The watchdog starts the agent again at once after a swap, and otherwise after a second or the backoff. */
  lemma PauseExactly(files: Files, launches: seq<Launch>, l: Launch)
    ensures var w := Runs(Started(files), launches);
      Pause(w, l) ==
        if Asks(w, l) then 0
        else if !Crashes(w, l) || SwappedSince(files, launches) then 1_000_000_000
        else Min(Pow2(Streak(files, launches)), 300) * 1_000_000_000
  {
    FlagExactly(files, launches);
    BackoffExactly(files, launches);
  }
}
