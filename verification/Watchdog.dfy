/** The watchdog process: its loop, and the renames of a swap and of a rollback, one after the other. */
module Watchdogs {
  import opened Prelude
  import opened CrashWindow
  import opened WatchdogSteps

  class Watchdog {
    var files: Files
    var backoff: int
    var log: CrashLog
    var justSwapped: bool

    ghost predicate Valid()
      reads this, log
    {
      log.Valid()
    }

    function State(): Watch
      reads this, log, log.times
      requires Valid()
    {
      Watch(files, backoff, log.Contents(), justSwapped)
    }

    constructor (files: Files)
      ensures Valid() && fresh(log) && fresh(log.times) && State() == Started(files)
    {
      this.files, backoff, justSwapped := files, INITIAL_BACKOFF, false;
      log := new CrashLog();
    }

    method Move(src: Path, dst: Path, fault: bool) returns (ok: bool)
      requires src != dst
      modifies this`files
      ensures Moved(files, ok) == Rename(old(files), src, dst, fault)
    {
      if fault || src !in files {
        return false;
      }
      files := (files - {src})[dst := files[src]];
      return true;
    }

    method SwapBinary(faults: Faults) returns (ok: bool)
      modifies this`files
      ensures Moved(files, ok) == Swap(old(files), faults)
    {
      if Staging !in files {
        return false;
      }
      ok := Move(Active, Backup, faults.first);
      if !ok {
        return;
      }
      ok := Move(Staging, Active, faults.second);
      if !ok {
        var _ := Move(Backup, Active, faults.undo);
      }
    }

    method RollBack(faults: Faults) returns (ok: bool)
      modifies this`files
      ensures Moved(files, ok) == Rollback(old(files), faults)
    {
      if Backup !in files {
        return false;
      }
      var _ := Move(Active, Failed, faults.first);
      ok := Move(Backup, Active, faults.second);
    }

    /** A rollback that works clears the crash log. */
    method RollBackAndClear(faults: Faults)
      requires Valid()
      modifies this`files, log, log.times
      ensures Valid() && (log.times == old(log.times) || fresh(log.times))
      ensures files == Rollback(old(files), faults).files
      ensures log.Contents() == if Rollback(old(files), faults).ok then [] else old(log.Contents())
    {
      var ok := RollBack(faults);
      if ok {
        log.Clear();
      }
    }

    method RecordCrash(now: Instant)
      requires Valid()
      modifies log, log.times
      ensures Valid() && (log.times == old(log.times) || fresh(log.times))
      ensures log.Contents() == Recent(old(log.Contents()) + [now], now - CRASH_WINDOW)
    {
      log.Append(now);
      log.Prune(now - CRASH_WINDOW);
    }

    method HandleCrash(l: Launch)
      requires Valid()
      modifies this, log, log.times
      ensures Valid() && log == old(log) && (log.times == old(log.times) || fresh(log.times))
      ensures State() == if old(justSwapped) then AfterSwapCrash(old(State()), old(files), l)
                         else AfterCrash(old(State()), old(files), l)
    {
      if justSwapped {
        RollBackAndClear(l.faults);
        justSwapped := false;
        backoff := INITIAL_BACKOFF;
        return;
      }
      justSwapped := false;
      RecordCrash(l.now);
      if log.count >= CRASH_THRESHOLD {
        RollBackAndClear(l.faults);
      }
      backoff := backoff * 2;
      if backoff > MAX_BACKOFF {
        backoff := MAX_BACKOFF;
      }
    }

    /** One round of the loop: the launch and what its exit calls for. */
    method Round(l: Launch)
      requires Valid()
      modifies this, log, log.times
      ensures Valid() && log == old(log) && (log.times == old(log.times) || fresh(log.times))
      ensures State() == Iterate(old(State()), l)
    {
      var exit := if Active in files then l.exit else Error;
      if Active in files {
        files := if l.staging.Some? then files[Staging := l.staging.value] else files - {Staging};
      }
      if exit == Ota {
        var ok := SwapBinary(l.faults);
        if ok {
          justSwapped := true;
        }
        backoff := INITIAL_BACKOFF;
      } else if exit == Error {
        HandleCrash(l);
      } else {
        justSwapped := false;
        backoff := INITIAL_BACKOFF;
      }
    }

    /** The endless loop, for as many launches as there were. */
    method Loop(launches: seq<Launch>)
      requires Valid()
      modifies this, log, log.times
      ensures Valid() && log == old(log) && (log.times == old(log.times) || fresh(log.times))
      ensures State() == Runs(old(State()), launches)
    {
      for k := 0 to |launches|
        invariant Valid() && log == old(log) && (log.times == old(log.times) || fresh(log.times))
        invariant State() == Runs(old(State()), launches[..k])
      {
        assert launches[..k + 1] == launches[..k] + [launches[k]];
        RunsAppend(old(State()), launches[..k], [launches[k]]);
        Round(launches[k]);
      }
      assert launches[..|launches|] == launches;
    }
  }
}
