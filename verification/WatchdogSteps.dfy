/** One iteration of the watchdog as a function of its state: the files it renames, the crash log and the backoff. */
module WatchdogSteps {
  import opened Prelude
  import opened CrashWindow

  type Content = nat
  type Instant = int

  const SECOND: int := 1_000_000_000
  const INITIAL_BACKOFF: int := SECOND
  const MAX_BACKOFF: int := 300 * SECOND
  const CRASH_THRESHOLD: nat := 3
  const CRASH_WINDOW: int := 300 * SECOND

  datatype Path = Active | Backup | Failed | Staging
  type Files = map<Path, Content>

  /** Which of the renames of a swap or rollback fail although their source exists. */
  datatype Faults = Faults(first: bool, second: bool, undo: bool)
  const NO_FAULTS := Faults(false, false, false)

  datatype Moved = Moved(files: Files, ok: bool)

  function Rename(files: Files, src: Path, dst: Path, fault: bool): Moved
    requires src != dst
  {
    if fault || src !in files then Moved(files, false)
    else Moved((files - {src})[dst := files[src]], true)
  }

  function Swap(files: Files, faults: Faults): Moved {
    if Staging !in files then Moved(files, false) else
    var backup := Rename(files, Active, Backup, faults.first);
    if !backup.ok then Moved(files, false) else
    var swap := Rename(backup.files, Staging, Active, faults.second);
    if swap.ok then swap else Moved(Rename(backup.files, Backup, Active, faults.undo).files, false)
  }

  function Rollback(files: Files, faults: Faults): Moved {
    if Backup !in files then Moved(files, false) else
    var aside := Rename(files, Active, Failed, faults.first);
    Rename(aside.files, Backup, Active, faults.second)
  }

  datatype Exit = Ota | Error | Clean

  /** How one launch ended: the exit, when, what lay in staging by then, and which renames would fail. */
  datatype Launch = Launch(exit: Exit, now: Instant, staging: Option<Content>, faults: Faults)

  datatype Watch = Watch(files: Files, backoff: int, crashes: seq<Instant>, justSwapped: bool)

  function Started(files: Files): Watch {
    Watch(files, INITIAL_BACKOFF, [], false)
  }

  /** Without a binary nothing runs: the launch is an error and staging stays as it was. */
  function ExitOf(w: Watch, l: Launch): Exit {
    if Active in w.files then l.exit else Error
  }

  function FilesAtExit(w: Watch, l: Launch): Files {
    if Active !in w.files then w.files
    else match l.staging case Some(c) => w.files[Staging := c] case None => w.files - {Staging}
  }

  /** A crash right after a swap rolls back at once and is not recorded. */
  function AfterSwapCrash(w: Watch, files: Files, l: Launch): Watch {
    var back := Rollback(files, l.faults);
    Watch(back.files, INITIAL_BACKOFF, if back.ok then [] else w.crashes, false)
  }

  function AfterCrash(w: Watch, files: Files, l: Launch): Watch {
    var recent := Recent(w.crashes + [l.now], l.now - CRASH_WINDOW);
    var backoff := if 2 * w.backoff > MAX_BACKOFF then MAX_BACKOFF else 2 * w.backoff;
    if |recent| < CRASH_THRESHOLD then Watch(files, backoff, recent, false) else
    var back := Rollback(files, l.faults);
    Watch(back.files, backoff, if back.ok then [] else recent, false)
  }

  function Iterate(w: Watch, l: Launch): Watch {
    var files := FilesAtExit(w, l);
    match ExitOf(w, l)
    case Ota =>
      var swap := Swap(files, l.faults);
      Watch(swap.files, INITIAL_BACKOFF, w.crashes, swap.ok || w.justSwapped)
    case Error => if w.justSwapped then AfterSwapCrash(w, files, l) else AfterCrash(w, files, l)
    case Clean => Watch(files, INITIAL_BACKOFF, w.crashes, false)
  }

  /** How long the watchdog sleeps before the next launch. */
  function Pause(w: Watch, l: Launch): int {
    match ExitOf(w, l)
    case Ota => 0
    case Error => if w.justSwapped then SECOND else w.backoff
    case Clean => SECOND
  }

  function Runs(w: Watch, launches: seq<Launch>): Watch
    decreases |launches|
  {
    if launches == [] then w else Runs(Iterate(w, launches[0]), launches[1..])
  }

  lemma {:induction false} RunsAppend(w: Watch, a: seq<Launch>, b: seq<Launch>)
    ensures Runs(w, a + b) == Runs(Runs(w, a), b)
    decreases |a|
  {
    if a == [] {
      assert a + b == b;
    } else {
      assert (a + b)[1..] == a[1..] + b;
      RunsAppend(Iterate(w, a[0]), a[1..], b);
    }
  }
}
