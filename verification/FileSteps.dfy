/** One file resource against the disk: what a reconcile cycle finds, does and leaves behind. */
module FileSteps {
  import opened Prelude
  import opened Manifests
  import opened Actions
  import opened AtomicWrites

  const FILE_MANAGER := "file_manager"
  const PERM_BITS: nat := 0x200
  const MODE_LIMIT: nat := 0x1_0000_0000

  /** The step of a cycle that the operating system refuses. */
  datatype Fault = Read | MakeDir | Write(failure: Failure) | Chmod

  /**
    Account lookups, the ids the chown command would set for each owner string it accepts, the ids files are
    created with, and the faults by path.
   */
  datatype Host = Host(users: map<string, nat>, groups: map<string, nat>, chown: map<string, Ids>, process: Ids,
                       faults: map<string, Fault>)

  predicate Faulty(h: Host, path: string, fault: Fault) {
    path in h.faults && h.faults[path] == fault
  }

  function WriteFailure(h: Host, path: string): Option<Failure> {
    if path in h.faults && h.faults[path].Write? then Some(h.faults[path].failure) else None
  }

  // ---- modes ----

  /** The value of a numeral in base 8, unless it is empty, has another character or needs more than 32 bits. */
  function ParseOctal(s: string): Option<nat> {
    if s == "" then None
    else
      var c := s[|s| - 1];
      if !('0' <= c <= '7') then None
      else
        var high := if |s| == 1 then Some(0) else ParseOctal(s[..|s| - 1]);
        if high.None? then None
        else
          var v := high.value * 8 + (c as int - '0' as int);
          if v < MODE_LIMIT then Some(v) else None
  }

  predicate ModeMatches(f: Option<File>, mode: string) {
    mode == "" || (f.Some? && ParseOctal(mode) == Some(f.value.perm))
  }

  /** Setting a mode keeps its permission bits. */
  function WithMode(f: File, mode: nat): File {
    f.(perm := mode % PERM_BITS)
  }

  // ---- owners ----

  function Colon(s: string): (i: nat)
    ensures i <= |s| && (i < |s| ==> s[i] == ':')
  {
    if s == "" || s[0] == ':' then 0 else 1 + Colon(s[1..])
  }

  /** The ids that an owner of the form user:group looks up to. */
  function Resolve(h: Host, owner: string): Option<Ids> {
    var i := Colon(owner);
    if i == |owner| then None
    else
      var u, g := owner[..i], owner[i + 1..];
      if u in h.users && g in h.groups then Some(Ids(h.users[u], h.groups[g])) else None
  }

  predicate OwnerMatches(h: Host, f: Option<File>, owner: string) {
    owner == "" || (f.Some? && Resolve(h, owner) == Some(f.value.owner))
  }

  /** An owner without a colon, or one the chown command refuses, changes nothing and is not an error. */
  function WithOwner(h: Host, f: File, owner: string): File {
    if Colon(owner) < |owner| && owner in h.chown then f.(owner := h.chown[owner]) else f
  }

  // ---- one cycle ----

  predicate ContentMatches(f: Option<File>, r: FileResource) {
    f.Some? && f.value.content == r.content
  }

  /** Nothing left to do. */
  predicate Matches(h: Host, f: Option<File>, r: FileResource) {
    ContentMatches(f, r) && ModeMatches(f, r.mode) && OwnerMatches(h, f, r.owner)
  }

  /** The file after writing: the old one when its content is right, else a new one with the writer's attributes. */
  function Rewritten(h: Host, f: Option<File>, r: FileResource): File {
    if ContentMatches(f, r) then f.value else File(r.content, TEMP_PERM, h.process)
  }

  datatype Outcome = Outcome(file: Option<File>, action: Action)

  function Report(r: FileResource, t: ActionType, changes: seq<string>, error: string): Action {
    Action(FILE_MANAGER, r.path, t, changes, error)
  }

  function Changes(h: Host, f: Option<File>, r: FileResource): seq<string> {
    (if ContentMatches(f, r) then [] else ["content"])
    + (if ModeMatches(f, r.mode) then [] else ["mode"])
    + (if OwnerMatches(h, f, r.owner) then [] else ["owner"])
  }

  /** Correcting a file: what is written, chmod-ed and chowned follows from the file as found. */
  function Corrected(h: Host, f: Option<File>, r: FileResource): Outcome {
    var t := if f.Some? then Update else ActionType.Create;
    if Faulty(h, r.path, MakeDir) then Outcome(f, Report(r, t, [], "create parent directory"))
    else if !ContentMatches(f, r) && WriteFailure(h, r.path).Some? then Outcome(f, Report(r, t, [], "atomic write"))
    else
      var g := Rewritten(h, f, r);
      if !ModeMatches(f, r.mode) && (ParseOctal(r.mode).None? || Faulty(h, r.path, Chmod)) then
        Outcome(Some(g), Report(r, t, [], "set mode"))
      else
        var g' := if ModeMatches(f, r.mode) then g else WithMode(g, ParseOctal(r.mode).value);
        var g'' := if OwnerMatches(h, f, r.owner) then g' else WithOwner(h, g', r.owner);
        Outcome(Some(g''), Report(r, t, if f.Some? then Changes(h, f, r) else [], ""))
  }

  function Cycle(h: Host, f: Option<File>, r: FileResource): Outcome {
    if r.path == "" then Outcome(f, Report(r, Skipped, [], "empty file path"))
    else if Faulty(h, r.path, Read) then Outcome(f, Report(r, Skipped, [], "read existing file"))
    else if Matches(h, f, r) then Outcome(f, Report(r, Noop, [], ""))
    else Corrected(h, f, r)
  }

  /** The file after n cycles. */
  function Cycles(h: Host, f: Option<File>, r: FileResource, n: nat): Option<File>
    decreases n
  {
    if n == 0 then f else Cycle(h, Cycles(h, f, r, n - 1), r).file
  }

  predicate Quiet(h: Host, r: FileResource) {
    r.path != "" && r.path !in h.faults
  }

  // ---- properties ----

  /** A Noop is reported exactly for a file that can be read and matches, and changes nothing. */
  lemma NoopExactly(h: Host, f: Option<File>, r: FileResource)
    ensures Cycle(h, f, r).action.actionType == Noop <==> r.path != "" && !Faulty(h, r.path, Read) && Matches(h, f, r)
    ensures Cycle(h, f, r).action.actionType == Noop ==> Cycle(h, f, r).file == f
  {}

  /** The mode can be reached: it is empty or an octal numeral of permission bits. */
  predicate ReachableMode(mode: string) {
    mode == "" || (ParseOctal(mode).Some? && ParseOctal(mode).value < PERM_BITS)
  }

  /**
    The owner can be reached: it is looked up to the ids that chown sets for it, or to those the file keeps when
    its content is right or gets when it is rewritten without a chown.
   */
  predicate ReachableOwner(h: Host, f: Option<File>, r: FileResource) {
    var ids := Resolve(h, r.owner);
    r.owner == "" ||
    (ids.Some? &&
     ((r.owner in h.chown && h.chown[r.owner] == ids.value) ||
      (if ContentMatches(f, r) then f.value.owner == ids.value
       else h.process == ids.value && (r.owner !in h.chown || (f.Some? && f.value.owner == ids.value)))))
  }

  /** Permission bits are nine bits wide. */
  predicate Readable(f: Option<File>) {
    f.Some? ==> f.value.perm < PERM_BITS
  }

  /** What an undisturbed cycle makes of a file: an unreadable mode keeps it from getting to the owner. */
  function Fixed(h: Host, f: Option<File>, r: FileResource): File {
    var g := Rewritten(h, f, r);
    if r.mode != "" && ParseOctal(r.mode).None? then g
    else
      var g' := if ModeMatches(f, r.mode) then g else WithMode(g, ParseOctal(r.mode).value);
      if OwnerMatches(h, f, r.owner) then g' else WithOwner(h, g', r.owner)
  }

  lemma QuietCycle(h: Host, f: Option<File>, r: FileResource)
    requires Quiet(h, r)
    ensures Cycle(h, f, r).file == Some(Fixed(h, f, r))
  {}

  /** Two cycles reach a fixpoint, whatever the mode, the owner and the accounts. */
  lemma TwoCyclesSuffice(h: Host, f: Option<File>, r: FileResource)
    requires Quiet(h, r)
    ensures var g := Cycles(h, f, r, 2); Cycle(h, g, r).file == g
    ensures Cycles(h, f, r, 2) == Some(Fixed(h, Some(Fixed(h, f, r)), r))
  {
    var f1 := Fixed(h, f, r);
    var f2 := Fixed(h, Some(f1), r);
    TwoCycles(h, f, r);
    QuietCycle(h, f, r);
    QuietCycle(h, Some(f1), r);
    QuietCycle(h, Some(f2), r);
    ThirdIsSecond(h, f, r);
  }

  lemma ThirdIsSecond(h: Host, f: Option<File>, r: FileResource)
    ensures var g := Fixed(h, Some(Fixed(h, f, r)), r); Fixed(h, Some(g), r) == g
  {}

  lemma {:induction false} FixpointStays(h: Host, f: Option<File>, r: FileResource, n: nat)
    requires Cycle(h, f, r).file == f
    ensures Cycles(h, f, r, n) == f
  {
    if n > 0 {
      FixpointStays(h, f, r, n - 1);
    }
  }

  lemma {:induction false} CyclesAdd(h: Host, f: Option<File>, r: FileResource, m: nat, n: nat)
    ensures Cycles(h, f, r, m + n) == Cycles(h, Cycles(h, f, r, m), r, n)
    decreases n
  {
    if n > 0 {
      CyclesAdd(h, f, r, m, n - 1);
    }
  }

  lemma TwoCycles(h: Host, f: Option<File>, r: FileResource)
    ensures Cycles(h, f, r, 2) == Cycle(h, Cycle(h, f, r).file, r).file
  {
    assert Cycles(h, f, r, 1) == Cycle(h, Cycles(h, f, r, 0), r).file;
  }

  lemma MatchesAfterTwo(h: Host, f: Option<File>, r: FileResource)
    requires Readable(f)
    ensures Matches(h, Some(Fixed(h, Some(Fixed(h, f, r)), r)), r) <==> ReachableMode(r.mode) && ReachableOwner(h, f, r)
  {}

  /**
    From the third cycle on, every cycle finds content, mode and owner as desired and does nothing, if and only
    if the mode and the owner can be reached.
   */
  lemma SettlesExactly(h: Host, f: Option<File>, r: FileResource, n: nat)
    requires Quiet(h, r) && Readable(f)
    ensures Matches(h, Cycles(h, f, r, 2 + n), r) <==> ReachableMode(r.mode) && ReachableOwner(h, f, r)
  {
    TwoCyclesSuffice(h, f, r);
    MatchesAfterTwo(h, f, r);
    FixpointStays(h, Cycles(h, f, r, 2), r, n);
    CyclesAdd(h, f, r, 2, n);
  }

  /** With the right content, or without a file, one cycle is enough. */
  lemma OneCycleSuffices(h: Host, f: Option<File>, r: FileResource)
    requires f.None? || ContentMatches(f, r)
    ensures var g := Fixed(h, f, r); Fixed(h, Some(g), r) == g
  {}

  /** Rewriting loses the mode and the owner of the file; those found right before are not set in that cycle. */
  predicate LosesMode(f: File, r: FileResource) {
    r.mode != "" && ModeMatches(Some(f), r.mode) && f.perm != TEMP_PERM
  }

  predicate LosesOwner(h: Host, f: File, r: FileResource) {
    && (r.mode == "" || ParseOctal(r.mode).Some?)
    && r.owner != "" && OwnerMatches(h, Some(f), r.owner)
    && f.owner != h.process && r.owner in h.chown && h.chown[r.owner] != h.process
  }

  lemma RewriteLoses(h: Host, f: File, r: FileResource)
    requires f.content != r.content && f.perm < PERM_BITS
    ensures var g := Fixed(h, Some(f), r); Fixed(h, Some(g), r) != g <==> LosesMode(f, r) || LosesOwner(h, f, r)
  {}

  /**
    The second cycle is needed exactly when rewriting lost a mode or an owner that had been found right before.
   */
  lemma SecondCycleNeeded(h: Host, f: Option<File>, r: FileResource)
    requires Quiet(h, r) && Readable(f)
    ensures Cycle(h, f, r).file != Cycles(h, f, r, 2) <==>
      f.Some? && f.value.content != r.content && (LosesMode(f.value, r) || LosesOwner(h, f.value, r))
  {
    TwoCyclesSuffice(h, f, r);
    QuietCycle(h, f, r);
    if f.Some? && f.value.content != r.content {
      RewriteLoses(h, f.value, r);
    } else {
      OneCycleSuffices(h, f, r);
    }
  }

  // ---- in the words of the manifest ----

  predicate IsOctal(s: string) {
    s != "" && forall i :: 0 <= i < |s| ==> '0' <= s[i] <= '7'
  }

  /** The value of octal digits read from the left, after a given value. */
  function ReadOctal(s: string, high: int): int
    decreases |s|
  {
    if s == "" then high else ReadOctal(s[1..], 8 * high + (s[0] as int - '0' as int))
  }

  lemma {:induction false} ReadLast(s: string, c: char, high: int)
    ensures ReadOctal(s + [c], high) == 8 * ReadOctal(s, high) + (c as int - '0' as int)
    decreases |s|
  {
    if s == "" {
      assert [c][1..] == "";
    } else {
      assert (s + [c])[1..] == s[1..] + [c];
      ReadLast(s[1..], c, 8 * high + (s[0] as int - '0' as int));
    }
  }

  lemma {:induction false} ReadsUp(s: string, high: int)
    requires high >= 0 && forall i :: 0 <= i < |s| ==> '0' <= s[i] <= '7'
    ensures ReadOctal(s, high) >= high
    decreases |s|
  {
    if s != "" {
      ReadsUp(s[1..], 8 * high + (s[0] as int - '0' as int));
    }
  }

  /** A mode is read exactly if it consists of octal digits and its value needs at most 32 bits. */
  lemma {:induction false} OctalExactly(s: string)
    ensures ParseOctal(s).Some? <==> IsOctal(s) && ReadOctal(s, 0) < 0x1_0000_0000
    ensures ParseOctal(s).Some? ==> ParseOctal(s).value == ReadOctal(s, 0)
  {
    if s != "" {
      var high, c := s[..|s| - 1], s[|s| - 1];
      assert s == high + [c];
      ReadLast(high, c, 0);
      if |s| > 1 {
        OctalExactly(high);
        assert IsOctal(s) <==> IsOctal(high) && '0' <= c <= '7';
        if IsOctal(high) {
          ReadsUp(high, 0);
        }
      }
    }
  }

  lemma {:induction false} ColonFirst(s: string)
    ensures ':' !in s[..Colon(s)] && (Colon(s) == |s| ==> ':' !in s)
  {
    if s != "" && s[0] != ':' {
      ColonFirst(s[1..]);
      assert s[..Colon(s)] == [s[0]] + s[1..][..Colon(s[1..])];
      assert s == [s[0]] + s[1..];
    }
  }

  lemma {:induction false} ColonIs(u: string, g: string)
    requires ':' !in u
    ensures Colon(u + ":" + g) == |u|
    decreases |u|
  {
    var s := u + ":" + g;
    if u == "" {
      assert s[0] == ':';
    } else {
      assert s[0] == u[0] && s[1..] == u[1..] + ":" + g;
      ColonIs(u[1..], g);
    }
  }

  /** An owner is a user, a colon and a group, and stands for the user's id and the group's. */
  lemma OwnerExactly(h: Host, owner: string, ids: Ids)
    ensures Resolve(h, owner) == Some(ids) <==>
      exists u, g :: owner == u + ":" + g && ':' !in u &&
        u in h.users && h.users[u] == ids.uid && g in h.groups && h.groups[g] == ids.gid
  {
    var i := Colon(owner);
    if Resolve(h, owner) == Some(ids) {
      ColonFirst(owner);
      assert owner == owner[..i] + ":" + owner[i + 1..];
    }
    if u, g :|
        (owner == u + ":" + g && ':' !in u &&
         u in h.users && h.users[u] == ids.uid && g in h.groups && h.groups[g] == ids.gid) {
      ColonIs(u, g);
      assert owner[..|u|] == u && owner[|u| + 1..] == g;
    }
  }

  /** The file has the content, the permission bits and the user and group the resource asks for. */
  ghost predicate AsDescribed(h: Host, f: Option<File>, r: FileResource) {
    && f.Some? && f.value.content == r.content
    && (r.mode != "" ==>
          IsOctal(r.mode) && ReadOctal(r.mode, 0) < 0x1_0000_0000 && f.value.perm == ReadOctal(r.mode, 0))
    && (r.owner != "" ==>
          exists u, g :: r.owner == u + ":" + g && ':' !in u &&
            u in h.users && h.users[u] == f.value.owner.uid && g in h.groups && h.groups[g] == f.value.owner.gid)
  }

  lemma MatchesExactly(h: Host, f: Option<File>, r: FileResource)
    ensures Matches(h, f, r) <==> AsDescribed(h, f, r)
  {
    OctalExactly(r.mode);
    if f.Some? && r.owner != "" {
      OwnerExactly(h, r.owner, f.value.owner);
    }
  }

  /**
    An undisturbed cycle leaves the content asked for. A mode that was wrong is set to its permission bits; without a
    mode the file keeps its own or has 0600 when rewritten. An owner that was wrong is what chown sets for it; else the
    file keeps its own or has the agent's when rewritten.
   */
  lemma CycleSets(h: Host, f: Option<File>, r: FileResource)
    requires Quiet(h, r)
    ensures var g := Cycle(h, f, r).file;
      && g.Some? && g.value.content == r.content
      && (r.mode != "" && ParseOctal(r.mode).Some? && (f.None? || f.value.perm != ReadOctal(r.mode, 0)) ==>
            g.value.perm == ReadOctal(r.mode, 0) % 512)
      && (r.mode == "" ==> g.value.perm == if f.Some? && f.value.content == r.content then f.value.perm else 0x180)
      && (r.owner == "" ==>
            g.value.owner == if f.Some? && f.value.content == r.content then f.value.owner else h.process)
      && (r.owner != "" && !OwnerMatches(h, f, r.owner) && ':' in r.owner && r.owner in h.chown && r.mode == "" ==>
            g.value.owner == h.chown[r.owner])
  {
    OctalExactly(r.mode);
    ColonFirst(r.owner);
    QuietCycle(h, f, r);
  }

  /** An error-free report says whether the file is new, and otherwise lists what was not as asked. */
  lemma ReportsChanges(h: Host, f: Option<File>, r: FileResource)
    requires Cycle(h, f, r).action.error == ""
    ensures var a := Cycle(h, f, r).action;
      && a.resource == r.path
      && (f.None? ==> a.actionType == ActionType.Create && a.changes == [])
      && (f.Some? && AsDescribed(h, f, r) ==> a.actionType == Noop && a.changes == [])
      && (f.Some? && !AsDescribed(h, f, r) ==>
            && a.actionType == Update
            && ("content" in a.changes <==> f.value.content != r.content)
            && ("mode" in a.changes <==> r.mode != "" && f.value.perm != ReadOctal(r.mode, 0))
            && (r.owner == "" ==> "owner" !in a.changes))
  {
    OctalExactly(r.mode);
    MatchesExactly(h, f, r);
  }

  // ---- what an error-free report means ----

  /** The resource has no path, or a step that this cycle needs is refused. */
  predicate FileRefused(h: Host, f: Option<File>, r: FileResource) {
    || r.path == "" || Faulty(h, r.path, Read)
    || (!Matches(h, f, r) &&
        (Faulty(h, r.path, MakeDir)
         || (!ContentMatches(f, r) && WriteFailure(h, r.path).Some?)
         || (!ModeMatches(f, r.mode) && (ParseOctal(r.mode).None? || Faulty(h, r.path, Chmod)))))
  }

  /** A report carries an error exactly when a needed step was refused; a refused chown is not such a step. */
  lemma ErrorExactly(h: Host, f: Option<File>, r: FileResource)
    ensures Cycle(h, f, r).action.error != "" <==> FileRefused(h, f, r)
    ensures !FileRefused(h, f, r) ==> Cycle(h, f, r).file == Some(Fixed(h, f, r))
  {}

  /** One cycle is enough: mode and owner can be reached, and no rewrite loses one that had been found right. */
  predicate RightAtOnce(h: Host, f: Option<File>, r: FileResource) {
    && ReachableMode(r.mode) && ReachableOwner(h, f, r)
    && !(f.Some? && f.value.content != r.content && (LosesMode(f.value, r) || LosesOwner(h, f.value, r)))
  }

  lemma MatchesIsFixed(h: Host, g: File, r: FileResource)
    requires Matches(h, Some(g), r)
    ensures Fixed(h, Some(g), r) == g
  {}

  /** A file without an error in its report is as desired after the cycle if and only if one cycle is enough for it. */
  lemma RightExactly(h: Host, f: Option<File>, r: FileResource)
    requires Readable(f) && !FileRefused(h, f, r)
    ensures Matches(h, Cycle(h, f, r).file, r) <==> RightAtOnce(h, f, r)
  {
    var g := Fixed(h, f, r);
    ErrorExactly(h, f, r);
    MatchesAfterTwo(h, f, r);
    if f.Some? && f.value.content != r.content {
      RewriteLoses(h, f.value, r);
    } else {
      OneCycleSuffices(h, f, r);
    }
    if Matches(h, Some(g), r) {
      MatchesIsFixed(h, g, r);
    }
  }
}
