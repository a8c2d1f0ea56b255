/** Manifests whose resources may share paths: exactly when the cycles settle. */
module SharedPaths {
  import opened Prelude
  import opened Manifests
  import opened Actions
  import opened AtomicWrites
  import opened FileSteps
  import opened FileManagers

  // ---- what a manifest must be like ----

  /** Two resources do not ask for different things. */
  predicate Compatible(h: Host, r: FileResource, q: FileResource) {
    && r.content == q.content
    && (r.mode == "" || q.mode == "" || ParseOctal(r.mode) == ParseOctal(q.mode))
    && (r.owner == "" || q.owner == "" || Resolve(h, r.owner) == Resolve(h, q.owner))
  }

  predicate AllCompatible(h: Host, rs: seq<FileResource>) {
    forall i, j :: 0 <= i < j < |rs| && rs[i].path == rs[j].path ==> Compatible(h, rs[i], rs[j])
  }

  /** The first resource of a path, or the end. */
  function FirstFor(rs: seq<FileResource>, path: string): (k: nat)
    ensures k <= |rs| && (k < |rs| ==> rs[k].path == path)
    ensures forall j :: 0 <= j < k ==> rs[j].path != path
  {
    if rs == [] || rs[0].path == path then 0 else 1 + FirstFor(rs[1..], path)
  }

  /** The owner after the first cycle of one resource: the writer's if the content is rewritten, unless it is set. */
  function OwnerLeft(h: Host, f: Option<File>, r: FileResource): Ids {
    if !OwnerMatches(h, f, r.owner) && Colon(r.owner) < |r.owner| && r.owner in h.chown then h.chown[r.owner]
    else if ContentMatches(f, r) then f.value.owner
    else h.process
  }

  /** Some resource of the path has chown set these ids. */
  predicate SetsOwner(h: Host, rs: seq<FileResource>, path: string, ids: Ids) {
    exists j :: 0 <= j < |rs| && rs[j].path == path && rs[j].owner != "" && rs[j].owner in h.chown &&
      h.chown[rs[j].owner] == ids
  }

  /** The owner asked for exists, and either some resource of the path sets it or the first one leaves it. */
  predicate OwnerComes(h: Host, files: map<string, File>, rs: seq<FileResource>, i: nat)
    requires i < |rs|
  {
    var path, ids := rs[i].path, Resolve(h, rs[i].owner);
    rs[i].owner == "" ||
    (ids.Some? &&
     (SetsOwner(h, rs, path, ids.value)
      || OwnerLeft(h, Lookup(files, path), rs[FirstFor(rs, path)]) == ids.value))
  }

  predicate Settleable(h: Host, files: map<string, File>, rs: seq<FileResource>) {
    AllCompatible(h, rs) && forall i :: 0 <= i < |rs| ==> ReachableMode(rs[i].mode) && OwnerComes(h, files, rs, i)
  }

  // ---- one pass, as one path sees it ----

  lemma Pass(h: Host, files: map<string, File>, rs: seq<FileResource>, path: string)
    requires rs != [] && AllQuiet(h, rs)
    ensures var init, r := rs[..|rs| - 1], rs[|rs| - 1];
      var f := Lookup(FilesAfter(h, files, init), path);
      Lookup(FilesAfter(h, files, rs), path) == if r.path == path then Some(Fixed(h, f, r)) else f
  {
    var init, r := rs[..|rs| - 1], rs[|rs| - 1];
    QuietCycle(h, Lookup(FilesAfter(h, files, init), r.path), r);
  }

  /** All resources of the path ask for this content, a readable mode and, if any, an owner with these ids. */
  predicate Asks(h: Host, rs: seq<FileResource>, path: string, content: string, ids: Option<Ids>) {
    forall i :: 0 <= i < |rs| && rs[i].path == path ==>
      rs[i].content == content && ReachableMode(rs[i].mode) && (rs[i].owner == "" || Resolve(h, rs[i].owner) == ids)
  }

  /** A file with the right content keeps it, and gets the owner exactly if it had it or the resource sets it. */
  lemma FixedOwner(h: Host, g: File, r: FileResource, ids: Ids)
    requires g.content == r.content && ReachableMode(r.mode) && (r.owner == "" || Resolve(h, r.owner) == Some(ids))
    ensures var g' := Fixed(h, Some(g), r);
      && g'.content == g.content
      && (g'.owner == ids <==> g.owner == ids || (r.owner != "" && r.owner in h.chown && h.chown[r.owner] == ids))
  {}

  lemma OwnerOfFixed(h: Host, f: Option<File>, r: FileResource)
    requires ReachableMode(r.mode)
    ensures Fixed(h, f, r).owner == OwnerLeft(h, f, r) && Fixed(h, f, r).content == r.content
  {}

  lemma SetsAdd(h: Host, rs: seq<FileResource>, path: string, ids: Ids)
    requires rs != []
    ensures var r := rs[|rs| - 1];
      var last := r.path == path && r.owner != "" && r.owner in h.chown && h.chown[r.owner] == ids;
      SetsOwner(h, rs, path, ids) <==> SetsOwner(h, rs[..|rs| - 1], path, ids) || last
  {
    var init, r := rs[..|rs| - 1], rs[|rs| - 1];
    assert rs == init + [r];
    if SetsOwner(h, init, path, ids) {
      var j :| 0 <= j < |init| && init[j].path == path && init[j].owner != "" && init[j].owner in h.chown &&
        h.chown[init[j].owner] == ids;
      assert rs[j] == init[j];
    }
  }

  /** A pass over a file of the right content ends with the owner exactly if it was there or some resource sets it. */
  lemma {:induction false} OwnerPass(h: Host, files: map<string, File>, rs: seq<FileResource>, path: string,
                                     content: string, ids: Ids)
    requires AllQuiet(h, rs) && Asks(h, rs, path, content, Some(ids)) && path in files && files[path].content == content
    ensures path in FilesAfter(h, files, rs) && FilesAfter(h, files, rs)[path].content == content
    ensures FilesAfter(h, files, rs)[path].owner == ids <==> files[path].owner == ids || SetsOwner(h, rs, path, ids)
    decreases |rs|
  {
    if rs != [] {
      var init, r := rs[..|rs| - 1], rs[|rs| - 1];
      OwnerPass(h, files, init, path, content, ids);
      Pass(h, files, rs, path);
      SetsAdd(h, rs, path, ids);
      if r.path == path {
        FixedOwner(h, FilesAfter(h, files, init)[path], r, ids);
      }
    }
  }

  /** The first pass: what the first resource leaves counts instead of what was there. */
  lemma {:induction false} FirstPass(h: Host, files: map<string, File>, rs: seq<FileResource>, path: string,
                                     content: string, ids: Ids, k: nat)
    requires AllQuiet(h, rs) && Asks(h, rs, path, content, Some(ids))
    requires k < |rs| && rs[k].path == path && forall j :: 0 <= j < k ==> rs[j].path != path
    ensures path in FilesAfter(h, files, rs) && FilesAfter(h, files, rs)[path].content == content
    ensures FilesAfter(h, files, rs)[path].owner == ids ==>
      OwnerLeft(h, Lookup(files, path), rs[k]) == ids || SetsOwner(h, rs, path, ids)
    ensures OwnerLeft(h, Lookup(files, path), rs[k]) == ids ==> FilesAfter(h, files, rs)[path].owner == ids
    decreases |rs|
  {
    var init, r := rs[..|rs| - 1], rs[|rs| - 1];
    Pass(h, files, rs, path);
    SetsAdd(h, rs, path, ids);
    if k == |rs| - 1 {
      Untouched(h, files, init, path);
      OwnerOfFixed(h, Lookup(files, path), r);
    } else {
      FirstPass(h, files, init, path, content, ids, k);
      if r.path == path {
        FixedOwner(h, FilesAfter(h, files, init)[path], r, ids);
      }
    }
  }

  /** From the second cycle on the owner is there exactly if the first resource leaves it or some resource sets it. */
  lemma {:induction false} OwnerCycles(h: Host, files: map<string, File>, rs: seq<FileResource>, path: string,
                                       content: string, ids: Ids, k: nat, n: nat)
    requires AllQuiet(h, rs) && Asks(h, rs, path, content, Some(ids))
    requires k < |rs| && rs[k].path == path && forall j :: 0 <= j < k ==> rs[j].path != path
    ensures path in DiskAfter(h, files, rs, 2 + n) && DiskAfter(h, files, rs, 2 + n)[path].content == content
    ensures DiskAfter(h, files, rs, 2 + n)[path].owner == ids <==>
      OwnerLeft(h, Lookup(files, path), rs[k]) == ids || SetsOwner(h, rs, path, ids)
  {
    if n == 0 {
      var disk := DiskAfter(h, files, rs, 1);
      assert disk == FilesAfter(h, DiskAfter(h, files, rs, 0), rs);
      FirstPass(h, files, rs, path, content, ids, k);
      OwnerPass(h, disk, rs, path, content, ids);
    } else {
      OwnerCycles(h, files, rs, path, content, ids, k, n - 1);
      OwnerPass(h, DiskAfter(h, files, rs, 2 + (n - 1)), rs, path, content, ids);
    }
  }

  // ---- modes ----

  predicate AsksMode(rs: seq<FileResource>, path: string, mode: Option<nat>) {
    forall i :: 0 <= i < |rs| && rs[i].path == path ==> rs[i].mode == "" || ParseOctal(rs[i].mode) == mode
  }

  lemma FixedMode(h: Host, g: File, r: FileResource, mode: nat)
    requires g.content == r.content && mode < PERM_BITS && (r.mode == "" || ParseOctal(r.mode) == Some(mode))
    ensures Fixed(h, Some(g), r).perm == if r.mode == "" then g.perm else mode
  {}

  /** A pass over a file of the right content ends with every mode of the path as asked. */
  lemma {:induction false} ModePass(h: Host, files: map<string, File>, rs: seq<FileResource>, path: string,
                                    content: string, ids: Ids, mode: nat)
    requires AllQuiet(h, rs) && Asks(h, rs, path, content, Some(ids)) && path in files && files[path].content == content
    requires AsksMode(rs, path, Some(mode)) && mode < PERM_BITS
    ensures path in FilesAfter(h, files, rs)
    ensures forall i :: 0 <= i < |rs| && rs[i].path == path ==>
      ModeMatches(Lookup(FilesAfter(h, files, rs), path), rs[i].mode)
    decreases |rs|
  {
    OwnerPass(h, files, rs, path, content, ids);
    if rs != [] {
      var init, r := rs[..|rs| - 1], rs[|rs| - 1];
      OwnerPass(h, files, init, path, content, ids);
      ModePass(h, files, init, path, content, ids, mode);
      Pass(h, files, rs, path);
      var g := FilesAfter(h, files, init)[path];
      if r.path == path {
        FixedMode(h, g, r, mode);
      }
      forall i | 0 <= i < |rs| && rs[i].path == path
        ensures ModeMatches(Lookup(FilesAfter(h, files, rs), path), rs[i].mode)
      {
        if i < |init| {
          assert init[i] == rs[i];
        }
      }
    }
  }

  lemma {:induction false} ReadablePass(h: Host, files: map<string, File>, rs: seq<FileResource>)
    requires AllQuiet(h, rs) && AllReadable(files)
    ensures AllReadable(FilesAfter(h, files, rs))
    decreases |rs|
  {
    if rs != [] {
      var init, r := rs[..|rs| - 1], rs[|rs| - 1];
      ReadablePass(h, files, init);
      QuietCycle(h, Lookup(FilesAfter(h, files, init), r.path), r);
      ReadableFixed(h, Lookup(FilesAfter(h, files, init), r.path), r);
    }
  }

  lemma ReadableFixed(h: Host, f: Option<File>, r: FileResource)
    requires Readable(f)
    ensures Fixed(h, f, r).perm < PERM_BITS
  {}

  lemma {:induction false} ReadableCycles(h: Host, files: map<string, File>, rs: seq<FileResource>, n: nat)
    requires AllQuiet(h, rs) && AllReadable(files)
    ensures AllReadable(DiskAfter(h, files, rs, n))
  {
    if n > 0 {
      ReadableCycles(h, files, rs, n - 1);
      ReadablePass(h, DiskAfter(h, files, rs, n - 1), rs);
    }
  }

  // ---- the whole manifest ----

  ghost predicate AllMatch(h: Host, files: map<string, File>, rs: seq<FileResource>) {
    forall i :: 0 <= i < |rs| ==> Matches(h, Lookup(files, rs[i].path), rs[i])
  }

  /** Only Noops are reported exactly if every file is as all its resources ask. */
  lemma {:induction false} NoopsExactly(h: Host, files: map<string, File>, rs: seq<FileResource>)
    requires AllQuiet(h, rs)
    ensures AllNoop(FileActions(h, files, rs)) <==> AllMatch(h, files, rs)
    ensures AllMatch(h, files, rs) ==> FilesAfter(h, files, rs) == files
    decreases |rs|
  {
    if AllNoop(FileActions(h, files, rs)) {
      NoopsChangeNothing(h, files, rs);
    }
    if AllMatch(h, files, rs) && rs != [] {
      var init, r := rs[..|rs| - 1], rs[|rs| - 1];
      assert AllMatch(h, files, init) by {
        assert forall i :: 0 <= i < |init| ==> init[i] == rs[i];
      }
      NoopsExactly(h, files, init);
      NoopExactly(h, Lookup(files, r.path), r);
      var actions := FileActions(h, files, init);
      assert forall i :: 0 <= i < |rs| ==>
        FileActions(h, files, rs)[i] == if i < |init| then actions[i] else Cycle(h, Lookup(files, r.path), r).action;
    }
  }

  /** Matching files show that no two resources of a path disagree and that every mode can be reached. */
  lemma MatchesAgree(h: Host, files: map<string, File>, rs: seq<FileResource>)
    requires AllMatch(h, files, rs) && AllReadable(files)
    ensures AllCompatible(h, rs) && forall i :: 0 <= i < |rs| ==> ReachableMode(rs[i].mode)
  {}

  /** Every owner asked for exists. */
  predicate AllResolve(h: Host, rs: seq<FileResource>) {
    forall i :: 0 <= i < |rs| && rs[i].owner != "" ==> Resolve(h, rs[i].owner).Some?
  }

  /** What the resources of one path have in common: a mode and the ids of an owner. */
  lemma Common(h: Host, rs: seq<FileResource>, i: nat) returns (mode: nat, ids: Ids)
    requires AllCompatible(h, rs) && AllResolve(h, rs) && forall j :: 0 <= j < |rs| ==> ReachableMode(rs[j].mode)
    requires i < |rs|
    ensures Asks(h, rs, rs[i].path, rs[i].content, Some(ids))
    ensures AsksMode(rs, rs[i].path, Some(mode)) && mode < PERM_BITS
  {
    mode, ids := 0, h.process;
    if m :| 0 <= m < |rs| && rs[m].path == rs[i].path && rs[m].mode != "" {
      mode := ParseOctal(rs[m].mode).value;
      forall j | 0 <= j < |rs| && rs[j].path == rs[i].path
        ensures rs[j].mode == "" || ParseOctal(rs[j].mode) == Some(mode)
      {
        AnyCompatible(h, rs, m, j);
      }
    }
    if o :| 0 <= o < |rs| && rs[o].path == rs[i].path && rs[o].owner != "" {
      ids := Resolve(h, rs[o].owner).value;
      forall j | 0 <= j < |rs| && rs[j].path == rs[i].path
        ensures rs[j].owner == "" || Resolve(h, rs[j].owner) == Some(ids)
      {
        AnyCompatible(h, rs, o, j);
      }
    }
    forall j | 0 <= j < |rs| && rs[j].path == rs[i].path ensures rs[j].content == rs[i].content {
      AnyCompatible(h, rs, i, j);
    }
  }

  lemma AnyCompatible(h: Host, rs: seq<FileResource>, i: nat, j: nat)
    requires AllCompatible(h, rs) && i < |rs| && j < |rs| && rs[i].path == rs[j].path
    ensures Compatible(h, rs[i], rs[j])
  {
    assert i < j ==> Compatible(h, rs[i], rs[j]);
    assert j < i ==> Compatible(h, rs[j], rs[i]);
  }

  lemma FirstIsBefore(rs: seq<FileResource>, i: nat)
    requires i < |rs|
    ensures FirstFor(rs, rs[i].path) <= i
  {}

  lemma ContentAfterOne(h: Host, files: map<string, File>, rs: seq<FileResource>, i: nat, ids: Ids, n: nat)
    requires AllQuiet(h, rs) && i < |rs| && Asks(h, rs, rs[i].path, rs[i].content, Some(ids))
    ensures var disk := DiskAfter(h, files, rs, 1 + n);
      rs[i].path in disk && disk[rs[i].path].content == rs[i].content
  {
    FirstIsBefore(rs, i);
    if n == 0 {
      assert DiskAfter(h, files, rs, 1) == FilesAfter(h, DiskAfter(h, files, rs, 0), rs);
      FirstPass(h, files, rs, rs[i].path, rs[i].content, ids, FirstFor(rs, rs[i].path));
    } else {
      OwnerCycles(h, files, rs, rs[i].path, rs[i].content, ids, FirstFor(rs, rs[i].path), n - 1);
    }
  }

  /** After two cycles every resource finds its file as asked. */
  lemma SettledMatches(h: Host, files: map<string, File>, rs: seq<FileResource>, n: nat, i: nat)
    requires AllQuiet(h, rs) && Settleable(h, files, rs) && i < |rs|
    ensures Matches(h, Lookup(DiskAfter(h, files, rs, 2 + n), rs[i].path), rs[i])
  {
    var path, k := rs[i].path, FirstFor(rs, rs[i].path);
    assert forall j :: 0 <= j < |rs| && rs[j].owner != "" ==> OwnerComes(h, files, rs, j);
    var mode, ids := Common(h, rs, i);
    FirstIsBefore(rs, i);
    OwnerCycles(h, files, rs, path, rs[i].content, ids, k, n);
    ContentAfterOne(h, files, rs, i, ids, n);
    ModePass(h, DiskAfter(h, files, rs, 1 + n), rs, path, rs[i].content, ids, mode);
    assert OwnerComes(h, files, rs, i);
  }

  lemma MatchingComes(h: Host, files: map<string, File>, rs: seq<FileResource>, n: nat, i: nat)
    requires AllQuiet(h, rs) && AllReadable(files) && AllMatch(h, DiskAfter(h, files, rs, 2 + n), rs) && i < |rs|
    ensures OwnerComes(h, files, rs, i)
  {
    var disk := DiskAfter(h, files, rs, 2 + n);
    ReadableCycles(h, files, rs, 2 + n);
    MatchesAgree(h, disk, rs);
    assert Matches(h, Lookup(disk, rs[i].path), rs[i]);
    assert AllResolve(h, rs) by {
      forall j | 0 <= j < |rs| && rs[j].owner != "" ensures Resolve(h, rs[j].owner).Some? {
        assert Matches(h, Lookup(disk, rs[j].path), rs[j]);
      }
    }
    var mode, ids := Common(h, rs, i);
    FirstIsBefore(rs, i);
    OwnerCycles(h, files, rs, rs[i].path, rs[i].content, ids, FirstFor(rs, rs[i].path), n);
  }

  /**
    From the third cycle on a manifest reports only Noops if and only if its resources of one path agree, every mode
    can be reached, and every owner is set by a resource of its path or left by the first one.
   */
  lemma ManifestSettles(h: Host, files: map<string, File>, rs: seq<FileResource>, n: nat)
    requires AllQuiet(h, rs) && AllReadable(files)
    ensures AllNoop(FileActions(h, DiskAfter(h, files, rs, 2 + n), rs)) <==> Settleable(h, files, rs)
  {
    var disk := DiskAfter(h, files, rs, 2 + n);
    NoopsExactly(h, disk, rs);
    if AllMatch(h, disk, rs) {
      ReadableCycles(h, files, rs, 2 + n);
      MatchesAgree(h, disk, rs);
      forall i | 0 <= i < |rs| ensures OwnerComes(h, files, rs, i) {
        MatchingComes(h, files, rs, n, i);
      }
    }
    if Settleable(h, files, rs) {
      forall i | 0 <= i < |rs| ensures Matches(h, Lookup(disk, rs[i].path), rs[i]) {
        SettledMatches(h, files, rs, n, i);
      }
    }
  }

  predicate Reachable(h: Host, files: map<string, File>, rs: seq<FileResource>) {
    forall i :: 0 <= i < |rs| ==> ReachableMode(rs[i].mode) && ReachableOwner(h, Lookup(files, rs[i].path), rs[i])
  }

  /** With distinct paths that is the condition of each resource on its own. */
  lemma DistinctSettles(h: Host, files: map<string, File>, rs: seq<FileResource>)
    requires DistinctPaths(rs)
    ensures Settleable(h, files, rs) <==> Reachable(h, files, rs)
  {
    forall i | 0 <= i < |rs| && ReachableMode(rs[i].mode)
      ensures OwnerComes(h, files, rs, i) <==> ReachableOwner(h, Lookup(files, rs[i].path), rs[i])
    {
      FirstIsBefore(rs, i);
      assert FirstFor(rs, rs[i].path) == i;
      AloneComes(h, files, rs, i);
    }
  }

  lemma AloneComes(h: Host, files: map<string, File>, rs: seq<FileResource>, i: nat)
    requires DistinctPaths(rs) && i < |rs| && FirstFor(rs, rs[i].path) == i
    ensures OwnerComes(h, files, rs, i) <==> ReachableOwner(h, Lookup(files, rs[i].path), rs[i])
  {
    var r := rs[i];
    forall ids: Ids
      ensures SetsOwner(h, rs, r.path, ids) <==> r.owner != "" && r.owner in h.chown && h.chown[r.owner] == ids
    {
      if SetsOwner(h, rs, r.path, ids) {
        var j :| 0 <= j < |rs| && rs[j].path == r.path && rs[j].owner != "" && rs[j].owner in h.chown &&
          h.chown[rs[j].owner] == ids;
        assert i == j;
      }
    }
  }

  /** A manifest whose resources of one path disagree never reports only Noops, whatever fails and the disk holds. */
  lemma DisagreeingNeverSettle(h: Host, files: map<string, File>, rs: seq<FileResource>)
    requires !AllCompatible(h, rs)
    ensures !AllNoop(FileActions(h, files, rs))
  {
    if AllNoop(FileActions(h, files, rs)) {
      NoopsChangeNothing(h, files, rs);
    }
  }
}
