/** The file plugin: reconciling every file of a manifest against the disk. */
module FileManagers {
  import opened Prelude
  import opened Manifests
  import opened Actions
  import opened AtomicWrites
  import opened FileSteps

  function Lookup(files: map<string, File>, path: string): Option<File> {
    if path in files then Some(files[path]) else None
  }

  function Put(files: map<string, File>, path: string, f: Option<File>): map<string, File> {
    match f case Some(x) => files[path := x] case None => files
  }

  /** The disk after one cycle over the files, in order. */
  function FilesAfter(h: Host, files: map<string, File>, rs: seq<FileResource>): map<string, File>
    decreases |rs|
  {
    if rs == [] then files
    else
      var d, r := FilesAfter(h, files, rs[..|rs| - 1]), rs[|rs| - 1];
      Put(d, r.path, Cycle(h, Lookup(d, r.path), r).file)
  }

  function FileActions(h: Host, files: map<string, File>, rs: seq<FileResource>): (actions: seq<Action>)
    ensures |actions| == |rs|
    decreases |rs|
  {
    if rs == [] then []
    else
      var d, r := FilesAfter(h, files, rs[..|rs| - 1]), rs[|rs| - 1];
      FileActions(h, files, rs[..|rs| - 1]) + [Cycle(h, Lookup(d, r.path), r).action]
  }

  class FileManager {
    var host: Host
    var files: map<string, File>
    /** Temporary files that could not be removed, and the one being written. */
    var temps: seq<Temp>

    constructor (host: Host, files: map<string, File>)
      ensures this.host == host && this.files == files && temps == []
    {
      this.host, this.files, temps := host, files, [];
    }

    ghost function OnDisk(): Disk
      reads this
    {
      Disk(files, temps)
    }

    method CheckMode(path: string, mode: string) returns (ok: bool)
      ensures ok == ModeMatches(Lookup(files, path), mode)
    {
      if mode == "" {
        return true;
      }
      if path !in files {
        return false;
      }
      var m := ParseOctal(mode);
      return m.Some? && files[path].perm == m.value;
    }

    method SetMode(path: string, mode: string) returns (ok: bool)
      requires path in files
      modifies this`files
      ensures ok == (ParseOctal(mode).Some? && !Faulty(host, path, Chmod))
      ensures files == if ok then old(files)[path := WithMode(old(files[path]), ParseOctal(mode).value)] else old(files)
    {
      var m := ParseOctal(mode);
      if m.None? || Faulty(host, path, Chmod) {
        return false;
      }
      files := files[path := WithMode(files[path], m.value)];
      ok := true;
    }

    method CheckOwner(path: string, owner: string) returns (ok: bool)
      ensures ok == OwnerMatches(host, Lookup(files, path), owner)
    {
      if owner == "" {
        return true;
      }
      var ids := Resolve(host, owner);
      return path in files && ids.Some? && ids.value == files[path].owner;
    }

    method SetOwner(path: string, owner: string) returns (ok: bool)
      requires path in files
      modifies this`files
      ensures ok == (Colon(owner) < |owner| && owner in host.chown)
      ensures files == old(files)[path := WithOwner(host, old(files[path]), owner)]
    {
      ok := Colon(owner) < |owner| && owner in host.chown;
      if ok {
        files := files[path := files[path].(owner := host.chown[owner])];
      } else {
        assert files == files[path := files[path]];
      }
    }

    /** One operation of a write, on the newest temporary file. */
    method Perform(path: string, op: Op)
      modifies this`files, this`temps
      ensures OnDisk() == Do(old(OnDisk()), path, host.process, op)
    {
      if op == Op.Create {
        temps := temps + [Temp("", false)];
        return;
      }
      if temps == [] {
        return;
      }
      var init, temp := temps[..|temps| - 1], temps[|temps| - 1];
      match op
      case Append(c) => temps := init + [Temp(temp.content + [c], false)];
      case Sync => temps := init + [temp.(synced := true)];
      case Rename => files, temps := files[path := File(temp.content, TEMP_PERM, host.process)], init;
      case Remove => temps := init;
      case _ =>
    }

    /** Creating the temporary file and writing the content, as far as it gets. */
    method Fill(path: string, content: string)
      modifies this`files, this`temps
      ensures OnDisk() == DoAll(old(OnDisk()), path, host.process, [Op.Create] + Appends(content))
    {
      ghost var d := OnDisk();
      Perform(path, Op.Create);
      FillsNothing(d, path, host.process, content);
      for i := 0 to |content|
        invariant OnDisk() == DoAll(d, path, host.process, [Op.Create] + Appends(content[..i]))
      {
        FillsMore(d, path, host.process, content, i);
        Perform(path, Append(content[i]));
      }
      assert content[..|content|] == content;
    }

    /** Flushing and closing the temporary file, up to the step that fails. */
    method Flush(path: string, content: string, failure: Option<Failure>, ghost d: Disk) returns (ok: bool)
      requires failure.Some? ==> failure.value.step != CreateTemp && failure.value.step != WriteTemp
      requires OnDisk() == DoAll(d, path, host.process, [Op.Create] + Appends(content))
      modifies this`files, this`temps
      ensures ok == (failure.None? || failure.value.step == RenameTemp)
      ensures OnDisk() == DoAll(d, path, host.process,
        if ok then [Op.Create] + Appends(content) + [Sync, Close] else Done(content, failure))
    {
      ghost var written := [Op.Create] + Appends(content);
      if failure.Some? && failure.value.step == SyncTemp {
        return false;
      }
      Perform(path, Sync);
      DoOne(d, path, host.process, written, Sync);
      if failure.Some? && failure.value.step == CloseTemp {
        return false;
      }
      Perform(path, Close);
      DoOne(d, path, host.process, written + [Sync], Close);
      assert written + [Sync] + [Close] == written + [Sync, Close];
      ok := true;
    }

    /** The operations up to the rename, or up to the step that fails. */
    method Replace(path: string, content: string, failure: Option<Failure>) returns (ok: bool)
      modifies this`files, this`temps
      ensures ok == failure.None?
      ensures OnDisk() == DoAll(old(OnDisk()), path, host.process, Done(content, failure))
    {
      ghost var d := OnDisk();
      if failure.Some? && failure.value.step == CreateTemp {
        return false;
      }
      if failure.Some? && failure.value.step == WriteTemp {
        Fill(path, content[..Min(failure.value.written, |content|)]);
        return false;
      }
      Fill(path, content);
      ok := Flush(path, content, failure, d);
      if !ok {
        return;
      }
      if failure.Some? {
        return false;
      }
      Perform(path, Rename);
      DoOne(d, path, host.process, [Op.Create] + Appends(content) + [Sync, Close], Rename);
      assert [Op.Create] + Appends(content) + [Sync, Close] + [Rename] == Done(content, failure);
    }

    /** Closing and removing the temporary file of a failed write. */
    method CleanUpAfter(path: string, f: Failure)
      modifies this`files, this`temps
      ensures OnDisk() == DoAll(old(OnDisk()), path, host.process, CleanUp(Some(f)))
    {
      ghost var d := OnDisk();
      ghost var closes := if f.step == WriteTemp || f.step == SyncTemp then [Close] else [];
      if f.step == WriteTemp || f.step == SyncTemp {
        Perform(path, Close);
        DoOne(d, path, host.process, [], Close);
        assert [] + [Close] == closes;
      }
      if f.step != CreateTemp && f.removes {
        Perform(path, Remove);
        DoOne(d, path, host.process, closes, Remove);
        assert closes + [Remove] == CleanUp(Some(f));
      } else {
        assert closes == CleanUp(Some(f));
      }
    }

    /** Writing a temporary file and renaming it over the target: the target is new or untouched. */
    method AtomicWrite(path: string, content: string) returns (ok: bool)
      modifies this`files, this`temps
      ensures ok == WriteFailure(host, path).None?
      ensures OnDisk() == Written(old(OnDisk()), path, host.process, content, WriteFailure(host, path))
      ensures files == if ok then old(files)[path := File(content, TEMP_PERM, host.process)] else old(files)
      ensures temps == old(temps) +
        if ok || !LeavesTemp(WriteFailure(host, path).value) then []
        else [Stalled(content, WriteFailure(host, path).value)]
    {
      ghost var d := OnDisk();
      var failure := WriteFailure(host, path);
      ok := Replace(path, content, failure);
      if !ok {
        CleanUpAfter(path, failure.value);
        DoneThen(d, path, host.process, Done(content, failure), CleanUp(failure));
        Fails(d, path, host.process, content, failure.value);
      } else {
        assert Ops(content, failure) == Done(content, failure);
        Succeeds(d, path, host.process, content);
      }
    }

    method WriteUnless(matches: bool, r: FileResource) returns (ok: bool)
      requires matches == ContentMatches(Lookup(files, r.path), r)
      modifies this`files, this`temps
      ensures ok == (matches || WriteFailure(host, r.path).None?)
      ensures files == if ok then old(files)[r.path := Rewritten(host, Lookup(old(files), r.path), r)] else old(files)
      ensures old(temps) <= temps && (Tidy(host) ==> temps == old(temps))
    {
      ok := true;
      if !matches {
        ok := AtomicWrite(r.path, r.content);
      } else {
        assert files == files[r.path := files[r.path]];
      }
    }

    method Describe(contentMatches: bool, modeMatches: bool, ownerMatches: bool) returns (changes: seq<string>)
      ensures changes == (if contentMatches then [] else ["content"]) + (if modeMatches then [] else ["mode"]) +
                         if ownerMatches then [] else ["owner"]
    {
      changes := [];
      if !contentMatches {
        changes := changes + ["content"];
      }
      if !modeMatches {
        changes := changes + ["mode"];
      }
      if !ownerMatches {
        changes := changes + ["owner"];
      }
    }

    /** Creating or updating a file, given what the three checks on the file as found said. */
    method Correct(r: FileResource, contentMatches: bool, modeMatches: bool, ownerMatches: bool) returns (a: Action)
      requires contentMatches == ContentMatches(Lookup(files, r.path), r)
      requires modeMatches == ModeMatches(Lookup(files, r.path), r.mode)
      requires ownerMatches == OwnerMatches(host, Lookup(files, r.path), r.owner)
      modifies this`files, this`temps
      ensures old(temps) <= temps && (Tidy(host) ==> temps == old(temps))
      ensures a == Corrected(host, Lookup(old(files), r.path), r).action
      ensures files == Put(old(files), r.path, Corrected(host, Lookup(old(files), r.path), r).file)
    {
      assert files == Put(files, r.path, Lookup(files, r.path));
      var t := if r.path in files then Update else ActionType.Create;
      if Faulty(host, r.path, MakeDir) {
        return Report(r, t, [], "create parent directory");
      }
      var ok := WriteUnless(contentMatches, r);
      if !ok {
        return Report(r, t, [], "atomic write");
      }
      ok := SetAttributes(r, modeMatches, ownerMatches);
      if !ok {
        return Report(r, t, [], "set mode");
      }
      var changes: seq<string> := [];
      if t == Update {
        changes := Describe(contentMatches, modeMatches, ownerMatches);
      }
      a := Report(r, t, changes, "");
    }

    method SetAttributes(r: FileResource, modeMatches: bool, ownerMatches: bool) returns (ok: bool)
      requires r.path in files && (r.mode == "" ==> modeMatches) && (r.owner == "" ==> ownerMatches)
      modifies this`files
      ensures ok == (modeMatches || (ParseOctal(r.mode).Some? && !Faulty(host, r.path, Chmod)))
      ensures
        var g := old(files[r.path]);
        var g' := if modeMatches || !ok then g else WithMode(g, ParseOctal(r.mode).value);
        files == old(files)[r.path := if ownerMatches || !ok then g' else WithOwner(host, g', r.owner)]
    {
      ghost var before := files;
      assert before == before[r.path := before[r.path]];
      if r.mode != "" && !modeMatches {
        ok := SetMode(r.path, r.mode);
        if !ok {
          return;
        }
      }
      if r.owner != "" && !ownerMatches {
        var _ := SetOwner(r.path, r.owner);
      }
      ok := true;
    }

    method ReconcileFile(r: FileResource) returns (a: Action)
      modifies this`files, this`temps
      ensures old(temps) <= temps && (Tidy(host) ==> temps == old(temps))
      ensures a == Cycle(host, Lookup(old(files), r.path), r).action
      ensures files == Put(old(files), r.path, Cycle(host, Lookup(old(files), r.path), r).file)
    {
      assert files == Put(files, r.path, Lookup(files, r.path));
      if r.path == "" {
        return Report(r, Skipped, [], "empty file path");
      }
      if Faulty(host, r.path, Read) {
        return Report(r, Skipped, [], "read existing file");
      }
      var contentMatches := r.path in files && files[r.path].content == r.content;
      var modeMatches := CheckMode(r.path, r.mode);
      var ownerMatches := CheckOwner(r.path, r.owner);
      if contentMatches && modeMatches && ownerMatches {
        return Report(r, Noop, [], "");
      }
      a := Correct(r, contentMatches, modeMatches, ownerMatches);
    }

    /** The context is cancelled once as many files as given have been handled; the next is reported as skipped. */
    method Reconcile(rs: seq<FileResource>, budget: nat) returns (actions: seq<Action>)
      modifies this`files, this`temps
      ensures old(temps) <= temps && (Tidy(host) ==> temps == old(temps))
      ensures files == FilesAfter(host, old(files), rs[..if budget < |rs| then budget else |rs|])
      ensures actions == FileActions(host, old(files), rs[..if budget < |rs| then budget else |rs|]) +
                if budget < |rs| then [Report(rs[budget], Skipped, [], "")] else []
    {
      actions := [];
      for i := 0 to |rs|
        invariant i <= budget && old(temps) <= temps && (Tidy(host) ==> temps == old(temps))
        invariant files == FilesAfter(host, old(files), rs[..i])
        invariant actions == FileActions(host, old(files), rs[..i])
      {
        if i == budget {
          actions := actions + [Report(rs[i], Skipped, [], "")];
          return;
        }
        assert rs[..i + 1][..i] == rs[..i];
        var a := ReconcileFile(rs[i]);
        actions := actions + [a];
      }
    }
  }

  lemma {:induction false} DoneThen(d: Disk, path: string, owner: Ids, a: seq<Op>, b: seq<Op>)
    ensures DoAll(d, path, owner, a + b) == DoAll(DoAll(d, path, owner, a), path, owner, b)
    decreases |b|
  {
    if b == [] {
      assert a + b == a;
    } else {
      assert a + b == (a + b[..|b| - 1]) + [b[|b| - 1]];
      DoneThen(d, path, owner, a, b[..|b| - 1]);
      DoOne(d, path, owner, a + b[..|b| - 1], b[|b| - 1]);
    }
  }

  /** No failing write leaves its temporary file. */
  predicate Tidy(h: Host) {
    forall p :: p in h.faults && h.faults[p].Write? ==> !LeavesTemp(h.faults[p].failure)
  }

  // ---- a whole manifest ----

  predicate DistinctPaths(rs: seq<FileResource>) {
    forall i, j :: 0 <= i < j < |rs| ==> rs[i].path != rs[j].path
  }

  predicate AllQuiet(h: Host, rs: seq<FileResource>) {
    forall i :: 0 <= i < |rs| ==> Quiet(h, rs[i])
  }

  predicate AllReadable(files: map<string, File>) {
    forall p :: p in files ==> files[p].perm < PERM_BITS
  }

  function DiskAfter(h: Host, files: map<string, File>, rs: seq<FileResource>, n: nat): map<string, File> {
    if n == 0 then files else FilesAfter(h, DiskAfter(h, files, rs, n - 1), rs)
  }

  /** Files that the manifest does not name are untouched, whatever fails and however paths repeat. */
  lemma {:induction false} Untouched(h: Host, files: map<string, File>, rs: seq<FileResource>, path: string)
    requires forall i :: 0 <= i < |rs| ==> rs[i].path != path
    ensures Lookup(FilesAfter(h, files, rs), path) == Lookup(files, path)
    decreases |rs|
  {
    if rs != [] {
      Untouched(h, files, rs[..|rs| - 1], path);
    }
  }

  /** With distinct paths every file goes through its own cycle, as if it were alone. */
  lemma {:induction false} Independent(h: Host, files: map<string, File>, rs: seq<FileResource>, i: nat)
    requires DistinctPaths(rs) && i < |rs|
    ensures var o := Cycle(h, Lookup(files, rs[i].path), rs[i]);
      FileActions(h, files, rs)[i] == o.action && Lookup(FilesAfter(h, files, rs), rs[i].path) == o.file
    decreases |rs|
  {
    var init := rs[..|rs| - 1];
    if i == |rs| - 1 {
      Untouched(h, files, init, rs[i].path);
      CycleKeepsFile(h, Lookup(files, rs[i].path), rs[i]);
    } else {
      Independent(h, files, init, i);
    }
  }

  lemma CycleKeepsFile(h: Host, f: Option<File>, r: FileResource)
    ensures f.Some? ==> Cycle(h, f, r).file.Some?
  {}

  /** A cycle of only Noops leaves the disk as it is, and every file as desired. */
  lemma {:induction false} NoopsChangeNothing(h: Host, files: map<string, File>, rs: seq<FileResource>)
    requires AllNoop(FileActions(h, files, rs))
    ensures FilesAfter(h, files, rs) == files
    ensures forall i :: 0 <= i < |rs| ==> Matches(h, Lookup(files, rs[i].path), rs[i])
    decreases |rs|
  {
    if rs != [] {
      var init, r := rs[..|rs| - 1], rs[|rs| - 1];
      var actions := FileActions(h, files, rs);
      assert forall i :: 0 <= i < |init| ==> FileActions(h, files, init)[i] == actions[i];
      NoopsChangeNothing(h, files, init);
      NoopExactly(h, Lookup(files, r.path), r);
      assert actions[|rs| - 1].actionType == Noop;
      forall i | 0 <= i < |rs| ensures Matches(h, Lookup(files, rs[i].path), rs[i]) {
        if i < |init| {
          assert init[i] == rs[i];
        }
      }
    }
  }
}
