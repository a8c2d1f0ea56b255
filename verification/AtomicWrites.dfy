/** Replacing a file through a temporary one, operation by operation: what a crash at any moment leaves. */
module AtomicWrites {
  import opened Prelude

  datatype Ids = Ids(uid: nat, gid: nat)
  datatype File = File(content: string, perm: nat, owner: Ids)
  datatype Temp = Temp(content: string, synced: bool)

  const TEMP_PERM: nat := 0x180 // 0600

  /** Named files, and temporary ones in the order of their creation; a write works on the newest. */
  datatype Disk = Disk(files: map<string, File>, temps: seq<Temp>)

  datatype Op = Create | Append(c: char) | Sync | Close | Rename | Remove

  function Do(d: Disk, path: string, owner: Ids, op: Op): Disk {
    if op == Create then d.(temps := d.temps + [Temp("", false)])
    else if d.temps == [] then d
    else
      var init, temp := d.temps[..|d.temps| - 1], d.temps[|d.temps| - 1];
      match op
      case Append(c) => d.(temps := init + [Temp(temp.content + [c], false)])
      case Sync => d.(temps := init + [temp.(synced := true)])
      case Rename => Disk(d.files[path := File(temp.content, TEMP_PERM, owner)], init)
      case Remove => d.(temps := init)
      case _ => d
  }

  function DoAll(d: Disk, path: string, owner: Ids, ops: seq<Op>): Disk
    decreases |ops|
  {
    if ops == [] then d else Do(DoAll(d, path, owner, ops[..|ops| - 1]), path, owner, ops[|ops| - 1])
  }

  /** The step that fails, how much had been written by then, and whether the clean-up works. */
  datatype Step = CreateTemp | WriteTemp | SyncTemp | CloseTemp | RenameTemp
  datatype Failure = Failure(step: Step, written: nat, removes: bool)

  function Appends(content: string): (ops: seq<Op>)
    ensures |ops| == |content|
  {
    seq(|content|, (i: nat) requires i < |content| => Append(content[i]))
  }

  /** The operations that take effect before the failing step, if any. */
  function Done(content: string, failure: Option<Failure>): seq<Op> {
    match failure
    case None => [Create] + Appends(content) + [Sync, Close, Rename]
    case Some(f) =>
      match f.step
      case CreateTemp => []
      case WriteTemp => [Create] + Appends(content[..Min(f.written, |content|)])
      case SyncTemp => [Create] + Appends(content)
      case CloseTemp => [Create] + Appends(content) + [Sync]
      case RenameTemp => [Create] + Appends(content) + [Sync, Close]
  }

  /** After a failing write or sync the temporary file is closed; whatever was created is then removed. */
  function CleanUp(failure: Option<Failure>): seq<Op> {
    match failure
    case None => []
    case Some(f) =>
      (if f.step == WriteTemp || f.step == SyncTemp then [Close] else [])
      + if f.step != CreateTemp && f.removes then [Remove] else []
  }

  function Ops(content: string, failure: Option<Failure>): seq<Op> {
    Done(content, failure) + CleanUp(failure)
  }

  /** The disk after the write. */
  function Written(d: Disk, path: string, owner: Ids, content: string, failure: Option<Failure>): Disk {
    DoAll(d, path, owner, Ops(content, failure))
  }

  // ---- what each stretch of operations leaves ----

  lemma DoOne(d: Disk, path: string, owner: Ids, ops: seq<Op>, op: Op)
    ensures DoAll(d, path, owner, ops + [op]) == Do(DoAll(d, path, owner, ops), path, owner, op)
  {
    assert (ops + [op])[..|ops + [op]| - 1] == ops;
  }

  /** Only a rename touches a named file. */
  lemma {:induction false} FilesWait(d: Disk, path: string, owner: Ids, ops: seq<Op>)
    requires Rename !in ops
    ensures DoAll(d, path, owner, ops).files == d.files
    decreases |ops|
  {
    if ops != [] {
      FilesWait(d, path, owner, ops[..|ops| - 1]);
    }
  }

  /** While the content is being written the newest temporary file holds what has been written so far. */
  lemma {:induction false} Filling(d: Disk, path: string, owner: Ids, content: string)
    ensures DoAll(d, path, owner, [Create] + Appends(content)) == Disk(d.files, d.temps + [Temp(content, false)])
    decreases |content|
  {
    if content == "" {
      assert [Create] + Appends(content) == [] + [Create];
      DoOne(d, path, owner, [], Create);
    } else {
      var front, c := content[..|content| - 1], content[|content| - 1];
      assert [Create] + Appends(content) == ([Create] + Appends(front)) + [Append(c)];
      Filling(d, path, owner, front);
      DoOne(d, path, owner, [Create] + Appends(front), Append(c));
      assert front + [c] == content;
      var temps := d.temps + [Temp(front, false)];
      assert temps[..|temps| - 1] == d.temps;
    }
  }

  lemma FillsMore(d: Disk, path: string, owner: Ids, content: string, i: nat)
    requires i < |content|
    ensures DoAll(d, path, owner, [Create] + Appends(content[..i + 1])) ==
            Do(DoAll(d, path, owner, [Create] + Appends(content[..i])), path, owner, Append(content[i]))
  {
    AppendsGrow(content, i);
    DoOne(d, path, owner, [Create] + Appends(content[..i]), Append(content[i]));
  }

  lemma AppendsGrow(content: string, i: nat)
    requires i < |content|
    ensures [Create] + Appends(content[..i]) + [Append(content[i])] == [Create] + Appends(content[..i + 1])
  {}

  lemma FillsNothing(d: Disk, path: string, owner: Ids, content: string)
    ensures DoAll(d, path, owner, [Create] + Appends(content[..0])) == Do(d, path, owner, Create)
  {
    DoOne(d, path, owner, [], Create);
    assert [] + [Create] == [Create] + Appends(content[..0]);
  }

  lemma Flushing(d: Disk, path: string, owner: Ids, content: string)
    ensures DoAll(d, path, owner, [Create] + Appends(content) + [Sync]) ==
      Disk(d.files, d.temps + [Temp(content, true)])
    ensures DoAll(d, path, owner, [Create] + Appends(content) + [Sync, Close]) ==
            Disk(d.files, d.temps + [Temp(content, true)])
  {
    var written := [Create] + Appends(content);
    Filling(d, path, owner, content);
    DoOne(d, path, owner, written, Sync);
    DoOne(d, path, owner, written + [Sync], Close);
    assert written + [Sync] + [Close] == written + [Sync, Close];
    var temps := d.temps + [Temp(content, false)];
    assert temps[..|temps| - 1] == d.temps;
  }

  /** A write that nothing hinders leaves the complete file and no temporary one. */
  lemma Succeeds(d: Disk, path: string, owner: Ids, content: string)
    ensures Written(d, path, owner, content, None) == d.(files := d.files[path := File(content, TEMP_PERM, owner)])
  {
    var before := [Create] + Appends(content) + [Sync, Close];
    Flushing(d, path, owner, content);
    DoOne(d, path, owner, before, Rename);
    assert before + [Rename] == Ops(content, None);
    var temps := d.temps + [Temp(content, true)];
    assert temps[..|temps| - 1] == d.temps;
  }

  /** What a failed write leaves behind. */
  predicate LeavesTemp(f: Failure) {
    f.step != CreateTemp && !f.removes
  }

  function Stalled(content: string, f: Failure): Temp {
    if f.step == WriteTemp then Temp(content[..Min(f.written, |content|)], false)
    else Temp(content, f.step != SyncTemp)
  }

  lemma DoneTemp(d: Disk, path: string, owner: Ids, content: string, f: Failure)
    requires f.step != CreateTemp
    ensures DoAll(d, path, owner, Done(content, Some(f))) == Disk(d.files, d.temps + [Stalled(content, f)])
  {
    match f.step
    case WriteTemp => Filling(d, path, owner, content[..Min(f.written, |content|)]);
    case SyncTemp => Filling(d, path, owner, content);
    case CloseTemp => Flushing(d, path, owner, content);
    case RenameTemp => Flushing(d, path, owner, content);
  }

  lemma CleansUp(d: Disk, path: string, owner: Ids, ops: seq<Op>, temp: Temp, before: seq<Temp>, f: Failure)
    requires DoAll(d, path, owner, ops) == Disk(d.files, before + [temp]) && f.step != CreateTemp
    ensures DoAll(d, path, owner, ops + CleanUp(Some(f))) == Disk(d.files, before + if f.removes then [] else [temp])
  {
    var closes := if f.step == WriteTemp || f.step == SyncTemp then [Close] else [];
    if closes == [] {
      assert ops + closes == ops;
    } else {
      DoOne(d, path, owner, ops, Close);
    }
    assert (before + [temp])[..|before + [temp]| - 1] == before;
    if f.removes {
      DoOne(d, path, owner, ops + closes, Remove);
      assert ops + CleanUp(Some(f)) == (ops + closes) + [Remove];
    } else {
      assert ops + CleanUp(Some(f)) == ops + closes;
    }
  }

  /** A failed write leaves every named file, and a temporary one exactly if that was created and cannot be removed. */
  lemma Fails(d: Disk, path: string, owner: Ids, content: string, f: Failure)
    ensures Written(d, path, owner, content, Some(f)) ==
            d.(temps := d.temps + if LeavesTemp(f) then [Stalled(content, f)] else [])
  {
    if f.step == CreateTemp {
      assert Ops(content, Some(f)) == [];
    } else {
      DoneTemp(d, path, owner, content, f);
      CleansUp(d, path, owner, Done(content, Some(f)), Stalled(content, f), d.temps, f);
    }
  }

  // ---- at any moment ----

  lemma RenameComesLast(content: string, failure: Option<Failure>, k: nat)
    requires k <= |Ops(content, failure)| && (failure.Some? || k < |Ops(content, failure)|)
    ensures Rename !in Ops(content, failure)[..k]
  {
    var ops := Ops(content, failure);
    forall i | 0 <= i < k ensures ops[i] != Rename {
      if i < |Done(content, failure)| {
        assert ops[i] == Done(content, failure)[i];
      } else {
        assert ops[i] == CleanUp(failure)[i - |Done(content, failure)|];
      }
    }
  }

  /**
    Whatever fails, and wherever the power is lost: after any number of the operations the named files are those of
    the start, or those with exactly the complete new file at the path.
   */
  lemma NeverPartial(d: Disk, path: string, owner: Ids, content: string, failure: Option<Failure>, k: nat)
    requires k <= |Ops(content, failure)|
    ensures var files := DoAll(d, path, owner, Ops(content, failure)[..k]).files;
      files == if failure.None? && k == |Ops(content, failure)| then d.files[path := File(content, TEMP_PERM, owner)]
               else d.files
  {
    var ops := Ops(content, failure);
    if failure.None? && k == |ops| {
      assert ops[..k] == ops;
      Succeeds(d, path, owner, content);
    } else {
      RenameComesLast(content, failure, k);
      FilesWait(d, path, owner, ops[..k]);
    }
  }

  /** The file that is renamed into place is complete and flushed. */
  lemma RenamesFlushed(d: Disk, path: string, owner: Ids, content: string)
    ensures var ops := Ops(content, None);
      ops[|ops| - 1] == Rename && DoAll(d, path, owner, ops[..|ops| - 1]).temps == d.temps + [Temp(content, true)]
  {
    var ops := Ops(content, None);
    Flushing(d, path, owner, content);
    assert ops[..|ops| - 1] == [Create] + Appends(content) + [Sync, Close];
  }
}
