/** What the status of a reconcile cycle says about the device, and what it does not. */
module StatusTheorems {
  import opened Prelude
  import opened Manifests
  import opened Actions
  import opened AtomicWrites
  import opened FileSteps
  import opened Reconcilers
  import opened ReconcileTheorems
  import F = FileManagers
  import S = ServiceManagers

  // ---- when the status tells the truth ----

  /** The files and the services that a cycle handles before its context is cancelled. */
  function HandledFiles(spec: Spec, budget: nat): seq<FileResource> {
    spec.files[..Min(budget, |spec.files|)]
  }

  function HandledServices(spec: Spec, budget: nat): seq<ServiceResource> {
    spec.services[..Min(budget - Min(budget, |spec.files|), |spec.services|)]
  }

  /** A skipped resource is reported without an error. */
  lemma SkipsQuietly(actions: seq<Action>, skipped: seq<Action>)
    requires forall i :: 0 <= i < |skipped| ==> skipped[i].error == ""
    ensures AnyError(actions + skipped) <==> AnyError(actions)
  {
    ErrorsAppended(actions, skipped);
  }

  lemma FilePassErrors(s: Setting, m: Machine, rs: seq<FileResource>, budget: nat)
    ensures AnyError(FilePass(s, m, rs, budget).actions) <==>
            AnyError(F.FileActions(s.host, m.files, rs[..Min(budget, |rs|)]))
  {
    var n := Min(budget, |rs|);
    SkipsQuietly(F.FileActions(s.host, m.files, rs[..n]),
                 if n < |rs| then [FileSteps.Report(rs[n], Skipped, [], "")] else []);
  }

  lemma ServicePassErrors(s: Setting, m: Machine, rs: seq<ServiceResource>, budget: nat)
    ensures AnyError(ServicePass(s, m, rs, budget).actions) <==>
            AnyError(S.ServiceActions(s.faults, m.units, rs[..Min(budget, |rs|)]))
  {
    var n := Min(budget, |rs|);
    SkipsQuietly(S.ServiceActions(s.faults, m.units, rs[..n]),
                 if n < |rs| then [S.Report(rs[n], Skipped, [], "")] else []);
  }

  function CertificateReports(s: Setting, spec: Spec): seq<Action> {
    if spec.certificates == [] then [] else s.certificates
  }

  lemma ThreePasses(s: Setting, m: Machine, spec: Spec, budget: nat)
    ensures var p1 := FilePass(s, m, spec.files, budget);
      var p2 := ServicePass(s, p1.machine, spec.services, p1.budget);
      Passes(s, m, spec, PLUGINS, budget) ==
        Pass(p2.machine, p1.actions + p2.actions + CertificateReports(s, spec), p2.budget)
  {
    var p1 := FilePass(s, m, spec.files, budget);
    var p2 := ServicePass(s, p1.machine, spec.services, p1.budget);
    assert Passes(s, m, spec, [FilePlugin], budget) == p1 by {
      PassesLast(s, m, spec, [], FilePlugin, budget);
      assert [] + [FilePlugin] == [FilePlugin];
    }
    assert Passes(s, m, spec, [FilePlugin, ServicePlugin], budget) == p2.(actions := p1.actions + p2.actions) by {
      PassesLast(s, m, spec, [FilePlugin], ServicePlugin, budget);
      assert [FilePlugin] + [ServicePlugin] == [FilePlugin, ServicePlugin];
    }
    PassesLast(s, m, spec, [FilePlugin, ServicePlugin], CertificatePlugin, budget);
    assert [FilePlugin, ServicePlugin] + [CertificatePlugin] == PLUGINS;
  }

  lemma ThreeErrors(a: seq<Action>, b: seq<Action>, c: seq<Action>)
    ensures AnyError(a + b + c) <==> AnyError(a) || AnyError(b) || AnyError(c)
  {
    ErrorsAppended(a + b, c);
    ErrorsAppended(a, b);
  }

  /** What a cycle leaves, cancelled or not. */
  lemma CycleLeaves(s: Setting, m: Machine, spec: Spec, budget: nat)
    ensures Passes(s, m, spec, PLUGINS, budget).machine ==
            Machine(F.FilesAfter(s.host, m.files, HandledFiles(spec, budget)),
                    S.UnitsAfter(s.faults, m.units, HandledServices(spec, budget)))
  {
    var p1 := FilePass(s, m, spec.files, budget);
    var p2 := ServicePass(s, p1.machine, spec.services, p1.budget);
    FilePassLeaves(s, m, spec, budget);
    ServicePassLeaves(s, p1.machine, spec, budget, p1.budget);
    ThreePasses(s, m, spec, budget);
  }

  lemma FilePassLeaves(s: Setting, m: Machine, spec: Spec, budget: nat)
    ensures var p := FilePass(s, m, spec.files, budget);
      && p.machine == Machine(F.FilesAfter(s.host, m.files, HandledFiles(spec, budget)), m.units)
      && p.budget == budget - Min(budget, |spec.files|)
  {}

  lemma ServicePassLeaves(s: Setting, m: Machine, spec: Spec, budget: nat, left: nat)
    requires left == budget - Min(budget, |spec.files|)
    ensures ServicePass(s, m, spec.services, left).machine ==
            Machine(m.files, S.UnitsAfter(s.faults, m.units, HandledServices(spec, budget)))
  {}

  /** Whether a cycle reports an error, cancelled or not. */
  lemma CycleErrs(s: Setting, m: Machine, spec: Spec, budget: nat)
    ensures AnyError(Passes(s, m, spec, PLUGINS, budget).actions) <==>
            AnyError(F.FileActions(s.host, m.files, HandledFiles(spec, budget))) ||
            AnyError(S.ServiceActions(s.faults, m.units, HandledServices(spec, budget))) ||
            AnyError(CertificateReports(s, spec))
  {
    var p1 := FilePass(s, m, spec.files, budget);
    var p2 := ServicePass(s, p1.machine, spec.services, p1.budget);
    ThreePasses(s, m, spec, budget);
    ThreeErrors(p1.actions, p2.actions, CertificateReports(s, spec));
    FilePassErrors(s, m, spec.files, budget);
    ServicePassErrors(s, p1.machine, spec.services, p1.budget);
  }

  predicate NoFileRefused(h: Host, files: map<string, File>, rs: seq<FileResource>) {
    forall i :: 0 <= i < |rs| ==> !FileRefused(h, F.Lookup(files, rs[i].path), rs[i])
  }

  predicate AllRightAtOnce(h: Host, files: map<string, File>, rs: seq<FileResource>) {
    forall i :: 0 <= i < |rs| ==> RightAtOnce(h, F.Lookup(files, rs[i].path), rs[i])
  }

  predicate AllMatch(h: Host, files: map<string, File>, rs: seq<FileResource>) {
    forall i :: 0 <= i < |rs| ==> Matches(h, F.Lookup(files, rs[i].path), rs[i])
  }

  /**
    A cycle over distinct files reports no error exactly when none was refused; then they match as far as they can at
    once.
   */
  lemma FilesTruth(h: Host, files: map<string, File>, rs: seq<FileResource>)
    requires F.DistinctPaths(rs) && F.AllReadable(files)
    ensures !AnyError(F.FileActions(h, files, rs)) <==> NoFileRefused(h, files, rs)
    ensures NoFileRefused(h, files, rs) ==>
      (AllMatch(h, F.FilesAfter(h, files, rs), rs) <==> AllRightAtOnce(h, files, rs))
  {
    var after, actions := F.FilesAfter(h, files, rs), F.FileActions(h, files, rs);
    forall i | 0 <= i < |rs|
      ensures actions[i].error != "" <==> FileRefused(h, F.Lookup(files, rs[i].path), rs[i])
      ensures !FileRefused(h, F.Lookup(files, rs[i].path), rs[i]) ==>
        (Matches(h, F.Lookup(after, rs[i].path), rs[i]) <==> RightAtOnce(h, F.Lookup(files, rs[i].path), rs[i]))
    {
      F.Independent(h, files, rs, i);
      ErrorExactly(h, F.Lookup(files, rs[i].path), rs[i]);
      if !FileRefused(h, F.Lookup(files, rs[i].path), rs[i]) {
        RightExactly(h, F.Lookup(files, rs[i].path), rs[i]);
      }
    }
  }

  /** No step that the handled resources need was refused, and the certificate plugin reports no error. */
  predicate NothingRefused(s: Setting, m: Machine, spec: Spec, budget: nat) {
    && NoFileRefused(s.host, m.files, HandledFiles(spec, budget))
    && S.NoneRefused(s.faults, m.units, HandledServices(spec, budget))
    && !AnyError(CertificateReports(s, spec))
  }

  /** Every handled file can be put right at once, and whatever the cycle did not get to was right before. */
  predicate Truthful(s: Setting, m: Machine, spec: Spec, budget: nat) {
    && AllRightAtOnce(s.host, m.files, HandledFiles(spec, budget))
    && AllMatch(s.host, m.files, spec.files[|HandledFiles(spec, budget)|..])
    && S.AllAsSaid(m.units, spec.services[|HandledServices(spec, budget)|..])
  }

  lemma RestUntouched(h: Host, files: map<string, File>, rs: seq<FileResource>, n: nat)
    requires F.DistinctPaths(rs) && n <= |rs|
    ensures AllMatch(h, F.FilesAfter(h, files, rs[..n]), rs) <==>
            AllMatch(h, F.FilesAfter(h, files, rs[..n]), rs[..n]) && AllMatch(h, files, rs[n..])
  {
    var after := F.FilesAfter(h, files, rs[..n]);
    forall i | n <= i < |rs| ensures F.Lookup(after, rs[i].path) == F.Lookup(files, rs[i].path) {
      F.Untouched(h, files, rs[..n], rs[i].path);
    }
    assert forall i :: n <= i < |rs| ==> rs[n..][i - n] == rs[i];
    assert forall i :: 0 <= i < n ==> rs[..n][i] == rs[i];
  }

  lemma RestUnwanted(faults: set<(string, S.Call)>, units: map<string, S.Unit>, rs: seq<ServiceResource>, n: nat)
    requires S.DistinctNames(rs) && n <= |rs|
    ensures S.AllAsSaid(S.UnitsAfter(faults, units, rs[..n]), rs) <==>
            S.AllAsSaid(S.UnitsAfter(faults, units, rs[..n]), rs[..n]) && S.AllAsSaid(units, rs[n..])
  {
    var after := S.UnitsAfter(faults, units, rs[..n]);
    forall i | n <= i < |rs| ensures S.UnitOf(after, rs[i].name) == S.UnitOf(units, rs[i].name) {
      S.UnitsUntouched(faults, units, rs[..n], rs[i].name);
    }
    assert forall i :: n <= i < |rs| ==> rs[n..][i - n] == rs[i];
    assert forall i :: 0 <= i < n ==> rs[..n][i] == rs[i];
  }

  /**
    The status of a cycle, cancelled or not and whatever fails, is Converged if and only if nothing was refused. It is
    then true that the device is as the manifest asks if and only if every file handled can be put right at once and
    everything else was right already.
   */
  lemma StatusTruth(s: Setting, m: Machine, spec: Spec, budget: nat)
    requires F.DistinctPaths(spec.files) && F.AllReadable(m.files) && S.DistinctNames(spec.services)
    ensures var pass := Passes(s, m, spec, PLUGINS, budget);
      && (!AnyError(pass.actions) <==> NothingRefused(s, m, spec, budget))
      && (!AnyError(pass.actions) ==> (AsAsked(s, pass.machine, spec) <==> Truthful(s, m, spec, budget)))
  {
    var fs, ss := HandledFiles(spec, budget), HandledServices(spec, budget);
    CycleLeaves(s, m, spec, budget);
    CycleErrs(s, m, spec, budget);
    FilesTruth(s.host, m.files, fs);
    S.ServicesSettle(s.faults, m.units, ss);
    RestUntouched(s.host, m.files, spec.files, |fs|);
    RestUnwanted(s.faults, m.units, spec.services, |ss|);
    AskedIsMatched(s, Passes(s, m, spec, PLUGINS, budget).machine, spec);
  }

  lemma AskedIsMatched(s: Setting, m: Machine, spec: Spec)
    ensures AsAsked(s, m, spec) <==> AllMatch(s.host, m.files, spec.files) && S.AllAsSaid(m.units, spec.services)
  {
    AllDescribed(s.host, m.files, spec.files);
  }

  // ---- statuses that are not true ----

  const PLAIN_HOST := Host(map["u" := 7], map["g" := 8], map[], Ids(0, 0), map[])
  const PLAIN := Setting(PLAIN_HOST, {}, [])

  /** A machine with one file, and a manifest that asks for one. */
  function OneFile(content: string, perm: nat): Machine {
    Machine(map["/a" := File(content, perm, Ids(0, 0))], map[])
  }

  function AskFor(content: string, mode: string, owner: string): Spec {
    Spec([FileResource("/a", content, mode, owner)], [], [])
  }

  lemma Octal0644()
    ensures ParseOctal("0644") == Some(0x1A4)
  {
    assert "0644"[..3] == "064" && "064"[..2] == "06" && "06"[..1] == "0";
    assert ParseOctal("0") == Some(0);
    assert ParseOctal("06") == Some(6);
    assert ParseOctal("064") == Some(52);
  }

  lemma OneFileCycle(m: Machine, r: FileResource)
    requires r.path == "/a" && "/a" in m.files && !FileRefused(PLAIN_HOST, Some(m.files["/a"]), r)
    ensures var pass := Passes(PLAIN, m, Spec([r], [], []), PLUGINS, 1);
      !AnyError(pass.actions) && F.Lookup(pass.machine.files, "/a") == Some(Fixed(PLAIN_HOST, Some(m.files["/a"]), r))
  {
    var spec := Spec([r], [], []);
    CycleLeaves(PLAIN, m, spec, 1);
    CycleErrs(PLAIN, m, spec, 1);
    ErrorExactly(PLAIN_HOST, Some(m.files["/a"]), r);
    assert HandledFiles(spec, 1) == [r] && HandledServices(spec, 1) == [];
    F.Independent(PLAIN_HOST, m.files, [r], 0);
  }

  /** Editing the content of a file that has its mode 0644 ends the cycle as converged, with the file at 0600. */
  lemma EditLosesMode()
    ensures var m, spec := OneFile("x", 0x1A4), AskFor("y", "0644", "");
      var pass := Passes(PLAIN, m, spec, PLUGINS, 1);
      && !AnyError(pass.actions) && !AsAsked(PLAIN, pass.machine, spec)
      && F.Lookup(pass.machine.files, "/a") == Some(File("y", TEMP_PERM, Ids(0, 0)))
  {
    var m, r := OneFile("x", 0x1A4), FileResource("/a", "y", "0644", "");
    Octal0644();
    OneFileCycle(m, r);
    var pass := Passes(PLAIN, m, AskFor("y", "0644", ""), PLUGINS, 1);
    assert !Matches(PLAIN_HOST, F.Lookup(pass.machine.files, "/a"), r);
    MatchesExactly(PLAIN_HOST, F.Lookup(pass.machine.files, "/a"), r);
  }

  /** An owner that the chown command refuses is reported as converged in every cycle, and never set. */
  lemma RefusedChownLooksConverged()
    ensures var m, spec := OneFile("x", 0x1A4), AskFor("x", "", "u:g");
      var pass := Passes(PLAIN, m, spec, PLUGINS, 1);
      !AnyError(pass.actions) && !AsAsked(PLAIN, pass.machine, spec) && pass.machine == m
  {
    var m, r := OneFile("x", 0x1A4), FileResource("/a", "x", "", "u:g");
    OwnerResolves();
    OneFileCycle(m, r);
    var pass := Passes(PLAIN, m, AskFor("x", "", "u:g"), PLUGINS, 1);
    assert !Matches(PLAIN_HOST, F.Lookup(pass.machine.files, "/a"), r);
    MatchesExactly(PLAIN_HOST, F.Lookup(pass.machine.files, "/a"), r);
    CycleLeaves(PLAIN, m, AskFor("x", "", "u:g"), 1);
    assert HandledFiles(AskFor("x", "", "u:g"), 1) == [r];
    assert F.FilesAfter(PLAIN_HOST, m.files, [r]) == m.files by {
      assert [r][..0] == [];
    }
  }

  lemma OwnerResolves()
    ensures Resolve(PLAIN_HOST, "u:g") == Some(Ids(7, 8))
  {
    assert "u:g"[1..] == ":g";
    assert Colon("u:g") == 1;
    assert "u:g"[..1] == "u" && "u:g"[2..] == "g";
  }

  /** A cycle cancelled before it starts is reported as converged, although a file is missing. */
  lemma CancelledMissesFile()
    ensures var m, spec := Machine(map[], map[]), AskFor("x", "", "");
      var pass := Passes(PLAIN, m, spec, PLUGINS, 0);
      !AnyError(pass.actions) && !AsAsked(PLAIN, pass.machine, spec)
  {
    CancelledLooksConverged(PLAIN, Machine(map[], map[]), AskFor("x", "", ""), PLUGINS);
  }
}
