/** Whole reconcile cycles with the agent's three plugins: convergence, and what a status does not say. */
module ReconcileTheorems {
  import opened Prelude
  import opened Manifests
  import opened Actions
  import opened AtomicWrites
  import opened FileSteps
  import opened Reconcilers
  import F = FileManagers
  import P = SharedPaths
  import S = ServiceManagers

  /** The agent registers its plugins in this order. */
  const PLUGINS := [FilePlugin, ServicePlugin, CertificatePlugin]

  /** The context is not cancelled during the cycle. */
  function Enough(spec: Spec): nat {
    |spec.files| + |spec.services|
  }

  function CycleActions(s: Setting, m: Machine, spec: Spec): seq<Action> {
    F.FileActions(s.host, m.files, spec.files) + S.ServiceActions(s.faults, m.units, spec.services)
    + if spec.certificates == [] then [] else s.certificates
  }

  function NextMachine(s: Setting, m: Machine, spec: Spec): Machine {
    Machine(F.FilesAfter(s.host, m.files, spec.files), S.UnitsAfter(s.faults, m.units, spec.services))
  }

  lemma PassesLast(s: Setting, m: Machine, spec: Spec, ps: seq<Plugin>, p: Plugin, budget: nat)
    ensures var before := Passes(s, m, spec, ps, budget);
      var last := PluginPass(s, before.machine, spec, p, before.budget);
      Passes(s, m, spec, ps + [p], budget) == last.(actions := before.actions + last.actions)
  {
    assert (ps + [p])[..|ps + [p]| - 1] == ps;
  }

  /** A full cycle reports once on every file and service, and each kind meets the machine as the cycle found it. */
  lemma FullCycle(s: Setting, m: Machine, spec: Spec)
    ensures Passes(s, m, spec, PLUGINS, Enough(spec)) == Pass(NextMachine(s, m, spec), CycleActions(s, m, spec), 0)
  {
    var n := Enough(spec);
    var m1 := m.(files := F.FilesAfter(s.host, m.files, spec.files));
    var files := F.FileActions(s.host, m.files, spec.files);
    var services := S.ServiceActions(s.faults, m.units, spec.services);
    assert Passes(s, m, spec, [FilePlugin], n) == Pass(m1, files, |spec.services|) by {
      PassesLast(s, m, spec, [], FilePlugin, n);
      assert [] + [FilePlugin] == [FilePlugin];
      FullFilePass(s, m, spec);
    }
    assert Passes(s, m, spec, [FilePlugin, ServicePlugin], n) == Pass(NextMachine(s, m, spec), files + services, 0) by {
      PassesLast(s, m, spec, [FilePlugin], ServicePlugin, n);
      assert [FilePlugin] + [ServicePlugin] == [FilePlugin, ServicePlugin];
      FullServicePass(s, m1, spec);
    }
    PassesLast(s, m, spec, [FilePlugin, ServicePlugin], CertificatePlugin, n);
    assert [FilePlugin, ServicePlugin] + [CertificatePlugin] == PLUGINS;
  }

  lemma FullFilePass(s: Setting, m: Machine, spec: Spec)
    ensures PluginPass(s, m, spec, FilePlugin, Enough(spec)) ==
            Pass(m.(files := F.FilesAfter(s.host, m.files, spec.files)),
                 F.FileActions(s.host, m.files, spec.files), |spec.services|)
  {
    assert spec.files[..|spec.files|] == spec.files;
  }

  lemma FullServicePass(s: Setting, m: Machine, spec: Spec)
    ensures PluginPass(s, m, spec, ServicePlugin, |spec.services|) ==
            Pass(m.(units := S.UnitsAfter(s.faults, m.units, spec.services)),
                 S.ServiceActions(s.faults, m.units, spec.services), 0)
  {
    assert spec.services[..|spec.services|] == spec.services;
  }

  function MachineAfter(s: Setting, m: Machine, spec: Spec, n: nat): Machine {
    if n == 0 then m else NextMachine(s, MachineAfter(s, m, spec, n - 1), spec)
  }

  lemma {:induction false} MachineTracks(s: Setting, m: Machine, spec: Spec, n: nat)
    ensures MachineAfter(s, m, spec, n).files == F.DiskAfter(s.host, m.files, spec.files, n)
    ensures MachineAfter(s, m, spec, n).units == S.UnitsAfterCycles(s.faults, m.units, spec.services, n)
  {
    if n > 0 {
      MachineTracks(s, m, spec, n - 1);
    }
  }

  /** Every service is named once, and neither the disk nor the executor refuses anything. */
  predicate Undisturbed(s: Setting, m: Machine, spec: Spec) {
    && F.AllQuiet(s.host, spec.files) && F.AllReadable(m.files)
    && S.DistinctNames(spec.services) && S.AllNamed(spec.services) && s.faults == {}
  }

  /** Services are as wanted after one cycle and stay so. */
  lemma ServicesConverge(s: Setting, m: Machine, spec: Spec, n: nat)
    requires S.DistinctNames(spec.services) && S.AllNamed(spec.services) && s.faults == {}
    ensures var units := MachineAfter(s, m, spec, 1 + n).units;
      S.AllAsSaid(units, spec.services) && AllNoop(S.ServiceActions(s.faults, units, spec.services))
  {
    MachineTracks(s, m, spec, 1 + n);
    S.NothingRefused(m.units, spec.services);
    S.UnitsStay(s.faults, m.units, spec.services, n);
  }

  lemma AllNoopSplits(a: seq<Action>, b: seq<Action>)
    ensures AllNoop(a + b) <==> AllNoop(a) && AllNoop(b)
  {
    var all := a + b;
    if AllNoop(all) {
      assert forall i :: 0 <= i < |a| ==> all[i] == a[i];
      assert forall i :: 0 <= i < |b| ==> all[|a| + i] == b[i];
    }
  }

  /**
    From the third cycle on every cycle reports only Noops if and only if the file resources of one path agree, every
    mode and owner can be reached and the certificate plugin reports only Noops.
   */
  lemma Converges(s: Setting, m: Machine, spec: Spec, n: nat)
    requires Undisturbed(s, m, spec)
    ensures AllNoop(CycleActions(s, MachineAfter(s, m, spec, 2 + n), spec)) <==>
      P.Settleable(s.host, m.files, spec.files) && (spec.certificates == [] || AllNoop(s.certificates))
  {
    var machine := MachineAfter(s, m, spec, 2 + n);
    MachineTracks(s, m, spec, 2 + n);
    P.ManifestSettles(s.host, m.files, spec.files, n);
    ServicesConverge(s, m, spec, 1 + n);
    var files := F.FileActions(s.host, machine.files, spec.files);
    var services := S.ServiceActions(s.faults, machine.units, spec.services);
    AllNoopSplits(files + services, if spec.certificates == [] then [] else s.certificates);
    AllNoopSplits(files, services);
  }

  /** The device is as the manifest asks, certificates apart. */
  ghost predicate AsAsked(s: Setting, m: Machine, spec: Spec) {
    && (forall i :: 0 <= i < |spec.files| ==>
          AsDescribed(s.host, F.Lookup(m.files, spec.files[i].path), spec.files[i]))
    && S.AllAsSaid(m.units, spec.services)
  }

  /** Files that match are as the manifest describes them. */
  lemma AllDescribed(h: Host, files: map<string, File>, rs: seq<FileResource>)
    ensures (forall i :: 0 <= i < |rs| ==> Matches(h, F.Lookup(files, rs[i].path), rs[i])) <==>
            forall i :: 0 <= i < |rs| ==> AsDescribed(h, F.Lookup(files, rs[i].path), rs[i])
  {
    forall i | 0 <= i < |rs|
      ensures Matches(h, F.Lookup(files, rs[i].path), rs[i]) <==>
              AsDescribed(h, F.Lookup(files, rs[i].path), rs[i])
    {
      MatchesExactly(h, F.Lookup(files, rs[i].path), rs[i]);
    }
  }

  /** Such a cycle finds every file and service as desired, and changes nothing. */
  lemma ConvergedMeansDesired(s: Setting, m: Machine, spec: Spec)
    requires AllNoop(CycleActions(s, m, spec))
    ensures AsAsked(s, m, spec)
    ensures Passes(s, m, spec, PLUGINS, Enough(spec)).machine == m
  {
    var files := F.FileActions(s.host, m.files, spec.files);
    var services := S.ServiceActions(s.faults, m.units, spec.services);
    AllNoopSplits(files + services, if spec.certificates == [] then [] else s.certificates);
    AllNoopSplits(files, services);
    F.NoopsChangeNothing(s.host, m.files, spec.files);
    S.UnitsUnchanged(s.faults, m.units, spec.services);
    FullCycle(s, m, spec);
    AllDescribed(s.host, m.files, spec.files);
  }

  /** Whatever fails, and for any number of cycles, resources the manifest does not name are untouched. */
  lemma {:induction false} OtherFiles(s: Setting, m: Machine, spec: Spec, path: string, n: nat)
    requires forall i :: 0 <= i < |spec.files| ==> spec.files[i].path != path
    ensures F.Lookup(MachineAfter(s, m, spec, n).files, path) == F.Lookup(m.files, path)
  {
    if n > 0 {
      OtherFiles(s, m, spec, path, n - 1);
      F.Untouched(s.host, MachineAfter(s, m, spec, n - 1).files, spec.files, path);
    }
  }

  lemma {:induction false} OtherUnits(s: Setting, m: Machine, spec: Spec, name: string, n: nat)
    requires forall i :: 0 <= i < |spec.services| ==> spec.services[i].name != name
    ensures S.UnitOf(MachineAfter(s, m, spec, n).units, name) == S.UnitOf(m.units, name)
  {
    if n > 0 {
      OtherUnits(s, m, spec, name, n - 1);
      S.UnitsUntouched(s.faults, MachineAfter(s, m, spec, n - 1).units, spec.services, name);
    }
  }

  /**
    A cycle whose context is cancelled from the start changes nothing, and unless a certificate report carries an
    error its status is Converged all the same.
   */
  lemma {:induction false} CancelledLooksConverged(s: Setting, m: Machine, spec: Spec, ps: seq<Plugin>)
    requires !AnyError(s.certificates)
    ensures var pass := Passes(s, m, spec, ps, 0);
      pass.machine == m && pass.budget == 0 && !AnyError(pass.actions)
    decreases |ps|
  {
    if ps != [] {
      var before := Passes(s, m, spec, ps[..|ps| - 1], 0);
      CancelledLooksConverged(s, m, spec, ps[..|ps| - 1]);
      assert spec.files[..0] == [] && spec.services[..0] == [];
      var last := PluginPass(s, before.machine, spec, ps[|ps| - 1], before.budget);
      ErrorsAppended(before.actions, last.actions);
    }
  }
}
