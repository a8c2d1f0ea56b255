/** The reconcile loop: a manifest becomes specs, every spec goes to its plugin, and the reports become a status. */
module Reconcilers {
  import opened Prelude
  import opened Manifests
  import opened Actions
  import Files = FileManagers
  import opened AtomicWrites
  import opened FileSteps
  import Services = ServiceManagers

  datatype ResourceSpec =
    | FileSpec(file: FileResource)
    | ServiceSpec(service: ServiceResource)
    | CertificateSpec(certificate: CertificateResource)

  datatype Plugin = FilePlugin | ServicePlugin | CertificatePlugin

  predicate CanHandle(p: Plugin, s: ResourceSpec) {
    match p
    case FilePlugin => s.FileSpec?
    case ServicePlugin => s.ServiceSpec?
    case CertificatePlugin => s.CertificateSpec?
  }

  // ---- from manifest to specs ----

  datatype Diff = Diff(files: seq<ResourceSpec>, services: seq<ResourceSpec>, certificates: seq<ResourceSpec>)

  function DiffOf(m: Spec): Diff {
    Diff(seq(|m.files|, (i: nat) requires i < |m.files| => FileSpec(m.files[i])),
         seq(|m.services|, (i: nat) requires i < |m.services| => ServiceSpec(m.services[i])),
         seq(|m.certificates|, (i: nat) requires i < |m.certificates| => CertificateSpec(m.certificates[i])))
  }

  function AllSpecs(d: Diff): seq<ResourceSpec> {
    d.files + d.services + d.certificates
  }

  method MakeDiff(m: Spec) returns (d: Diff)
    ensures d == DiffOf(m)
  {
    var files, services, certificates := [], [], [];
    for i := 0 to |m.files|
      invariant files == DiffOf(m).files[..i]
    {
      files := files + [FileSpec(m.files[i])];
    }
    for i := 0 to |m.services|
      invariant services == DiffOf(m).services[..i]
    {
      services := services + [ServiceSpec(m.services[i])];
    }
    for i := 0 to |m.certificates|
      invariant certificates == DiffOf(m).certificates[..i]
    {
      certificates := certificates + [CertificateSpec(m.certificates[i])];
    }
    d := Diff(files, services, certificates);
  }

  /** The specs that a plugin is handed. */
  function Handled(p: Plugin, specs: seq<ResourceSpec>): (hs: seq<ResourceSpec>)
    ensures forall i :: 0 <= i < |hs| ==> CanHandle(p, hs[i])
    decreases |specs|
  {
    if specs == [] then []
    else Handled(p, specs[..|specs| - 1]) + if CanHandle(p, specs[|specs| - 1]) then [specs[|specs| - 1]] else []
  }

  lemma {:induction false} HandledSplits(p: Plugin, a: seq<ResourceSpec>, b: seq<ResourceSpec>)
    ensures Handled(p, a + b) == Handled(p, a) + Handled(p, b)
    decreases |b|
  {
    if b == [] {
      assert a + b == a;
    } else {
      assert (a + b)[..|a + b| - 1] == a + b[..|b| - 1];
      HandledSplits(p, a, b[..|b| - 1]);
    }
  }

  lemma {:induction false} HandledUniform(p: Plugin, specs: seq<ResourceSpec>)
    ensures (forall i :: 0 <= i < |specs| ==> CanHandle(p, specs[i])) ==> Handled(p, specs) == specs
    ensures (forall i :: 0 <= i < |specs| ==> !CanHandle(p, specs[i])) ==> Handled(p, specs) == []
    decreases |specs|
  {
    if specs != [] {
      HandledUniform(p, specs[..|specs| - 1]);
    }
  }

  lemma HandledKinds(m: Spec, p: Plugin)
    ensures var d := DiffOf(m);
      && Handled(p, d.files) == (if p.FilePlugin? then d.files else [])
      && Handled(p, d.services) == (if p.ServicePlugin? then d.services else [])
      && Handled(p, d.certificates) == (if p.CertificatePlugin? then d.certificates else [])
  {
    var d := DiffOf(m);
    HandledUniform(p, d.files);
    HandledUniform(p, d.services);
    HandledUniform(p, d.certificates);
  }

  function OfKind(d: Diff, p: Plugin): seq<ResourceSpec> {
    match p
    case FilePlugin => d.files
    case ServicePlugin => d.services
    case CertificatePlugin => d.certificates
  }

  /** Every spec goes to exactly one plugin: each gets all specs of its kind, in manifest order, and no other. */
  lemma DispatchedOnce(m: Spec, p: Plugin)
    ensures Handled(p, AllSpecs(DiffOf(m))) == OfKind(DiffOf(m), p)
  {
    var d := DiffOf(m);
    HandledSplits(p, d.files + d.services, d.certificates);
    HandledSplits(p, d.files, d.services);
    HandledKinds(m, p);
    OnlyOne(OfKind(d, p));
  }

  lemma OnlyOne<T>(s: seq<T>)
    ensures s + [] + [] == [] + s + [] == [] + [] + s == s
  {}

  // ---- the loop ----

  datatype Status = Converged | Error

  datatype Machine = Machine(files: map<string, File>, units: map<string, Services.Unit>)

  /**
    The certificate plugin is not part of this model: its reports are given. A budget says how many resources are
    handled before the context is cancelled.
   */
  datatype Setting = Setting(host: Host, faults: set<(string, Services.Call)>, certificates: seq<Action>)

  datatype Pass = Pass(machine: Machine, actions: seq<Action>, budget: nat)

  function FilePass(s: Setting, m: Machine, rs: seq<FileResource>, budget: nat): Pass {
    var n := Min(budget, |rs|);
    Pass(m.(files := Files.FilesAfter(s.host, m.files, rs[..n])),
         Files.FileActions(s.host, m.files, rs[..n])
         + if n < |rs| then [FileSteps.Report(rs[n], Skipped, [], "")] else [],
         budget - n)
  }

  function ServicePass(s: Setting, m: Machine, rs: seq<ServiceResource>, budget: nat): Pass {
    var n := Min(budget, |rs|);
    Pass(m.(units := Services.UnitsAfter(s.faults, m.units, rs[..n])),
         Services.ServiceActions(s.faults, m.units, rs[..n])
         + if n < |rs| then [Services.Report(rs[n], Skipped, [], "")] else [],
         budget - n)
  }

  /** What one plugin does with a manifest; without specs of its kind it is not called. */
  function PluginPass(s: Setting, m: Machine, spec: Spec, p: Plugin, budget: nat): Pass {
    match p
    case FilePlugin => FilePass(s, m, spec.files, budget)
    case ServicePlugin => ServicePass(s, m, spec.services, budget)
    case CertificatePlugin => Pass(m, if spec.certificates == [] then [] else s.certificates, budget)
  }

  /** What the plugins do one after the other. */
  function Passes(s: Setting, m: Machine, spec: Spec, ps: seq<Plugin>, budget: nat): Pass
    decreases |ps|
  {
    if ps == [] then Pass(m, [], budget)
    else
      var before := Passes(s, m, spec, ps[..|ps| - 1], budget);
      var last := PluginPass(s, before.machine, spec, ps[|ps| - 1], before.budget);
      last.(actions := before.actions + last.actions)
  }

  class Reconciler {
    const files: Files.FileManager
    const services: Services.ServiceManager
    var plugins: seq<Plugin>
    var desiredState: Option<Manifest>
    var reconcileCount: nat
    var status: Status
    var lastActions: seq<Action>

    constructor (files: Files.FileManager, services: Services.ServiceManager)
      ensures this.files == files && this.services == services && plugins == [] && desiredState == None
      ensures reconcileCount == 0 && status == Converged && lastActions == []
    {
      this.files, this.services, plugins, desiredState := files, services, [], None;
      reconcileCount, status, lastActions := 0, Converged, [];
    }

    function View(): Machine
      reads files, services
    {
      Machine(files.files, services.units)
    }

    function Surroundings(certificates: seq<Action>): Setting
      reads files, services
    {
      Setting(files.host, services.faults, certificates)
    }

    method RegisterPlugin(p: Plugin)
      modifies this`plugins
      ensures plugins == old(plugins) + [p]
    {
      plugins := plugins + [p];
    }

    method SetDesiredState(m: Manifest)
      modifies this`desiredState
      ensures desiredState == Some(m)
    {
      desiredState := Some(m);
    }

    method DispatchFiles(rs: seq<FileResource>, budget: nat) returns (actions: seq<Action>)
      requires rs != []
      modifies files`files, files`temps
      ensures var pass := FilePass(old(Surroundings([])), old(View()), rs, budget);
        View() == pass.machine && actions == pass.actions
    {
      actions := files.Reconcile(rs, budget);
    }

    method DispatchServices(rs: seq<ServiceResource>, budget: nat) returns (actions: seq<Action>)
      requires rs != []
      modifies services`units
      ensures var pass := ServicePass(old(Surroundings([])), old(View()), rs, budget);
        View() == pass.machine && actions == pass.actions
    {
      actions := services.Reconcile(rs, budget);
    }

    /** Selecting a plugin's specs and calling it, unless there are none. */
    method Dispatch(spec: Spec, p: Plugin, certificates: seq<Action>, budget: nat)
      returns (actions: seq<Action>, left: nat)
      modifies files`files, files`temps, services`units
      ensures Surroundings(certificates) == old(Surroundings(certificates))
      ensures Pass(View(), actions, left) == PluginPass(old(Surroundings(certificates)), old(View()), spec, p, budget)
    {
      var mine := Select(spec, p);
      actions, left := [], budget;
      if mine == [] {
        NothingToDo(Surroundings(certificates), View(), spec, p, budget);
        return;
      }
      match p
      case FilePlugin =>
        Extracted(spec, p);
        actions := DispatchFiles(FilesIn(mine), budget);
        left := budget - Min(budget, |spec.files|);
      case ServicePlugin =>
        Extracted(spec, p);
        actions := DispatchServices(ServicesIn(mine), budget);
        left := budget - Min(budget, |spec.services|);
      case CertificatePlugin =>
        Extracted(spec, p);
        actions := certificates;
    }

    method Sweep(spec: Spec, certificates: seq<Action>, budget: nat) returns (all: seq<Action>, hasErrors: bool)
      modifies files`files, files`temps, services`units
      ensures var pass := Passes(old(Surroundings(certificates)), old(View()), spec, plugins, budget);
        View() == pass.machine && all == pass.actions
      ensures hasErrors == AnyError(all)
    {
      all, hasErrors := [], false;
      var left := budget;
      for k := 0 to |plugins|
        invariant Surroundings(certificates) == old(Surroundings(certificates))
        invariant Pass(View(), all, left) ==
          Passes(old(Surroundings(certificates)), old(View()), spec, plugins[..k], budget)
        invariant hasErrors == AnyError(all)
      {
        assert plugins[..k + 1][..k] == plugins[..k];
        var actions;
        actions, left := Dispatch(spec, plugins[k], certificates, left);
        var failed := HasErrors(actions);
        ErrorsAppended(all, actions);
        hasErrors := hasErrors || failed;
        all := all + actions;
      }
      assert plugins[..|plugins|] == plugins;
    }

    method ReconcileOnce(certificates: seq<Action>, budget: nat)
      modifies this`reconcileCount, this`status, this`lastActions, files`files, files`temps, services`units
      ensures reconcileCount == old(reconcileCount) + 1
      ensures desiredState == None ==> View() == old(View()) && lastActions == []
      ensures desiredState.Some? ==>
        var pass := Passes(old(Surroundings(certificates)), old(View()), desiredState.value.spec, plugins, budget);
        View() == pass.machine && lastActions == pass.actions
      ensures status == if AnyError(lastActions) then Error else Converged
    {
      reconcileCount := reconcileCount + 1;
      if desiredState.None? {
        status, lastActions := Converged, [];
        return;
      }
      var spec := desiredState.value.spec;
      if spec.files == [] && spec.services == [] && spec.certificates == [] {
        EmptyPasses(Surroundings(certificates), View(), spec, plugins, budget);
        status, lastActions := Converged, [];
        return;
      }
      var hasErrors;
      lastActions, hasErrors := Sweep(spec, certificates, budget);
      status := if hasErrors then Error else Converged;
    }
  }

  method Select(spec: Spec, p: Plugin) returns (mine: seq<ResourceSpec>)
    ensures mine == Handled(p, AllSpecs(DiffOf(spec)))
  {
    var diff := MakeDiff(spec);
    var all := AllSpecs(diff);
    mine := [];
    for i := 0 to |all|
      invariant mine == Handled(p, all[..i])
    {
      assert all[..i + 1][..i] == all[..i];
      if CanHandle(p, all[i]) {
        mine := mine + [all[i]];
      }
    }
    assert all[..|all|] == all;
  }

  method HasErrors(actions: seq<Action>) returns (failed: bool)
    ensures failed == AnyError(actions)
  {
    failed := false;
    for i := 0 to |actions|
      invariant failed == exists j :: 0 <= j < i && actions[j].error != ""
    {
      if actions[i].error != "" {
        failed := true;
      }
    }
  }

  lemma ErrorsAppended(a: seq<Action>, b: seq<Action>)
    ensures AnyError(a + b) <==> AnyError(a) || AnyError(b)
  {
    var all := a + b;
    forall i | 0 <= i < |a| && a[i].error != "" ensures AnyError(all) {
      assert all[i] == a[i];
    }
    forall i | 0 <= i < |b| && b[i].error != "" ensures AnyError(all) {
      assert all[|a| + i] == b[i];
    }
  }

  /** The resources that specs of one kind were made from. */
  function FilesIn(specs: seq<ResourceSpec>): seq<FileResource>
    requires forall i :: 0 <= i < |specs| ==> specs[i].FileSpec?
  {
    seq(|specs|, (i: nat) requires i < |specs| => specs[i].file)
  }

  function ServicesIn(specs: seq<ResourceSpec>): seq<ServiceResource>
    requires forall i :: 0 <= i < |specs| ==> specs[i].ServiceSpec?
  {
    seq(|specs|, (i: nat) requires i < |specs| => specs[i].service)
  }

  /** A plugin is handed exactly the manifest's resources of its kind, in order. */
  lemma Extracted(m: Spec, p: Plugin)
    ensures var mine := Handled(p, AllSpecs(DiffOf(m)));
      match p
      case FilePlugin => |mine| == |m.files| && FilesIn(mine) == m.files
      case ServicePlugin => |mine| == |m.services| && ServicesIn(mine) == m.services
      case CertificatePlugin => |mine| == |m.certificates|
  {
    DispatchedOnce(m, p);
    var d := DiffOf(m);
    match p
    case FilePlugin => assert FilesIn(d.files) == m.files;
    case ServicePlugin => assert ServicesIn(d.services) == m.services;
    case CertificatePlugin =>
  }

  lemma NothingToDo(s: Setting, m: Machine, spec: Spec, p: Plugin, budget: nat)
    requires Handled(p, AllSpecs(DiffOf(spec))) == []
    ensures PluginPass(s, m, spec, p, budget) == Pass(m, [], budget)
  {
    Extracted(spec, p);
  }

  lemma {:induction false} EmptyPasses(s: Setting, m: Machine, spec: Spec, ps: seq<Plugin>, budget: nat)
    requires spec.files == [] && spec.services == [] && spec.certificates == []
    ensures Passes(s, m, spec, ps, budget) == Pass(m, [], budget)
    decreases |ps|
  {
    if ps != [] {
      EmptyPasses(s, m, spec, ps[..|ps| - 1], budget);
    }
  }
}
