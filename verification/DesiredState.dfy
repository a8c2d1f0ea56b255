/** Manifests on their way from the controller's table through an unreliable network to the agent's memory and disk. */
module DesiredState {
  import opened Prelude
  import opened Manifests

  /** One device's rows in the controller: a manifest exists only beside its device. */
  datatype Desk = Desk(registered: bool, manifest: Option<Manifest>)

  /** The manifest that saving a spec stores; without a device the insert fails. */
  function Saved(d: Desk, spec: Spec): Desk {
    match d.manifest
    case Some(m) => d.(manifest := Some(Manifest(m.version + 1, spec)))
    case None => if d.registered then d.(manifest := Some(Manifest(1, spec))) else d
  }

  function Removed(d: Desk): Desk {
    if d.registered then Desk(false, None) else d
  }

  /** What a heartbeat reporting the given version makes the controller push. */
  function Push(d: Desk, reported: nat): Option<Manifest> {
    if d.registered && d.manifest.Some? && d.manifest.value.version > reported then d.manifest else None
  }

  /** What the agent holds, in the reconciler and in its database. */
  datatype Device = Device(memory: Option<Manifest>, disk: Option<Manifest>)

  function VersionOf(m: Option<Manifest>): nat {
    match m case Some(x) => x.version case None => 0
  }

  function Received(a: Device, m: Manifest, saves: bool): Device {
    Device(Some(m), if saves then Some(m) else a.disk)
  }

  function Restarted(a: Device, loads: bool): Device {
    a.(memory := if loads then a.disk else None)
  }

  class DeviceRegistry {
    var devices: set<string>
    var manifests: map<string, Manifest>

    ghost predicate Valid()
      reads this
    {
      manifests.Keys <= devices
    }

    ghost function View(deviceId: string): Desk
      reads this
    {
      Desk(deviceId in devices, if deviceId in manifests then Some(manifests[deviceId]) else None)
    }

    constructor ()
      ensures Valid() && forall d :: View(d) == Desk(false, None)
    {
      devices, manifests := {}, map[];
    }

    method Register(deviceId: string)
      requires Valid()
      modifies this`devices
      ensures Valid() && View(deviceId) == old(View(deviceId)).(registered := true)
      ensures forall d :: d != deviceId ==> View(d) == old(View(d))
    {
      devices := devices + {deviceId};
    }

    method SaveManifest(deviceId: string, spec: Spec) returns (stored: Option<Manifest>)
      requires Valid()
      modifies this`manifests
      ensures Valid() && View(deviceId) == Saved(old(View(deviceId)), spec)
      ensures stored == if old(View(deviceId)).registered then View(deviceId).manifest else None
      ensures forall d :: d != deviceId ==> View(d) == old(View(d))
    {
      if deviceId in manifests {
        manifests := manifests[deviceId := Manifest(manifests[deviceId].version + 1, spec)];
      } else if deviceId in devices {
        manifests := manifests[deviceId := Manifest(1, spec)];
      } else {
        return None;
      }
      stored := Some(manifests[deviceId]);
    }

    method Remove(deviceId: string) returns (removed: bool)
      requires Valid()
      modifies this
      ensures Valid() && View(deviceId) == Removed(old(View(deviceId)))
      ensures removed == old(View(deviceId)).registered
      ensures forall d :: d != deviceId ==> View(d) == old(View(d))
    {
      if deviceId !in devices {
        return false;
      }
      manifests := manifests - {deviceId};
      devices := devices - {deviceId};
      removed := true;
    }
  }

  /** Whitespace only, on ASCII. */
  predicate Blank(s: string) {
    forall i :: 0 <= i < |s| ==> s[i] == ' ' || '\t' <= s[i] <= '\r' || 28 <= s[i] as int <= 31
  }

  class HeartbeatListener {
    const registry: DeviceRegistry
    var published: seq<(string, Manifest)>

    constructor (registry: DeviceRegistry)
      ensures this.registry == registry && published == []
    {
      this.registry, published := registry, [];
    }

    /** A heartbeat with a blank device id is dropped; a publish the broker refuses is only logged. */
    method OnHeartbeat(deviceId: string, reported: nat, accepted: bool)
      modifies this`published
      ensures var push := if Blank(deviceId) || !accepted then None else Push(registry.View(deviceId), reported);
        published == old(published) + if push.Some? then [(deviceId, push.value)] else []
      ensures (exists i :: 0 <= i < |deviceId| && deviceId[i] > ' ') && deviceId in registry.devices && accepted ==>
        published == old(published) +
          if deviceId in registry.manifests && registry.manifests[deviceId].version > reported
          then [(deviceId, registry.manifests[deviceId])] else []
      ensures (forall i :: 0 <= i < |deviceId| ==>
                 deviceId[i] == ' ' || 9 <= deviceId[i] as int <= 13 || 28 <= deviceId[i] as int <= 31) ==>
        published == old(published)
    {
      if Blank(deviceId) || deviceId !in registry.devices {
        return;
      }
      if deviceId in registry.manifests && registry.manifests[deviceId].version > reported && accepted {
        published := published + [(deviceId, registry.manifests[deviceId])];
      }
    }
  }

  class DesiredStateKeeper {
    var memory: Option<Manifest>
    var disk: Option<Manifest>

    ghost function View(): Device
      reads this
    {
      Device(memory, disk)
    }

    /** A starting agent finds what its database holds. */
    constructor (stored: Option<Manifest>, loads: bool)
      ensures View() == Restarted(Device(None, stored), loads)
    {
      memory := if loads then stored else None;
      disk := stored;
    }

    method OnDesiredState(m: Manifest, saves: bool)
      modifies this
      ensures View() == Received(old(View()), m, saves)
    {
      memory := Some(m);
      if saves {
        disk := Some(m);
      }
    }

    method ManifestVersion() returns (v: nat)
      ensures v == VersionOf(View().memory)
    {
      v := if memory.Some? then memory.value.version else 0;
    }
  }

  /**
    The whole system for one device. Messages ever sent stay available, so that handling them in any order, any
    number of times or never is delay, reordering, duplication and loss. The log lists every manifest stored.
   */
  datatype World = World(desk: Desk, agent: Device, beats: seq<nat>, pushes: seq<Manifest>, log: seq<Manifest>)

  datatype Step =
    | Enrol
    | Save(spec: Spec)
    | Remove
    | Beat
    | Heartbeat(beat: nat)
    | Deliver(push: nat, saves: bool)
    | Restart(loads: bool)

  function Next(w: World, s: Step): World {
    match s
    case Enrol => w.(desk := w.desk.(registered := true))
    case Save(spec) =>
      var d := Saved(w.desk, spec);
      w.(desk := d, log := w.log + if d == w.desk then [] else [d.manifest.value])
    case Remove => w.(desk := Removed(w.desk))
    case Beat => w.(beats := w.beats + [VersionOf(w.agent.memory)])
    case Heartbeat(i) =>
      if i >= |w.beats| then w else
      var push := Push(w.desk, w.beats[i]);
      w.(pushes := w.pushes + if push.Some? then [push.value] else [])
    case Deliver(i, saves) =>
      if i >= |w.pushes| then w else w.(agent := Received(w.agent, w.pushes[i], saves))
    case Restart(loads) => w.(agent := Restarted(w.agent, loads))
  }

  function After(w: World, steps: seq<Step>): World
    decreases |steps|
  {
    if steps == [] then w else After(Next(w, steps[0]), steps[1..])
  }

  function Start(): World {
    World(Desk(false, None), Device(None, None), [], [], [])
  }

  // ---- provenance ----

  predicate Stored(w: World, m: Option<Manifest>) {
    m.Some? ==> m.value in w.log
  }

  /** Nothing is held or in flight that was not stored. */
  predicate Traced(w: World) {
    && (w.desk.manifest.Some? ==> w.desk.registered)
    && Stored(w, w.desk.manifest) && Stored(w, w.agent.memory) && Stored(w, w.agent.disk)
    && forall i :: 0 <= i < |w.pushes| ==> w.pushes[i] in w.log
  }

  /** The log numbers its manifests from 1 and the desk holds the last. */
  predicate Numbered(w: World) {
    && (forall i :: 0 <= i < |w.log| ==> w.log[i].version == i + 1)
    && w.desk.manifest == if w.log == [] then None else Some(w.log[|w.log| - 1])
  }

  predicate NoRemoval(steps: seq<Step>) {
    forall i :: 0 <= i < |steps| ==> !steps[i].Remove?
  }

  lemma TracedStep(w: World, s: Step)
    requires Traced(w)
    ensures Traced(Next(w, s)) && w.log <= Next(w, s).log
  {}

  lemma NumberedStep(w: World, s: Step)
    requires Numbered(w) && Traced(w) && !s.Remove?
    ensures Numbered(Next(w, s))
  {}

  lemma {:induction false} TracedRun(w: World, steps: seq<Step>)
    requires Traced(w)
    ensures Traced(After(w, steps))
    ensures Numbered(w) && NoRemoval(steps) ==> Numbered(After(w, steps))
    decreases |steps|
  {
    if steps != [] {
      TracedStep(w, steps[0]);
      TracedRun(Next(w, steps[0]), steps[1..]);
      if Numbered(w) && NoRemoval(steps) {
        NumberedStep(w, steps[0]);
        assert forall i :: 0 <= i < |steps[1..]| ==> steps[1..][i] == steps[i + 1];
      }
    }
  }

  /** A manifest is what was stored under its version, which is at most the controller's. */
  predicate Faithful(w: World, m: Manifest) {
    1 <= m.version <= |w.log| && w.log[m.version - 1] == m
  }

  predicate FaithfulWorld(w: World) {
    && VersionOf(w.desk.manifest) == |w.log|
    && (w.agent.memory.Some? ==> Faithful(w, w.agent.memory.value))
    && (w.agent.disk.Some? ==> Faithful(w, w.agent.disk.value))
    && forall i :: 0 <= i < |w.pushes| ==> Faithful(w, w.pushes[i])
  }

  /**
    Whatever the network does, without removals every manifest in flight, in memory or on disk has the content
    stored as its version, and no version is above the controller's; with removals it was still stored some time.
   */
  lemma Provenance(steps: seq<Step>)
    ensures Traced(After(Start(), steps))
    ensures NoRemoval(steps) ==> FaithfulWorld(After(Start(), steps))
  {
    TracedRun(Start(), steps);
    var w := After(Start(), steps);
    if NoRemoval(steps) {
      forall m | m in w.log ensures Faithful(w, m) {
        var i :| 0 <= i < |w.log| && w.log[i] == m;
      }
    }
  }

  // ---- order ----

  /** Pushes reach the agent in the order they were sent, each any number of times, some never. */
  predicate InOrder(steps: seq<Step>, from: nat)
    decreases |steps|
  {
    steps == [] ||
    (if steps[0].Deliver? then steps[0].push >= from && InOrder(steps[1..], steps[0].push)
     else InOrder(steps[1..], from))
  }

  /** Reads and writes of the agent's database succeed. */
  predicate Durable(s: Step) {
    (s.Deliver? ==> s.saves) && (s.Restart? ==> s.loads)
  }

  predicate AllDurable(steps: seq<Step>) {
    forall i :: 0 <= i < |steps| ==> Durable(steps[i])
  }

  /** Pushes are sorted by version, and the agent is not ahead of any push still to come. */
  predicate Sorted(w: World, from: nat) {
    && (forall i, j :: 0 <= i <= j < |w.pushes| ==> w.pushes[i].version <= w.pushes[j].version)
    && (forall i :: from <= i < |w.pushes| ==> VersionOf(w.agent.memory) <= w.pushes[i].version)
    && (forall i :: 0 <= i < |w.pushes| ==> w.pushes[i].version <= VersionOf(w.desk.manifest))
    && VersionOf(w.agent.memory) <= VersionOf(w.desk.manifest)
    && w.agent.disk == w.agent.memory
  }

  function Horizon(s: Step, from: nat): nat {
    if s.Deliver? then s.push else from
  }

  lemma SortedStep(w: World, s: Step, from: nat)
    requires Sorted(w, from) && !s.Remove? && Durable(s) && Horizon(s, from) >= from
    ensures Sorted(Next(w, s), Horizon(s, from))
    ensures VersionOf(w.agent.memory) <= VersionOf(Next(w, s).agent.memory)
  {}

  /** With in-order delivery and a working database the agent's version never goes down. */
  lemma {:induction false} NeverGoesBack(w: World, steps: seq<Step>, from: nat)
    requires Sorted(w, from) && NoRemoval(steps) && AllDurable(steps) && InOrder(steps, from)
    ensures VersionOf(w.agent.memory) <= VersionOf(After(w, steps).agent.memory)
    decreases |steps|
  {
    if steps != [] {
      assert forall i :: 0 <= i < |steps[1..]| ==> steps[1..][i] == steps[i + 1];
      SortedStep(w, steps[0], from);
      NeverGoesBack(Next(w, steps[0]), steps[1..], Horizon(steps[0], from));
    }
  }

  lemma {:induction false} ForwardFrom(w: World, steps: seq<Step>, from: nat, k: nat)
    requires Sorted(w, from) && NoRemoval(steps) && AllDurable(steps) && InOrder(steps, from) && k <= |steps|
    ensures VersionOf(After(w, steps[..k]).agent.memory) <= VersionOf(After(w, steps).agent.memory)
    decreases |steps|
  {
    if k == 0 {
      NeverGoesBack(w, steps, from);
    } else {
      assert forall i :: 0 <= i < |steps[1..]| ==> steps[1..][i] == steps[i + 1];
      assert steps[..k][1..] == steps[1..][..k - 1] && steps[..k][0] == steps[0];
      SortedStep(w, steps[0], from);
      ForwardFrom(Next(w, steps[0]), steps[1..], Horizon(steps[0], from), k - 1);
    }
  }

  /** Between any point of such a run and its end, whatever was lost, repeated or delayed on the way. */
  lemma MovesForward(steps: seq<Step>, k: nat)
    requires NoRemoval(steps) && AllDurable(steps) && InOrder(steps, 0) && k <= |steps|
    ensures VersionOf(After(Start(), steps[..k]).agent.memory) <= VersionOf(After(Start(), steps).agent.memory)
  {
    ForwardFrom(Start(), steps, 0, k);
  }

  // ---- convergence ----

  predicate NoEdits(steps: seq<Step>) {
    forall i :: 0 <= i < |steps| ==> !steps[i].Save? && !steps[i].Remove?
  }

  /** Only heartbeats and pushes sent after the given points are still handled: the older ones have drained. */
  predicate Drained(steps: seq<Step>, beat: nat, push: nat) {
    forall i :: 0 <= i < |steps| ==>
      (steps[i].Heartbeat? ==> steps[i].beat >= beat) && (steps[i].Deliver? ==> steps[i].push >= push)
  }

  /** Everything still to be handled speaks of the controller's manifest, which the agent holds. */
  predicate Settled(w: World, beat: nat, push: nat) {
    && w.desk.manifest.Some?
    && w.agent == Device(w.desk.manifest, w.desk.manifest)
    && (forall i :: beat <= i < |w.beats| ==> w.beats[i] == w.desk.manifest.value.version)
    && (forall i :: push <= i < |w.pushes| ==> w.pushes[i] == w.desk.manifest.value)
  }

  /**
    After the last edit and once older messages have drained, one heartbeat handled and its push delivered leave
    the agent with exactly the controller's manifest; nothing is pushed when it already had it.
   */
  lemma OneHeartbeat(before: seq<Step>)
    requires NoRemoval(before) && After(Start(), before).desk.manifest.Some?
    ensures var w := After(Start(), before);
      var w' := After(w, [Beat, Heartbeat(|w.beats|), Deliver(|w.pushes|, true)]);
      && w'.agent.memory == w.desk.manifest
      && (|w'.pushes| > |w.pushes| <==> w.agent.memory != w.desk.manifest)
      && (w.agent.memory != w.desk.manifest || w.agent.disk == w.desk.manifest ==>
            Settled(w', |w.beats| + 1, |w.pushes|))
  {
    TracedRun(Start(), before);
    Provenance(before);
    var w := After(Start(), before);
    var w1 := Next(w, Beat);
    var w2 := Next(w1, Heartbeat(|w.beats|));
    var w3 := Next(w2, Deliver(|w.pushes|, true));
    var steps := [Beat, Heartbeat(|w.beats|), Deliver(|w.pushes|, true)];
    assert steps[1..] == [Heartbeat(|w.beats|), Deliver(|w.pushes|, true)];
    assert steps[1..][1..] == [Deliver(|w.pushes|, true)];
    assert After(w, steps) == After(w1, steps[1..]) == After(w2, steps[1..][1..]) == After(w3, []);
  }

  lemma SettledStep(w: World, s: Step, beat: nat, push: nat)
    requires Settled(w, beat, push) && !s.Save? && !s.Remove? && Durable(s)
    requires (s.Heartbeat? ==> s.beat >= beat) && (s.Deliver? ==> s.push >= push)
    ensures Settled(Next(w, s), beat, push) && Next(w, s).desk.manifest == w.desk.manifest
    ensures Next(w, s).pushes == w.pushes
  {}

  /** From then on no heartbeat causes a push and the agent keeps that manifest, restarts included. */
  lemma {:induction false} StaysSettled(w: World, steps: seq<Step>, beat: nat, push: nat)
    requires Settled(w, beat, push) && NoEdits(steps) && AllDurable(steps) && Drained(steps, beat, push)
    ensures After(w, steps).pushes == w.pushes && After(w, steps).agent == w.agent
    decreases |steps|
  {
    if steps != [] {
      assert forall i :: 0 <= i < |steps[1..]| ==> steps[1..][i] == steps[i + 1];
      SettledStep(w, steps[0], beat, push);
      StaysSettled(Next(w, steps[0]), steps[1..], beat, push);
    }
  }

  // ---- what removal breaks ----

  function Saves(specs: seq<Spec>): (steps: seq<Step>)
    ensures |steps| == |specs|
  {
    if specs == [] then [] else [Save(specs[0])] + Saves(specs[1..])
  }

  /** Saving changes nothing but the desk, where it counts up from the version it found. */
  predicate SavedUp(w: World, w': World, specs: seq<Spec>)
    requires specs != []
  {
    && w'.agent == w.agent && w'.beats == w.beats && w'.pushes == w.pushes
    && w'.desk == Desk(true, Some(Manifest(VersionOf(w.desk.manifest) + |specs|, specs[|specs| - 1])))
  }

  lemma SavedOnce(w: World, spec: Spec)
    requires w.desk.registered
    ensures SavedUp(w, Next(w, Save(spec)), [spec])
  {}

  lemma SavedThen(w: World, w1: World, w': World, specs: seq<Spec>)
    requires |specs| > 1 && SavedUp(w, w1, [specs[0]]) && SavedUp(w1, w', specs[1..])
    ensures SavedUp(w, w', specs)
  {}

  lemma {:induction false} SavesCount(w: World, specs: seq<Spec>)
    requires w.desk.registered && specs != []
    ensures SavedUp(w, After(w, Saves(specs)), specs)
    decreases |specs|
  {
    var w1 := Next(w, Save(specs[0]));
    SavedOnce(w, specs[0]);
    assert Saves(specs)[0] == Save(specs[0]) && Saves(specs)[1..] == Saves(specs[1..]);
    assert After(w, Saves(specs)) == After(w1, Saves(specs[1..]));
    if |specs| > 1 {
      SavesCount(w1, specs[1..]);
      SavedThen(w, w1, After(w1, Saves(specs[1..])), specs);
    } else {
      assert specs == [specs[0]];
    }
  }

  /**
    A device that is removed and enrolled again starts over at version 1. An agent still holding version v then
    gets a push for its heartbeat if and only if more than v manifests have been saved since.
   */
  lemma RemovalStalls(w: World, specs: seq<Spec>)
    requires Traced(w) && specs != []
    ensures var w1 := After(Next(Next(w, Remove), Enrol), Saves(specs));
      var w2 := Next(Next(w1, Beat), Heartbeat(|w.beats|));
      |w2.pushes| > |w.pushes| <==> |specs| > VersionOf(w.agent.memory)
  {
    var w0 := Next(Next(w, Remove), Enrol);
    SavesCount(w0, specs);
    assert w0.agent == w.agent && w0.beats == w.beats && w0.pushes == w.pushes;
    assert VersionOf(w0.desk.manifest) == 0;
  }

  /** So an agent can keep another content than the one the controller has under the same version. */
  lemma SameVersionOtherContent(a: Spec, b: Spec)
    requires a != b
    ensures exists steps :: var w := After(Start(), steps);
      w.desk.manifest == Some(Manifest(1, b)) && w.agent.memory == Some(Manifest(1, a))
  {
    var steps := [Enrol, Save(a), Beat, Heartbeat(0), Deliver(0, true), Remove, Enrol, Save(b)];
    var w3 := Next(Next(Next(Start(), Enrol), Save(a)), Beat);
    assert After(Start(), steps) == After(w3, steps[3..]) by { Unfold3(Start(), steps); }
    var w6 := Next(Next(Next(w3, Heartbeat(0)), Deliver(0, true)), Remove);
    assert After(w3, steps[3..]) == After(w6, steps[6..]) by {
      Unfold3(w3, steps[3..]);
      assert steps[3..][3..] == steps[6..];
    }
    var w8 := Next(Next(w6, Enrol), Save(b));
    assert After(w6, steps[6..]) == w8 by {
      assert steps[6..] == [Enrol, Save(b)] && steps[6..][1..] == [Save(b)] && [Save(b)][1..] == [];
      assert After(w6, steps[6..]) == After(Next(w6, Enrol), [Save(b)]);
      assert After(Next(w6, Enrol), [Save(b)]) == After(w8, []);
    }
  }

  lemma Unfold3(w: World, steps: seq<Step>)
    requires |steps| >= 3
    ensures After(w, steps) == After(Next(Next(Next(w, steps[0]), steps[1]), steps[2]), steps[3..])
  {
    assert steps[1..][1..] == steps[2..] && steps[2..][1..] == steps[3..];
    assert After(w, steps) == After(Next(w, steps[0]), steps[1..]);
    assert After(Next(w, steps[0]), steps[1..]) == After(Next(Next(w, steps[0]), steps[1]), steps[2..]);
  }
}
