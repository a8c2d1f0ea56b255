/** The service plugin: reconciling services through an executor whose calls may fail. */
module ServiceManagers {
  import opened Prelude
  import opened Manifests
  import opened Actions

  const SERVICE_MANAGER := "service_manager"

  datatype Unit = Unit(active: bool, enabled: bool)
  datatype Call = IsActive | IsEnabled | Start | Stop | Enable | Disable

  function UnitOf(units: map<string, Unit>, name: string): Unit {
    if name in units then units[name] else Unit(false, false)
  }

  function PutUnit(units: map<string, Unit>, name: string, u: Unit): map<string, Unit> {
    if u == UnitOf(units, name) then units else units[name := u]
  }

  // ---- one service ----

  /** Any state but "running" asks for a stop and any enablement but "true" for disabling; empty asks for nothing. */
  function Wanted(u: Unit, r: ServiceResource): Unit {
    Unit(if r.state == "" then u.active else r.state == "running",
         if r.enabled == "" then u.enabled else r.enabled == "true")
  }

  function Report(r: ServiceResource, t: ActionType, changes: seq<string>, error: string): Action {
    Action(SERVICE_MANAGER, r.name, t, changes, error)
  }

  function RunCall(u: Unit, r: ServiceResource): Option<Call> {
    if u.active == Wanted(u, r).active then None else if u.active then Some(Stop) else Some(Start)
  }

  function EnableCall(u: Unit, r: ServiceResource): Option<Call> {
    if u.enabled == Wanted(u, r).enabled then None else if u.enabled then Some(Disable) else Some(Enable)
  }

  function Effect(u: Unit, c: Call): Unit {
    match c
    case Start => u.(active := true)
    case Stop => u.(active := false)
    case Enable => u.(enabled := true)
    case Disable => u.(enabled := false)
    case _ => u
  }

  function Past(c: Call): string {
    match c
    case Start => "started"
    case Stop => "stopped"
    case Enable => "enabled"
    case Disable => "disabled"
    case IsActive => "check active state"
    case IsEnabled => "check enabled state"
  }

  /** Half of a cycle: the unit it leaves, what it changed, and the report that ends the cycle if a call failed. */
  datatype Half = Half(unit: Unit, changes: seq<string>, failed: Option<Action>)

  function Attempt(faults: set<(string, Call)>, u: Unit, r: ServiceResource, check: Call, c: Option<Call>): Half {
    if (r.name, check) in faults then Half(u, [], Some(Report(r, Skipped, [], Past(check))))
    else match c
    case None => Half(u, [], None)
    case Some(x) =>
      if (r.name, x) in faults then Half(u, [], Some(Report(r, Update, [], Past(x))))
      else Half(Effect(u, x), [Past(x)], None)
  }

  function RunHalf(faults: set<(string, Call)>, u: Unit, r: ServiceResource): Half {
    if r.state == "" then Half(u, [], None) else Attempt(faults, u, r, IsActive, RunCall(u, r))
  }

  function EnableHalf(faults: set<(string, Call)>, u: Unit, r: ServiceResource): Half {
    if r.enabled == "" then Half(u, [], None) else Attempt(faults, u, r, IsEnabled, EnableCall(u, r))
  }

  datatype Outcome = Outcome(unit: Unit, action: Action)

  function Cycle(faults: set<(string, Call)>, u: Unit, r: ServiceResource): Outcome {
    if r.name == "" then Outcome(u, Report(r, Skipped, [], "empty service name"))
    else
      var run := RunHalf(faults, u, r);
      if run.failed.Some? then Outcome(run.unit, run.failed.value)
      else
        var enable := EnableHalf(faults, run.unit, r);
        if enable.failed.Some? then Outcome(enable.unit, enable.failed.value)
        else
          var changes := run.changes + enable.changes;
          Outcome(enable.unit, Report(r, if changes == [] then Noop else Update, changes, ""))
  }

  predicate Fails(faults: set<(string, Call)>, r: ServiceResource, c: Option<Call>) {
    c.Some? && (r.name, c.value) in faults
  }

  /** A half reaches its goal, telling whether there was anything to do, or leaves the unit and reports an error. */
  predicate Halfway(h: Half, u: Unit, goal: Unit, refused: bool) {
    && (h.failed.Some? <==> refused)
    && (h.failed.None? ==> h.unit == goal && (h.changes == [] <==> u == goal))
    && (h.failed.Some? ==> h.unit == u && h.failed.value.error != "" && h.failed.value.actionType != Noop)
  }

  predicate RunRefused(faults: set<(string, Call)>, u: Unit, r: ServiceResource) {
    r.state != "" && (Fails(faults, r, Some(IsActive)) || Fails(faults, r, RunCall(u, r)))
  }

  predicate EnableRefused(faults: set<(string, Call)>, u: Unit, r: ServiceResource) {
    r.enabled != "" && (Fails(faults, r, Some(IsEnabled)) || Fails(faults, r, EnableCall(u, r)))
  }

  /** A call this service needs is refused. */
  predicate Refused(faults: set<(string, Call)>, u: Unit, r: ServiceResource) {
    RunRefused(faults, u, r) || EnableRefused(faults, u, r)
  }

  lemma PastNotEmpty(c: Call)
    ensures |Past(c)| > 0
  {}

  lemma Attempted(faults: set<(string, Call)>, u: Unit, r: ServiceResource, check: Call, c: Option<Call>)
    requires c.Some? ==> Effect(u, c.value) != u
    ensures Halfway(Attempt(faults, u, r, check, c), u, if c.Some? then Effect(u, c.value) else u,
                    Fails(faults, r, Some(check)) || Fails(faults, r, c))
  {
    PastNotEmpty(check);
    if c.Some? {
      PastNotEmpty(c.value);
    }
  }

  lemma RunHalfway(faults: set<(string, Call)>, u: Unit, r: ServiceResource)
    ensures Halfway(RunHalf(faults, u, r), u, Unit(Wanted(u, r).active, u.enabled), RunRefused(faults, u, r))
  {
    Attempted(faults, u, r, IsActive, RunCall(u, r));
  }

  lemma EnableHalfway(faults: set<(string, Call)>, u: Unit, r: ServiceResource)
    ensures Halfway(EnableHalf(faults, u, r), u, Unit(u.active, Wanted(u, r).enabled), EnableRefused(faults, u, r))
  {
    Attempted(faults, u, r, IsEnabled, EnableCall(u, r));
  }

  /** What one cycle promises about a named service. */
  predicate Achieved(faults: set<(string, Call)>, u: Unit, r: ServiceResource, o: Outcome) {
    && (o.action.error == "" <==> r.name != "" && !Refused(faults, u, r))
    && (o.action.error == "" ==> o.unit == Wanted(u, r))
    && (o.action.actionType == Noop <==> o.action.error == "" && u == Wanted(u, r))
  }

  /**
    One cycle is enough: it ends without error, in the wanted state, exactly when the service has a name and no
    call it needs is refused; it does nothing exactly when the state already was the wanted one. Whatever fails,
    each half of the state is the old or the wanted one, and enablement moves only after the run state.
   */
  lemma OneCycle(faults: set<(string, Call)>, u: Unit, r: ServiceResource)
    ensures Achieved(faults, u, r, Cycle(faults, u, r))
    ensures var v, w := Cycle(faults, u, r).unit, Wanted(u, r);
      v == u || v == Unit(w.active, u.enabled) || v == w
  {
    var run := RunHalf(faults, u, r);
    RunHalfway(faults, u, r);
    if run.failed.None? {
      EnableHalfway(faults, run.unit, r);
      assert EnableRefused(faults, run.unit, r) == EnableRefused(faults, u, r);
      assert Wanted(run.unit, r) == Wanted(u, r);
    }
  }

  // ---- in the words of the manifest ----

  /** The service is as the resource says: "running" means active, any other state inactive; and so for enabled. */
  predicate AsSaid(u: Unit, r: ServiceResource) {
    && (r.state == "running" ==> u.active) && (r.state != "" && r.state != "running" ==> !u.active)
    && (r.enabled == "true" ==> u.enabled) && (r.enabled != "" && r.enabled != "true" ==> !u.enabled)
  }

  /** What is wanted is what the resource says, and what it does not speak of stays. */
  lemma WantedMeans(u: Unit, r: ServiceResource)
    ensures AsSaid(Wanted(u, r), r)
    ensures r.state == "" ==> Wanted(u, r).active == u.active
    ensures r.enabled == "" ==> Wanted(u, r).enabled == u.enabled
    ensures u == Wanted(u, r) <==> AsSaid(u, r)
  {}

  /** A call is needed exactly where the service is not as the resource says. */
  lemma CallsMean(u: Unit, r: ServiceResource)
    ensures r.state != "" ==>
      RunCall(u, r) == if r.state == "running" && !u.active then Some(Start)
                       else if r.state != "running" && u.active then Some(Stop)
                       else None
    ensures r.enabled != "" ==>
      EnableCall(u, r) == if r.enabled == "true" && !u.enabled then Some(Enable)
                          else if r.enabled != "true" && u.enabled then Some(Disable)
                          else None
  {}

  /**
    A report without an error leaves a service active for the state "running", inactive for any other state and as it
    was for none, and likewise for enabled; Noop is reported exactly if it was so before. Whatever fails, no half of the
    state is changed to anything else.
   */
  lemma CycleMeans(faults: set<(string, Call)>, u: Unit, r: ServiceResource)
    ensures var o := Cycle(faults, u, r);
      && (o.action.error == "" && r.state == "running" ==> o.unit.active)
      && (o.action.error == "" && r.state != "" && r.state != "running" ==> !o.unit.active)
      && (r.state == "" ==> o.unit.active == u.active)
      && (o.action.error == "" && r.enabled == "true" ==> o.unit.enabled)
      && (o.action.error == "" && r.enabled != "" && r.enabled != "true" ==> !o.unit.enabled)
      && (r.enabled == "" ==> o.unit.enabled == u.enabled)
      && (o.unit.active != u.active ==> o.unit.active == (r.state == "running"))
      && (o.unit.enabled != u.enabled ==> o.unit.enabled == (r.enabled == "true"))
      && (o.action.actionType == Noop <==> o.action.error == "" && AsSaid(u, r))
  {
    OneCycle(faults, u, r);
    WantedMeans(u, r);
  }

  lemma RunChanges(faults: set<(string, Call)>, u: Unit, r: ServiceResource)
    ensures var h := RunHalf(faults, u, r);
      && h.unit.enabled == u.enabled
      && (h.failed.None? ==>
            h.changes == if h.unit.active == u.active then [] else if h.unit.active then ["started"] else ["stopped"])
      && (h.failed.Some? ==> h.failed.value.error != "")
  {
    RunHalfway(faults, u, r);
    CallsMean(u, r);
  }

  lemma EnableChanges(faults: set<(string, Call)>, u: Unit, r: ServiceResource)
    ensures var h := EnableHalf(faults, u, r);
      && h.unit.active == u.active
      && (h.failed.None? ==>
            h.changes ==
              if h.unit.enabled == u.enabled then [] else if h.unit.enabled then ["enabled"] else ["disabled"])
      && (h.failed.Some? ==> h.failed.value.error != "")
  {
    EnableHalfway(faults, u, r);
    CallsMean(u, r);
  }

  /** An error-free report lists what the cycle changed, run state first. */
  lemma ReportsChanges(faults: set<(string, Call)>, u: Unit, r: ServiceResource)
    requires Cycle(faults, u, r).action.error == ""
    ensures var v, a := Cycle(faults, u, r).unit, Cycle(faults, u, r).action;
      && a.resource == r.name && (a.actionType == Noop || a.actionType == Update)
      && a.changes == (if v.active == u.active then [] else if v.active then ["started"] else ["stopped"]) +
                      (if v.enabled == u.enabled then [] else if v.enabled then ["enabled"] else ["disabled"])
  {
    RunChanges(faults, u, r);
    EnableChanges(faults, RunHalf(faults, u, r).unit, r);
  }

  // ---- a whole manifest ----

  function UnitsAfter(faults: set<(string, Call)>, units: map<string, Unit>, rs: seq<ServiceResource>)
    : map<string, Unit>
    decreases |rs|
  {
    if rs == [] then units
    else
      var d, r := UnitsAfter(faults, units, rs[..|rs| - 1]), rs[|rs| - 1];
      PutUnit(d, r.name, Cycle(faults, UnitOf(d, r.name), r).unit)
  }

  function ServiceActions(faults: set<(string, Call)>, units: map<string, Unit>, rs: seq<ServiceResource>)
    : (actions: seq<Action>)
    ensures |actions| == |rs|
    decreases |rs|
  {
    if rs == [] then []
    else
      var d, r := UnitsAfter(faults, units, rs[..|rs| - 1]), rs[|rs| - 1];
      ServiceActions(faults, units, rs[..|rs| - 1]) + [Cycle(faults, UnitOf(d, r.name), r).action]
  }

  class ServiceManager {
    var faults: set<(string, Call)>
    var units: map<string, Unit>

    constructor (faults: set<(string, Call)>, units: map<string, Unit>)
      ensures this.faults == faults && this.units == units
    {
      this.faults, this.units := faults, units;
    }

    /** The executor: a call that changes the unit, or fails. */
    method Execute(name: string, c: Call) returns (ok: bool)
      modifies this`units
      ensures ok == ((name, c) !in faults)
      ensures units == if ok then PutUnit(old(units), name, Effect(UnitOf(old(units), name), c)) else old(units)
    {
      ok := (name, c) !in faults;
      if ok {
        var u := UnitOf(units, name);
        if Effect(u, c) != u {
          units := units[name := Effect(u, c)];
        }
      }
    }

    method Try(r: ServiceResource, check: Call, c: Option<Call>) returns (changes: seq<string>, failed: Option<Action>)
      modifies this`units
      ensures var h := Attempt(faults, UnitOf(old(units), r.name), r, check, c);
        changes == h.changes && failed == h.failed && units == PutUnit(old(units), r.name, h.unit)
    {
      changes, failed := [], None;
      if (r.name, check) in faults {
        failed := Some(Report(r, Skipped, [], Past(check)));
        return;
      }
      if c.Some? {
        var ok := Execute(r.name, c.value);
        if !ok {
          failed := Some(Report(r, Update, [], Past(c.value)));
          return;
        }
        changes := [Past(c.value)];
      }
    }

    method ReconcileRunning(r: ServiceResource) returns (changes: seq<string>, failed: Option<Action>)
      modifies this`units
      ensures var h := RunHalf(faults, UnitOf(old(units), r.name), r);
        changes == h.changes && failed == h.failed && units == PutUnit(old(units), r.name, h.unit)
    {
      if r.state == "" {
        return [], None;
      }
      var active := UnitOf(units, r.name).active;
      var wantRunning := r.state == "running";
      var c := if wantRunning && !active then Some(Start) else if !wantRunning && active then Some(Stop) else None;
      changes, failed := Try(r, IsActive, c);
    }

    method ReconcileEnabled(r: ServiceResource) returns (changes: seq<string>, failed: Option<Action>)
      modifies this`units
      ensures var h := EnableHalf(faults, UnitOf(old(units), r.name), r);
        changes == h.changes && failed == h.failed && units == PutUnit(old(units), r.name, h.unit)
    {
      if r.enabled == "" {
        return [], None;
      }
      var enabled := UnitOf(units, r.name).enabled;
      var wantEnabled := r.enabled == "true";
      var c := if wantEnabled && !enabled then Some(Enable)
               else if !wantEnabled && enabled then Some(Disable)
               else None;
      changes, failed := Try(r, IsEnabled, c);
    }

    method ReconcileService(r: ServiceResource) returns (a: Action)
      modifies this`units
      ensures var o := Cycle(faults, UnitOf(old(units), r.name), r);
        a == o.action && units == PutUnit(old(units), r.name, o.unit)
      ensures a.error == "" ==> AsSaid(UnitOf(units, r.name), r)
    {
      CycleMeans(faults, UnitOf(units, r.name), r);
      if r.name == "" {
        return Report(r, Skipped, [], "empty service name");
      }
      var changes, failed := ReconcileRunning(r);
      if failed.Some? {
        return failed.value;
      }
      var more;
      more, failed := ReconcileEnabled(r);
      if failed.Some? {
        return failed.value;
      }
      changes := changes + more;
      a := Report(r, if changes == [] then Noop else Update, changes, "");
    }

    method Reconcile(rs: seq<ServiceResource>, budget: nat) returns (actions: seq<Action>)
      modifies this`units
      ensures units == UnitsAfter(faults, old(units), rs[..if budget < |rs| then budget else |rs|])
      ensures actions == ServiceActions(faults, old(units), rs[..if budget < |rs| then budget else |rs|]) +
                if budget < |rs| then [Report(rs[budget], Skipped, [], "")] else []
    {
      actions := [];
      for i := 0 to |rs|
        invariant i <= budget
        invariant units == UnitsAfter(faults, old(units), rs[..i])
        invariant actions == ServiceActions(faults, old(units), rs[..i])
      {
        if i == budget {
          actions := actions + [Report(rs[i], Skipped, [], "")];
          return;
        }
        assert rs[..i + 1][..i] == rs[..i];
        var a := ReconcileService(rs[i]);
        actions := actions + [a];
      }
    }
  }

  predicate DistinctNames(rs: seq<ServiceResource>) {
    forall i, j :: 0 <= i < j < |rs| ==> rs[i].name != rs[j].name
  }

  /** Services that the manifest does not name keep their state. */
  lemma {:induction false} UnitsUntouched(faults: set<(string, Call)>, units: map<string, Unit>,
                                          rs: seq<ServiceResource>, name: string)
    requires forall i :: 0 <= i < |rs| ==> rs[i].name != name
    ensures UnitOf(UnitsAfter(faults, units, rs), name) == UnitOf(units, name)
    decreases |rs|
  {
    if rs != [] {
      UnitsUntouched(faults, units, rs[..|rs| - 1], name);
    }
  }

  /** With distinct names every service goes through its own cycle, as if it were alone. */
  lemma {:induction false} UnitsIndependent(faults: set<(string, Call)>, units: map<string, Unit>,
                                            rs: seq<ServiceResource>, i: nat)
    requires DistinctNames(rs) && i < |rs|
    ensures var o := Cycle(faults, UnitOf(units, rs[i].name), rs[i]);
      && ServiceActions(faults, units, rs)[i] == o.action
      && UnitOf(UnitsAfter(faults, units, rs), rs[i].name) == o.unit
    decreases |rs|
  {
    var init := rs[..|rs| - 1];
    if i == |rs| - 1 {
      UnitsUntouched(faults, units, init, rs[i].name);
    } else {
      UnitsIndependent(faults, units, init, i);
    }
  }

  predicate AllAsSaid(units: map<string, Unit>, rs: seq<ServiceResource>) {
    forall i :: 0 <= i < |rs| ==> AsSaid(UnitOf(units, rs[i].name), rs[i])
  }

  predicate NoneRefused(faults: set<(string, Call)>, units: map<string, Unit>, rs: seq<ServiceResource>) {
    forall i :: 0 <= i < |rs| ==> rs[i].name != "" && !Refused(faults, UnitOf(units, rs[i].name), rs[i])
  }

  lemma ServiceSettles(faults: set<(string, Call)>, units: map<string, Unit>, rs: seq<ServiceResource>, i: nat)
    requires DistinctNames(rs) && i < |rs|
    ensures var u, next := UnitOf(units, rs[i].name), UnitsAfter(faults, units, rs);
      && Achieved(faults, u, rs[i], Outcome(UnitOf(next, rs[i].name), ServiceActions(faults, units, rs)[i]))
      && (rs[i].name != "" && !Refused(faults, u, rs[i]) ==> ServiceActions(faults, next, rs)[i].actionType == Noop)
  {
    var u, next := UnitOf(units, rs[i].name), UnitsAfter(faults, units, rs);
    UnitsIndependent(faults, units, rs, i);
    OneCycle(faults, u, rs[i]);
    if rs[i].name != "" && !Refused(faults, u, rs[i]) {
      var w := Wanted(u, rs[i]);
      assert Wanted(w, rs[i]) == w && RunCall(w, rs[i]).None? && EnableCall(w, rs[i]).None?;
      UnitsIndependent(faults, next, rs, i);
      OneCycle(faults, w, rs[i]);
    }
  }

  /**
    A cycle over distinct services is free of errors if and only if no needed call is refused; then every service
    is in its wanted state and the next cycle is all Noop.
   */
  lemma ServicesSettle(faults: set<(string, Call)>, units: map<string, Unit>, rs: seq<ServiceResource>)
    requires DistinctNames(rs)
    ensures !AnyError(ServiceActions(faults, units, rs)) <==> NoneRefused(faults, units, rs)
    ensures NoneRefused(faults, units, rs) ==> AllAsSaid(UnitsAfter(faults, units, rs), rs)
    ensures NoneRefused(faults, units, rs) ==>
      AllNoop(ServiceActions(faults, UnitsAfter(faults, units, rs), rs))
  {
    var next, actions := UnitsAfter(faults, units, rs), ServiceActions(faults, units, rs);
    forall i | 0 <= i < |rs|
      ensures actions[i].error == "" <==> rs[i].name != "" && !Refused(faults, UnitOf(units, rs[i].name), rs[i])
      ensures actions[i].error == "" ==>
        ServiceActions(faults, next, rs)[i].actionType == Noop &&
        AsSaid(UnitOf(next, rs[i].name), rs[i])
    {
      ServiceSettles(faults, units, rs, i);
      WantedMeans(UnitOf(units, rs[i].name), rs[i]);
    }
  }

  /** A cycle of only Noops leaves every unit as it is, and finds every service as wanted. */
  lemma {:induction false} UnitsUnchanged(faults: set<(string, Call)>, units: map<string, Unit>,
                                          rs: seq<ServiceResource>)
    requires AllNoop(ServiceActions(faults, units, rs))
    ensures UnitsAfter(faults, units, rs) == units && AllAsSaid(units, rs)
    decreases |rs|
  {
    if rs != [] {
      var init, r, actions := rs[..|rs| - 1], rs[|rs| - 1], ServiceActions(faults, units, rs);
      assert forall i :: 0 <= i < |init| ==> ServiceActions(faults, units, init)[i] == actions[i];
      UnitsUnchanged(faults, units, init);
      assert actions[|rs| - 1].actionType == Noop;
      OneCycle(faults, UnitOf(units, r.name), r);
      WantedMeans(UnitOf(units, r.name), r);
      assert forall i :: 0 <= i < |init| ==> rs[i] == init[i];
    }
  }

  predicate AllNamed(rs: seq<ServiceResource>) {
    forall i :: 0 <= i < |rs| ==> rs[i].name != ""
  }

  lemma NothingRefused(units: map<string, Unit>, rs: seq<ServiceResource>)
    requires AllNamed(rs)
    ensures NoneRefused({}, units, rs)
  {}

  function UnitsAfterCycles(faults: set<(string, Call)>, units: map<string, Unit>, rs: seq<ServiceResource>, n: nat)
    : map<string, Unit>
  {
    if n == 0 then units else UnitsAfter(faults, UnitsAfterCycles(faults, units, rs, n - 1), rs)
  }

  /** If no call is refused in the first cycle, services are as wanted after it and stay so. */
  lemma {:induction false} UnitsStay(faults: set<(string, Call)>, units: map<string, Unit>, rs: seq<ServiceResource>,
                                     n: nat)
    requires DistinctNames(rs) && NoneRefused(faults, units, rs)
    ensures var after := UnitsAfterCycles(faults, units, rs, 1 + n);
      AllAsSaid(after, rs) && AllNoop(ServiceActions(faults, after, rs))
  {
    if n == 0 {
      assert UnitsAfterCycles(faults, units, rs, 1) == UnitsAfter(faults, UnitsAfterCycles(faults, units, rs, 0), rs);
      ServicesSettle(faults, units, rs);
    } else {
      UnitsStay(faults, units, rs, n - 1);
      UnitsUnchanged(faults, UnitsAfterCycles(faults, units, rs, n), rs);
    }
  }
}
