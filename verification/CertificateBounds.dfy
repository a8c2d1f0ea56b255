/**
  How many certificates can be live at once, what stays dead after a deletion, and runs that reach the limits of these
  promises.
 */
module CertificateBounds {
  import opened Prelude
  import opened CertificateTables
  import opened CertificateInvariants
  import opened CertificateTheorems

  // ---- the live-certificate bound ----

  /** The clock after a transaction; Enroll and Decline do not read it. */
  function Clock(s: Step, before: Instant): Instant {
    match s
    case Enroll(_, _) => before
    case Submit(_, _, _, _, _, now, _) => now
    case Accept(_, _, now, _) => now
    case Decline(_, _) => before
    case Withdraw(_, _, now, _) => now
    case Delete(_, now, _) => now
    case FetchCrl(_, now, _) => now
  }

  predicate Ticking(steps: seq<Step>, clock: Instant)
    decreases |steps|
  {
    steps == [] || (clock <= Clock(steps[0], clock) && Ticking(steps[1..], Clock(steps[0], clock)))
  }

  function EndClock(steps: seq<Step>, clock: Instant): Instant
    decreases |steps|
  {
    if steps == [] then clock else EndClock(steps[1..], Clock(steps[0], clock))
  }

  function LiveCount(t: Tables, d: DeviceId, n: string, now: Instant): nat {
    |ActiveForName(t, d, n, now)|
  }

  /** A renewal accepted although the certificate it renews has expired. */
  predicate RenewsExpired(t: Tables, s: Step) {
    s.Submit? && s.kind == RENEWAL && s.serial.Some? &&
    exists i :: i in Renewable(t, s.device, s.name, s.serial.value) && t.certs[i].notAfter <= s.now
  }

  /** The allowance of the pair (d, n) after a committed transaction, given the allowance b before. */
  function Charge(b: nat, t: Tables, s: Step, d: DeviceId, n: string): nat {
    if Outcome(t, s).None? then b
    else if s.Submit? && s.device == d && s.name == n then
      match s.kind
      case INITIAL => 0
      case MANIFEST => 1
      case RENEWAL => if RenewsExpired(t, s) then b + 1 else b
    else if s.Accept? && s.rid in t.requests && t.requests[s.rid].device == d && t.requests[s.rid].name == n then b + 1
    else b
  }

  function Allowance(b: nat, t: Tables, steps: seq<Step>, d: DeviceId, n: string): nat
    decreases |steps|
  {
    if steps == [] then b else Allowance(Charge(b, t, steps[0], d, n), Apply(t, steps[0]), steps[1..], d, n)
  }

  lemma LiveAges(t: Tables, d: DeviceId, n: string, early: Instant, late: Instant)
    requires early <= late
    ensures ActiveForName(t, d, n, late) <= ActiveForName(t, d, n, early)
    ensures LiveCount(t, d, n, late) <= LiveCount(t, d, n, early)
  {
    SubsetCard(ActiveForName(t, d, n, late), ActiveForName(t, d, n, early));
  }

  lemma LiveAfterBatch(t: Tables, ids: set<nat>, org: OrgId, now: Instant, reason: RevokeReason, ca: Ca, d: DeviceId,
                       n: string)
    requires RevokeBatch(t, ids, org, now, reason, ca).Some?
    ensures ActiveForName(RevokeBatch(t, ids, org, now, reason, ca).value, d, n, now) ==
      ActiveForName(t, d, n, now) - ids
  {}

  /** The certificate that issuing for the request adds to the live ones of the pair. */
  function Issued(t: Tables, rid: nat, ca: Ca, now: Instant, d: DeviceId, n: string): set<nat>
    requires rid in t.requests && ca.signed.Some?
  {
    if t.requests[rid].device == d && t.requests[rid].name == n && ca.signed.value.notAfter > now then {t.nextCert}
    else {}
  }

  lemma LiveAfterIssue(t: Tables, rid: nat, ca: Ca, now: Instant, d: DeviceId, n: string)
    requires IdsBelow(t) && rid in t.requests && SignAndIssue(t, rid, ca).Some?
    ensures ActiveForName(SignAndIssue(t, rid, ca).value, d, n, now) ==
            ActiveForName(t, d, n, now) + Issued(t, rid, ca, now, d, n)
  {}

  lemma LiveAfterSave(t: Tables, r: Request, d: DeviceId, n: string, now: Instant)
    ensures ActiveForName(SaveRequest(t, r), d, n, now) == ActiveForName(t, d, n, now)
  {}

  /** A request that supersedes empties its pair, and fills it again with what it issues at once. */
  lemma LiveNonRenewal(t: Tables, dev: DeviceId, org: OrgId, name: string, k: Key, kind: RequestKind,
                       autoApprove: bool, now: Instant, ca: Ca, d: DeviceId, n: string)
    requires IdsBelow(t) && NonRenewal(t, dev, org, name, k, kind, autoApprove, now, ca).Some?
    ensures var t' := NonRenewal(t, dev, org, name, k, kind, autoApprove, now, ca).value;
      var kept := if dev == d && name == n then {} else ActiveForName(t, d, n, now);
      ActiveForName(t', d, n, now) <= kept + if autoApprove && dev == d && name == n then {t.nextCert} else {}
  {
    var active := ActiveForName(t, dev, name, now);
    LiveAfterBatch(t, active, org, now, SUPERSEDED, ca, d, n);
    var t1 := RevokeBatch(t, active, org, now, SUPERSEDED, ca).value;
    var r := Request(dev, org, name, k, kind, None, PENDING);
    LiveAfterSave(t1, r, d, n, now);
    BatchKeepsIds(t, active, org, now, SUPERSEDED, ca);
    if autoApprove {
      LiveAfterIssue(SaveRequest(t1, r), t1.nextRequest, ca, now, d, n);
    }
  }

  lemma BatchKeepsIds(t: Tables, ids: set<nat>, org: OrgId, now: Instant, reason: RevokeReason, ca: Ca)
    requires IdsBelow(t) && RevokeBatch(t, ids, org, now, reason, ca).Some?
    ensures var t' := RevokeBatch(t, ids, org, now, reason, ca).value;
      IdsBelow(t') && t'.nextCert == t.nextCert && t'.nextRequest == t.nextRequest && t'.requests == t.requests
  {}

  /** A renewal replaces one certificate of its pair by another, and changes no other pair. */
  lemma LiveAfterRenewal(t: Tables, s: Step, d: DeviceId, n: string) returns (i: nat)
    requires IdsBelow(t) && SerialsUnique(t) && s.Submit? && s.kind == RENEWAL && Outcome(t, s).Some?
    requires Renewable(t, s.device, s.name, s.serial.value) != {}
    ensures i in t.certs && Renewable(t, s.device, s.name, s.serial.value) == {i} && s.ca.signed.Some?
    ensures ActiveForName(Apply(t, s), d, n, s.now) == ActiveForName(t, d, n, s.now) - {i} +
            if s.device == d && s.name == n && s.ca.signed.value.notAfter > s.now then {t.nextCert} else {}
  {
    i := RenewalOutcome(t, s.device, t.devices[s.device], s.name, s.key, s.serial.value, s.now, s.ca);
    var k := RenewableIsOne(t, s.device, s.name, s.serial.value);
    assert i in Renewable(t, s.device, s.name, s.serial.value);
  }

  lemma LiveRenewal(t: Tables, s: Step, d: DeviceId, n: string)
    requires IdsBelow(t) && SerialsUnique(t) && s.Submit? && s.kind == RENEWAL && Outcome(t, s).Some?
    ensures LiveCount(Apply(t, s), d, n, s.now) <=
      LiveCount(t, d, n, s.now) + (if s.device == d && s.name == n && RenewsExpired(t, s) then 1 else 0)
  {
    var live, live' := ActiveForName(t, d, n, s.now), ActiveForName(Apply(t, s), d, n, s.now);
    if Renewable(t, s.device, s.name, s.serial.value) == {} {
      assert live' == live;
    } else {
      var i := LiveAfterRenewal(t, s, d, n);
      if s.device == d && s.name == n {
        SubsetCard(live', (live - {i}) + {t.nextCert});
        assert i in live || RenewsExpired(t, s);
      } else {
        SubsetCard(live', live);
      }
    }
  }

  lemma LiveQuiet(t: Tables, s: Step, now: Instant, d: DeviceId, n: string)
    requires s.Enroll? || s.Decline? || s.FetchCrl?
    ensures LiveCount(Apply(t, s), d, n, now) == LiveCount(t, d, n, now)
  {
    assert ActiveForName(Apply(t, s), d, n, now) == ActiveForName(t, d, n, now);
  }

  lemma LiveRevoking(t: Tables, s: Step, d: DeviceId, n: string)
    requires (s.Withdraw? || s.Delete?) && Outcome(t, s).Some?
    ensures LiveCount(Apply(t, s), d, n, s.now) <= LiveCount(t, d, n, s.now)
  {
    if s.Withdraw? {
      LiveAfterBatch(t, {s.cid}, s.org, s.now, ADMIN_REVOKED, s.ca, d, n);
    } else {
      LiveAfterBatch(t, ActiveFor(t, s.device, s.now), t.devices[s.device], s.now, DEVICE_DELETED, s.ca, d, n);
    }
    SubsetCard(ActiveForName(Apply(t, s), d, n, s.now), ActiveForName(t, d, n, s.now));
  }

  lemma LiveAccept(t: Tables, s: Step, d: DeviceId, n: string)
    requires IdsBelow(t) && s.Accept? && Outcome(t, s).Some?
    ensures LiveCount(Apply(t, s), d, n, s.now) <=
      LiveCount(t, d, n, s.now) + (if t.requests[s.rid].device == d && t.requests[s.rid].name == n then 1 else 0)
  {
    LiveAfterIssue(t, s.rid, s.ca, s.now, d, n);
    SubsetCard(ActiveForName(Apply(t, s), d, n, s.now), ActiveForName(t, d, n, s.now) +
            (if t.requests[s.rid].device == d && t.requests[s.rid].name == n then {t.nextCert} else {}));
  }

  /** The allowance covers the live certificates of the pair after each transaction. */
  lemma LiveStep(t: Tables, s: Step, clock: Instant, b: nat, d: DeviceId, n: string)
    requires IdsBelow(t) && SerialsUnique(t) && clock <= Clock(s, clock)
    requires LiveCount(t, d, n, clock) <= b
    ensures LiveCount(Apply(t, s), d, n, Clock(s, clock)) <= Charge(b, t, s, d, n)
  {
    var now := Clock(s, clock);
    LiveAges(t, d, n, clock, now);
    if Outcome(t, s).Some? {
      if s.Enroll? || s.Decline? || s.FetchCrl? {
        LiveQuiet(t, s, now, d, n);
      } else if s.Withdraw? || s.Delete? {
        LiveRevoking(t, s, d, n);
      } else if s.Accept? {
        LiveAccept(t, s, d, n);
      } else if s.kind == RENEWAL {
        LiveRenewal(t, s, d, n);
      } else {
        LiveNonRenewal(t, s.device, t.devices[s.device], s.name, s.key, s.kind, s.kind == MANIFEST, now, s.ca, d, n);
        SubsetCard(ActiveForName(Apply(t, s), d, n, now),
                   if s.device != d || s.name != n then ActiveForName(t, d, n, now)
                   else if s.kind == MANIFEST then {t.nextCert} else {});
      }
    }
  }

  /** Ids and serials stay distinct under every transaction, with no condition on enrolments. */
  ghost predicate Keyed(t: Tables) {
    IdsBelow(t) && SerialsUnique(t)
  }

  lemma KeyedIssue(t: Tables, rid: nat, ca: Ca)
    requires Keyed(t) && rid in t.requests && SignAndIssue(t, rid, ca).Some?
    ensures Keyed(SignAndIssue(t, rid, ca).value)
  {
    FreshSerial(t, ca.signed.value.serial);
  }

  lemma KeyedBatch(t: Tables, ids: set<nat>, org: OrgId, now: Instant, reason: RevokeReason, ca: Ca)
    requires Keyed(t) && RevokeBatch(t, ids, org, now, reason, ca).Some?
    ensures Keyed(RevokeBatch(t, ids, org, now, reason, ca).value)
  {}

  lemma KeyedNonRenewal(t: Tables, dev: DeviceId, org: OrgId, name: string, k: Key, kind: RequestKind,
                        autoApprove: bool, now: Instant, ca: Ca)
    requires Keyed(t) && NonRenewal(t, dev, org, name, k, kind, autoApprove, now, ca).Some?
    ensures Keyed(NonRenewal(t, dev, org, name, k, kind, autoApprove, now, ca).value)
  {
    var active := ActiveForName(t, dev, name, now);
    KeyedBatch(t, active, org, now, SUPERSEDED, ca);
    var t1 := RevokeBatch(t, active, org, now, SUPERSEDED, ca).value;
    var t2 := SaveRequest(t1, Request(dev, org, name, k, kind, None, PENDING));
    assert Keyed(t2);
    if autoApprove {
      KeyedIssue(t2, t1.nextRequest, ca);
    }
  }

  lemma KeyedRenewal(t: Tables, s: Step)
    requires Keyed(t) && s.Submit? && s.kind == RENEWAL && Outcome(t, s).Some?
    ensures Keyed(Apply(t, s))
  {
    if Renewable(t, s.device, s.name, s.serial.value) != {} {
      var i := RenewalOutcome(t, s.device, t.devices[s.device], s.name, s.key, s.serial.value, s.now, s.ca);
      KeyedRenewed(t, s.device, t.devices[s.device], s.name, s.key, s.serial.value, i, s.now, s.ca);
    }
  }

  lemma KeyedRenewed(t: Tables, device: DeviceId, org: OrgId, name: string, key: Key, serial: Serial, i: nat,
                     now: Instant, ca: Ca)
    requires Keyed(t) && i in t.certs && ca.signed.Some?
    requires forall k :: k in t.certs ==> t.certs[k].serial != ca.signed.value.serial
    ensures Keyed(Renewed(t, device, org, name, key, serial, i, now, ca))
  {}

  lemma KeyedDelete(t: Tables, d: DeviceId, now: Instant, ca: Ca)
    requires Keyed(t) && DeleteDevice(t, d, now, ca).Some?
    ensures Keyed(DeleteDevice(t, d, now, ca).value)
  {
    KeyedBatch(t, ActiveFor(t, d, now), t.devices[d], now, DEVICE_DELETED, ca);
  }

  lemma KeyedStep(t: Tables, s: Step)
    requires Keyed(t)
    ensures Keyed(Apply(t, s))
  {
    if Outcome(t, s).Some? {
      match s
      case Enroll(_, _) =>
      case Submit(d, n, k, kind, serial, now, ca) =>
        if kind == RENEWAL {
          KeyedRenewal(t, s);
        } else {
          KeyedNonRenewal(t, d, t.devices[d], n, k, kind, kind == MANIFEST, now, ca);
        }
      case Accept(r, _, _, ca) => KeyedIssue(t, r, ca);
      case Decline(_, _) =>
      case Withdraw(c, org, now, ca) => KeyedBatch(t, {c}, org, now, ADMIN_REVOKED, ca);
      case Delete(d, now, ca) => KeyedDelete(t, d, now, ca);
      case FetchCrl(_, _, _) =>
    }
  }

  /**
    For each device and name, the live certificates never exceed what the last INITIAL (none) or MANIFEST (one)
    request allows, plus approvals and renewals of expired certificates since.
   */
  lemma {:induction false} LiveBound(t: Tables, steps: seq<Step>, clock: Instant, b: nat, d: DeviceId, n: string)
    requires Keyed(t) && Ticking(steps, clock) && LiveCount(t, d, n, clock) <= b
    ensures LiveCount(Run(t, steps), d, n, EndClock(steps, clock)) <= Allowance(b, t, steps, d, n)
    decreases |steps|
  {
    if steps != [] {
      KeyedStep(t, steps[0]);
      LiveStep(t, steps[0], clock, b, d, n);
      LiveBound(Apply(t, steps[0]), steps[1..], Clock(steps[0], clock), Charge(b, t, steps[0], d, n), d, n);
    }
  }

  /** No approval for the pair and no renewal of one of its expired certificates. */
  predicate Plain(t: Tables, steps: seq<Step>, d: DeviceId, n: string)
    decreases |steps|
  {
    steps == [] ||
    (&& (steps[0].Accept? && steps[0].rid in t.requests ==>
           t.requests[steps[0].rid].device != d || t.requests[steps[0].rid].name != n)
     && (RenewsExpired(t, steps[0]) ==> steps[0].device != d || steps[0].name != n)
     && Plain(Apply(t, steps[0]), steps[1..], d, n))
  }

  lemma {:induction false} PlainAllowance(b: nat, t: Tables, steps: seq<Step>, d: DeviceId, n: string)
    requires b <= 1 && Plain(t, steps, d, n)
    ensures Allowance(b, t, steps, d, n) <= 1
    decreases |steps|
  {
    if steps != [] {
      PlainAllowance(Charge(b, t, steps[0], d, n), Apply(t, steps[0]), steps[1..], d, n);
    }
  }

  /** Runs from the empty tables with neither of those two events keep at most one live certificate per pair. */
  lemma AtMostOneLive(steps: seq<Step>, clock: Instant, d: DeviceId, n: string)
    requires Ticking(steps, clock) && Plain(EMPTY, steps, d, n)
    ensures LiveCount(Run(EMPTY, steps), d, n, EndClock(steps, clock)) <= 1
  {
    assert ActiveForName(EMPTY, d, n, clock) == {};
    LiveBound(EMPTY, steps, clock, 0, d, n);
    PlainAllowance(0, EMPTY, steps, d, n);
  }

  // ---- at most one live certificate, exactly ----

  /** A committed transaction that adds a live certificate to the pair without taking one away: an approval, or a
      renewal of an expired certificate, whose certificate outlives the moment. */
  predicate Adds(t: Tables, s: Step, d: DeviceId, n: string) {
    && Outcome(t, s).Some?
    && ((s.Accept? && t.requests[s.rid].device == d && t.requests[s.rid].name == n)
        || (RenewsExpired(t, s) && s.device == d && s.name == n))
    && s.ca.signed.Some? && s.ca.signed.value.notAfter > Clock(s, 0)
  }

  /** Such a transaction while the pair already has a live certificate. */
  predicate Overfills(t: Tables, s: Step, d: DeviceId, n: string) {
    Adds(t, s, d, n) && LiveCount(t, d, n, Clock(s, 0)) >= 1
  }

  /** An approval or a renewal of an expired certificate adds exactly one live certificate if and only if it Adds. */
  lemma AddsExactly(t: Tables, s: Step, d: DeviceId, n: string)
    requires Keyed(t) && Outcome(t, s).Some? && (s.Accept? || RenewsExpired(t, s))
    ensures LiveCount(Apply(t, s), d, n, s.now) == LiveCount(t, d, n, s.now) + if Adds(t, s, d, n) then 1 else 0
  {
    if s.Accept? {
      LiveAfterIssue(t, s.rid, s.ca, s.now, d, n);
    } else {
      RenewalAdds(t, s, d, n);
    }
  }

  lemma RenewalAdds(t: Tables, s: Step, d: DeviceId, n: string)
    requires Keyed(t) && Outcome(t, s).Some? && RenewsExpired(t, s)
    ensures LiveCount(Apply(t, s), d, n, s.now) == LiveCount(t, d, n, s.now) + if Adds(t, s, d, n) then 1 else 0
  {
    var i := LiveAfterRenewal(t, s, d, n);
    assert ActiveForName(t, d, n, s.now) - {i} == ActiveForName(t, d, n, s.now);
  }

  /** From at most one live certificate, a transaction leaves at most one if and only if it does not overfill. */
  lemma OneLiveStep(t: Tables, s: Step, clock: Instant, d: DeviceId, n: string)
    requires Keyed(t) && clock <= Clock(s, clock) && LiveCount(t, d, n, clock) <= 1
    ensures LiveCount(Apply(t, s), d, n, Clock(s, clock)) <= 1 <==> !Overfills(t, s, d, n)
  {
    LiveAges(t, d, n, clock, Clock(s, clock));
    if Outcome(t, s).Some? && (s.Accept? || RenewsExpired(t, s)) {
      AddsExactly(t, s, d, n);
    } else {
      LiveStep(t, s, clock, 1, d, n);
    }
  }

  /** After each transaction of the run the pair has at most one live certificate. */
  predicate AlwaysOne(t: Tables, steps: seq<Step>, clock: Instant, d: DeviceId, n: string)
    decreases |steps|
  {
    LiveCount(t, d, n, clock) <= 1 &&
    (steps == [] || AlwaysOne(Apply(t, steps[0]), steps[1..], Clock(steps[0], clock), d, n))
  }

  predicate NeverOverfills(t: Tables, steps: seq<Step>, d: DeviceId, n: string)
    decreases |steps|
  {
    steps == [] || (!Overfills(t, steps[0], d, n) && NeverOverfills(Apply(t, steps[0]), steps[1..], d, n))
  }

  lemma {:induction false} OneLiveRun(t: Tables, steps: seq<Step>, clock: Instant, d: DeviceId, n: string)
    requires Keyed(t) && Ticking(steps, clock) && LiveCount(t, d, n, clock) <= 1
    ensures AlwaysOne(t, steps, clock, d, n) <==> NeverOverfills(t, steps, d, n)
    decreases |steps|
  {
    if steps != [] {
      var t' := Apply(t, steps[0]);
      KeyedStep(t, steps[0]);
      OneLiveStep(t, steps[0], clock, d, n);
      if LiveCount(t', d, n, Clock(steps[0], clock)) <= 1 {
        OneLiveRun(t', steps[1..], Clock(steps[0], clock), d, n);
      }
    }
  }

  /**
    A run from the empty tables keeps at most one live certificate per device and name throughout if and only if no
    approval, and no renewal of an expired certificate, adds a live one while another is live.
   */
  lemma OneLiveExactly(steps: seq<Step>, clock: Instant, d: DeviceId, n: string)
    requires Ticking(steps, clock)
    ensures AlwaysOne(EMPTY, steps, clock, d, n) <==> NeverOverfills(EMPTY, steps, d, n)
  {
    assert ActiveForName(EMPTY, d, n, clock) == {};
    OneLiveRun(EMPTY, steps, clock, d, n);
  }

  // ---- deleted devices ----

  /** No device row, no live certificate, no request awaiting review. */
  ghost predicate Dead(t: Tables, d: DeviceId, now: Instant) {
    d !in t.devices && ActiveFor(t, d, now) == {} && PendingFor(t, d) == {}
  }

  /** The service calls of deleteDevice already leave nothing live or pending, before any row is removed. */
  lemma RetireKills(t: Tables, d: DeviceId, now: Instant, ca: Ca)
    requires Retire(t, d, now, ca).Some?
    ensures ActiveFor(Retire(t, d, now, ca).value, d, now) == {}
    ensures PendingFor(Retire(t, d, now, ca).value, d) == {}
    ensures Dead(DeleteDevice(t, d, now, ca).value, d, now)
  {}

  lemma DeadAfterBatch(t: Tables, ids: set<nat>, org: OrgId, at: Instant, reason: RevokeReason, ca: Ca, d: DeviceId,
                       now: Instant)
    requires Dead(t, d, now) && RevokeBatch(t, ids, org, at, reason, ca).Some?
    ensures Dead(RevokeBatch(t, ids, org, at, reason, ca).value, d, now)
  {
    var t' := RevokeBatch(t, ids, org, at, reason, ca).value;
    assert ActiveFor(t', d, now) <= ActiveFor(t, d, now);
    assert PendingFor(t', d) == PendingFor(t, d);
  }

  /** The new rows belong to another device, the old ones are as before. */
  lemma DeadFrame(t: Tables, t': Tables, d: DeviceId, now: Instant)
    requires Dead(t, d, now) && t'.devices == t.devices
    requires forall i :: i in t'.certs && t'.certs[i].device == d ==>
      i in t.certs && t.certs[i].device == d && (t'.certs[i] == t.certs[i] || t'.certs[i].revoked)
    requires forall r :: r in t'.requests && t'.requests[r].device == d && t'.requests[r].state == PENDING ==>
      r in t.requests && t'.requests[r] == t.requests[r]
    ensures Dead(t', d, now)
  {
    assert ActiveFor(t', d, now) <= ActiveFor(t, d, now);
    assert PendingFor(t', d) <= PendingFor(t, d);
  }

  lemma DeadNonRenewal(t: Tables, dev: DeviceId, org: OrgId, name: string, k: Key, kind: RequestKind,
                       autoApprove: bool, at: Instant, ca: Ca, d: DeviceId, now: Instant)
    requires Dead(t, d, now) && dev != d && NonRenewal(t, dev, org, name, k, kind, autoApprove, at, ca).Some?
    ensures Dead(NonRenewal(t, dev, org, name, k, kind, autoApprove, at, ca).value, d, now)
  {
    var active := ActiveForName(t, dev, name, at);
    DeadAfterBatch(t, active, org, at, SUPERSEDED, ca, d, now);
    DeadFrame(RevokeBatch(t, active, org, at, SUPERSEDED, ca).value,
              NonRenewal(t, dev, org, name, k, kind, autoApprove, at, ca).value, d, now);
  }

  lemma DeadRenewal(t: Tables, dev: DeviceId, org: OrgId, name: string, k: Key, serial: Option<Serial>,
                    at: Instant, ca: Ca, d: DeviceId, now: Instant)
    requires Dead(t, d, now) && dev != d && Renewal(t, dev, org, name, k, serial, at, ca).Some?
    ensures Dead(Renewal(t, dev, org, name, k, serial, at, ca).value, d, now)
  {
    DeadFrame(t, Renewal(t, dev, org, name, k, serial, at, ca).value, d, now);
  }

  lemma DeadDelete(t: Tables, e: DeviceId, at: Instant, ca: Ca, d: DeviceId, now: Instant)
    requires Dead(t, d, now) && DeleteDevice(t, e, at, ca).Some?
    ensures Dead(DeleteDevice(t, e, at, ca).value, d, now)
  {
    DeadAfterBatch(t, ActiveFor(t, e, at), t.devices[e], at, DEVICE_DELETED, ca, d, now);
    var t1 := RevokeBatch(t, ActiveFor(t, e, at), t.devices[e], at, DEVICE_DELETED, ca).value;
    DeadFrame(t1, RejectPending(t1, e), d, now);
    DeadFrame(RejectPending(t1, e), RemoveDevice(RejectPending(t1, e), e).(devices := t.devices), d, now);
  }

  /** Only a new enrolment revives the device; no assumption on the tables is needed. */
  lemma DeadStep(t: Tables, s: Step, d: DeviceId, now: Instant)
    requires Dead(t, d, now) && !(s.Enroll? && s.device == d)
    ensures Dead(Apply(t, s), d, now)
  {
    if Outcome(t, s).Some? {
      match s
      case Enroll(e, _) =>
        assert ActiveFor(Apply(t, s), d, now) == ActiveFor(t, d, now);
        assert PendingFor(Apply(t, s), d) == PendingFor(t, d);
      case Submit(e, n, k, kind, serial, at, ca) =>
        if kind == RENEWAL {
          DeadRenewal(t, e, t.devices[e], n, k, serial, at, ca, d, now);
        } else {
          DeadNonRenewal(t, e, t.devices[e], n, k, kind, kind == MANIFEST, at, ca, d, now);
        }
      case Accept(rid, _, _, _) =>
        assert rid !in PendingFor(t, d);
        DeadFrame(t, Apply(t, s), d, now);
      case Decline(_, _) => DeadFrame(t, Apply(t, s), d, now);
      case Withdraw(c, org, at, ca) => DeadAfterBatch(t, {c}, org, at, ADMIN_REVOKED, ca, d, now);
      case Delete(e, at, ca) => DeadDelete(t, e, at, ca, d, now);
      case FetchCrl(_, _, _) =>
        assert ActiveFor(Apply(t, s), d, now) == ActiveFor(t, d, now);
        assert PendingFor(Apply(t, s), d) == PendingFor(t, d);
    }
  }

  /** After a deletion, until the device enrols again, no run gives it a live certificate or a pending request. */
  lemma {:induction false} StaysDead(t: Tables, steps: seq<Step>, d: DeviceId, now: Instant)
    requires Dead(t, d, now)
    requires forall k :: 0 <= k < |steps| ==> !(steps[k].Enroll? && steps[k].device == d)
    ensures Dead(Run(t, steps), d, now)
    decreases |steps|
  {
    if steps != [] {
      DeadStep(t, steps[0], d, now);
      StaysDead(Apply(t, steps[0]), steps[1..], d, now);
    }
  }

  // ---- limits of the promises ----

  /** A certificate revoked under another organisation than the one whose CRL is rebuilt is in no CRL. */
  lemma StrayUncovered(t: Tables, ids: set<nat>, org: OrgId, now: Instant, reason: RevokeReason, ca: Ca, i: nat)
    requires SerialsUnique(t) && Agreement(t) && ca.crlSigns && i in ids && t.certs.Keys >= ids
    requires !t.certs[i].revoked && t.certs[i].org != org
    ensures !Covered(RevokeBatch(t, ids, org, now, reason, ca).value)
  {
    var t' := RevokeBatch(t, ids, org, now, reason, ca).value;
    var o := t.certs[i].org;
    assert i in RevokedIn(t', o) && EntryOf(t'.certs[i], 0) in Recorded(t', o);
    if o in t.crls {
      forall k | k in RevokedIn(t, o) ensures EntryOf(t.certs[k], 0) != EntryOf(t'.certs[i], 0) {}
    }
  }

  /** Revoking certificates and rebuilding the CRL of org covers the revocations exactly when they all carry org. */
  lemma StrayOrganisation(t: Tables, ids: set<nat>, org: OrgId, now: Instant, reason: RevokeReason, ca: Ca)
    requires SerialsUnique(t) && RevocationFields(t) && Covered(t) && Agreement(t) && ca.crlSigns && reason != RENEWED
    requires ids != {} && forall i :: i in ids ==> i in t.certs && !t.certs[i].revoked
    ensures Covered(RevokeBatch(t, ids, org, now, reason, ca).value) <==> forall i :: i in ids ==> t.certs[i].org == org
  {
    if i :| i in ids && t.certs[i].org != org {
      StrayUncovered(t, ids, org, now, reason, ca, i);
    } else {
      var m := MarkRevoked(t, ids, now, reason);
      FieldsMarked(t, ids, now, reason);
      forall o: OrgId | o != org ensures RevokedIn(m, o) == RevokedIn(t, o) && Recorded(m, o) == Recorded(t, o) {
        forall i | i in RevokedIn(t, o) ensures m.certs[i] == t.certs[i] {}
      }
      CoveredByRebuild(t, m, org, now, ca);
    }
  }

  /** A device enrolled in one organisation and then in another: superseding its certificate leaves it unlisted. */
  lemma StrayReached()
    ensures var sign := (serial: Serial) => Ca(Some(Signed(serial, 100)), true);
      var first := Apply(Apply(EMPTY, Enroll("d", 1)), Submit("d", "n", 11, MANIFEST, None, 0, sign(7)));
      var moved := Apply(Apply(first, Enroll("d", 2)), Submit("d", "n", 12, MANIFEST, None, 1, sign(8)));
      !Covered(moved) && 1 !in moved.crls && 0 in moved.certs && moved.certs[0].revoked && moved.certs[0].org == 1
  {
    var sign := (serial: Serial) => Ca(Some(Signed(serial, 100)), true);
    var c := Cert(0, "d", 1, "n", 7, 11, 100, None, false, None, None);
    var t0 := Apply(EMPTY, Enroll("d", 1));
    assert t0 == Tables(map["d" := 1], map[], map[], map[], 0, 0);
    assert ActiveForName(t0, "d", "n", 0) == {} && WithSerial(t0, 7) == {};
    var t1 := Apply(t0, Submit("d", "n", 11, MANIFEST, None, 0, sign(7)));
    assert t1.certs == map[0 := c] && t1.crls == map[] && t1.nextCert == 1;
    MovedSupersedes(Apply(t1, Enroll("d", 2)), c, sign(8));
  }

  lemma MovedSupersedes(t: Tables, c: Cert, ca: Ca)
    requires t.certs == map[0 := c] && c == Cert(0, "d", 1, "n", 7, 11, 100, None, false, None, None)
    requires "d" in t.devices && t.devices["d"] == 2 && t.crls == map[] && t.nextCert == 1
    requires ca == Ca(Some(Signed(8, 100)), true)
    ensures var t' := Apply(t, Submit("d", "n", 12, MANIFEST, None, 1, ca));
      !Covered(t') && 1 !in t'.crls && 0 in t'.certs && t'.certs[0].revoked && t'.certs[0].org == 1
  {
    assert ActiveForName(t, "d", "n", 1) == {0};
    var t1 := RevokeBatch(t, {0}, 2, 1, SUPERSEDED, ca).value;
    assert WithSerial(t1, 8) == {};
    var t' := Apply(t, Submit("d", "n", 12, MANIFEST, None, 1, ca));
    assert t'.certs[0] == Revoke(c, 1, SUPERSEDED) && t'.crls.Keys == {2};
    assert 0 in RevokedIn(t', 1);
  }

  /**
    Two INITIAL requests may both wait, and approving both leaves two live certificates: approval supersedes nothing.
   */
  lemma TwoApprovalsTwoLive()
    ensures var initial := (k: Key) => Submit("d", "n", k, INITIAL, None, 0, Ca(None, true));
      var waiting := Apply(Apply(Apply(EMPTY, Enroll("d", 1)), initial(11)), initial(12));
      var approved := Apply(Apply(waiting, Accept(0, 1, 0, Ca(Some(Signed(7, 100)), true))),
                            Accept(1, 1, 0, Ca(Some(Signed(8, 100)), true)));
      LiveCount(approved, "d", "n", 0) == 2
  {
    var initial := (k: Key) => Submit("d", "n", k, INITIAL, None, 0, Ca(None, true));
    var a0, a1 := Accept(0, 1, 0, Ca(Some(Signed(7, 100)), true)), Accept(1, 1, 0, Ca(Some(Signed(8, 100)), true));
    var r := (k: Key) => Request("d", 1, "n", k, INITIAL, None, PENDING);
    var c := (rid: nat, k: Key, serial: Serial) => Cert(rid, "d", 1, "n", serial, k, 100, None, false, None, None);
    var t1 := Tables(map["d" := 1], map[], map[], map[], 0, 0);
    var t2 := t1.(requests := map[0 := r(11)], nextRequest := 1);
    var t3 := t1.(requests := map[0 := r(11), 1 := r(12)], nextRequest := 2);
    var t4 := t3.(requests := map[0 := r(11).(state := APPROVED), 1 := r(12)],
                  certs := map[0 := c(0, 11, 7)], nextCert := 1);
    assert Apply(EMPTY, Enroll("d", 1)) == t1;
    assert Apply(t1, initial(11)) == t2 by { assert ActiveForName(t1, "d", "n", 0) == {}; }
    assert Apply(t2, initial(12)) == t3 by { assert ActiveForName(t2, "d", "n", 0) == {}; }
    assert Apply(t3, a0) == t4 by { assert WithSerial(t3, 7) == {}; }
    var t5 := Apply(t4, a1);
    assert WithSerial(t4, 8) == {};
    assert t5.certs == map[0 := c(0, 11, 7), 1 := c(1, 12, 8)];
    assert ActiveForName(t5, "d", "n", 0) == {0, 1};
  }

  /** Devices d and e of organisation 1, each with a certificate from a MANIFEST request. */
  const TWO_DEVICES := Tables(map["d" := 1, "e" := 1],
    map[0 := Request("d", 1, "n", 11, MANIFEST, None, APPROVED),
        1 := Request("e", 1, "n", 12, MANIFEST, None, APPROVED)],
    map[0 := Cert(0, "d", 1, "n", 7, 11, 100, None, false, None, None),
        1 := Cert(1, "e", 1, "n", 8, 12, 100, None, false, None, None)], map[], 2, 2)

  /** The tables when only device d has its certificate. */
  const ONE_ISSUED := Tables(map["d" := 1, "e" := 1],
    map[0 := Request("d", 1, "n", 11, MANIFEST, None, APPROVED)],
    map[0 := Cert(0, "d", 1, "n", 7, 11, 100, None, false, None, None)], map[], 1, 1)

  lemma OneIssuedReached(sign: Ca)
    requires sign == Ca(Some(Signed(7, 100)), true)
    ensures ONE_ISSUED == Apply(Apply(Apply(EMPTY, Enroll("d", 1)), Enroll("e", 1)),
                                Submit("d", "n", 11, MANIFEST, None, 0, sign))
  {
    var t := Tables(map["d" := 1, "e" := 1], map[], map[], map[], 0, 0);
    assert Apply(Apply(EMPTY, Enroll("d", 1)), Enroll("e", 1)) == t;
    assert ActiveForName(t, "d", "n", 0) == {};
    assert WithSerial(t, 7) == {};
  }

  lemma TwoDevicesReached()
    ensures var sign := (serial: Serial) => Ca(Some(Signed(serial, 100)), true);
      TWO_DEVICES == Apply(Apply(Apply(Apply(EMPTY, Enroll("d", 1)), Enroll("e", 1)),
                                 Submit("d", "n", 11, MANIFEST, None, 0, sign(7))),
                           Submit("e", "n", 12, MANIFEST, None, 0, sign(8)))
  {
    OneIssuedReached(Ca(Some(Signed(7, 100)), true));
    SecondIssued(Ca(Some(Signed(8, 100)), true));
  }

  lemma SecondIssued(sign: Ca)
    requires sign == Ca(Some(Signed(8, 100)), true)
    ensures TWO_DEVICES == Apply(ONE_ISSUED, Submit("e", "n", 12, MANIFEST, None, 0, sign))
  {
    assert ActiveForName(ONE_ISSUED, "e", "n", 0) == {};
    assert WithSerial(ONE_ISSUED, 8) == {};
  }

  /**
    A CRL that forgets: device d is deleted while its certificate (serial 7) has not expired; withdrawing a
    certificate of device e then rebuilds the CRL, and serial 7 is no longer in it.
   */
  lemma DeletionUnlists(ca: Ca)
    requires ca.crlSigns
    ensures var deleted := Apply(TWO_DEVICES, Delete("d", 10, ca));
      var rebuilt := Apply(deleted, Withdraw(1, 1, 11, ca));
      && deleted.crls == map[1 := Crl(1, 10, 1, {CrlEntry(7, 10, 5)})]
      && rebuilt.crls == map[1 := Crl(2, 11, 1, {CrlEntry(8, 11, 9)})]
  {
    DeleteStep(TWO_DEVICES, ca);
    WithdrawSecond(Apply(TWO_DEVICES, Delete("d", 10, ca)), ca);
  }

  /** Exactly the tables of two devices, each with its unrevoked certificate and no CRL yet. */
  predicate TwoIssued(t: Tables) {
    && t.devices == map["d" := 1, "e" := 1] && t.certs.Keys == {0, 1} && t.crls == map[]
    && t.certs[0] == Cert(0, "d", 1, "n", 7, 11, 100, None, false, None, None)
    && t.certs[1] == Cert(1, "e", 1, "n", 8, 12, 100, None, false, None, None)
  }

  lemma DeleteStep(t: Tables, ca: Ca)
    requires TwoIssued(t) && ca.crlSigns
    ensures var t' := Apply(t, Delete("d", 10, ca));
      t'.certs == map[1 := t.certs[1]] && t'.crls == map[1 := Crl(1, 10, 1, {CrlEntry(7, 10, 5)})]
  {
    DeleteFirst(t, ca);
  }

  lemma WithdrawSecond(t: Tables, ca: Ca)
    requires t.certs == map[1 := Cert(1, "e", 1, "n", 8, 12, 100, None, false, None, None)] && ca.crlSigns
    requires t.crls.Keys == {1} && t.crls[1].number == 1
    ensures Apply(t, Withdraw(1, 1, 11, ca)).crls == map[1 := Crl(2, 11, 1, {CrlEntry(8, 11, 9)})]
  {
    var m := MarkRevoked(t, {1}, 11, ADMIN_REVOKED);
    assert RevokedIn(m, 1) == {1};
    assert Entries(m, 1, 11) == {CrlEntry(8, 11, 9)};
  }

  lemma DeleteFirst(t: Tables, ca: Ca)
    requires TwoIssued(t) && ca.crlSigns
    ensures DeleteDevice(t, "d", 10, ca).Some?
    ensures var t' := DeleteDevice(t, "d", 10, ca).value;
      t'.certs == map[1 := t.certs[1]] && t'.crls == map[1 := Crl(1, 10, 1, {CrlEntry(7, 10, 5)})]
  {
    assert ActiveFor(t, "d", 10) == {0};
    var m := MarkRevoked(t, {0}, 10, DEVICE_DELETED);
    assert RevokedIn(m, 1) == {0};
    assert Entries(m, 1, 10) == {CrlEntry(7, 10, 5)};
  }
}
