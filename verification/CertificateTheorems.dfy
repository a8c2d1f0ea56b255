/** What the certificate tables promise over every run: linkage, CRL agreement, the live-certificate bound, deletion. */
module CertificateTheorems {
  import opened Prelude
  import opened CertificateTables
  import opened CertificateInvariants

  // ---- requests, certificates and renewals ----

  /** Approved requests and certificates are in bijection by request id. */
  lemma RequestBijection(t: Tables)
    requires Inv(t)
    ensures forall r :: r in t.requests ==>
      (t.requests[r].state == APPROVED <==> exists i :: i in t.certs && t.certs[i].requestId == r)
    ensures forall i, j :: i in t.certs && j in t.certs && t.certs[i].requestId == t.certs[j].requestId ==> i == j
    ensures forall r :: r in t.requests ==> t.requests[r].state != BLOCKED
  {
    forall r | r in t.requests
      ensures t.requests[r].state == APPROVED <==> exists i :: i in t.certs && t.certs[i].requestId == r
    {
      if t.requests[r].state == APPROVED {
        assert IssuedFor(t, r);
      }
    }
  }

  /** A serial is renewed at most once, however often its request is delivered. */
  lemma RenewedOnce(t: Tables, r: nat, s: nat)
    requires Inv(t) && r in t.requests && s in t.requests
    requires t.requests[r].kind == RENEWAL && t.requests[r].state == APPROVED
    requires t.requests[s].kind == RENEWAL && t.requests[s].state == APPROVED
    requires t.requests[r].currentSerial == t.requests[s].currentSerial
    ensures r == s
  {
    var i :| RenewedBy(t, i, r);
    var j :| RenewedBy(t, j, s);
    assert i == j;
  }

  /**
    replacedBy is set exactly on certificates revoked as RENEWED, is injective, and points to a newer one of the same
    device and name.
   */
  lemma SuccessorsInjective(t: Tables, i: nat, k: nat)
    requires Inv(t) && i in t.certs && k in t.certs
    ensures t.certs[i].replacedBy.Some? <==> t.certs[i].revoked && t.certs[i].revokeReason == Some(RENEWED)
    ensures t.certs[i].replacedBy.Some? ==>
      t.certs[i].replacedBy.value in t.certs && i < t.certs[i].replacedBy.value &&
      t.certs[t.certs[i].replacedBy.value].device == t.certs[i].device &&
      t.certs[t.certs[i].replacedBy.value].name == t.certs[i].name
    ensures t.certs[i].replacedBy.Some? && t.certs[i].replacedBy == t.certs[k].replacedBy ==> i == k
  {
    if t.certs[i].replacedBy.Some? {
      assert Succeeds(t, i, t.certs[i].replacedBy.value);
      if t.certs[i].replacedBy == t.certs[k].replacedBy {
        assert Succeeds(t, k, t.certs[k].replacedBy.value);
      }
    }
  }

  // ---- what one transaction may not change ----

  /**
    A request leaves PENDING once; a revoked certificate keeps its date, reason and successor; only deletion removes
    rows.
   */
  ghost predicate Settles(t: Tables, t': Tables) {
    && (forall r :: r in t.requests && r in t'.requests && t.requests[r].state != PENDING ==>
      t'.requests[r] == t.requests[r])
    && (forall i :: i in t.certs && i in t'.certs && t.certs[i].revoked ==> t'.certs[i] == t.certs[i])
  }

  ghost predicate Persists(t: Tables, t': Tables) {
    t.requests.Keys <= t'.requests.Keys && t.certs.Keys <= t'.certs.Keys
  }

  lemma SettlesBatch(t: Tables, ids: set<nat>, org: OrgId, now: Instant, reason: RevokeReason, ca: Ca)
    requires forall i :: i in ids ==> i in t.certs && !t.certs[i].revoked
    requires RevokeBatch(t, ids, org, now, reason, ca).Some?
    ensures var t' := RevokeBatch(t, ids, org, now, reason, ca).value;
      Settles(t, t') && t'.requests == t.requests && t'.certs.Keys == t.certs.Keys &&
      t'.nextRequest == t.nextRequest && t'.nextCert == t.nextCert
  {}

  lemma SettlesNonRenewal(t: Tables, d: DeviceId, org: OrgId, n: string, k: Key, kind: RequestKind,
                          autoApprove: bool, now: Instant, ca: Ca)
    requires IdsBelow(t) && NonRenewal(t, d, org, n, k, kind, autoApprove, now, ca).Some?
    ensures Settles(t, NonRenewal(t, d, org, n, k, kind, autoApprove, now, ca).value)
    ensures Persists(t, NonRenewal(t, d, org, n, k, kind, autoApprove, now, ca).value)
  {
    SettlesBatch(t, ActiveForName(t, d, n, now), org, now, SUPERSEDED, ca);
  }

  lemma SettlesRenewal(t: Tables, d: DeviceId, org: OrgId, n: string, k: Key, serial: Option<Serial>, now: Instant,
                       ca: Ca)
    requires IdsBelow(t) && Renewal(t, d, org, n, k, serial, now, ca).Some?
    ensures Settles(t, Renewal(t, d, org, n, k, serial, now, ca).value)
    ensures Persists(t, Renewal(t, d, org, n, k, serial, now, ca).value)
  {}

  lemma SettlesRetire(t: Tables, d: DeviceId, now: Instant, ca: Ca)
    requires Retire(t, d, now, ca).Some?
    ensures Settles(t, Retire(t, d, now, ca).value) && Persists(t, Retire(t, d, now, ca).value)
  {
    SettlesBatch(t, ActiveFor(t, d, now), t.devices[d], now, DEVICE_DELETED, ca);
  }

  lemma SettlesDelete(t: Tables, d: DeviceId, now: Instant, ca: Ca)
    requires DeleteDevice(t, d, now, ca).Some?
    ensures Settles(t, DeleteDevice(t, d, now, ca).value)
    ensures forall i :: i in t.certs && t.certs[i].device != d ==> i in DeleteDevice(t, d, now, ca).value.certs
  {
    SettlesBatch(t, ActiveFor(t, d, now), t.devices[d], now, DEVICE_DELETED, ca);
  }

  lemma SettlesStep(t: Tables, s: Step)
    requires IdsBelow(t)
    ensures Settles(t, Apply(t, s))
    ensures !s.Delete? ==> Persists(t, Apply(t, s))
    ensures s.Delete? ==> forall i :: i in t.certs && t.certs[i].device != s.device ==> i in Apply(t, s).certs
  {
    if Outcome(t, s).Some? {
      match s
      case Enroll(d, org) =>
      case Submit(d, n, k, kind, serial, now, ca) =>
        if kind == RENEWAL {
          SettlesRenewal(t, d, t.devices[d], n, k, serial, now, ca);
        } else {
          SettlesNonRenewal(t, d, t.devices[d], n, k, kind, kind == MANIFEST, now, ca);
        }
      case Accept(r, org, now, ca) =>
      case Decline(r, org) =>
      case Withdraw(c, org, now, ca) => SettlesBatch(t, {c}, org, now, ADMIN_REVOKED, ca);
      case Delete(d, now, ca) => SettlesDelete(t, d, now, ca);
      case FetchCrl(org, now, ca) =>
    }
  }

  /** The tables whose revocations a transaction puts on record: a deletion does so before it removes the device. */
  function Listed(t: Tables, s: Step): Tables {
    if s.Delete? && Outcome(t, s).Some? then Retire(t, s.device, s.now, s.ca).value else Apply(t, s)
  }

  lemma ListedInv(t: Tables, s: Step)
    requires Inv(t) && KeepsOrg(t, s)
    ensures Inv(Listed(t, s)) && Listed(t, s).crls == Apply(t, s).crls
  {
    if s.Delete? && Outcome(t, s).Some? {
      InvRetire(t, s.device, s.now, s.ca);
    } else {
      InvStep(t, s);
    }
  }

  /** The revocations on record only grow, up to the moment a deletion removes its device. */
  lemma RecordedGrows(t: Tables, s: Step, org: OrgId)
    requires IdsBelow(t)
    ensures Recorded(t, org) <= Recorded(Listed(t, s), org)
  {
    var t' := Listed(t, s);
    if s.Delete? && Outcome(t, s).Some? {
      SettlesRetire(t, s.device, s.now, s.ca);
    } else {
      SettlesStep(t, s);
    }
    forall e | e in Recorded(t, org) ensures e in Recorded(t', org) {
      var i :| i in RevokedIn(t, org) && e == EntryOf(t.certs[i], 0);
      assert i in RevokedIn(t', org) && e == EntryOf(t'.certs[i], 0);
    }
  }

  // ---- the CRL ----

  /** Every CRL lists exactly the revoked certificates of its organisation. */
  ghost predicate Agreement(t: Tables) {
    forall o :: o in t.crls ==> t.crls[o].entries == Recorded(t, o)
  }

  /** The CRL of org is not the one it was. */
  predicate Renumbered(t: Tables, t': Tables, org: OrgId) {
    org in t'.crls && (org !in t.crls || t'.crls[org].number != t.crls[org].number)
  }

  predicate SameRow(t: Tables, t': Tables, org: OrgId) {
    (org in t.crls <==> org in t'.crls) && (org in t.crls ==> t'.crls[org] == t.crls[org])
  }

  /** The row of org takes the next number and lists exactly what t' records; or it stays, and so does the record. */
  ghost predicate CrlMoves(t: Tables, t': Tables, org: OrgId) {
    if Renumbered(t, t', org) then
      t'.crls[org].number == NextNumber(t, org) && t'.crls[org].entries == Recorded(t', org)
    else
      SameRow(t, t', org) && Recorded(t', org) == Recorded(t, org)
  }

  lemma MovesByRebuild(t: Tables, t1: Tables, org: OrgId, now: Instant, ca: Ca, o: OrgId)
    requires t1.crls == t.crls && RevocationFields(t1) && ca.crlSigns
    requires o != org ==> Recorded(t1, o) == Recorded(t, o)
    ensures CrlMoves(t, Rebuild(t1, org, now, ca).value, o)
  {
    var t' := Rebuild(t1, org, now, ca).value;
    EntriesStable(t1, org, now);
    SameRecords(t1, t', o);
  }

  /** What is on record depends on the certificates only. */
  lemma SameRecords(t: Tables, t': Tables, o: OrgId)
    requires t'.certs == t.certs
    ensures Recorded(t', o) == Recorded(t, o)
  {
    assert RevokedIn(t', o) == RevokedIn(t, o);
  }

  /** Certificates of org change, if at all: the other organisations record the same. */
  lemma OthersRecord(t: Tables, t': Tables, org: OrgId, o: OrgId)
    requires o != org
    requires forall i :: i in t.certs && t.certs[i].org != org ==> i in t'.certs && t'.certs[i] == t.certs[i]
    requires forall i :: i in t'.certs && t'.certs[i].org != org ==> i in t.certs && t'.certs[i] == t.certs[i]
    ensures Recorded(t', o) == Recorded(t, o)
  {
    assert RevokedIn(t', o) == RevokedIn(t, o);
    forall i | i in RevokedIn(t, o) ensures t'.certs[i] == t.certs[i] {}
  }

  lemma MovesByBatch(t: Tables, ids: set<nat>, org: OrgId, now: Instant, reason: RevokeReason, ca: Ca, o: OrgId)
    requires Rows(t) && Batch(t, ids, org) && reason != RENEWED
    requires RevokeBatch(t, ids, org, now, reason, ca).Some?
    ensures CrlMoves(t, RevokeBatch(t, ids, org, now, reason, ca).value, o)
  {
    if ids != {} {
      var m := MarkRevoked(t, ids, now, reason);
      RowsMarked(t, ids, org, now, reason);
      if o != org {
        OthersRecord(t, m, org, o);
      }
      MovesByRebuild(t, m, org, now, ca, o);
    }
  }

  /** Storing a request or issuing a certificate changes no CRL and records nothing as revoked. */
  lemma MovesUnrevoked(t: Tables, t1: Tables, t': Tables, o: OrgId)
    requires CrlMoves(t, t1, o) && t'.crls == t1.crls
    requires forall i :: i in t1.certs ==> i in t'.certs && t'.certs[i] == t1.certs[i]
    requires forall i :: i in t'.certs && i !in t1.certs ==> !t'.certs[i].revoked
    ensures CrlMoves(t, t', o)
  {
    forall i | i in RevokedIn(t', o) ensures i in RevokedIn(t1, o) && t'.certs[i] == t1.certs[i] {}
    assert RevokedIn(t', o) == RevokedIn(t1, o);
    assert Recorded(t', o) == Recorded(t1, o);
  }

  lemma MovesByNonRenewal(t: Tables, d: DeviceId, org: OrgId, n: string, k: Key, kind: RequestKind,
                          autoApprove: bool, now: Instant, ca: Ca, o: OrgId)
    requires Rows(t) && d in t.devices && t.devices[d] == org
    requires NonRenewal(t, d, org, n, k, kind, autoApprove, now, ca).Some?
    ensures CrlMoves(t, NonRenewal(t, d, org, n, k, kind, autoApprove, now, ca).value, o)
  {
    var active := ActiveForName(t, d, n, now);
    MovesByBatch(t, active, org, now, SUPERSEDED, ca, o);
    var t1 := RevokeBatch(t, active, org, now, SUPERSEDED, ca).value;
    assert t1.nextCert == t.nextCert && t1.certs.Keys == t.certs.Keys;
    MovesUnrevoked(t, t1, NonRenewal(t, d, org, n, k, kind, autoApprove, now, ca).value, o);
  }

  lemma MovesByRenewal(t: Tables, d: DeviceId, org: OrgId, n: string, k: Key, serial: Option<Serial>,
                       now: Instant, ca: Ca, o: OrgId)
    requires Rows(t) && d in t.devices && t.devices[d] == org
    requires Renewal(t, d, org, n, k, serial, now, ca).Some?
    ensures CrlMoves(t, Renewal(t, d, org, n, k, serial, now, ca).value, o)
  {
    if Renewable(t, d, n, serial.value) == {} {
      SameRecords(t, Renewal(t, d, org, n, k, serial, now, ca).value, o);
    } else {
      var i := RenewalOutcome(t, d, org, n, k, serial.value, now, ca);
      RowsRenewed(t, d, org, n, k, serial.value, i, now, ca);
      RenewedRecords(t, d, org, n, k, serial.value, i, now, ca, o);
      MovesByRebuild(t, Renewed(t, d, org, n, k, serial.value, i, now, ca), org, now, ca, o);
    }
  }

  lemma RenewedRecords(t: Tables, d: DeviceId, org: OrgId, n: string, k: Key, serial: Serial, i: nat, now: Instant,
                       ca: Ca, o: OrgId)
    requires IdsBelow(t) && i in t.certs && t.certs[i].org == org && ca.signed.Some?
    ensures o != org ==> Recorded(Renewed(t, d, org, n, k, serial, i, now, ca), o) == Recorded(t, o)
  {
    if o != org {
      OthersRecord(t, Renewed(t, d, org, n, k, serial, i, now, ca), org, o);
    }
  }

  lemma MovesByRetire(t: Tables, d: DeviceId, now: Instant, ca: Ca, o: OrgId)
    requires Rows(t) && Retire(t, d, now, ca).Some?
    ensures CrlMoves(t, Retire(t, d, now, ca).value, o)
  {
    MovesByBatch(t, ActiveFor(t, d, now), t.devices[d], now, DEVICE_DELETED, ca, o);
    SameRecords(RevokeBatch(t, ActiveFor(t, d, now), t.devices[d], now, DEVICE_DELETED, ca).value,
                Retire(t, d, now, ca).value, o);
  }

  /**
    Section 5.2.3 of RFC 5280: a CRL that changes takes the next number, and it states the revocations then on record.
   */
  lemma CrlStep(t: Tables, s: Step, o: OrgId)
    requires Inv(t) && KeepsOrg(t, s)
    ensures CrlMoves(t, Listed(t, s), o)
  {
    if Outcome(t, s).Some? {
      match s
      case Enroll(d, org) => SameRecords(t, Apply(t, s), o);
      case Submit(d, n, k, kind, serial, now, ca) =>
        if kind == RENEWAL {
          MovesByRenewal(t, d, t.devices[d], n, k, serial, now, ca, o);
        } else {
          MovesByNonRenewal(t, d, t.devices[d], n, k, kind, kind == MANIFEST, now, ca, o);
        }
      case Accept(r, org, now, ca) => MovesUnrevoked(t, t, Apply(t, s), o);
      case Decline(r, org) => SameRecords(t, Apply(t, s), o);
      case Withdraw(c, org, now, ca) => MovesByBatch(t, {c}, org, now, ADMIN_REVOKED, ca, o);
      case Delete(d, now, ca) => MovesByRetire(t, d, now, ca, o);
      case FetchCrl(org, now, ca) =>
        if org !in t.crls {
          MovesByRebuild(t, t, org, now, ca, o);
        }
    }
  }

  // ---- numbers, over every run whatsoever ----

  predicate Rises(t: Tables, t': Tables, o: OrgId) {
    o in t.crls ==> o in t'.crls && (t'.crls[o] == t.crls[o] || t.crls[o].number < t'.crls[o].number)
  }

  lemma NumberStep(t: Tables, s: Step, o: OrgId)
    ensures Rises(t, Apply(t, s), o)
  {}

  /** Between any two moments of any run, a CRL is the same or has a higher number; no condition on the run at all. */
  lemma {:induction false} NumbersRise(t: Tables, steps: seq<Step>, o: OrgId)
    ensures Rises(t, Run(t, steps), o)
    decreases |steps|
  {
    if steps != [] {
      NumberStep(t, steps[0], o);
      NumbersRise(Apply(t, steps[0]), steps[1..], o);
    }
  }

  // ---- contents, over every run ----

  /** The entries of the revoked certificates of o that go with device d. */
  function Taken(t: Tables, d: DeviceId, o: OrgId): set<CrlEntry> {
    set i | i in RevokedIn(t, o) && t.certs[i].device == d :: EntryOf(t.certs[i], 0)
  }

  /** What a deletion strands in the CRL of o, on top of what was stranded there before. */
  function StrandedBy(t: Tables, s: Step, o: OrgId, before: set<CrlEntry>): set<CrlEntry> {
    (if Renumbered(t, Apply(t, s), o) then {} else before)
    + (if s.Delete? && Outcome(t, s).Some? then Taken(Listed(t, s), s.device, o) else {})
  }

  /**
    The entries of certificates that were revoked when their device was deleted, since the CRL of o was last rebuilt.
   */
  function Stranded(t: Tables, steps: seq<Step>, o: OrgId, before: set<CrlEntry>): set<CrlEntry>
    decreases |steps|
  {
    if steps == [] then before else Stranded(Apply(t, steps[0]), steps[1..], o, StrandedBy(t, steps[0], o, before))
  }

  /** The CRL of o lists what is on record and, apart from it, what is stranded. */
  ghost predicate Explained(t: Tables, o: OrgId, stranded: set<CrlEntry>) {
    && (o in t.crls ==> t.crls[o].entries == Recorded(t, o) + stranded)
    && Recorded(t, o) !! stranded
    && (o !in t.crls ==> stranded == {} && Recorded(t, o) == {})
  }

  /** Removing a device takes its entries off the record, and no other. */
  lemma RecordSplits(t: Tables, d: DeviceId, o: OrgId)
    requires SerialsUnique(t)
    ensures Recorded(t, o) == Recorded(RemoveDevice(t, d), o) + Taken(t, d, o)
    ensures Recorded(RemoveDevice(t, d), o) !! Taken(t, d, o)
  {
    var t' := RemoveDevice(t, d);
    forall i | i in RevokedIn(t, o) ensures EntryOf(t.certs[i], 0) in Recorded(t', o) + Taken(t, d, o) {
      if t.certs[i].device != d {
        assert i in RevokedIn(t', o) && t'.certs[i] == t.certs[i];
      }
    }
    forall i | i in RevokedIn(t', o) ensures i in RevokedIn(t, o) && t.certs[i] == t'.certs[i] {}
  }

  lemma ExplainedListed(t: Tables, s: Step, o: OrgId, stranded: set<CrlEntry>)
    requires Inv(t) && KeepsOrg(t, s) && Explained(t, o, stranded)
    ensures Explained(Listed(t, s), o, if Renumbered(t, Apply(t, s), o) then {} else stranded)
  {
    CrlStep(t, s, o);
    ListedInv(t, s);
    if o !in Listed(t, s).crls {
      assert RevokedIn(Listed(t, s), o) == {};
    }
  }

  lemma ExplainedRemove(t: Tables, d: DeviceId, o: OrgId, stranded: set<CrlEntry>)
    requires SerialsUnique(t) && Explained(t, o, stranded)
    ensures Explained(RemoveDevice(t, d), o, stranded + Taken(t, d, o))
  {
    RecordSplits(t, d, o);
  }

  /** A transaction leaves every CRL explained by what is on record and what is stranded then. */
  lemma ExplainedStep(t: Tables, s: Step, o: OrgId, stranded: set<CrlEntry>)
    requires Inv(t) && KeepsOrg(t, s) && Explained(t, o, stranded)
    ensures Explained(Apply(t, s), o, StrandedBy(t, s, o, stranded))
  {
    var base := if Renumbered(t, Apply(t, s), o) then {} else stranded;
    ExplainedListed(t, s, o, stranded);
    if s.Delete? && Outcome(t, s).Some? {
      DeleteIsRemove(t, s);
      ListedInv(t, s);
      ExplainedRemove(Listed(t, s), s.device, o, base);
    }
  }

  lemma DeleteIsRemove(t: Tables, s: Step)
    requires s.Delete? && Outcome(t, s).Some?
    ensures Apply(t, s) == RemoveDevice(Listed(t, s), s.device)
  {}

  /**
    Over every run a CRL lists exactly the revocations on record plus the stranded entries, and these are no longer
    on record; no revocation on record is ever missing.
   */
  lemma {:induction false} AgreementRun(t: Tables, steps: seq<Step>, o: OrgId, before: set<CrlEntry>)
    requires Inv(t) && KeepsOrgs(t, steps) && Explained(t, o, before)
    ensures Inv(Run(t, steps)) && Explained(Run(t, steps), o, Stranded(t, steps, o, before))
    decreases |steps|
  {
    if steps != [] {
      InvStep(t, steps[0]);
      ExplainedStep(t, steps[0], o, before);
      AgreementRun(Apply(t, steps[0]), steps[1..], o, StrandedBy(t, steps[0], o, before));
    }
  }

  /**
    From the empty tables, a CRL agrees with the tables if and only if no certificate revoked at the time was removed
    with its device since that CRL was last rebuilt; in any case it lists those entries and what is on record.
   */
  lemma AgreesExactly(steps: seq<Step>, o: OrgId)
    requires KeepsOrgs(EMPTY, steps) && o in Run(EMPTY, steps).crls
    ensures var t, stranded := Run(EMPTY, steps), Stranded(EMPTY, steps, o, {});
      && (t.crls[o].entries == Recorded(t, o) <==> stranded == {})
      && t.crls[o].entries - Recorded(t, o) == stranded
      && Recorded(t, o) <= t.crls[o].entries
  {
    assert RevokedIn(EMPTY, o) == {};
    AgreementRun(EMPTY, steps, o, {});
    var t, stranded := Run(EMPTY, steps), Stranded(EMPTY, steps, o, {});
    assert t.crls[o].entries - Recorded(t, o) == stranded;
  }

  /** A transaction takes exactly the stranded entries out of a CRL if it rebuilds it, and none otherwise. */
  lemma LosesExactly(t: Tables, s: Step, o: OrgId, stranded: set<CrlEntry>)
    requires Inv(t) && KeepsOrg(t, s) && Explained(t, o, stranded) && o in t.crls
    ensures o in Apply(t, s).crls
    ensures t.crls[o].entries - Apply(t, s).crls[o].entries == if Renumbered(t, Apply(t, s), o) then
      stranded - Recorded(Listed(t, s), o) else {}
  {
    CrlStep(t, s, o);
    RecordedGrows(t, s, o);
    ListedInv(t, s);
  }

  /** The number of entries is the number of revoked certificates counted when the CRL was built. */
  lemma CountMatches(t: Tables, org: OrgId, now: Instant, ca: Ca)
    requires SerialsUnique(t) && ca.crlSigns
    ensures var crl := Rebuild(t, org, now, ca).value.crls[org]; crl.revokedCount == |crl.entries|
  {
    DistinctEntries(t, RevokedIn(t, org), now);
  }

  lemma {:induction false} DistinctEntries(t: Tables, ids: set<nat>, now: Instant)
    requires SerialsUnique(t) && forall i :: i in ids ==> i in t.certs
    ensures |set i | i in ids :: EntryOf(t.certs[i], now)| == |ids|
  {
    if ids != {} {
      var k :| k in ids;
      DistinctEntries(t, ids - {k}, now);
      var rest := set i | i in ids - {k} :: EntryOf(t.certs[i], now);
      assert (set i | i in ids :: EntryOf(t.certs[i], now)) == rest + {EntryOf(t.certs[k], now)};
      assert EntryOf(t.certs[k], now) !in rest;
    }
  }

  // ---- deletion: where the promise stops ----

  /** The certificates whose rows and revocation go when the device is deleted. */
  function Forgotten(t: Tables, d: DeviceId, now: Instant): set<nat> {
    set i | i in t.certs && t.certs[i].device == d && (t.certs[i].revoked || Live(t.certs[i], now))
  }

  /**
    Deleting a device cascades to its certificate rows, revoked ones included, so the tables stop recording
    revocations that the CRL lists. The CRLs keep agreeing if and only if the device had no revoked and no
    live certificate.
   */
  lemma DeletionAgreement(t: Tables, d: DeviceId, now: Instant, ca: Ca)
    requires Inv(t) && Agreement(t) && DeleteDevice(t, d, now, ca).Some?
    ensures Agreement(DeleteDevice(t, d, now, ca).value) <==> Forgotten(t, d, now) == {}
  {
    if Forgotten(t, d, now) == {} {
      NothingForgotten(t, d, now, ca);
    } else {
      var i :| i in Forgotten(t, d, now);
      EntryStranded(t, d, now, ca, i);
    }
  }

  lemma NothingForgotten(t: Tables, d: DeviceId, now: Instant, ca: Ca)
    requires Agreement(t) && DeleteDevice(t, d, now, ca).Some? && Forgotten(t, d, now) == {}
    ensures Agreement(DeleteDevice(t, d, now, ca).value)
  {
    var t' := DeleteDevice(t, d, now, ca).value;
    assert ActiveFor(t, d, now) <= Forgotten(t, d, now);
    forall o | o in t'.crls ensures t'.crls[o].entries == Recorded(t', o) {
      forall i | i in RevokedIn(t, o) ensures i in RevokedIn(t', o) && t'.certs[i] == t.certs[i] {
        assert i !in Forgotten(t, d, now);
      }
      assert RevokedIn(t', o) == RevokedIn(t, o);
    }
  }

  lemma EntryStranded(t: Tables, d: DeviceId, now: Instant, ca: Ca, i: nat)
    requires Inv(t) && DeleteDevice(t, d, now, ca).Some? && i in Forgotten(t, d, now)
    ensures !Agreement(DeleteDevice(t, d, now, ca).value)
  {
    var t1 := Retire(t, d, now, ca).value;
    var t' := RemoveDevice(t1, d);
    var org := t.devices[d];
    ForgottenListed(t, d, now, ca, i);
    InvRetire(t, d, now, ca);
    OtherEntries(t1, t', org, i);
  }

  lemma OtherEntries(t1: Tables, t': Tables, org: OrgId, i: nat)
    requires SerialsUnique(t1) && i in t1.certs && i !in t'.certs
    requires forall k :: k in t'.certs ==> k in t1.certs && t'.certs[k] == t1.certs[k]
    ensures EntryOf(t1.certs[i], 0) !in Recorded(t', org)
  {
    forall k | k in RevokedIn(t', org) ensures EntryOf(t'.certs[k], 0) != EntryOf(t1.certs[i], 0) {}
  }

  /** When the device goes, each certificate it takes along is revoked and its entry is in the CRL. */
  lemma ForgottenListed(t: Tables, d: DeviceId, now: Instant, ca: Ca, i: nat)
    requires Inv(t) && Retire(t, d, now, ca).Some? && i in Forgotten(t, d, now)
    ensures var t1 := Retire(t, d, now, ca).value;
      i in t1.certs && t1.certs[i].revoked && t1.certs[i].org == t.devices[d] && t.devices[d] in t1.crls &&
      EntryOf(t1.certs[i], 0) in t1.crls[t.devices[d]].entries
  {
    var t1 := Retire(t, d, now, ca).value;
    var org := t.devices[d];
    InvRetire(t, d, now, ca);
    assert !t.certs[i].revoked ==> i in ActiveFor(t, d, now);
    assert i in RevokedIn(t1, org);
    assert EntryOf(t1.certs[i], 0) in Recorded(t1, org);
  }

  /** No revocation still on record is ever missing; a rebuild drops exactly the entries no longer on record then. */
  lemma RebuildDropsForgotten(t: Tables, s: Step, o: OrgId)
    requires Inv(t) && KeepsOrg(t, s) && o in t.crls
    ensures o in Apply(t, s).crls && Recorded(Apply(t, s), o) <= Apply(t, s).crls[o].entries
    ensures Apply(t, s).crls[o] != t.crls[o] ==>
      t.crls[o].entries - Apply(t, s).crls[o].entries == t.crls[o].entries - Recorded(Listed(t, s), o)
  {
    InvStep(t, s);
    ListedInv(t, s);
    CrlStep(t, s, o);
    assert RevokedIn(Apply(t, s), o) == {} ==> Recorded(Apply(t, s), o) == {};
  }
}
