/** What every transaction on the certificate tables keeps, and so what every run of them satisfies. */
module CertificateInvariants {
  import opened Prelude
  import opened CertificateTables

  // ---- the invariant, one clause a predicate ----

  ghost predicate IdsBelow(t: Tables) {
    && (forall r :: r in t.requests ==> r < t.nextRequest)
    && (forall i :: i in t.certs ==> i < t.nextCert)
  }

  /** Rows belong to a registered device and carry its organisation. */
  ghost predicate Homed(t: Tables) {
    && (forall r :: r in t.requests ==>
          t.requests[r].device in t.devices && t.devices[t.requests[r].device] == t.requests[r].org)
    && (forall i :: i in t.certs ==>
          t.certs[i].device in t.devices && t.devices[t.certs[i].device] == t.certs[i].org)
  }

  predicate Answers(c: Cert, r: Request) {
    r.state == APPROVED && r.device == c.device && r.org == c.org && r.name == c.name && r.key == c.key
  }

  ghost predicate Linked(t: Tables) {
    && (forall i :: i in t.certs ==>
          t.certs[i].requestId in t.requests && Answers(t.certs[i], t.requests[t.certs[i].requestId]))
    && (forall i, j :: i in t.certs && j in t.certs && i != j ==> t.certs[i].requestId != t.certs[j].requestId)
  }

  ghost predicate IssuedFor(t: Tables, r: nat) {
    exists i :: i in t.certs && t.certs[i].requestId == r
  }

  /** Approved requests have a certificate; nothing is BLOCKED and no renewal waits for review. */
  ghost predicate RequestsSettled(t: Tables) {
    forall r :: r in t.requests ==>
      && (t.requests[r].state == APPROVED ==> IssuedFor(t, r))
      && t.requests[r].state != BLOCKED
      && (t.requests[r].kind == RENEWAL ==> t.requests[r].state != PENDING)
  }

  ghost predicate SerialsUnique(t: Tables) {
    forall i, j :: i in t.certs && j in t.certs && i != j ==> t.certs[i].serial != t.certs[j].serial
  }

  ghost predicate RevocationFields(t: Tables) {
    forall i :: i in t.certs ==>
      && (t.certs[i].revoked <==> t.certs[i].revokedAt.Some?)
      && (t.certs[i].revoked <==> t.certs[i].revokeReason.Some?)
      && (t.certs[i].replacedBy.Some? <==> t.certs[i].revokeReason == Some(RENEWED))
  }

  /** j is the newer certificate, of the same device and name, issued for a renewal of i's serial. */
  ghost predicate Succeeds(t: Tables, i: nat, j: nat)
    requires i in t.certs
  {
    && j in t.certs && i < j
    && t.certs[j].device == t.certs[i].device && t.certs[j].name == t.certs[i].name
    && t.certs[j].requestId in t.requests
    && t.requests[t.certs[j].requestId].kind == RENEWAL
    && t.requests[t.certs[j].requestId].currentSerial == Some(t.certs[i].serial)
  }

  ghost predicate Succession(t: Tables) {
    forall i :: i in t.certs && t.certs[i].replacedBy.Some? ==> Succeeds(t, i, t.certs[i].replacedBy.value)
  }

  /** The certificate request r renewed, pointing at the certificate r was answered with. */
  ghost predicate RenewedBy(t: Tables, i: nat, r: nat) {
    && i in t.certs && r in t.requests && Some(t.certs[i].serial) == t.requests[r].currentSerial
    && t.certs[i].replacedBy.Some? && t.certs[i].replacedBy.value in t.certs
    && t.certs[t.certs[i].replacedBy.value].requestId == r
  }

  ghost predicate RenewalsRecorded(t: Tables) {
    forall r :: r in t.requests && t.requests[r].kind == RENEWAL && t.requests[r].state == APPROVED ==>
      exists i :: RenewedBy(t, i, r)
  }

  /** The entries an organisation's certificates call for; the fallback date is never used. */
  function Recorded(t: Tables, org: OrgId): set<CrlEntry> {
    Entries(t, org, 0)
  }

  /** No revoked certificate is missing from its organisation's CRL. */
  ghost predicate Covered(t: Tables) {
    forall o: OrgId {:trigger RevokedIn(t, o)} :: RevokedIn(t, o) != {} ==>
      o in t.crls && Recorded(t, o) <= t.crls[o].entries
  }

  ghost predicate Rows(t: Tables) {
    IdsBelow(t) && Homed(t) && Linked(t) && SerialsUnique(t) && RevocationFields(t)
  }

  ghost predicate Inv(t: Tables) {
    Rows(t) && RequestsSettled(t) && Succession(t) && RenewalsRecorded(t) && Covered(t)
  }

  // ---- preservation, primitive by primitive ----

  /** Ids of unrevoked certificates of one organisation. */
  ghost predicate Batch(t: Tables, ids: set<nat>, org: OrgId) {
    forall i :: i in ids ==> i in t.certs && !t.certs[i].revoked && t.certs[i].org == org
  }

  lemma EntriesStable(t: Tables, org: OrgId, now: Instant)
    requires RevocationFields(t)
    ensures Entries(t, org, now) == Recorded(t, org)
  {
    forall i | i in RevokedIn(t, org) ensures EntryOf(t.certs[i], now) == EntryOf(t.certs[i], 0) {}
  }

  lemma CoveredByRebuild(t0: Tables, t: Tables, org: OrgId, now: Instant, ca: Ca)
    requires Covered(t0) && RevocationFields(t) && t.crls == t0.crls
    requires forall o: OrgId {:trigger RevokedIn(t, o)} :: o != org ==>
      RevokedIn(t, o) == RevokedIn(t0, o) && Recorded(t, o) == Recorded(t0, o)
    requires ca.crlSigns
    ensures Covered(Rebuild(t, org, now, ca).value)
  {
    var t' := Rebuild(t, org, now, ca).value;
    EntriesStable(t, org, now);
    forall o: OrgId | RevokedIn(t', o) != {} ensures o in t'.crls && Recorded(t', o) <= t'.crls[o].entries {
      assert RevokedIn(t', o) == RevokedIn(t, o) && Recorded(t', o) == Recorded(t, o);
    }
  }

  lemma RowsMarked(t: Tables, ids: set<nat>, org: OrgId, now: Instant, reason: RevokeReason)
    requires Rows(t) && Batch(t, ids, org) && reason != RENEWED
    ensures Rows(MarkRevoked(t, ids, now, reason))
  {
    var m := MarkRevoked(t, ids, now, reason);
    assert forall i :: i in t.certs ==>
      m.certs[i] == (if i in ids then Revoke(t.certs[i], now, reason) else t.certs[i]);
    KeepDistinct(t, m);
    KeepHomes(t, m);
    FieldsMarked(t, ids, now, reason);
  }

  lemma FieldsMarked(t: Tables, ids: set<nat>, now: Instant, reason: RevokeReason)
    requires RevocationFields(t) && reason != RENEWED
    requires forall i :: i in ids ==> i in t.certs && !t.certs[i].revoked
    ensures RevocationFields(MarkRevoked(t, ids, now, reason))
  {}

  /** Distinct serials and request ids are a matter of columns that never change. */
  lemma KeepDistinct(t: Tables, t': Tables)
    requires SerialsUnique(t) && Linked(t) && t'.requests == t.requests && t'.certs.Keys == t.certs.Keys
    requires forall i :: i in t.certs ==> SameIdentity(t.certs[i], t'.certs[i])
    ensures SerialsUnique(t') && Linked(t')
  {
    forall i, j | i in t'.certs && j in t'.certs && i != j
      ensures t'.certs[i].serial != t'.certs[j].serial && t'.certs[i].requestId != t'.certs[j].requestId
    {
      assert SameIdentity(t.certs[i], t'.certs[i]) && SameIdentity(t.certs[j], t'.certs[j]);
    }
    forall i | i in t'.certs
      ensures t'.certs[i].requestId in t'.requests && Answers(t'.certs[i], t'.requests[t'.certs[i].requestId])
    {
      assert SameIdentity(t.certs[i], t'.certs[i]);
    }
  }

  lemma KeepHomes(t: Tables, t': Tables)
    requires IdsBelow(t) && Homed(t) && t'.requests == t.requests && t'.certs.Keys == t.certs.Keys
    requires t'.devices == t.devices && t'.nextRequest == t.nextRequest && t'.nextCert == t.nextCert
    requires forall i :: i in t.certs ==> SameIdentity(t.certs[i], t'.certs[i])
    ensures IdsBelow(t') && Homed(t')
  {}

  predicate SameIdentity(c: Cert, c': Cert) {
    c'.requestId == c.requestId && c'.serial == c.serial && c'.device == c.device && c'.org == c.org &&
    c'.name == c.name && c'.key == c.key
  }

  lemma InvRevokeBatch(t: Tables, ids: set<nat>, org: OrgId, now: Instant, reason: RevokeReason, ca: Ca)
    requires Inv(t) && Batch(t, ids, org) && reason != RENEWED
    requires RevokeBatch(t, ids, org, now, reason, ca).Some?
    ensures Inv(RevokeBatch(t, ids, org, now, reason, ca).value)
  {
    if ids != {} {
      var m := MarkRevoked(t, ids, now, reason);
      RowsMarked(t, ids, org, now, reason);
      RecordsMarked(t, ids, now, reason);
      CoveredAfterBatch(t, ids, org, now, reason, ca);
      InvRebuilt(m, org, now, ca);
    }
  }

  lemma RecordsMarked(t: Tables, ids: set<nat>, now: Instant, reason: RevokeReason)
    requires RequestsSettled(t) && Succession(t) && RenewalsRecorded(t)
    ensures RequestsSettled(MarkRevoked(t, ids, now, reason))
    ensures Succession(MarkRevoked(t, ids, now, reason))
    ensures RenewalsRecorded(MarkRevoked(t, ids, now, reason))
  {
    var m := MarkRevoked(t, ids, now, reason);
    KeepSettled(t, m);
    KeepSuccession(t, m);
    KeepRenewals(t, m);
  }

  lemma CoveredAfterBatch(t: Tables, ids: set<nat>, org: OrgId, now: Instant, reason: RevokeReason, ca: Ca)
    requires Covered(t) && Rows(t) && Batch(t, ids, org) && reason != RENEWED && ids != {} && ca.crlSigns
    ensures Covered(RevokeBatch(t, ids, org, now, reason, ca).value)
  {
    var m := MarkRevoked(t, ids, now, reason);
    RowsMarked(t, ids, org, now, reason);
    forall o: OrgId | o != org ensures RevokedIn(m, o) == RevokedIn(t, o) && Recorded(m, o) == Recorded(t, o) {
      forall i | i in RevokedIn(t, o) ensures m.certs[i] == t.certs[i] {}
    }
    CoveredByRebuild(t, m, org, now, ca);
  }

  /** Rows stay, with their identifying columns. */
  ghost predicate Evolves(t: Tables, t': Tables) {
    && (forall r :: r in t.requests ==> r in t'.requests && SameRequest(t.requests[r], t'.requests[r]))
    && (forall i :: i in t.certs ==> i in t'.certs && SameIdentity(t.certs[i], t'.certs[i]))
  }

  predicate SameRequest(r: Request, r': Request) {
    r' == r.(state := r'.state)
  }

  /** Request r is new or was in the same state before, unless it was rejected now. */
  ghost predicate SameState(t: Tables, t': Tables, r: nat)
    requires r in t'.requests
  {
    t'.requests[r].state == REJECTED || (r in t.requests && t'.requests[r].state == t.requests[r].state)
  }

  lemma KeepSettled(t: Tables, t': Tables)
    requires RequestsSettled(t) && Evolves(t, t')
    requires forall r :: r in t'.requests ==> SameState(t, t', r)
    ensures RequestsSettled(t')
  {
    KeepIssued(t, t');
  }

  lemma KeepSuccession(t: Tables, t': Tables)
    requires Succession(t) && Evolves(t, t')
    requires forall i :: i in t'.certs && t'.certs[i].replacedBy.Some? ==>
      i in t.certs && t.certs[i].replacedBy == t'.certs[i].replacedBy
    ensures Succession(t')
  {
    forall i | i in t'.certs && t'.certs[i].replacedBy.Some? ensures Succeeds(t', i, t'.certs[i].replacedBy.value) {
      assert Succeeds(t, i, t.certs[i].replacedBy.value);
    }
  }

  lemma KeepRenewals(t: Tables, t': Tables)
    requires RenewalsRecorded(t) && Evolves(t, t')
    requires forall r :: r in t'.requests ==> SameState(t, t', r) || t'.requests[r].kind != RENEWAL
    requires forall i :: i in t.certs && t.certs[i].replacedBy.Some? ==> t'.certs[i].replacedBy == t.certs[i].replacedBy
    ensures RenewalsRecorded(t')
  {
    forall r | r in t'.requests && t'.requests[r].kind == RENEWAL && t'.requests[r].state == APPROVED
      ensures exists i :: RenewedBy(t', i, r)
    {
      var i :| RenewedBy(t, i, r);
      assert RenewedBy(t', i, r);
    }
  }

  /** Coverage survives when the CRLs stay and certificates differ, if at all, in unrevoked rows. */
  lemma KeepCovered(t: Tables, t': Tables)
    requires Covered(t) && t'.crls == t.crls
    requires forall i :: i in t'.certs && t'.certs[i].revoked ==> i in t.certs && t.certs[i] == t'.certs[i]
    ensures Covered(t')
  {
    forall o: OrgId | RevokedIn(t', o) != {} ensures o in t'.crls && Recorded(t', o) <= t'.crls[o].entries {
      var i :| i in RevokedIn(t', o);
      assert i in RevokedIn(t, o);
      forall e | e in Recorded(t', o) ensures e in Recorded(t, o) {
        var k :| k in RevokedIn(t', o) && e == EntryOf(t'.certs[k], 0);
        assert k in RevokedIn(t, o) && e == EntryOf(t.certs[k], 0);
      }
    }
  }

  lemma KeepIssued(t: Tables, t': Tables)
    requires forall i :: i in t.certs ==> i in t'.certs && t'.certs[i].requestId == t.certs[i].requestId
    ensures forall r :: IssuedFor(t, r) ==> IssuedFor(t', r)
  {
    forall r | IssuedFor(t, r) ensures IssuedFor(t', r) {
      var i :| i in t.certs && t.certs[i].requestId == r;
      assert i in t'.certs && t'.certs[i].requestId == r;
    }
  }

  lemma InvSaveRequest(t: Tables, r: Request)
    requires Inv(t) && r.device in t.devices && t.devices[r.device] == r.org
    requires r.state == REJECTED || (r.state == PENDING && r.kind != RENEWAL)
    ensures Inv(SaveRequest(t, r))
  {
    var t' := SaveRequest(t, r);
    RowsSaved(t, r);
    KeepIssued(t, t');
    KeepSuccession(t, t');
    KeepRenewals(t, t');
    KeepCovered(t, t');
  }

  lemma RowsSaved(t: Tables, r: Request)
    requires Rows(t) && r.device in t.devices && t.devices[r.device] == r.org
    ensures Rows(SaveRequest(t, r)) && Evolves(t, SaveRequest(t, r))
  {}

  lemma RowsIssued(t: Tables, rid: nat, ca: Ca)
    requires Rows(t) && rid in t.requests && t.requests[rid].state == PENDING
    requires SignAndIssue(t, rid, ca).Some?
    ensures Rows(SignAndIssue(t, rid, ca).value) && Evolves(t, SignAndIssue(t, rid, ca).value)
  {
    LinkedIssued(t, rid, ca);
    SerialsIssued(t, rid, ca);
  }

  lemma LinkedIssued(t: Tables, rid: nat, ca: Ca)
    requires IdsBelow(t) && Linked(t) && rid in t.requests && t.requests[rid].state == PENDING
    requires SignAndIssue(t, rid, ca).Some?
    ensures Linked(SignAndIssue(t, rid, ca).value)
  {}

  lemma SerialsIssued(t: Tables, rid: nat, ca: Ca)
    requires SerialsUnique(t) && rid in t.requests && SignAndIssue(t, rid, ca).Some?
    ensures SerialsUnique(SignAndIssue(t, rid, ca).value)
  {
    FreshSerial(t, ca.signed.value.serial);
  }

  lemma InvIssue(t: Tables, rid: nat, ca: Ca)
    requires Inv(t) && rid in t.requests && t.requests[rid].state == PENDING
    requires SignAndIssue(t, rid, ca).Some?
    ensures Inv(SignAndIssue(t, rid, ca).value)
  {
    var t' := SignAndIssue(t, rid, ca).value;
    RowsIssued(t, rid, ca);
    SettledByIssue(t, rid, ca);
    IssuedKeeps(t, rid, ca);
  }

  lemma IssuedKeeps(t: Tables, rid: nat, ca: Ca)
    requires IdsBelow(t) && Succession(t) && RenewalsRecorded(t) && Covered(t)
    requires rid in t.requests && t.requests[rid].kind != RENEWAL && SignAndIssue(t, rid, ca).Some?
    ensures var t' := SignAndIssue(t, rid, ca).value; Succession(t') && RenewalsRecorded(t') && Covered(t')
  {
    var t' := SignAndIssue(t, rid, ca).value;
    KeepSuccession(t, t');
    KeepRenewals(t, t');
    KeepCovered(t, t');
  }

  lemma SettledByIssue(t: Tables, rid: nat, ca: Ca)
    requires rid in t.requests && SignAndIssue(t, rid, ca).Some? && IdsBelow(t)
    requires forall r :: r in t.requests && r != rid ==>
      (t.requests[r].state == APPROVED ==> IssuedFor(t, r)) && t.requests[r].state != BLOCKED &&
      (t.requests[r].kind == RENEWAL ==> t.requests[r].state != PENDING)
    ensures RequestsSettled(SignAndIssue(t, rid, ca).value)
  {
    var t' := SignAndIssue(t, rid, ca).value;
    KeepIssued(t, t');
    assert t'.certs[t.nextCert].requestId == rid;
    assert IssuedFor(t', rid);
  }

  lemma FreshSerial(t: Tables, serial: Serial)
    requires WithSerial(t, serial) == {}
    ensures forall i :: i in t.certs ==> t.certs[i].serial != serial
  {
    forall i | i in t.certs ensures t.certs[i].serial != serial {
      assert i !in WithSerial(t, serial);
    }
  }

  lemma InvRejects(t: Tables, t': Tables)
    requires Inv(t) && t' == t.(requests := t'.requests) && t'.requests.Keys == t.requests.Keys
    requires forall r :: r in t.requests ==>
      (t'.requests[r] == t.requests[r] ||
       (t.requests[r].state == PENDING && t'.requests[r] == t.requests[r].(state := REJECTED)))
    ensures Inv(t')
  {
    KeepSettled(t, t');
    KeepSuccession(t, t');
    KeepRenewals(t, t');
    KeepCovered(t, t');
  }

  lemma RowsRemoved(t: Tables, device: DeviceId)
    requires Rows(t)
    ensures Rows(RemoveDevice(t, device))
  {}

  lemma SettledAfterRemove(t: Tables, device: DeviceId)
    requires Linked(t) && RequestsSettled(t)
    ensures RequestsSettled(RemoveDevice(t, device))
  {
    var t' := RemoveDevice(t, device);
    forall r | r in t'.requests && t'.requests[r].state == APPROVED ensures IssuedFor(t', r) {
      var i :| i in t.certs && t.certs[i].requestId == r;
      assert i in t'.certs && t'.certs[i].requestId == r;
    }
  }

  lemma RenewalsAfterRemove(t: Tables, device: DeviceId)
    requires Linked(t) && Succession(t) && RenewalsRecorded(t)
    ensures Succession(RemoveDevice(t, device)) && RenewalsRecorded(RemoveDevice(t, device))
  {
    var t' := RemoveDevice(t, device);
    forall i | i in t'.certs && t'.certs[i].replacedBy.Some? ensures Succeeds(t', i, t'.certs[i].replacedBy.value) {
      assert Succeeds(t, i, t.certs[i].replacedBy.value);
    }
    forall r | r in t'.requests && t'.requests[r].kind == RENEWAL && t'.requests[r].state == APPROVED
      ensures exists i :: RenewedBy(t', i, r)
    {
      var i :| RenewedBy(t, i, r);
      assert Succeeds(t, i, t.certs[i].replacedBy.value);
      assert RenewedBy(t', i, r);
    }
  }

  lemma InvRemove(t: Tables, device: DeviceId)
    requires Inv(t)
    ensures Inv(RemoveDevice(t, device))
  {
    RowsRemoved(t, device);
    SettledAfterRemove(t, device);
    RenewalsAfterRemove(t, device);
    KeepCovered(t, RemoveDevice(t, device));
  }

  lemma InvGetOrBuild(t: Tables, org: OrgId, now: Instant, ca: Ca)
    requires Inv(t) && GetOrBuild(t, org, now, ca).Some?
    ensures Inv(GetOrBuild(t, org, now, ca).value)
  {
    if org !in t.crls {
      CoveredByRebuild(t, t, org, now, ca);
      InvRebuilt(t, org, now, ca);
    }
  }

  lemma InvNonRenewal(t: Tables, device: DeviceId, org: OrgId, name: string, key: Key, kind: RequestKind,
                      autoApprove: bool, now: Instant, ca: Ca)
    requires Inv(t) && device in t.devices && t.devices[device] == org && kind != RENEWAL
    requires NonRenewal(t, device, org, name, key, kind, autoApprove, now, ca).Some?
    ensures Inv(NonRenewal(t, device, org, name, key, kind, autoApprove, now, ca).value)
  {
    var active := ActiveForName(t, device, name, now);
    InvRevokeBatch(t, active, org, now, SUPERSEDED, ca);
    var t1 := RevokeBatch(t, active, org, now, SUPERSEDED, ca).value;
    var r := Request(device, org, name, key, kind, None, PENDING);
    InvSaveRequest(t1, r);
    if autoApprove {
      InvIssue(SaveRequest(t1, r), t1.nextRequest, ca);
    }
  }

  lemma RenewableIsOne(t: Tables, device: DeviceId, name: string, serial: Serial) returns (i: nat)
    requires SerialsUnique(t) && Renewable(t, device, name, serial) != {}
    ensures Renewable(t, device, name, serial) == {i} && i in t.certs
  {
    i :| i in Renewable(t, device, name, serial);
  }

  /** A renewal that succeeds, before its CRL is rebuilt. */
  function Renewed(t: Tables, device: DeviceId, org: OrgId, name: string, key: Key, serial: Serial,
                   i: nat, now: Instant, ca: Ca): Tables
    requires ca.signed.Some? && i in t.certs
  {
    var request := Request(device, org, name, key, RENEWAL, Some(serial), APPROVED);
    var heir := Cert(t.nextRequest, device, org, name, ca.signed.value.serial, key, ca.signed.value.notAfter,
                     None, false, None, None);
    t.(requests := t.requests[t.nextRequest := request], nextRequest := t.nextRequest + 1,
       certs := t.certs[i := Revoke(t.certs[i], now, RENEWED).(replacedBy := Some(t.nextCert))][t.nextCert := heir],
       nextCert := t.nextCert + 1)
  }

  lemma RenewalOutcome(t: Tables, device: DeviceId, org: OrgId, name: string, key: Key, serial: Serial,
                       now: Instant, ca: Ca) returns (i: nat)
    requires IdsBelow(t) && SerialsUnique(t)
    requires Renewable(t, device, name, serial) != {}
    requires Renewal(t, device, org, name, key, Some(serial), now, ca).Some?
    ensures i in t.certs && t.certs[i].serial == serial && OwnedBy(t.certs[i], device, name)
    ensures ca.signed.Some? && ca.crlSigns
    ensures forall k :: k in t.certs ==> t.certs[k].serial != ca.signed.value.serial
    ensures Renewal(t, device, org, name, key, Some(serial), now, ca)
         == Rebuild(Renewed(t, device, org, name, key, serial, i, now, ca), org, now, ca)
  {
    i := RenewableIsOne(t, device, name, serial);
    var t1 := SaveRequest(t, Request(device, org, name, key, RENEWAL, Some(serial), PENDING));
    var t2 := SignAndIssue(t1, t.nextRequest, ca).value;
    FreshSerial(t1, ca.signed.value.serial);
    RenewedByParts(t, device, org, name, key, serial, i, now, ca);
  }

  lemma RenewedByParts(t: Tables, device: DeviceId, org: OrgId, name: string, key: Key, serial: Serial, i: nat,
                       now: Instant, ca: Ca)
    requires IdsBelow(t) && i in t.certs
    requires var t1 := SaveRequest(t, Request(device, org, name, key, RENEWAL, Some(serial), PENDING));
      t.nextRequest in t1.requests && SignAndIssue(t1, t.nextRequest, ca).Some?
    ensures var t1 := SaveRequest(t, Request(device, org, name, key, RENEWAL, Some(serial), PENDING));
      var t2 := SignAndIssue(t1, t.nextRequest, ca).value;
      Replace(MarkRevoked(t2, {i}, now, RENEWED), {i}, t.nextCert)
      == Renewed(t, device, org, name, key, serial, i, now, ca)
  {
    var t1 := SaveRequest(t, Request(device, org, name, key, RENEWAL, Some(serial), PENDING));
    var t2 := SignAndIssue(t1, t.nextRequest, ca).value;
    var t3 := Replace(MarkRevoked(t2, {i}, now, RENEWED), {i}, t.nextCert);
    var t' := Renewed(t, device, org, name, key, serial, i, now, ca);
    assert t3.certs == t'.certs;
    assert t3.requests == t'.requests;
  }

  lemma RowsRenewed(t: Tables, device: DeviceId, org: OrgId, name: string, key: Key, serial: Serial,
                    i: nat, now: Instant, ca: Ca)
    requires Rows(t) && device in t.devices && t.devices[device] == org
    requires i in t.certs && ca.signed.Some?
    requires forall k :: k in t.certs ==> t.certs[k].serial != ca.signed.value.serial
    ensures Rows(Renewed(t, device, org, name, key, serial, i, now, ca))
    ensures Evolves(t, Renewed(t, device, org, name, key, serial, i, now, ca))
  {
    RenewedIsIssued(t, device, org, name, key, serial, i, now, ca);
    RowsSucceeded(t, i, now);
    RenewedRows(Succeeded(t, i, now), Request(device, org, name, key, RENEWAL, Some(serial), PENDING), ca);
    RenewedEvolves(t, device, org, name, key, serial, i, now, ca);
  }

  lemma RenewedRows(t: Tables, r: Request, ca: Ca)
    requires Rows(t) && r.device in t.devices && t.devices[r.device] == r.org && r.state == PENDING
    requires SignAndIssue(SaveRequest(t, r), t.nextRequest, ca).Some?
    ensures Rows(SignAndIssue(SaveRequest(t, r), t.nextRequest, ca).value)
  {
    RowsSaved(t, r);
    RowsIssued(SaveRequest(t, r), t.nextRequest, ca);
  }

  lemma RenewedEvolves(t: Tables, device: DeviceId, org: OrgId, name: string, key: Key, serial: Serial,
                       i: nat, now: Instant, ca: Ca)
    requires IdsBelow(t) && i in t.certs && ca.signed.Some?
    ensures Evolves(t, Renewed(t, device, org, name, key, serial, i, now, ca))
  {}

  lemma RenewedIsIssued(t: Tables, device: DeviceId, org: OrgId, name: string, key: Key, serial: Serial,
                        i: nat, now: Instant, ca: Ca)
    requires i in t.certs && ca.signed.Some?
    requires forall k :: k in t.certs ==> t.certs[k].serial != ca.signed.value.serial
    ensures var request := Request(device, org, name, key, RENEWAL, Some(serial), PENDING);
      var t1 := SaveRequest(Succeeded(t, i, now), request);
      SignAndIssue(t1, t.nextRequest, ca) == Some(Renewed(t, device, org, name, key, serial, i, now, ca))
  {
    var t1 := SaveRequest(Succeeded(t, i, now), Request(device, org, name, key, RENEWAL, Some(serial), PENDING));
    assert WithSerial(t1, ca.signed.value.serial) == {};
    var t', a := Renewed(t, device, org, name, key, serial, i, now, ca), SignAndIssue(t1, t.nextRequest, ca).value;
    assert a.requests == t'.requests && a.certs == t'.certs;
  }

  function Succeeded(t: Tables, i: nat, now: Instant): Tables
    requires i in t.certs
  {
    t.(certs := t.certs[i := Revoke(t.certs[i], now, RENEWED).(replacedBy := Some(t.nextCert))])
  }

  lemma RowsSucceeded(t: Tables, i: nat, now: Instant)
    requires Rows(t) && i in t.certs
    ensures Rows(Succeeded(t, i, now))
  {
    KeepDistinct(t, Succeeded(t, i, now));
    KeepHomes(t, Succeeded(t, i, now));
  }

  lemma RenewalSettled(t: Tables, t': Tables)
    requires RequestsSettled(t) && Evolves(t, t') && IssuedFor(t', t.nextRequest)
    requires forall r :: r in t'.requests ==> r == t.nextRequest || (r in t.requests && t'.requests[r] == t.requests[r])
    requires t.nextRequest in t'.requests && t'.requests[t.nextRequest].state == APPROVED
    ensures RequestsSettled(t')
  {
    KeepIssued(t, t');
  }

  lemma RenewalSucceeds(t: Tables, t': Tables, i: nat)
    requires Succession(t) && Evolves(t, t') && i in t.certs && t'.certs[i].replacedBy.Some?
    requires Succeeds(t', i, t'.certs[i].replacedBy.value)
    requires forall k :: k in t'.certs && k != i && t'.certs[k].replacedBy.Some? ==>
      k in t.certs && t'.certs[k].replacedBy == t.certs[k].replacedBy
    ensures Succession(t')
  {
    forall k | k in t'.certs && t'.certs[k].replacedBy.Some? ensures Succeeds(t', k, t'.certs[k].replacedBy.value) {
      if k != i {
        assert Succeeds(t, k, t.certs[k].replacedBy.value);
      }
    }
  }

  lemma RenewalRecorded(t: Tables, t': Tables, i: nat)
    requires RenewalsRecorded(t) && Evolves(t, t') && RenewedBy(t', i, t.nextRequest)
    requires i in t.certs && t.certs[i].replacedBy.None?
    requires forall r :: r in t'.requests ==> r == t.nextRequest || (r in t.requests && t'.requests[r] == t.requests[r])
    requires forall k :: k in t.certs && k != i ==> t'.certs[k] == t.certs[k]
    ensures RenewalsRecorded(t')
  {
    forall r | r in t'.requests && t'.requests[r].kind == RENEWAL && t'.requests[r].state == APPROVED
      ensures exists k :: RenewedBy(t', k, r)
    {
      if r == t.nextRequest {
        assert RenewedBy(t', i, r);
      } else {
        var k :| RenewedBy(t, k, r);
        assert RenewedBy(t', k, r);
      }
    }
  }

  lemma RenewalRecords(t: Tables, device: DeviceId, org: OrgId, name: string, key: Key, serial: Serial,
                       i: nat, now: Instant, ca: Ca)
    requires IdsBelow(t) && RevocationFields(t) && RequestsSettled(t) && Succession(t) && RenewalsRecorded(t)
    requires i in t.certs && t.certs[i].serial == serial && OwnedBy(t.certs[i], device, name) && ca.signed.Some?
    requires Evolves(t, Renewed(t, device, org, name, key, serial, i, now, ca))
    ensures RequestsSettled(Renewed(t, device, org, name, key, serial, i, now, ca))
    ensures Succession(Renewed(t, device, org, name, key, serial, i, now, ca))
    ensures RenewalsRecorded(Renewed(t, device, org, name, key, serial, i, now, ca))
  {
    var t' := Renewed(t, device, org, name, key, serial, i, now, ca);
    assert t'.certs[t.nextCert].requestId == t.nextRequest;
    RenewalSettled(t, t');
    RenewalSucceeds(t, t', i);
    RenewalRecorded(t, t', i);
  }

  lemma InvRenewal(t: Tables, device: DeviceId, org: OrgId, name: string, key: Key, serial: Option<Serial>,
                   now: Instant, ca: Ca)
    requires Inv(t) && device in t.devices && t.devices[device] == org
    requires Renewal(t, device, org, name, key, serial, now, ca).Some?
    ensures Inv(Renewal(t, device, org, name, key, serial, now, ca).value)
  {
    if Renewable(t, device, name, serial.value) == {} {
      InvSaveRequest(t, Request(device, org, name, key, RENEWAL, serial, REJECTED));
    } else {
      var i := RenewalOutcome(t, device, org, name, key, serial.value, now, ca);
      var t3 := Renewed(t, device, org, name, key, serial.value, i, now, ca);
      RowsRenewed(t, device, org, name, key, serial.value, i, now, ca);
      RenewalRecords(t, device, org, name, key, serial.value, i, now, ca);
      RenewalCovered(t, device, org, name, key, serial.value, i, now, ca);
      InvRebuilt(t3, org, now, ca);
    }
  }

  lemma RenewalCovered(t: Tables, device: DeviceId, org: OrgId, name: string, key: Key, serial: Serial,
                       i: nat, now: Instant, ca: Ca)
    requires Rows(t) && Covered(t) && ca.signed.Some? && ca.crlSigns
    requires i in t.certs && OwnedBy(t.certs[i], device, name) && device in t.devices && t.devices[device] == org
    requires Rows(Renewed(t, device, org, name, key, serial, i, now, ca))
    ensures Covered(Rebuild(Renewed(t, device, org, name, key, serial, i, now, ca), org, now, ca).value)
  {
    var t3 := Renewed(t, device, org, name, key, serial, i, now, ca);
    forall o: OrgId | o != org ensures RevokedIn(t3, o) == RevokedIn(t, o) && Recorded(t3, o) == Recorded(t, o) {
      forall k | k in RevokedIn(t, o) ensures t3.certs[k] == t.certs[k] {}
    }
    CoveredByRebuild(t, t3, org, now, ca);
  }

  /** All clauses but coverage ignore the CRL table. */
  lemma InvRebuilt(t: Tables, org: OrgId, now: Instant, ca: Ca)
    requires Rows(t) && RequestsSettled(t) && Succession(t) && RenewalsRecorded(t)
    requires ca.crlSigns && Covered(Rebuild(t, org, now, ca).value)
    ensures Inv(Rebuild(t, org, now, ca).value)
  {
    var t' := Rebuild(t, org, now, ca).value;
    KeepSettled(t, t');
    KeepSuccession(t, t');
    KeepRenewals(t, t');
  }

  lemma InvEnroll(t: Tables, s: Step)
    requires Inv(t) && KeepsOrg(t, s) && s.Enroll?
    ensures Inv(Apply(t, s))
  {
    KeepSettled(t, Apply(t, s));
    KeepSuccession(t, Apply(t, s));
    KeepRenewals(t, Apply(t, s));
    KeepCovered(t, Apply(t, s));
  }

  /** Every transaction keeps the invariant, as long as enrolment does not move a device to another organisation. */
  lemma InvStep(t: Tables, s: Step)
    requires Inv(t) && KeepsOrg(t, s)
    ensures Inv(Apply(t, s))
  {
    if Outcome(t, s).Some? {
      match s
      case Enroll(d, o) => InvEnroll(t, s);
      case Submit(d, n, k, kind, serial, now, ca) =>
        if kind == RENEWAL {
          InvRenewal(t, d, t.devices[d], n, k, serial, now, ca);
        } else {
          InvNonRenewal(t, d, t.devices[d], n, k, kind, kind == MANIFEST, now, ca);
        }
      case Accept(r, o, now, ca) => InvIssue(t, r, ca);
      case Decline(r, o) => InvRejects(t, Apply(t, s));
      case Withdraw(c, o, now, ca) => InvRevokeBatch(t, {c}, o, now, ADMIN_REVOKED, ca);
      case Delete(d, now, ca) =>
        InvRetire(t, d, now, ca);
        InvRemove(Retire(t, d, now, ca).value, d);
      case FetchCrl(o, now, ca) => InvGetOrBuild(t, o, now, ca);
    }
  }

  lemma InvRetire(t: Tables, d: DeviceId, now: Instant, ca: Ca)
    requires Inv(t) && Retire(t, d, now, ca).Some?
    ensures Inv(Retire(t, d, now, ca).value)
  {
    InvRevokeBatch(t, ActiveFor(t, d, now), t.devices[d], now, DEVICE_DELETED, ca);
    InvRejects(RevokeBatch(t, ActiveFor(t, d, now), t.devices[d], now, DEVICE_DELETED, ca).value,
               Retire(t, d, now, ca).value);
  }

  lemma {:induction false} InvRun(t: Tables, steps: seq<Step>)
    requires Inv(t) && KeepsOrgs(t, steps)
    ensures Inv(Run(t, steps))
    decreases |steps|
  {
    if steps != [] {
      InvStep(t, steps[0]);
      InvRun(Apply(t, steps[0]), steps[1..]);
    }
  }
}
