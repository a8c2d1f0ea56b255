/**
  What each transaction on the certificate tables does, row by row and value by value: when it commits, which rows it
  changes and to what, and which entries the CRL then lists.
 */
module CertificateEffects {
  import opened Prelude
  import opened CertificateTables
  import opened CertificateInvariants
  import opened CertificateBounds

  // ---- single rows ----

  /** Only request rid changed, and only its state. */
  ghost predicate OnlyState(t: Tables, t': Tables, rid: nat, state: RequestState) {
    && rid in t.requests && t'.requests.Keys == t.requests.Keys
    && t'.requests[rid] == t.requests[rid].(state := state)
    && forall r :: r in t.requests && r != rid ==> t'.requests[r] == t.requests[r]
  }

  /** A rejection commits exactly for a pending request of the organisation; it alone becomes REJECTED. */
  lemma DeclineEffect(t: Tables, rid: nat, org: OrgId)
    ensures var t' := Apply(t, Decline(rid, org));
      if rid in t.requests && t.requests[rid].org == org && t.requests[rid].state == PENDING then
        && Outcome(t, Decline(rid, org)).Some? && OnlyState(t, t', rid, REJECTED)
        && t' == t.(requests := t'.requests)
      else Outcome(t, Decline(rid, org)).None? && t' == t
  {}

  /** The certificate a request is answered with. */
  predicate IssuedTo(c: Cert, rid: nat, r: Request, s: Signed) {
    && c.requestId == rid && c.device == r.device && c.org == r.org && c.name == r.name && c.key == r.key
    && c.serial == s.serial && c.notAfter == s.notAfter
    && !c.revoked && c.revokedAt.None? && c.revokeReason.None? && c.replacedBy.None?
  }

  /** The one new certificate. */
  ghost predicate Adds(t: Tables, t': Tables, rid: nat, r: Request, s: Signed) {
    && t'.certs.Keys == t.certs.Keys + {t.nextCert} && t'.nextCert == t.nextCert + 1
    && IssuedTo(t'.certs[t.nextCert], rid, r, s)
  }

  ghost predicate SerialFree(t: Tables, ca: Ca) {
    ca.signed.Some? && forall i :: i in t.certs ==> t.certs[i].serial != ca.signed.value.serial
  }

  lemma FreeSerial(t: Tables, ca: Ca)
    ensures SerialFree(t, ca) <==> ca.signed.Some? && WithSerial(t, ca.signed.value.serial) == {}
  {
    if ca.signed.Some? && WithSerial(t, ca.signed.value.serial) == {} {
      FreshSerial(t, ca.signed.value.serial);
    }
  }

  lemma IssueEffect(t: Tables, rid: nat, ca: Ca)
    requires IdsBelow(t) && rid in t.requests
    ensures SignAndIssue(t, rid, ca).Some? <==> SerialFree(t, ca)
    ensures SerialFree(t, ca) ==>
      var t' := SignAndIssue(t, rid, ca).value;
      && OnlyState(t, t', rid, APPROVED) && Adds(t, t', rid, t.requests[rid], ca.signed.value)
      && (forall i :: i in t.certs ==> t'.certs[i] == t.certs[i])
      && t'.devices == t.devices && t'.crls == t.crls && t'.nextRequest == t.nextRequest
  {
    FreeSerial(t, ca);
  }

  /** An approval commits exactly for a pending request of the organisation that gets a signature under a new serial. */
  lemma AcceptEffect(t: Tables, rid: nat, org: OrgId, now: Instant, ca: Ca)
    requires IdsBelow(t)
    ensures var t' := Apply(t, Accept(rid, org, now, ca));
      if rid in t.requests && t.requests[rid].org == org && t.requests[rid].state == PENDING && SerialFree(t, ca) then
        && Outcome(t, Accept(rid, org, now, ca)).Some? && OnlyState(t, t', rid, APPROVED)
        && Adds(t, t', rid, t.requests[rid], ca.signed.value)
        && (forall i :: i in t.certs ==> t'.certs[i] == t.certs[i])
        && t'.devices == t.devices && t'.crls == t.crls && t'.nextRequest == t.nextRequest
      else Outcome(t, Accept(rid, org, now, ca)).None? && t' == t
  {
    if rid in t.requests {
      IssueEffect(t, rid, ca);
    }
  }

  // ---- revocations ----

  /** Unrevoked and not yet expired. */
  predicate Valid(c: Cert, now: Instant) {
    !c.revoked && now < c.notAfter
  }

  /** c is c0, revoked now. */
  predicate RevokedAs(c0: Cert, c: Cert, now: Instant, reason: RevokeReason) {
    c == c0.(revoked := true, revokedAt := Some(now), revokeReason := Some(reason))
  }

  /** The certificates named, and no others, were revoked. */
  ghost predicate Revokes(t: Tables, t': Tables, ids: set<nat>, now: Instant, reason: RevokeReason) {
    && t.certs.Keys <= t'.certs.Keys
    && (forall i :: i in t.certs && i in ids ==> RevokedAs(t.certs[i], t'.certs[i], now, reason))
    && (forall i :: i in t.certs && i !in ids ==> t'.certs[i] == t.certs[i])
  }

  /** The CRL of org has the next number and lists each of the certificates with this date and code; others stay. */
  ghost predicate Lists(t: Tables, t': Tables, ids: set<nat>, org: OrgId, now: Instant, code: nat)
    requires ids <= t.certs.Keys
  {
    && t'.crls.Keys == t.crls.Keys + {org}
    && t'.crls[org].number == (if org in t.crls then t.crls[org].number + 1 else 1)
    && t'.crls[org].thisUpdate == now
    && (forall i :: i in ids && t.certs[i].org == org ==>
          CrlEntry(t.certs[i].serial, now, code) in t'.crls[org].entries)
    && (forall o :: o in t.crls && o != org ==> t'.crls[o] == t.crls[o])
  }

  lemma BatchEffect(t: Tables, ids: set<nat>, org: OrgId, now: Instant, reason: RevokeReason, ca: Ca, code: nat)
    requires ids <= t.certs.Keys
    requires (reason == ADMIN_REVOKED && code == 9) || (reason == SUPERSEDED && code == 4) ||
      (reason == DEVICE_DELETED && code == 5)
    ensures RevokeBatch(t, ids, org, now, reason, ca).Some? <==> ids == {} || ca.crlSigns
    ensures RevokeBatch(t, ids, org, now, reason, ca).Some? ==>
      var t' := RevokeBatch(t, ids, org, now, reason, ca).value;
      && Revokes(t, t', ids, now, reason) && t'.certs.Keys == t.certs.Keys
      && (ids != {} ==> Lists(t, t', ids, org, now, code)) && (ids == {} ==> t'.crls == t.crls)
      && t' == t.(certs := t'.certs, crls := t'.crls)
  {
    if ids != {} && ca.crlSigns {
      var m := MarkRevoked(t, ids, now, reason);
      forall i | i in ids && t.certs[i].org == org
        ensures CrlEntry(t.certs[i].serial, now, code) in Entries(m, org, now)
      {
        assert i in RevokedIn(m, org) && EntryOf(m.certs[i], now) == CrlEntry(t.certs[i].serial, now, code);
      }
    }
  }

  /** A withdrawal commits exactly for an unrevoked certificate of the organisation if the CRL can be signed. */
  lemma WithdrawEffect(t: Tables, cid: nat, org: OrgId, now: Instant, ca: Ca)
    ensures var t' := Apply(t, Withdraw(cid, org, now, ca));
      if cid in t.certs && t.certs[cid].org == org && !t.certs[cid].revoked && ca.crlSigns then
        && Outcome(t, Withdraw(cid, org, now, ca)).Some?
        && Revokes(t, t', {cid}, now, ADMIN_REVOKED) && t'.certs.Keys == t.certs.Keys
        && Lists(t, t', {cid}, org, now, 9) && t' == t.(certs := t'.certs, crls := t'.crls)
      else Outcome(t, Withdraw(cid, org, now, ca)).None? && t' == t
  {
    if cid in t.certs {
      BatchEffect(t, {cid}, org, now, ADMIN_REVOKED, ca, 9);
    }
  }

  function ValidOf(t: Tables, device: DeviceId, now: Instant): set<nat> {
    set i | i in t.certs && t.certs[i].device == device && Valid(t.certs[i], now)
  }

  function ValidNamed(t: Tables, device: DeviceId, name: string, now: Instant): set<nat> {
    set i | i in t.certs && t.certs[i].device == device && t.certs[i].name == name && Valid(t.certs[i], now)
  }

  /**
    A deletion commits exactly for a registered device, if the CRL can be signed or nothing is to be revoked. It takes
    every row of the device and no other, and the CRL lists what was still valid.
   */
  lemma DeleteEffect(t: Tables, d: DeviceId, now: Instant, ca: Ca)
    ensures var t' := Apply(t, Delete(d, now, ca));
      if d in t.devices && (ValidOf(t, d, now) == {} || ca.crlSigns) then
        Outcome(t, Delete(d, now, ca)).Some? && Erases(t, t', d, now)
      else Outcome(t, Delete(d, now, ca)).None? && t' == t
  {
    assert ValidOf(t, d, now) == ActiveFor(t, d, now);
    if d in t.devices {
      BatchEffect(t, ActiveFor(t, d, now), t.devices[d], now, DEVICE_DELETED, ca, 5);
      if ValidOf(t, d, now) == {} || ca.crlSigns {
        var t1 := RevokeBatch(t, ActiveFor(t, d, now), t.devices[d], now, DEVICE_DELETED, ca).value;
        Erased(t, t1, d, now);
      }
    }
  }

  ghost predicate Erases(t: Tables, t': Tables, d: DeviceId, now: Instant)
    requires d in t.devices
  {
    && t'.devices == t.devices - {d} && t'.nextRequest == t.nextRequest && t'.nextCert == t.nextCert
    && t'.requests == (map r | r in t.requests && t.requests[r].device != d :: t.requests[r])
    && t'.certs == (map i | i in t.certs && t.certs[i].device != d :: t.certs[i])
    && (ValidOf(t, d, now) == {} ==> t'.crls == t.crls)
    && (ValidOf(t, d, now) != {} ==> Lists(t, t', ValidOf(t, d, now), t.devices[d], now, 5))
  }

  lemma Erased(t: Tables, t1: Tables, d: DeviceId, now: Instant)
    requires d in t.devices && t1 == t.(certs := t1.certs, crls := t1.crls) && t1.certs.Keys == t.certs.Keys
    requires Revokes(t, t1, ValidOf(t, d, now), now, DEVICE_DELETED)
    requires ValidOf(t, d, now) == {} ==> t1.crls == t.crls
    requires ValidOf(t, d, now) != {} ==> Lists(t, t1, ValidOf(t, d, now), t.devices[d], now, 5)
    ensures Erases(t, RemoveDevice(RejectPending(t1, d), d), d, now)
  {
    var t' := RemoveDevice(RejectPending(t1, d), d);
    forall i | i in t.certs && t.certs[i].device != d ensures i in t'.certs && t'.certs[i] == t.certs[i] {
      assert i !in ValidOf(t, d, now);
    }
    forall i | i in t'.certs ensures i in t.certs && t.certs[i].device != d {
      assert i in t.certs;
    }
  }

  // ---- requests of devices ----

  /** One new request row. */
  ghost predicate Records(t: Tables, t': Tables, r: Request) {
    && t'.requests.Keys == t.requests.Keys + {t.nextRequest} && t'.nextRequest == t.nextRequest + 1
    && t'.requests[t.nextRequest] == r && forall k :: k in t.requests ==> t'.requests[k] == t.requests[k]
  }

  /** What an INITIAL request does, and a MANIFEST request, which is answered at once. */
  ghost predicate Supersedes(t: Tables, t': Tables, d: DeviceId, n: string, k: Key, kind: RequestKind, now: Instant,
                             ca: Ca)
    requires IdsBelow(t) && d in t.devices && (kind == MANIFEST ==> ca.signed.Some?)
  {
    var former, state := ValidNamed(t, d, n, now), if kind == MANIFEST then APPROVED else PENDING;
    var r := Request(d, t.devices[d], n, k, kind, None, state);
    && t'.devices == t.devices && Records(t, t', r) && Revokes(t, t', former, now, SUPERSEDED)
    && (former == {} ==> t'.crls == t.crls) && (former != {} ==> Lists(t, t', former, t.devices[d], now, 4))
    && (kind == MANIFEST ==> Adds(t, t', t.nextRequest, r, ca.signed.value))
    && (kind == INITIAL ==> t'.certs.Keys == t.certs.Keys && t'.nextCert == t.nextCert)
  }

  lemma SupersedeEffect(t: Tables, d: DeviceId, n: string, k: Key, kind: RequestKind, serial: Option<Serial>,
                        now: Instant, ca: Ca)
    requires IdsBelow(t) && d in t.devices && kind != RENEWAL
    ensures var s := Submit(d, n, k, kind, serial, now, ca);
      if (ValidNamed(t, d, n, now) == {} || ca.crlSigns) && (kind == MANIFEST ==> SerialFree(t, ca)) then
        Outcome(t, s).Some? && Supersedes(t, Apply(t, s), d, n, k, kind, now, ca)
      else Outcome(t, s).None? && Apply(t, s) == t
  {
    var former := ActiveForName(t, d, n, now);
    assert ValidNamed(t, d, n, now) == former;
    BatchEffect(t, former, t.devices[d], now, SUPERSEDED, ca, 4);
    if former == {} || ca.crlSigns {
      var t1 := RevokeBatch(t, former, t.devices[d], now, SUPERSEDED, ca).value;
      if kind == INITIAL {
        Waits(t, t1, d, n, k, now, ca);
      } else {
        Answered(t, t1, d, n, k, now, ca);
      }
    }
  }

  /** What superseding the former certificates left. */
  ghost predicate Superseded(t: Tables, t1: Tables, d: DeviceId, n: string, now: Instant)
    requires d in t.devices
  {
    var former := ValidNamed(t, d, n, now);
    && t1 == t.(certs := t1.certs, crls := t1.crls) && t1.certs.Keys == t.certs.Keys
    && Revokes(t, t1, former, now, SUPERSEDED)
    && (former == {} ==> t1.crls == t.crls) && (former != {} ==> Lists(t, t1, former, t.devices[d], now, 4))
  }

  lemma Waits(t: Tables, t1: Tables, d: DeviceId, n: string, k: Key, now: Instant, ca: Ca)
    requires IdsBelow(t) && d in t.devices && Superseded(t, t1, d, n, now)
    ensures var t2 := SaveRequest(t1, Request(d, t.devices[d], n, k, INITIAL, None, PENDING));
      Supersedes(t, t2, d, n, k, INITIAL, now, ca)
  {}

  lemma Answered(t: Tables, t1: Tables, d: DeviceId, n: string, k: Key, now: Instant, ca: Ca)
    requires IdsBelow(t) && d in t.devices && Superseded(t, t1, d, n, now)
    ensures var t2 := SaveRequest(t1, Request(d, t.devices[d], n, k, MANIFEST, None, PENDING));
      && (SignAndIssue(t2, t.nextRequest, ca).Some? <==> SerialFree(t, ca))
      && (SerialFree(t, ca) ==>
            Supersedes(t, SignAndIssue(t2, t.nextRequest, ca).value, d, n, k, MANIFEST, now, ca))
  {
    var t2 := SaveRequest(t1, Request(d, t.devices[d], n, k, MANIFEST, None, PENDING));
    SameSerials(t, t2, ca);
    IssueEffect(t2, t.nextRequest, ca);
    if SerialFree(t, ca) {
      AnsweredRows(t, t1, SignAndIssue(t2, t.nextRequest, ca).value, d, n, k, now, ca);
    }
  }

  lemma AnsweredRows(t: Tables, t1: Tables, t': Tables, d: DeviceId, n: string, k: Key, now: Instant, ca: Ca)
    requires IdsBelow(t) && d in t.devices && Superseded(t, t1, d, n, now) && ca.signed.Some?
    requires var r := Request(d, t.devices[d], n, k, MANIFEST, None, PENDING);
      && OnlyState(SaveRequest(t1, r), t', t.nextRequest, APPROVED) && Adds(t1, t', t.nextRequest, r, ca.signed.value)
    requires t'.devices == t1.devices && t'.crls == t1.crls && t'.nextRequest == t1.nextRequest + 1
    requires forall i :: i in t1.certs ==> t'.certs[i] == t1.certs[i]
    ensures Supersedes(t, t', d, n, k, MANIFEST, now, ca)
  {}

  lemma SameSerials(t: Tables, t': Tables, ca: Ca)
    requires t'.certs.Keys == t.certs.Keys && forall i :: i in t.certs ==> t'.certs[i].serial == t.certs[i].serial
    ensures SerialFree(t', ca) <==> SerialFree(t, ca)
  {}

  // ---- renewals ----

  /** The unrevoked certificate of the device and name with this serial. */
  predicate Renews(t: Tables, i: nat, d: DeviceId, n: string, serial: Serial) {
    i in t.certs && t.certs[i].serial == serial && !t.certs[i].revoked && t.certs[i].device == d && t.certs[i].name == n
  }

  /** The old certificate i is revoked as RENEWED, listed with code 4 and points at the new one. */
  ghost predicate Succeeded(t: Tables, t': Tables, i: nat, d: DeviceId, n: string, k: Key, serial: Serial, now: Instant,
                            ca: Ca)
    requires i in t.certs && d in t.devices && ca.signed.Some?
  {
    var r := Request(d, t.devices[d], n, k, RENEWAL, Some(serial), APPROVED);
    && t'.devices == t.devices && Records(t, t', r) && Adds(t, t', t.nextRequest, r, ca.signed.value)
    && RevokedAs(t.certs[i].(replacedBy := Some(t.nextCert)), t'.certs[i], now, RENEWED)
    && (forall j :: j in t.certs && j != i ==> t'.certs[j] == t.certs[j])
    && Lists(t, t', {i}, t.devices[d], now, 4)
  }

  /** A renewal of a serial the device does not hold is stored as REJECTED, and nothing else happens. */
  lemma UnownedEffect(t: Tables, d: DeviceId, n: string, k: Key, serial: Serial, now: Instant, ca: Ca)
    requires d in t.devices && forall i :: i in t.certs ==> !Renews(t, i, d, n, serial)
    requires IdsBelow(t)
    ensures var s := Submit(d, n, k, RENEWAL, Some(serial), now, ca);
      && Outcome(t, s).Some? && Records(t, Apply(t, s), Request(d, t.devices[d], n, k, RENEWAL, Some(serial), REJECTED))
      && Apply(t, s).certs == t.certs && Apply(t, s).crls == t.crls && Apply(t, s).devices == t.devices
      && Apply(t, s).nextCert == t.nextCert
  {
    assert Renewable(t, d, n, serial) == {};
  }

  /** Any other renewal commits exactly if the certificate gets a signature under a new serial and the CRL one too. */
  lemma RenewalEffect(t: Tables, i: nat, d: DeviceId, n: string, k: Key, serial: Serial, now: Instant, ca: Ca)
    requires IdsBelow(t) && SerialsUnique(t) && d in t.devices && Renews(t, i, d, n, serial)
    ensures var s := Submit(d, n, k, RENEWAL, Some(serial), now, ca);
      if SerialFree(t, ca) && ca.crlSigns then
        Outcome(t, s).Some? && Succeeded(t, Apply(t, s), i, d, n, k, serial, now, ca)
      else Outcome(t, s).None? && Apply(t, s) == t
  {
    var org := t.devices[d];
    var t1 := SaveRequest(t, Request(d, org, n, k, RENEWAL, Some(serial), PENDING));
    assert i in Renewable(t, d, n, serial);
    SameSerials(t, t1, ca);
    FreeSerial(t1, ca);
    if SerialFree(t, ca) && ca.crlSigns {
      var j := RenewalOutcome(t, d, org, n, k, serial, now, ca);
      RenewedEffect(t, i, d, n, k, serial, now, ca);
    }
  }

  lemma RenewedEffect(t: Tables, i: nat, d: DeviceId, n: string, k: Key, serial: Serial, now: Instant, ca: Ca)
    requires IdsBelow(t) && d in t.devices && i in t.certs && SerialFree(t, ca) && ca.crlSigns
    ensures var t1 := Renewed(t, d, t.devices[d], n, k, serial, i, now, ca);
      Succeeded(t, Rebuild(t1, t.devices[d], now, ca).value, i, d, n, k, serial, now, ca)
  {
    var org := t.devices[d];
    var t1 := Renewed(t, d, org, n, k, serial, i, now, ca);
    if t.certs[i].org == org {
      assert i in RevokedIn(t1, org) && EntryOf(t1.certs[i], now) == CrlEntry(t.certs[i].serial, now, 4);
    }
  }

  /** A request without a serial to renew, or of a device without a row, changes nothing. */
  lemma RefusedEffect(t: Tables, d: DeviceId, n: string, k: Key, kind: RequestKind, serial: Option<Serial>,
                      now: Instant, ca: Ca)
    requires d !in t.devices || (kind == RENEWAL && serial.None?)
    ensures Outcome(t, Submit(d, n, k, kind, serial, now, ca)).None?
  {}

  /** A CRL once built is served as it is; the first one has number 1 and lists what is revoked, with its date. */
  lemma FetchEffect(t: Tables, org: OrgId, now: Instant, ca: Ca)
    requires RevocationFields(t)
    ensures var t' := Apply(t, FetchCrl(org, now, ca));
      if org in t.crls || !ca.crlSigns then t' == t
      else
        && t' == t.(crls := t'.crls) && t'.crls.Keys == t.crls.Keys + {org}
        && (forall o :: o in t.crls ==> t'.crls[o] == t.crls[o])
        && t'.crls[org].number == 1 && t'.crls[org].thisUpdate == now
        && (forall i :: i in t.certs && t.certs[i].org == org && t.certs[i].revoked ==>
              exists e :: e in t'.crls[org].entries && e.serial == t.certs[i].serial &&
                Some(e.date) == t.certs[i].revokedAt)
  {
    if org !in t.crls && ca.crlSigns {
      forall i | i in t.certs && t.certs[i].org == org && t.certs[i].revoked
        ensures EntryOf(t.certs[i], now) in Entries(t, org, now)
      {
        assert i in RevokedIn(t, org);
      }
    }
  }

  // ---- a rejection is final ----

  /** Request rid was rejected, or is gone with its device, and no certificate answers it. */
  ghost predicate Rejected(t: Tables, rid: nat) {
    && IdsBelow(t) && rid < t.nextRequest && (rid in t.requests ==> t.requests[rid].state == REJECTED)
    && forall i :: i in t.certs ==> t.certs[i].requestId != rid
  }

  /** Rows keep their identity; at most one request is new, and at most one certificate, which answers it. */
  ghost predicate Grows(t: Tables, t': Tables) {
    && t.certs.Keys <= t'.certs.Keys <= t.certs.Keys + {t.nextCert} && t'.nextCert >= t.nextCert
    && (t.nextCert in t'.certs ==> t'.nextCert > t.nextCert)
    && (forall i :: i in t.certs ==> SameIdentity(t.certs[i], t'.certs[i]))
    && t'.requests.Keys == t.requests.Keys + {t.nextRequest} && t'.nextRequest == t.nextRequest + 1
    && (forall r :: r in t.requests ==> t'.requests[r] == t.requests[r])
    && (t.nextCert in t'.certs ==>
          && t'.certs[t.nextCert].requestId == t.nextRequest
          && Answers(t'.certs[t.nextCert], t'.requests[t.nextRequest]))
  }

  lemma SubmitGrows(t: Tables, s: Step)
    requires IdsBelow(t) && SerialsUnique(t) && s.Submit? && s.device in t.devices && Outcome(t, s).Some?
    ensures Grows(t, Apply(t, s))
  {
    if s.kind != RENEWAL {
      SupersedeEffect(t, s.device, s.name, s.key, s.kind, s.serial, s.now, s.ca);
    } else if i :| i in t.certs && Renews(t, i, s.device, s.name, s.serial.value) {
      RenewalEffect(t, i, s.device, s.name, s.key, s.serial.value, s.now, s.ca);
    } else {
      UnownedEffect(t, s.device, s.name, s.key, s.serial.value, s.now, s.ca);
    }
  }

  lemma RejectedGrows(t: Tables, t': Tables, rid: nat)
    requires Rejected(t, rid) && Grows(t, t')
    ensures Rejected(t', rid)
  {
    forall i | i in t'.certs ensures t'.certs[i].requestId != rid {
      assert i in t.certs ==> SameIdentity(t.certs[i], t'.certs[i]);
    }
  }

  lemma RejectedStep(t: Tables, rid: nat, s: Step)
    requires Rejected(t, rid) && SerialsUnique(t)
    ensures Rejected(Apply(t, s), rid)
  {
    match s
    case Enroll(_, _) =>
    case Submit(_, _, _, _, _, _, _) =>
      if Outcome(t, s).Some? {
        SubmitGrows(t, s);
        RejectedGrows(t, Apply(t, s), rid);
      }
    case Accept(r, org, now, ca) => AcceptEffect(t, r, org, now, ca);
    case Decline(r, org) => DeclineEffect(t, r, org);
    case Withdraw(c, org, now, ca) => WithdrawEffect(t, c, org, now, ca);
    case Delete(d, now, ca) => DeleteEffect(t, d, now, ca);
    case FetchCrl(_, _, _) =>
  }

  lemma {:induction false} RejectedRun(t: Tables, rid: nat, steps: seq<Step>)
    requires Rejected(t, rid) && SerialsUnique(t)
    ensures Rejected(Run(t, steps), rid)
    decreases |steps|
  {
    if steps != [] {
      RejectedStep(t, rid, steps[0]);
      KeyedStep(t, steps[0]);
      RejectedRun(Apply(t, steps[0]), rid, steps[1..]);
    }
  }

  // ---- certificates answer approved requests, in every run ----

  lemma LinkedGrows(t: Tables, t': Tables)
    requires IdsBelow(t) && Linked(t) && Grows(t, t')
    ensures Linked(t')
  {
    forall i | i in t'.certs
      ensures t'.certs[i].requestId in t'.requests && Answers(t'.certs[i], t'.requests[t'.certs[i].requestId])
    {
      if i in t.certs {
        assert SameIdentity(t.certs[i], t'.certs[i]);
      }
    }
    forall i, j | i in t'.certs && j in t'.certs && i != j ensures t'.certs[i].requestId != t'.certs[j].requestId {
      assert i in t.certs ==> SameIdentity(t.certs[i], t'.certs[i]);
      assert j in t.certs ==> SameIdentity(t.certs[j], t'.certs[j]);
    }
  }

  lemma LinkedStep(t: Tables, s: Step)
    requires Keyed(t) && Linked(t)
    ensures Linked(Apply(t, s))
  {
    match s
    case Enroll(_, _) =>
    case Submit(_, _, _, _, _, _, _) =>
      if Outcome(t, s).Some? {
        SubmitGrows(t, s);
        LinkedGrows(t, Apply(t, s));
      }
    case Accept(r, org, now, ca) =>
      if Outcome(t, s).Some? {
        LinkedIssued(t, r, ca);
      }
    case Decline(r, org) => DeclineEffect(t, r, org);
    case Withdraw(c, org, now, ca) =>
      WithdrawEffect(t, c, org, now, ca);
      forall i | i in t.certs ensures SameIdentity(t.certs[i], Apply(t, s).certs[i]) {}
      KeepDistinct(t, Apply(t, s));
    case Delete(d, now, ca) => DeleteEffect(t, d, now, ca);
    case FetchCrl(_, _, _) =>
  }

  lemma {:induction false} LinkedRun(t: Tables, steps: seq<Step>)
    requires Keyed(t) && Linked(t)
    ensures Keyed(Run(t, steps)) && Linked(Run(t, steps))
    decreases |steps|
  {
    if steps != [] {
      LinkedStep(t, steps[0]);
      KeyedStep(t, steps[0]);
      LinkedRun(Apply(t, steps[0]), steps[1..]);
    }
  }

  /**
    A rejection that commits is final: over every run from there, whatever moves or is deleted, the request stays
    REJECTED as long as its row exists, and no certificate is ever issued for it.
   */
  lemma RejectionIsFinal(before: seq<Step>, rid: nat, org: OrgId, after: seq<Step>)
    requires var t := Run(EMPTY, before);
      rid in t.requests && t.requests[rid].org == org && t.requests[rid].state == PENDING
    ensures var t' := Run(Apply(Run(EMPTY, before), Decline(rid, org)), after);
      && (rid in t'.requests ==> t'.requests[rid].state == REJECTED)
      && forall i :: i in t'.certs ==> t'.certs[i].requestId != rid
  {
    var t := Run(EMPTY, before);
    LinkedRun(EMPTY, before);
    DeclineEffect(t, rid, org);
    KeyedStep(t, Decline(rid, org));
    RejectedRun(Apply(t, Decline(rid, org)), rid, after);
  }
}
