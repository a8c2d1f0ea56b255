/**
  The certificate, CRL and device-lifecycle services of the controller, updating their tables in place.
  Each public method is one database transaction: it leaves the tables as the transition function of
  CertificateTables says, or exactly as they were when it throws.
 */
module CertificateServices {
  import opened Prelude
  import opened CertificateTables

  /** The stored request, the certificate issued for it if any, and the flag that would report a blocked request. */
  datatype CertRequestResult = CertRequestResult(request: nat, certificate: Option<nat>, blocked: bool)

  class CertificateService {
    var devices: map<DeviceId, OrgId>
    var requests: map<nat, Request>
    var certs: map<nat, Cert>
    var crls: map<OrgId, Crl>
    var nextRequest: nat
    var nextCert: nat

    constructor ()
      ensures State() == EMPTY
    {
      devices, requests, certs, crls, nextRequest, nextCert := map[], map[], map[], map[], 0, 0;
    }

    function State(): Tables
      reads this
    {
      Tables(devices, requests, certs, crls, nextRequest, nextCert)
    }

    method Rollback(t: Tables)
      modifies this
      ensures State() == t
    {
      devices, requests, certs, crls := t.devices, t.requests, t.certs, t.crls;
      nextRequest, nextCert := t.nextRequest, t.nextCert;
    }

    // ---- CrlService ----

    method RebuildCrl(org: OrgId, now: Instant, ca: Ca) returns (ok: bool)
      modifies this`crls
      ensures ok <==> Rebuild(old(State()), org, now, ca).Some?
      ensures ok ==> State() == Rebuild(old(State()), org, now, ca).value
      ensures !ok ==> State() == old(State())
    {
      var revoked := RevokedIn(State(), org);
      var entries: set<CrlEntry> := {};
      var rest := revoked;
      while rest != {}
        invariant rest <= revoked
        invariant entries == set i | i in revoked - rest :: EntryOf(certs[i], now)
        decreases rest
      {
        var i :| i in rest;
        rest := rest - {i};
        entries := entries + {EntryOf(certs[i], now)};
        assert revoked - rest == (revoked - rest - {i}) + {i};
      }
      assert revoked - rest == revoked;
      if !ca.crlSigns {
        return false;
      }
      var number := if org in crls then crls[org].number else 0;
      crls := crls[org := Crl(number + 1, now, |revoked|, entries)];
      return true;
    }

    method GetOrBuildCrl(org: OrgId, now: Instant, ca: Ca) returns (ok: bool)
      modifies this`crls
      ensures State() == Apply(old(State()), FetchCrl(org, now, ca))
      ensures ok <==> Outcome(old(State()), FetchCrl(org, now, ca)).Some?
      ensures ok ==> org in crls
    {
      if org in crls {
        return true;
      }
      ok := RebuildCrl(org, now, ca);
    }

    // ---- CertificateService, within a transaction ----

    method MarkCertsRevoked(batch: set<nat>, now: Instant, reason: RevokeReason)
      requires forall i :: i in batch ==> i in certs
      modifies this`certs
      ensures State() == MarkRevoked(old(State()), batch, now, reason)
    {
      var rest := batch;
      while rest != {}
        invariant rest <= batch
        invariant certs == map i | i in old(certs) ::
          if i in batch - rest then Revoke(old(certs)[i], now, reason) else old(certs)[i]
        decreases rest
      {
        var i :| i in rest;
        rest := rest - {i};
        certs := certs[i := Revoke(certs[i], now, reason)];
      }
    }

    method RevokeAndRebuild(batch: set<nat>, org: OrgId, now: Instant, reason: RevokeReason, ca: Ca) returns (ok: bool)
      requires forall i :: i in batch ==> i in certs
      modifies this`certs, this`crls
      ensures ok <==> RevokeBatch(old(State()), batch, org, now, reason, ca).Some?
      ensures ok ==> State() == RevokeBatch(old(State()), batch, org, now, reason, ca).value
      ensures !ok ==> State() == MarkRevoked(old(State()), batch, now, reason)
    {
      if batch == {} {
        return true;
      }
      MarkCertsRevoked(batch, now, reason);
      ok := RebuildCrl(org, now, ca);
    }

    method StoreRequest(r: Request) returns (rid: nat)
      modifies this`requests, this`nextRequest
      ensures State() == SaveRequest(old(State()), r) && rid == old(nextRequest)
    {
      rid := nextRequest;
      requests := requests[rid := r];
      nextRequest := rid + 1;
    }

    method Issue(rid: nat, ca: Ca) returns (cert: Option<nat>)
      requires rid in requests
      modifies this
      ensures cert.Some? <==> SignAndIssue(old(State()), rid, ca).Some?
      ensures cert.Some? ==> State() == SignAndIssue(old(State()), rid, ca).value && cert.value == old(nextCert)
    {
      if ca.signed.None? {
        return None;
      }
      var r := requests[rid];
      requests := requests[rid := r.(state := APPROVED)];
      if WithSerial(State(), ca.signed.value.serial) != {} {
        assert WithSerial(State(), ca.signed.value.serial) == WithSerial(old(State()), ca.signed.value.serial);
        return None;
      }
      assert WithSerial(State(), ca.signed.value.serial) == WithSerial(old(State()), ca.signed.value.serial);
      cert := Some(nextCert);
      certs := certs[nextCert := Cert(rid, r.device, r.org, r.name, ca.signed.value.serial, r.key,
                                      ca.signed.value.notAfter, None, false, None, None)];
      nextCert := nextCert + 1;
    }

    method ProcessNonRenewal(device: DeviceId, org: OrgId, name: string, key: Key, kind: RequestKind,
                             autoApprove: bool, now: Instant, ca: Ca) returns (result: Option<CertRequestResult>)
      modifies this
      ensures result.Some? <==> NonRenewal(old(State()), device, org, name, key, kind, autoApprove, now, ca).Some?
      ensures result.Some? ==>
        State() == NonRenewal(old(State()), device, org, name, key, kind, autoApprove, now, ca).value
      ensures result.Some? ==>
        result.value == CertRequestResult(old(nextRequest), if autoApprove then Some(old(nextCert)) else None, false)
    {
      var ok := RevokeAndRebuild(ActiveForName(State(), device, name, now), org, now, SUPERSEDED, ca);
      if !ok {
        return None;
      }
      var rid := StoreRequest(Request(device, org, name, key, kind, None, PENDING));
      if autoApprove {
        var cert := Issue(rid, ca);
        if cert.None? {
          return None;
        }
        return Some(CertRequestResult(rid, cert, false));
      }
      return Some(CertRequestResult(rid, None, false));
    }

    method SetReplacedBy(batch: set<nat>, heir: nat)
      requires forall i :: i in batch ==> i in certs
      modifies this`certs
      ensures State() == Replace(old(State()), batch, heir)
    {
      var rest := batch;
      while rest != {}
        invariant rest <= batch
        invariant certs == map i | i in old(certs) ::
          if i in batch - rest then old(certs)[i].(replacedBy := Some(heir)) else old(certs)[i]
        decreases rest
      {
        var i :| i in rest;
        rest := rest - {i};
        certs := certs[i := certs[i].(replacedBy := Some(heir))];
      }
    }

    method ProcessRenewal(device: DeviceId, org: OrgId, name: string, key: Key, serial: Option<Serial>,
                          now: Instant, ca: Ca) returns (result: Option<CertRequestResult>)
      modifies this
      ensures result.Some? <==> Renewal(old(State()), device, org, name, key, serial, now, ca).Some?
      ensures result.Some? ==> State() == Renewal(old(State()), device, org, name, key, serial, now, ca).value
      ensures result.Some? ==> result.value == CertRequestResult(old(nextRequest),
        if Renewable(old(State()), device, name, serial.value) == {} then None else Some(old(nextCert)), false)
    {
      if serial.None? {
        return None;
      }
      var own := Renewable(State(), device, name, serial.value);
      if own == {} {
        var rejected := StoreRequest(Request(device, org, name, key, RENEWAL, serial, PENDING));
        requests := requests[rejected := requests[rejected].(state := REJECTED)];
        return Some(CertRequestResult(rejected, None, false));
      }
      var rid := StoreRequest(Request(device, org, name, key, RENEWAL, serial, PENDING));
      var cert := Issue(rid, ca);
      if cert.None? {
        return None;
      }
      MarkCertsRevoked(own, now, RENEWED);
      SetReplacedBy(own, cert.value);
      var ok := RebuildCrl(org, now, ca);
      if !ok {
        return None;
      }
      return Some(CertRequestResult(rid, cert, false));
    }

    // ---- transactions ----

    /** onCertRequest: an unregistered device is refused before the service is called. */
    method Handle(device: DeviceId, name: string, key: Key, kind: RequestKind, serial: Option<Serial>,
                  now: Instant, ca: Ca) returns (result: Option<CertRequestResult>)
      modifies this
      ensures State() == Apply(old(State()), Submit(device, name, key, kind, serial, now, ca))
      ensures result.Some? <==> Outcome(old(State()), Submit(device, name, key, kind, serial, now, ca)).Some?
      ensures result.Some? ==> !result.value.blocked && result.value.request == old(nextRequest)
      ensures result.Some? && result.value.certificate.Some? ==> result.value.certificate.value == old(nextCert)
    {
      if device !in devices {
        return None;
      }
      var before := State();
      if kind == RENEWAL {
        result := ProcessRenewal(device, devices[device], name, key, serial, now, ca);
      } else {
        result := ProcessNonRenewal(device, devices[device], name, key, kind, kind == MANIFEST, now, ca);
      }
      if result.None? {
        Rollback(before);
      }
    }

    method ApproveRequest(rid: nat, org: OrgId, now: Instant, ca: Ca) returns (cert: Option<nat>)
      modifies this
      ensures State() == Apply(old(State()), Accept(rid, org, now, ca))
      ensures cert.Some? <==> Outcome(old(State()), Accept(rid, org, now, ca)).Some?
      ensures cert.Some? ==> cert.value == old(nextCert) && cert.value in certs && certs[cert.value].requestId == rid
    {
      if rid !in requests || requests[rid].org != org || requests[rid].state != PENDING {
        return None;
      }
      var before := State();
      cert := Issue(rid, ca);
      if cert.None? {
        Rollback(before);
      }
    }

    method RejectRequest(rid: nat, org: OrgId) returns (ok: bool)
      modifies this`requests
      ensures State() == Apply(old(State()), Decline(rid, org))
      ensures ok <==> Outcome(old(State()), Decline(rid, org)).Some?
      ensures ok ==>
        rid in old(requests) && requests == old(requests)[rid := old(requests)[rid].(state := REJECTED)]
      ensures !ok ==> requests == old(requests)
    {
      if rid !in requests || requests[rid].org != org || requests[rid].state != PENDING {
        return false;
      }
      requests := requests[rid := requests[rid].(state := REJECTED)];
      return true;
    }

    method RevokeCertificate(cid: nat, org: OrgId, now: Instant, ca: Ca) returns (ok: bool)
      modifies this
      ensures State() == Apply(old(State()), Withdraw(cid, org, now, ca))
      ensures ok <==> Outcome(old(State()), Withdraw(cid, org, now, ca)).Some?
    {
      if cid !in certs || certs[cid].org != org || certs[cid].revoked {
        return false;
      }
      var before := State();
      ok := RevokeAndRebuild({cid}, certs[cid].org, now, ADMIN_REVOKED, ca);
      if !ok {
        Rollback(before);
      }
    }

    method RejectPendingRequests(device: DeviceId) returns (count: nat)
      modifies this`requests
      ensures State() == RejectPending(old(State()), device)
      ensures count == |PendingFor(old(State()), device)|
    {
      var pending := PendingFor(State(), device);
      count := |pending|;
      var rest := pending;
      while rest != {}
        invariant rest <= pending
        invariant requests == map r | r in old(requests) ::
          if r in pending - rest then old(requests)[r].(state := REJECTED) else old(requests)[r]
        decreases rest
      {
        var r :| r in rest;
        rest := rest - {r};
        requests := requests[r := requests[r].(state := REJECTED)];
      }
    }

    method EnrollDevice(device: DeviceId, org: OrgId)
      modifies this`devices
      ensures State() == Apply(old(State()), Enroll(device, org))
    {
      devices := devices[device := org];
    }
  }

  function RequestsOf(t: Tables, device: DeviceId): set<nat> {
    set r | r in t.requests && t.requests[r].device == device
  }

  function CertsOf(t: Tables, device: DeviceId): set<nat> {
    set i | i in t.certs && t.certs[i].device == device
  }

  class DeviceLifecycleService {
    const certificates: CertificateService

    constructor (certificates: CertificateService)
      ensures this.certificates == certificates
    {
      this.certificates := certificates;
    }

    /** The foreign keys: removing the device row takes every row that refers to it. */
    method Remove(device: DeviceId)
      modifies certificates
      ensures certificates.State() == RemoveDevice(old(certificates.State()), device)
      ensures RequestsOf(certificates.State(), device) == {} && CertsOf(certificates.State(), device) == {}
      ensures certificates.requests == old(certificates.requests) - RequestsOf(old(certificates.State()), device)
      ensures certificates.certs == old(certificates.certs) - CertsOf(old(certificates.State()), device)
      ensures certificates.crls == old(certificates.crls)
    {
      var t := certificates.State();
      certificates.devices := certificates.devices - {device};
      certificates.requests := certificates.requests - RequestsOf(t, device);
      certificates.certs := certificates.certs - CertsOf(t, device);
    }

    method DeleteDevice(device: DeviceId, now: Instant, ca: Ca) returns (ok: bool)
      modifies certificates
      ensures certificates.State() == Apply(old(certificates.State()), Delete(device, now, ca))
      ensures ok <==> Outcome(old(certificates.State()), Delete(device, now, ca)).Some?
      ensures ok ==> device !in certificates.devices
    {
      if device !in certificates.devices {
        return false;
      }
      var before := certificates.State();
      var active := ActiveFor(before, device, now);
      ok := certificates.RevokeAndRebuild(active, certificates.devices[device], now, DEVICE_DELETED, ca);
      if !ok {
        certificates.Rollback(before);
        return;
      }
      var rejected := certificates.RejectPendingRequests(device);
      Remove(device);
    }
  }
}
