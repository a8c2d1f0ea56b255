/**
  The certificate tables of the controller and the transactions on them, as functions of
  the table contents. A transaction that throws is None: the database rolls it back.
  The clock is read once per transaction. Serials and public keys are numbers; a CSR is
  represented by the public key it carries.
 */
module CertificateTables {
  import opened Prelude

  type DeviceId = string
  type OrgId = nat
  type Serial = nat
  type Key = nat
  type Instant = int

  datatype RequestKind = INITIAL | MANIFEST | RENEWAL
  datatype RequestState = PENDING | APPROVED | REJECTED | BLOCKED
  datatype RevokeReason = RENEWED | ADMIN_REVOKED | COMPROMISED | EXPIRED | DEVICE_DELETED | SUPERSEDED

  datatype Request = Request(device: DeviceId, org: OrgId, name: string, key: Key,
                             kind: RequestKind, currentSerial: Option<Serial>, state: RequestState)

  datatype Cert = Cert(requestId: nat, device: DeviceId, org: OrgId, name: string, serial: Serial,
                       key: Key, notAfter: Instant, replacedBy: Option<nat>,
                       revoked: bool, revokedAt: Option<Instant>, revokeReason: Option<RevokeReason>)

  datatype CrlEntry = CrlEntry(serial: Serial, date: Instant, reasonCode: nat)
  datatype Crl = Crl(number: nat, thisUpdate: Instant, revokedCount: nat, entries: set<CrlEntry>)

  datatype Tables = Tables(devices: map<DeviceId, OrgId>, requests: map<nat, Request>, certs: map<nat, Cert>,
                           crls: map<OrgId, Crl>, nextRequest: nat, nextCert: nat)

  /** What the certificate authority does for one transaction: its signature on a CSR, and whether it can sign a CRL. */
  datatype Signed = Signed(serial: Serial, notAfter: Instant)
  datatype Ca = Ca(signed: Option<Signed>, crlSigns: bool)

  const EMPTY := Tables(map[], map[], map[], map[], 0, 0)

  // ---- repository queries ----

  predicate Live(c: Cert, now: Instant) {
    !c.revoked && c.notAfter > now
  }

  function ActiveFor(t: Tables, device: DeviceId, now: Instant): set<nat> {
    set i | i in t.certs && t.certs[i].device == device && Live(t.certs[i], now)
  }

  function ActiveForName(t: Tables, device: DeviceId, name: string, now: Instant): set<nat> {
    set i | i in t.certs && t.certs[i].device == device && t.certs[i].name == name && Live(t.certs[i], now)
  }

  function PendingFor(t: Tables, device: DeviceId): set<nat> {
    set r | r in t.requests && t.requests[r].device == device && t.requests[r].state == PENDING
  }

  function WithSerial(t: Tables, serial: Serial): set<nat> {
    set i | i in t.certs && t.certs[i].serial == serial
  }

  // ---- CrlService ----

  /** Entry reason codes of section 5.3.1 of RFC 5280. */
  function MapReason(reason: Option<RevokeReason>): nat {
    match reason
    case None => 0
    case Some(COMPROMISED) => 1
    case Some(RENEWED) => 4
    case Some(SUPERSEDED) => 4
    case Some(DEVICE_DELETED) => 5
    case Some(ADMIN_REVOKED) => 9
    case Some(EXPIRED) => 0
  }

  function EntryOf(c: Cert, now: Instant): CrlEntry {
    CrlEntry(c.serial, if c.revokedAt.Some? then c.revokedAt.value else now, MapReason(c.revokeReason))
  }

  function RevokedIn(t: Tables, org: OrgId): set<nat> {
    set i | i in t.certs && t.certs[i].org == org && t.certs[i].revoked
  }

  function Entries(t: Tables, org: OrgId, now: Instant): set<CrlEntry> {
    set i | i in RevokedIn(t, org) :: EntryOf(t.certs[i], now)
  }

  function NextNumber(t: Tables, org: OrgId): nat {
    (if org in t.crls then t.crls[org].number else 0) + 1
  }

  function Rebuild(t: Tables, org: OrgId, now: Instant, ca: Ca): Option<Tables> {
    if !ca.crlSigns then None else
    Some(t.(crls := t.crls[org := Crl(NextNumber(t, org), now, |RevokedIn(t, org)|, Entries(t, org, now))]))
  }

  function GetOrBuild(t: Tables, org: OrgId, now: Instant, ca: Ca): Option<Tables> {
    if org in t.crls then Some(t) else Rebuild(t, org, now, ca)
  }

  // ---- CertificateService ----

  function Revoke(c: Cert, now: Instant, reason: RevokeReason): Cert {
    c.(revoked := true, revokedAt := Some(now), revokeReason := Some(reason))
  }

  function MarkRevoked(t: Tables, ids: set<nat>, now: Instant, reason: RevokeReason): Tables {
    t.(certs := map i | i in t.certs :: if i in ids then Revoke(t.certs[i], now, reason) else t.certs[i])
  }

  function RevokeBatch(t: Tables, ids: set<nat>, org: OrgId, now: Instant, reason: RevokeReason,
                       ca: Ca): Option<Tables> {
    if ids == {} then Some(t) else Rebuild(MarkRevoked(t, ids, now, reason), org, now, ca)
  }

  function SaveRequest(t: Tables, r: Request): Tables {
    t.(requests := t.requests[t.nextRequest := r], nextRequest := t.nextRequest + 1)
  }

  /** Signs and stores a certificate for a request; a used serial violates the unique column and aborts. */
  function SignAndIssue(t: Tables, rid: nat, ca: Ca): Option<Tables>
    requires rid in t.requests
  {
    if ca.signed.None? || WithSerial(t, ca.signed.value.serial) != {} then None else
    var r := t.requests[rid];
    var c := Cert(rid, r.device, r.org, r.name, ca.signed.value.serial, r.key, ca.signed.value.notAfter,
                  None, false, None, None);
    Some(t.(requests := t.requests[rid := r.(state := APPROVED)],
            certs := t.certs[t.nextCert := c], nextCert := t.nextCert + 1))
  }

  function NonRenewal(t: Tables, device: DeviceId, org: OrgId, name: string, key: Key, kind: RequestKind,
                      autoApprove: bool, now: Instant, ca: Ca): Option<Tables> {
    var t1 :- RevokeBatch(t, ActiveForName(t, device, name, now), org, now, SUPERSEDED, ca);
    var t2 := SaveRequest(t1, Request(device, org, name, key, kind, None, PENDING));
    if autoApprove then SignAndIssue(t2, t1.nextRequest, ca) else Some(t2)
  }

  predicate OwnedBy(c: Cert, device: DeviceId, name: string) {
    !c.revoked && c.device == device && c.name == name
  }

  /** The unrevoked certificates a renewal for this device, name and serial may replace. */
  function Renewable(t: Tables, device: DeviceId, name: string, serial: Serial): set<nat> {
    set i | i in WithSerial(t, serial) && OwnedBy(t.certs[i], device, name)
  }

  function Renewal(t: Tables, device: DeviceId, org: OrgId, name: string, key: Key, serial: Option<Serial>,
                   now: Instant, ca: Ca): Option<Tables> {
    if serial.None? then None else
    var own := Renewable(t, device, name, serial.value);
    if own == {} then
      Some(SaveRequest(t, Request(device, org, name, key, RENEWAL, serial, REJECTED)))
    else
      var t1 := SaveRequest(t, Request(device, org, name, key, RENEWAL, serial, PENDING));
      var t2 :- SignAndIssue(t1, t.nextRequest, ca);
      Rebuild(Replace(MarkRevoked(t2, own, now, RENEWED), own, t.nextCert), org, now, ca)
  }

  function Replace(t: Tables, ids: set<nat>, heir: nat): Tables {
    t.(certs := map i | i in t.certs :: if i in ids then t.certs[i].(replacedBy := Some(heir)) else t.certs[i])
  }

  function ProcessRequest(t: Tables, device: DeviceId, org: OrgId, name: string, key: Key, kind: RequestKind,
                          serial: Option<Serial>, now: Instant, ca: Ca): Option<Tables> {
    match kind
    case INITIAL => NonRenewal(t, device, org, name, key, INITIAL, false, now, ca)
    case MANIFEST => NonRenewal(t, device, org, name, key, MANIFEST, true, now, ca)
    case RENEWAL => Renewal(t, device, org, name, key, serial, now, ca)
  }

  predicate IsPending(t: Tables, rid: nat, org: OrgId) {
    rid in t.requests && t.requests[rid].org == org && t.requests[rid].state == PENDING
  }

  function Approve(t: Tables, rid: nat, org: OrgId, ca: Ca): Option<Tables> {
    if IsPending(t, rid, org) then SignAndIssue(t, rid, ca) else None
  }

  function Reject(t: Tables, rid: nat, org: OrgId): Option<Tables> {
    if !IsPending(t, rid, org) then None else
    Some(t.(requests := t.requests[rid := t.requests[rid].(state := REJECTED)]))
  }

  function RevokeCert(t: Tables, cid: nat, org: OrgId, now: Instant, ca: Ca): Option<Tables> {
    if cid !in t.certs || t.certs[cid].org != org || t.certs[cid].revoked then None else
    RevokeBatch(t, {cid}, org, now, ADMIN_REVOKED, ca)
  }

  // ---- DeviceLifecycleService ----

  function RejectPending(t: Tables, device: DeviceId): Tables {
    t.(requests := map r | r in t.requests ::
         if r in PendingFor(t, device) then t.requests[r].(state := REJECTED) else t.requests[r])
  }

  /** Deleting the device row cascades to the rows that reference it. */
  function RemoveDevice(t: Tables, device: DeviceId): Tables {
    t.(devices := t.devices - {device},
       requests := map r | r in t.requests && t.requests[r].device != device :: t.requests[r],
       certs := map i | i in t.certs && t.certs[i].device != device :: t.certs[i])
  }

  /** Everything deleteDevice does before the device row goes. */
  function Retire(t: Tables, device: DeviceId, now: Instant, ca: Ca): Option<Tables> {
    if device !in t.devices then None else
    var t1 :- RevokeBatch(t, ActiveFor(t, device, now), t.devices[device], now, DEVICE_DELETED, ca);
    Some(RejectPending(t1, device))
  }

  function DeleteDevice(t: Tables, device: DeviceId, now: Instant, ca: Ca): Option<Tables> {
    var t1 :- Retire(t, device, now, ca);
    Some(RemoveDevice(t1, device))
  }

  // ---- one transaction of the running controller ----

  datatype Step =
    | Enroll(device: DeviceId, org: OrgId)
    | Submit(device: DeviceId, name: string, key: Key, kind: RequestKind, serial: Option<Serial>, now: Instant, ca: Ca)
    | Accept(rid: nat, org: OrgId, now: Instant, ca: Ca)
    | Decline(rid: nat, org: OrgId)
    | Withdraw(cid: nat, org: OrgId, now: Instant, ca: Ca)
    | Delete(device: DeviceId, now: Instant, ca: Ca)
    | FetchCrl(org: OrgId, now: Instant, ca: Ca)

  /**
    The committed result, or None when the transaction aborts. A request of an unregistered device never reaches the
    service.
   */
  function Outcome(t: Tables, s: Step): Option<Tables> {
    match s
    case Enroll(d, o) => Some(t.(devices := t.devices[d := o]))
    case Submit(d, n, k, kind, serial, now, ca) =>
      if d !in t.devices then None else ProcessRequest(t, d, t.devices[d], n, k, kind, serial, now, ca)
    case Accept(r, o, now, ca) => Approve(t, r, o, ca)
    case Decline(r, o) => Reject(t, r, o)
    case Withdraw(c, o, now, ca) => RevokeCert(t, c, o, now, ca)
    case Delete(d, now, ca) => DeleteDevice(t, d, now, ca)
    case FetchCrl(o, now, ca) => GetOrBuild(t, o, now, ca)
  }

  function Apply(t: Tables, s: Step): Tables {
    match Outcome(t, s) case Some(t') => t' case None => t
  }

  function Run(t: Tables, steps: seq<Step>): Tables
    decreases |steps|
  {
    if steps == [] then t else Run(Apply(t, steps[0]), steps[1..])
  }

  /** An enrolment that does not move a registered device to another organisation. */
  predicate KeepsOrg(t: Tables, s: Step) {
    s.Enroll? && s.device in t.devices ==> t.devices[s.device] == s.org
  }

  predicate KeepsOrgs(t: Tables, steps: seq<Step>)
    decreases |steps|
  {
    steps == [] || (KeepsOrg(t, steps[0]) && KeepsOrgs(Apply(t, steps[0]), steps[1..]))
  }
}
