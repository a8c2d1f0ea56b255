/**
  The renewal handshake: the agent, the controller's tables and a network that may duplicate and delay
  messages but does not lose them. The device is registered and its certificates are the tables' own.
 */
module RenewalHandshake {
  import opened Prelude
  import opened CertificateTables
  import opened CertificateInvariants
  import opened CertificateTheorems
  import opened RenewalAgent

  const IDENTITY := "device-identity"

  /** Messages in flight are counted: each copy is delivered on its own. */
  datatype World = World(device: DeviceId, tables: Tables, agent: Agent,
                         requests: multiset<RenewalRequest>, responses: multiset<Pem>)

  datatype Event =
    | Ticked(now: Instant, newKey: Key, sending: Sending)
    | RequestArrives(request: RenewalRequest, again: bool, now: Instant, ca: Ca)
    | ResponseArrives(response: Pem, again: bool, io: Install)
    | Reboot
    | Bystander(step: Step)

  function PemOf(c: Cert): Pem {
    Pem(c.serial, c.key, c.notAfter)
  }

  function Without<T>(m: multiset<T>, x: T, again: bool): multiset<T> {
    if again then m else m - multiset{x}
  }

  function RenewalStep(w: World, request: RenewalRequest, now: Instant, ca: Ca): Step {
    Submit(w.device, IDENTITY, request.key, RENEWAL, Some(request.serial), now, ca)
  }

  /** The certificate a delivered request obtains, if any: the one with the next id. */
  predicate Granted(w: World, request: RenewalRequest, now: Instant, ca: Ca) {
    Outcome(w.tables, RenewalStep(w, request, now, ca)).Some? &&
      Renewable(w.tables, w.device, IDENTITY, request.serial) != {}
  }

  function Next(w: World, e: Event): World {
    match e
    case Ticked(now, newKey, sending) =>
      var attempt := Tick(w.agent, now, newKey, sending);
      w.(agent := AfterTick(w.agent, now, newKey, sending),
         requests := if attempt.Published? then w.requests + multiset{attempt.request} else w.requests)
    case RequestArrives(q, again, now, ca) =>
      if q !in w.requests then w else
      var tables := Apply(w.tables, RenewalStep(w, q, now, ca));
      w.(tables := tables, requests := Without(w.requests, q, again),
         responses := if Granted(w, q, now, ca) && w.tables.nextCert in tables.certs
                      then w.responses + multiset{PemOf(tables.certs[w.tables.nextCert])} else w.responses)
    case ResponseArrives(r, again, io) =>
      if r !in w.responses then w else
      w.(agent := AfterInstall(w.agent, r, io), responses := Without(w.responses, r, again))
    case Reboot => w.(agent := Restarted(w.agent))
    case Bystander(s) => w.(tables := Apply(w.tables, s))
  }

  function After(w: World, events: seq<Event>): World
    decreases |events|
  {
    if events == [] then w else After(Next(w, events[0]), events[1..])
  }

  /**
    A controller transaction about another device, or another certificate name, that leaves the device's organisation
    alone.
   */
  predicate Elsewhere(w: World, s: Step) {
    match s
    case Enroll(d, o) => d != w.device && KeepsOrg(w.tables, s)
    case Submit(d, n, _, _, _, _, _) => d != w.device || n != IDENTITY
    case Accept(r, _, _, _) => r in w.tables.requests ==>
      w.tables.requests[r].device != w.device || w.tables.requests[r].name != IDENTITY
    case Decline(_, _) => true
    case Withdraw(c, _, _, _) => c in w.tables.certs ==>
      w.tables.certs[c].device != w.device || w.tables.certs[c].name != IDENTITY
    case Delete(d, _, _) => d != w.device
    case FetchCrl(_, _, _) => true
  }

  /**
    What the run must respect: an attempt is made only after every copy of the answers, and every copy of a
    request for the current serial, has been handled; installing an answer works; nobody else touches the device's
    identity certificates.
   */
  predicate Allowed(w: World, e: Event) {
    match e
    case Ticked(now, newKey, sending) =>
      Tick(w.agent, now, newKey, sending).Published? || Tick(w.agent, now, newKey, sending).Unpublished? ==>
        w.responses == multiset{} && (forall q :: q in w.requests ==> q.serial != w.agent.identity.serial)
    case ResponseArrives(_, _, io) => io == WORKS
    case Bystander(s) => Elsewhere(w, s)
    case _ => true
  }

  predicate AllAllowed(w: World, events: seq<Event>)
    decreases |events|
  {
    events == [] || (Allowed(w, events[0]) && AllAllowed(Next(w, events[0]), events[1..]))
  }

  // ---- the invariant ----

  /** i is an identity certificate of the device, the one the agent sees as pem. */
  ghost predicate IsCert(w: World, i: nat, pem: Pem) {
    && i in w.tables.certs && w.tables.certs[i].device == w.device && w.tables.certs[i].name == IDENTITY
    && PemOf(w.tables.certs[i]) == pem
  }

  /**
    The agent's certificate i was renewed: its unrevoked successor j is in an undelivered answer for the stashed key.
   */
  ghost predicate AnswerPending(w: World, i: nat, j: nat)
    requires i in w.tables.certs
  {
    && w.tables.certs[i].replacedBy == Some(j)
    && j in w.tables.certs && w.tables.certs[j].device == w.device && w.tables.certs[j].name == IDENTITY
    && !w.tables.certs[j].revoked
    && PemOf(w.tables.certs[j]) in w.responses
    && w.agent.stash == Some(w.tables.certs[j].key)
  }

  ghost predicate FilesAgree(a: Agent) {
    Paired(a) && a.identity == a.certFile
  }

  /**
    A response in flight is the successor of the agent's certificate, for the stashed key, or a copy of an answer
    already installed.
   */
  ghost predicate ResponseExpected(w: World, i: nat, r: Pem)
    requires i in w.tables.certs
  {
    || (w.agent.stash.None? && r == w.agent.identity)
    || (exists j :: AnswerPending(w, i, j) && r == PemOf(w.tables.certs[j]))
  }

  /** A request in flight asks for a serial of the device; it can only succeed if it is the agent's current attempt. */
  ghost predicate RequestExpected(w: World, q: RenewalRequest) {
    exists k :: k in w.tables.certs && w.tables.certs[k].serial == q.serial &&
      w.tables.certs[k].device == w.device && w.tables.certs[k].name == IDENTITY &&
      (w.tables.certs[k].revoked || (q.serial == w.agent.identity.serial && w.agent.stash == Some(q.key)))
  }

  ghost predicate Synced(w: World, i: nat) {
    && IsCert(w, i, w.agent.identity)
    && (!w.tables.certs[i].revoked || exists j :: AnswerPending(w, i, j))
    && (forall r :: r in w.responses ==> ResponseExpected(w, i, r))
  }

  ghost predicate HandshakeInv(w: World) {
    && Inv(w.tables) && w.device in w.tables.devices && FilesAgree(w.agent)
    && (forall q :: q in w.requests ==> RequestExpected(w, q))
    && exists i :: Synced(w, i)
  }

  // ---- preservation ----

  /** The tables changed, but no identity certificate of the device did. */
  ghost predicate Untouched(w: World, t': Tables) {
    forall i :: i in w.tables.certs && w.tables.certs[i].device == w.device && w.tables.certs[i].name == IDENTITY ==>
      i in t'.certs && t'.certs[i] == w.tables.certs[i]
  }

  lemma SyncedFrame(w: World, t': Tables)
    requires HandshakeInv(w) && Untouched(w, t') && Inv(t') && w.device in t'.devices
    ensures HandshakeInv(w.(tables := t'))
  {
    var w' := w.(tables := t');
    var i :| Synced(w, i);
    if w.tables.certs[i].revoked {
      var j :| AnswerPending(w, i, j);
      assert AnswerPending(w', i, j);
    }
    forall r | r in w'.responses ensures ResponseExpected(w', i, r) {
      assert ResponseExpected(w, i, r);
      if !(w.agent.stash.None? && r == w.agent.identity) {
        var j :| AnswerPending(w, i, j) && r == PemOf(w.tables.certs[j]);
        assert AnswerPending(w', i, j);
      }
    }
    assert Synced(w', i);
    forall q | q in w'.requests ensures RequestExpected(w', q) { assert RequestExpected(w, q); }
  }

  lemma OtherNonRenewal(w: World, d: DeviceId, org: OrgId, n: string, k: Key, kind: RequestKind,
                        autoApprove: bool, now: Instant, ca: Ca)
    requires IdsBelow(w.tables) && (d != w.device || n != IDENTITY)
    requires NonRenewal(w.tables, d, org, n, k, kind, autoApprove, now, ca).Some?
    ensures Untouched(w, NonRenewal(w.tables, d, org, n, k, kind, autoApprove, now, ca).value)
  {}

  lemma OtherRenewal(w: World, d: DeviceId, org: OrgId, n: string, k: Key, serial: Option<Serial>, now: Instant, ca: Ca)
    requires IdsBelow(w.tables) && SerialsUnique(w.tables) && (d != w.device || n != IDENTITY)
    requires Renewal(w.tables, d, org, n, k, serial, now, ca).Some?
    ensures Untouched(w, Renewal(w.tables, d, org, n, k, serial, now, ca).value)
  {
    if Renewable(w.tables, d, n, serial.value) != {} {
      var i := RenewalOutcome(w.tables, d, org, n, k, serial.value, now, ca);
    }
  }

  lemma ElsewhereUntouched(w: World, s: Step)
    requires IdsBelow(w.tables) && SerialsUnique(w.tables) && w.device in w.tables.devices && Elsewhere(w, s)
    ensures Untouched(w, Apply(w.tables, s)) && w.device in Apply(w.tables, s).devices
  {
    if Outcome(w.tables, s).Some? {
      match s
      case Enroll(_, _) =>
      case Submit(d, n, k, kind, serial, now, ca) =>
        if kind == RENEWAL {
          OtherRenewal(w, d, w.tables.devices[d], n, k, serial, now, ca);
        } else {
          OtherNonRenewal(w, d, w.tables.devices[d], n, k, kind, kind == MANIFEST, now, ca);
        }
      case Accept(rid, org, _, ca) => OtherAccept(w, rid, org, ca);
      case Decline(_, _) =>
      case Withdraw(c, org, now, ca) => OtherWithdraw(w, c, org, now, ca);
      case Delete(d, now, ca) => OtherDelete(w, d, now, ca);
      case FetchCrl(_, _, _) =>
    }
  }

  lemma OtherAccept(w: World, rid: nat, org: OrgId, ca: Ca)
    requires IdsBelow(w.tables) && Approve(w.tables, rid, org, ca).Some?
    ensures Untouched(w, Approve(w.tables, rid, org, ca).value)
    ensures Approve(w.tables, rid, org, ca).value.devices == w.tables.devices
  {}

  lemma OtherWithdraw(w: World, c: nat, org: OrgId, now: Instant, ca: Ca)
    requires RevokeCert(w.tables, c, org, now, ca).Some?
    requires w.tables.certs[c].device != w.device || w.tables.certs[c].name != IDENTITY
    ensures Untouched(w, RevokeCert(w.tables, c, org, now, ca).value)
    ensures RevokeCert(w.tables, c, org, now, ca).value.devices == w.tables.devices
  {}

  lemma OtherDelete(w: World, d: DeviceId, now: Instant, ca: Ca)
    requires DeleteDevice(w.tables, d, now, ca).Some? && d != w.device
    ensures Untouched(w, DeleteDevice(w.tables, d, now, ca).value)
    ensures DeleteDevice(w.tables, d, now, ca).value.devices == w.tables.devices - {d}
  {}

  lemma TickKeeps(w: World, now: Instant, newKey: Key, sending: Sending)
    requires HandshakeInv(w) && Allowed(w, Ticked(now, newKey, sending))
    ensures HandshakeInv(Next(w, Ticked(now, newKey, sending)))
  {
    var w' := Next(w, Ticked(now, newKey, sending));
    var i :| Synced(w, i);
    var attempt := Tick(w.agent, now, newKey, sending);
    if attempt == Idle || attempt == Fatal {
      SameFiles(w, w');
    } else {
      assert !w.tables.certs[i].revoked;
      assert Synced(w', i);
      forall q | q in w'.requests ensures RequestExpected(w', q) {
        if q in w.requests {
          assert RequestExpected(w, q);
        } else {
          assert w'.tables.certs[i].serial == q.serial;
        }
      }
    }
  }

  /** Only the loop's memory of attempts changed. */
  lemma SameFiles(w: World, w': World)
    requires HandshakeInv(w)
    requires w' == w.(agent := w.agent.(lastAttempt := w'.agent.lastAttempt, failed := w'.agent.failed))
    ensures HandshakeInv(w')
  {
    var i :| Synced(w, i);
    if w.tables.certs[i].revoked {
      var j :| AnswerPending(w, i, j);
      assert AnswerPending(w', i, j);
    }
    forall r | r in w'.responses ensures ResponseExpected(w', i, r) {
      assert ResponseExpected(w, i, r);
      if !(w.agent.stash.None? && r == w.agent.identity) {
        var j :| AnswerPending(w, i, j) && r == PemOf(w.tables.certs[j]);
        assert AnswerPending(w', i, j);
      }
    }
    assert Synced(w', i);
    forall q | q in w'.requests ensures RequestExpected(w', q) { assert RequestExpected(w, q); }
  }

  /** A copy of an answer already installed changes nothing but what is in flight. */
  lemma CopyKeeps(w: World, r: Pem, again: bool, i: nat)
    requires HandshakeInv(w) && r in w.responses && Synced(w, i) && w.agent.stash.None?
    ensures HandshakeInv(Next(w, ResponseArrives(r, again, WORKS)))
  {
    var w' := Next(w, ResponseArrives(r, again, WORKS));
    assert ResponseExpected(w, i, r);
    assert Synced(w', i);
    forall q | q in w'.requests ensures RequestExpected(w', q) { assert RequestExpected(w, q); }
  }

  /** All answers in flight are the one the agent waits for. */
  lemma OneAnswer(w: World, i: nat, j: nat, r: Pem)
    requires Synced(w, i) && AnswerPending(w, i, j) && r == PemOf(w.tables.certs[j]) && w.agent.stash.Some?
    ensures forall x :: x in w.responses ==> x == r
  {
    forall x | x in w.responses ensures x == r {
      assert ResponseExpected(w, i, x);
    }
  }

  lemma AnswerSynced(w: World, w': World, r: Pem, i: nat, j: nat)
    requires IsCert(w, i, w.agent.identity) && AnswerPending(w, i, j) && r == PemOf(w.tables.certs[j])
    requires w'.tables == w.tables && w'.device == w.device && w'.agent == AfterResponse(w.agent, r)
    requires forall x :: x in w'.responses ==> x == r
    ensures Synced(w', j)
  {
    forall x | x in w'.responses ensures ResponseExpected(w', j, x) {}
  }

  lemma ResponseKeeps(w: World, r: Pem, again: bool)
    requires HandshakeInv(w) && r in w.responses
    ensures HandshakeInv(Next(w, ResponseArrives(r, again, WORKS)))
  {
    var w' := Next(w, ResponseArrives(r, again, WORKS));
    var i :| Synced(w, i);
    assert ResponseExpected(w, i, r);
    if w.agent.stash.None? {
      CopyKeeps(w, r, again, i);
    } else {
      var j :| AnswerPending(w, i, j) && r == PemOf(w.tables.certs[j]);
      OneAnswer(w, i, j, r);
      AnswerSynced(w, w', r, i, j);
      forall q | q in w'.requests ensures RequestExpected(w', q) {
        assert RequestExpected(w, q);
        assert w.tables.certs[i].revoked;
      }
    }
  }

  lemma RefusedRequest(w: World, q: RenewalRequest, again: bool, now: Instant, ca: Ca)
    requires HandshakeInv(w) && q in w.requests && !Granted(w, q, now, ca)
    ensures HandshakeInv(Next(w, RequestArrives(q, again, now, ca)))
  {
    var s := RenewalStep(w, q, now, ca);
    InvStep(w.tables, s);
    RefusedUntouched(w, q, now, ca);
    SyncedFrame(w, Apply(w.tables, s));
    FewerRequests(w.(tables := Apply(w.tables, s)), Without(w.requests, q, again));
  }

  lemma RefusedUntouched(w: World, q: RenewalRequest, now: Instant, ca: Ca)
    requires !Granted(w, q, now, ca)
    ensures Untouched(w, Apply(w.tables, RenewalStep(w, q, now, ca)))
    ensures Apply(w.tables, RenewalStep(w, q, now, ca)).devices == w.tables.devices
  {}

  lemma FewerRequests(w: World, requests: multiset<RenewalRequest>)
    requires HandshakeInv(w) && forall q :: q in requests ==> q in w.requests
    ensures HandshakeInv(w.(requests := requests))
  {
    var w' := w.(requests := requests);
    var i :| Synced(w, i);
    if w.tables.certs[i].revoked {
      var j :| AnswerPending(w, i, j);
      assert AnswerPending(w', i, j);
    }
    forall r | r in w'.responses ensures ResponseExpected(w', i, r) {
      assert ResponseExpected(w, i, r);
      if !(w.agent.stash.None? && r == w.agent.identity) {
        var j :| AnswerPending(w, i, j) && r == PemOf(w.tables.certs[j]);
        assert AnswerPending(w', i, j);
      }
    }
    assert Synced(w', i);
    forall q | q in w'.requests ensures RequestExpected(w', q) { assert RequestExpected(w, q); }
  }

  /** The answer replaces certificate i by certificate j, for the key the request carried. */
  ghost predicate Answered(w: World, w': World, q: RenewalRequest, i: nat, j: nat) {
    && i in w.tables.certs && i < j
    && w'.tables.certs.Keys == w.tables.certs.Keys + {j} && w'.tables.devices == w.tables.devices
    && (forall c :: c in w.tables.certs && c != i ==> w'.tables.certs[c] == w.tables.certs[c])
    && SameIdentity(w.tables.certs[i], w'.tables.certs[i]) && w'.tables.certs[i].notAfter == w.tables.certs[i].notAfter
    && w'.tables.certs[i].revoked && w'.tables.certs[i].replacedBy == Some(j)
    && w'.tables.certs[j].device == w.device && w'.tables.certs[j].name == IDENTITY
    && w'.tables.certs[j].key == q.key && !w'.tables.certs[j].revoked
    && w'.responses == w.responses + multiset{PemOf(w'.tables.certs[j])}
    && w' == w.(tables := w'.tables, requests := w'.requests, responses := w'.responses)
    && (forall p :: p in w'.requests ==> p in w.requests)
  }

  /** The tables after a renewal that replaced certificate k. */
  function Replaced(w: World, q: RenewalRequest, k: nat, now: Instant, ca: Ca): Tables
    requires ca.signed.Some? && ca.crlSigns && k in w.tables.certs && w.device in w.tables.devices
  {
    var org := w.tables.devices[w.device];
    Rebuild(Renewed(w.tables, w.device, org, IDENTITY, q.key, q.serial, k, now, ca), org, now, ca).value
  }

  lemma GrantedApplied(w: World, q: RenewalRequest, now: Instant, ca: Ca) returns (k: nat)
    requires Inv(w.tables) && w.device in w.tables.devices && Granted(w, q, now, ca)
    ensures k in w.tables.certs && w.tables.certs[k].serial == q.serial
    ensures OwnedBy(w.tables.certs[k], w.device, IDENTITY)
    ensures ca.signed.Some? && ca.crlSigns
    ensures Apply(w.tables, RenewalStep(w, q, now, ca)) == Replaced(w, q, k, now, ca)
  {
    k := RenewalOutcome(w.tables, w.device, w.tables.devices[w.device], IDENTITY, q.key, q.serial, now, ca);
  }

  lemma AnsweredBy(w: World, w': World, q: RenewalRequest, k: nat, now: Instant, ca: Ca)
    requires IdsBelow(w.tables) && w.device in w.tables.devices && k in w.tables.certs && ca.signed.Some? && ca.crlSigns
    requires w' == w.(tables := Replaced(w, q, k, now, ca), requests := w'.requests, responses := w'.responses)
    requires forall p :: p in w'.requests ==> p in w.requests
    requires w.tables.nextCert in w'.tables.certs ==>
      w'.responses == w.responses + multiset{PemOf(w'.tables.certs[w.tables.nextCert])}
    ensures Answered(w, w', q, k, w.tables.nextCert)
  {}

  lemma GrantedTables(w: World, q: RenewalRequest, again: bool, now: Instant, ca: Ca) returns (k: nat)
    requires Inv(w.tables) && w.device in w.tables.devices && q in w.requests && Granted(w, q, now, ca)
    ensures k in w.tables.certs && w.tables.certs[k].serial == q.serial
    ensures OwnedBy(w.tables.certs[k], w.device, IDENTITY)
    ensures Answered(w, Next(w, RequestArrives(q, again, now, ca)), q, k, w.tables.nextCert)
  {
    k := GrantedApplied(w, q, now, ca);
    AnsweredBy(w, Next(w, RequestArrives(q, again, now, ca)), q, k, now, ca);
  }

  /** A granted request is the agent's pending attempt; no answer was in flight. */
  lemma GrantedFacts(w: World, q: RenewalRequest, k: nat, i: nat)
    requires HandshakeInv(w) && Synced(w, i) && q in w.requests
    requires k in w.tables.certs && w.tables.certs[k].serial == q.serial
    requires OwnedBy(w.tables.certs[k], w.device, IDENTITY)
    ensures k == i && w.agent.stash == Some(q.key) && w.responses == multiset{}
  {
    assert RequestExpected(w, q);
    if r :| r in w.responses {
      assert false;
    }
  }

  lemma GrantedSynced(w: World, w': World, i: nat, j: nat)
    requires Synced(w, i) && AnswerPending'(w', i, j) && w'.responses == multiset{PemOf(w'.tables.certs[j])}
    requires w'.agent == w.agent && w'.device == w.device && i in w'.tables.certs
    requires SameIdentity(w.tables.certs[i], w'.tables.certs[i])
    requires w'.tables.certs[i].notAfter == w.tables.certs[i].notAfter
    ensures Synced(w', i)
  {
    assert AnswerPending(w', i, j);
    forall r | r in w'.responses ensures ResponseExpected(w', i, r) {
      assert r == PemOf(w'.tables.certs[j]);
    }
  }

  ghost predicate AnswerPending'(w: World, i: nat, j: nat) {
    i in w.tables.certs && AnswerPending(w, i, j)
  }

  lemma AnsweredKeeps(w: World, w': World, q: RenewalRequest, i: nat, j: nat)
    requires HandshakeInv(w) && Synced(w, i) && w.agent.stash == Some(q.key) && w.responses == multiset{}
    requires Answered(w, w', q, i, j) && Inv(w'.tables)
    ensures HandshakeInv(w')
  {
    GrantedSynced(w, w', i, j);
    AllStillExpected(w, w', i);
  }

  lemma GrantedRequest(w: World, q: RenewalRequest, again: bool, now: Instant, ca: Ca)
    requires HandshakeInv(w) && q in w.requests && Granted(w, q, now, ca)
    ensures HandshakeInv(Next(w, RequestArrives(q, again, now, ca)))
  {
    var i :| Synced(w, i);
    var k := GrantedTables(w, q, again, now, ca);
    GrantedFacts(w, q, k, i);
    InvStep(w.tables, RenewalStep(w, q, now, ca));
    AnsweredKeeps(w, Next(w, RequestArrives(q, again, now, ca)), q, i, w.tables.nextCert);
  }

  lemma AllStillExpected(w: World, w': World, i: nat)
    requires IsCert(w, i, w.agent.identity) && w'.device == w.device && SerialsUnique(w.tables)
    requires forall c :: c in w.tables.certs ==>
      c in w'.tables.certs && (c != i ==> w'.tables.certs[c] == w.tables.certs[c])
    requires SameIdentity(w.tables.certs[i], w'.tables.certs[i]) && w'.tables.certs[i].revoked
    requires forall p :: p in w'.requests ==> RequestExpected(w, p)
    ensures forall p :: p in w'.requests ==> RequestExpected(w', p)
  {
    forall p | p in w'.requests ensures RequestExpected(w', p) {
      StillExpected(w, w', i, p);
    }
  }

  lemma StillExpected(w: World, w': World, i: nat, p: RenewalRequest)
    requires RequestExpected(w, p) && IsCert(w, i, w.agent.identity) && w'.device == w.device && SerialsUnique(w.tables)
    requires forall c :: c in w.tables.certs ==>
      c in w'.tables.certs && (c != i ==> w'.tables.certs[c] == w.tables.certs[c])
    requires SameIdentity(w.tables.certs[i], w'.tables.certs[i]) && w'.tables.certs[i].revoked
    ensures RequestExpected(w', p)
  {
    var c :| c in w.tables.certs && w.tables.certs[c].serial == p.serial &&
      w.tables.certs[c].device == w.device && w.tables.certs[c].name == IDENTITY &&
      (w.tables.certs[c].revoked || (p.serial == w.agent.identity.serial && w.agent.stash == Some(p.key)));
    assert w'.tables.certs[c].serial == p.serial && w'.tables.certs[c].revoked;
  }

  /** Every allowed event keeps the handshake in step. */
  lemma HandshakeStep(w: World, e: Event)
    requires HandshakeInv(w) && Allowed(w, e)
    ensures HandshakeInv(Next(w, e))
  {
    match e
    case Ticked(now, newKey, sending) => TickKeeps(w, now, newKey, sending);
    case RequestArrives(q, again, now, ca) =>
      if q in w.requests {
        if Granted(w, q, now, ca) {
          GrantedRequest(w, q, again, now, ca);
        } else {
          RefusedRequest(w, q, again, now, ca);
        }
      }
    case ResponseArrives(r, again, _) =>
      if r in w.responses {
        ResponseKeeps(w, r, again);
      }
    case Reboot => SameFiles(w, Next(w, Reboot));
    case Bystander(s) =>
      ElsewhereUntouched(w, s);
      InvStep(w.tables, s);
      SyncedFrame(w, Apply(w.tables, s));
  }

  lemma {:induction false} HandshakeRun(w: World, events: seq<Event>)
    requires HandshakeInv(w) && AllAllowed(w, events)
    ensures HandshakeInv(After(w, events))
    decreases |events|
  {
    if events != [] {
      HandshakeStep(w, events[0]);
      HandshakeRun(Next(w, events[0]), events[1..]);
    }
  }

  // ---- what the handshake promises ----

  /** A device enrolled with an unrevoked identity certificate, and nothing in flight. */
  lemma HandshakeStarts(w: World, i: nat)
    requires Inv(w.tables) && w.device in w.tables.devices && FilesAgree(w.agent)
    requires IsCert(w, i, w.agent.identity) && !w.tables.certs[i].revoked
    requires w.requests == multiset{} && w.responses == multiset{}
    ensures HandshakeInv(w)
  {
    assert Synced(w, i);
  }

  /** The key file matches the certificate file, and the certificate is unrevoked or its one successor is on its way. */
  lemma HandshakePromise(w: World) returns (i: nat)
    requires HandshakeInv(w)
    ensures w.agent.certFile.key == w.agent.keyFile
    ensures IsCert(w, i, w.agent.certFile)
    ensures w.tables.certs[i].revoked ==>
      exists j :: AnswerPending(w, i, j) && forall r :: r in w.responses ==> r == PemOf(w.tables.certs[j])
  {
    i :| Synced(w, i);
    if w.tables.certs[i].revoked {
      var j :| AnswerPending(w, i, j);
      forall r | r in w.responses ensures r == PemOf(w.tables.certs[j]) {
        assert ResponseExpected(w, i, r);
      }
    }
  }

  /** The agent holds the new certificate and its key, and the controller has replaced certificate i by it. */
  ghost predicate Completed(w: World, w': World, i: nat, pem: Pem) {
    && w'.agent == Agent(pem.key, pem, None, pem, None, 0) && w'.responses == multiset{}
    && IsCert(w', w.tables.nextCert, pem) && !w'.tables.certs[w.tables.nextCert].revoked
    && i in w'.tables.certs && w'.tables.certs[i].revoked
    && w'.tables.certs[i].replacedBy == Some(w.tables.nextCert)
  }

  /** One full exchange: an attempt, its request and its answer leave the agent with the new certificate and key. */
  lemma RenewalCompletes(w: World, i: nat, now: Instant, newKey: Key, again: bool, at: Instant, ca: Ca)
    requires Inv(w.tables) && w.device in w.tables.devices && w.responses == multiset{}
    requires IsCert(w, i, w.agent.identity) && !w.tables.certs[i].revoked
    requires Tick(w.agent, now, newKey, Sent).Published?
    requires ca.signed.Some? && ca.crlSigns && WithSerial(w.tables, ca.signed.value.serial) == {}
    ensures var q := RenewalRequest(w.agent.identity.serial, newKey);
      var w2 := Next(Next(w, Ticked(now, newKey, Sent)), RequestArrives(q, again, at, ca));
      var pem := Pem(ca.signed.value.serial, newKey, ca.signed.value.notAfter);
      Completed(w, Next(w2, ResponseArrives(pem, false, WORKS)), i, pem)
  {
    var q := RenewalRequest(w.agent.identity.serial, newKey);
    var w1 := Next(w, Ticked(now, newKey, Sent));
    PendingGranted(w1, i, q, again, at, ca);
    var w2 := Next(w1, RequestArrives(q, again, at, ca));
    AnswerInstalled(w2, newKey, Pem(ca.signed.value.serial, newKey, ca.signed.value.notAfter));
  }

  lemma AnswerInstalled(w: World, newKey: Key, pem: Pem)
    requires w.agent.stash == Some(newKey) && w.responses == multiset{pem}
    ensures var w' := Next(w, ResponseArrives(pem, false, WORKS));
      w' == World(w.device, w.tables, Agent(newKey, pem, None, pem, None, 0), w'.requests, multiset{})
  {}

  lemma PendingGranted(w: World, i: nat, q: RenewalRequest, again: bool, at: Instant, ca: Ca)
    requires Inv(w.tables) && w.device in w.tables.devices && q in w.requests && w.responses == multiset{}
    requires IsCert(w, i, w.agent.identity) && !w.tables.certs[i].revoked && q.serial == w.agent.identity.serial
    requires ca.signed.Some? && ca.crlSigns && WithSerial(w.tables, ca.signed.value.serial) == {}
    ensures var w' := Next(w, RequestArrives(q, again, at, ca));
      var pem := Pem(ca.signed.value.serial, q.key, ca.signed.value.notAfter);
      && w'.agent == w.agent && w'.responses == multiset{pem}
      && IsCert(w', w.tables.nextCert, pem) && !w'.tables.certs[w.tables.nextCert].revoked
      && i in w'.tables.certs && w'.tables.certs[i].revoked && w'.tables.certs[i].replacedBy == Some(w.tables.nextCert)
  {
    assert i in Renewable(w.tables, w.device, IDENTITY, q.serial);
    GrantsWhenSigned(w, q, at, ca);
    var k := GrantedTables(w, q, again, at, ca);
    assert k == i;
    SignedPem(w, q, again, at, ca);
  }

  lemma GrantsWhenSigned(w: World, q: RenewalRequest, at: Instant, ca: Ca)
    requires w.device in w.tables.devices && Renewable(w.tables, w.device, IDENTITY, q.serial) != {}
    requires ca.signed.Some? && ca.crlSigns && WithSerial(w.tables, ca.signed.value.serial) == {}
    ensures Granted(w, q, at, ca)
  {
    var org := w.tables.devices[w.device];
    var t1 := SaveRequest(w.tables, Request(w.device, org, IDENTITY, q.key, RENEWAL, Some(q.serial), PENDING));
    assert WithSerial(t1, ca.signed.value.serial) == WithSerial(w.tables, ca.signed.value.serial);
  }

  lemma SignedPem(w: World, q: RenewalRequest, again: bool, at: Instant, ca: Ca)
    requires Inv(w.tables) && w.device in w.tables.devices && q in w.requests && Granted(w, q, at, ca)
    ensures ca.signed.Some? && w.tables.nextCert in Next(w, RequestArrives(q, again, at, ca)).tables.certs
    ensures PemOf(Next(w, RequestArrives(q, again, at, ca)).tables.certs[w.tables.nextCert])
         == Pem(ca.signed.value.serial, q.key, ca.signed.value.notAfter)
  {
    var k := RenewalOutcome(w.tables, w.device, w.tables.devices[w.device], IDENTITY, q.key, q.serial, at, ca);
  }

  // ---- spacing of attempts ----

  /** The times at which a run stashed a new key and tried to publish. */
  function AttemptTimes(w: World, events: seq<Event>): seq<Instant>
    decreases |events|
  {
    if events == [] then [] else
    var e := events[0];
    var rest := AttemptTimes(Next(w, e), events[1..]);
    if e.Ticked? && !Tick(w.agent, e.now, e.newKey, e.sending).Idle? &&
      !Tick(w.agent, e.now, e.newKey, e.sending).Fatal?
    then [e.now] + rest else rest
  }

  /** No answer is installed without a failure, and the agent does not restart. */
  predicate NoSuccess(w: World, events: seq<Event>)
    decreases |events|
  {
    events == [] ||
    (&& (events[0].ResponseArrives? && events[0].response in w.responses ==>
           w.agent.stash.None? || events[0].io != WORKS)
     && !events[0].Reboot?
     && (events[0].Ticked? ==> !Tick(w.agent, events[0].now, events[0].newKey, events[0].sending).Fatal?)
     && NoSuccess(Next(w, events[0]), events[1..]))
  }

  /** Attempts with no success and no restart between them are at least four hours apart. */
  lemma {:induction false} AttemptsSpaced(w: World, events: seq<Event>)
    requires NoSuccess(w, events)
    ensures forall k :: 0 <= k < |AttemptTimes(w, events)| - 1 ==>
      AttemptTimes(w, events)[k + 1] - AttemptTimes(w, events)[k] >= MIN_BETWEEN_ATTEMPTS
    ensures w.agent.lastAttempt.Some? && AttemptTimes(w, events) != [] ==>
      AttemptTimes(w, events)[0] - w.agent.lastAttempt.value >= MIN_BETWEEN_ATTEMPTS
    decreases |events|
  {
    if events != [] {
      AttemptsSpaced(Next(w, events[0]), events[1..]);
    }
  }

  // ---- the pair of files over any run ----

  /** The event installs an answer whose key is not the one written, or leaves the old certificate beside a new key. */
  predicate BreaksPair(w: World, e: Event) {
    e.ResponseArrives? && e.response in w.responses && Mismatches(w.agent, e.response, e.io)
  }

  predicate NoneBreaks(w: World, events: seq<Event>)
    decreases |events|
  {
    events == [] || (!BreaksPair(w, events[0]) && NoneBreaks(Next(w, events[0]), events[1..]))
  }

  predicate AlwaysPaired(w: World, events: seq<Event>)
    decreases |events|
  {
    Paired(w.agent) && (events == [] || AlwaysPaired(Next(w, events[0]), events[1..]))
  }

  /**
    Over every run, allowed or not and whatever writes fail, key file and certificate file match throughout if and only
    if no installation writes a key other than that of the certificate then on disk.
   */
  lemma {:induction false} PairedExactly(w: World, events: seq<Event>)
    requires Paired(w.agent)
    ensures AlwaysPaired(w, events) <==> NoneBreaks(w, events)
    decreases |events|
  {
    if events != [] {
      var w' := Next(w, events[0]);
      assert Paired(w'.agent) <==> !BreaksPair(w, events[0]);
      if Paired(w'.agent) {
        PairedExactly(w', events[1..]);
      }
    }
  }

  /** So no event of an allowed run is such an installation. */
  lemma {:induction false} AllowedNeverBreaks(w: World, events: seq<Event>)
    requires HandshakeInv(w) && AllAllowed(w, events)
    ensures AlwaysPaired(w, events) && NoneBreaks(w, events)
    decreases |events|
  {
    var i := HandshakePromise(w);
    if events != [] {
      HandshakeStep(w, events[0]);
      AllowedNeverBreaks(Next(w, events[0]), events[1..]);
    }
    PairedExactly(w, events);
  }

  // ---- where the promise stops ----

  /**
    A second attempt before the first one's answer arrives overwrites the stashed key; the late answer then breaks the
    pair.
   */
  lemma LateAnswerMismatch()
    ensures var pem := Pem(7, 11, 100 * HOUR);
      var first, second := Ticked(0, 21, Sent), Ticked(4 * HOUR, 22, Sent);
      var w := World("d", LATE_TABLES, Agent(11, pem, None, pem, None, 0), multiset{}, multiset{});
      var w1 := Next(w, first);
      var w2 := Next(w1, RequestArrives(RenewalRequest(7, 21), false, 0, Ca(Some(Signed(8, 200 * HOUR)), true)));
      var w3 := Next(Next(w2, second), ResponseArrives(Pem(8, 21, 200 * HOUR), false, WORKS));
      w2.responses == multiset{Pem(8, 21, 200 * HOUR)} && w3.agent.keyFile == 22 && w3.agent.certFile.key == 21
  {
    var pem := Pem(7, 11, 100 * HOUR);
    var ca := Ca(Some(Signed(8, 200 * HOUR)), true);
    var w := World("d", LATE_TABLES, Agent(11, pem, None, pem, None, 0), multiset{}, multiset{});
    var w1 := Next(w, Ticked(0, 21, Sent));
    var q := RenewalRequest(7, 21);
    assert w1.requests == multiset{q};
    LateGrant(w1, q, ca);
  }

  lemma LateGrant(w: World, q: RenewalRequest, ca: Ca)
    requires w.tables == LATE_TABLES && w.device == "d" && q == RenewalRequest(7, 21) && w.requests == multiset{q}
    requires w.responses == multiset{} && ca == Ca(Some(Signed(8, 200 * HOUR)), true)
    ensures var w' := Next(w, RequestArrives(q, false, 0, ca));
      w'.responses == multiset{Pem(8, 21, 200 * HOUR)} && w'.agent == w.agent
  {
    assert 0 in Renewable(LATE_TABLES, "d", IDENTITY, 7);
    assert WithSerial(LATE_TABLES, 8) == {};
    GrantsWhenSigned(w, q, 0, ca);
    LateTablesInv();
    var k := GrantedTables(w, q, false, 0, ca);
    SignedPem(w, q, false, 0, ca);
  }

  const LATE_TABLES := Tables(map["d" := 1], map[0 := Request("d", 1, IDENTITY, 11, MANIFEST, None, APPROVED)],
    map[0 := Cert(0, "d", 1, IDENTITY, 7, 11, 100 * HOUR, None, false, None, None)], map[], 1, 1)

  lemma LateTablesInv()
    ensures Inv(LATE_TABLES)
  {
    assert LATE_TABLES.certs[0].requestId == 0;
    assert IssuedFor(LATE_TABLES, 0);
  }
}
