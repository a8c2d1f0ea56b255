/**
  The agent's side of identity renewal: the key and certificate files, the stashed key and the renewal loop's state.
 */
module RenewalAgent {
  import opened Prelude
  import opened CertificateTables

  const SECOND: int := 1_000_000_000
  const HOUR: int := 3600 * SECOND
  const MIN_BETWEEN_ATTEMPTS: int := 4 * HOUR
  const CRITICAL_WINDOW: int := 24 * HOUR
  const MAX_FAILURES_BEFORE_FATAL: nat := 3
  const RENEW_WINDOW: int := 14 * 24 * HOUR

  /** What the agent reads out of a certificate. */
  datatype Pem = Pem(serial: Serial, key: Key, notAfter: Instant)

  /** A renewal request: the serial to renew and the public key of the CSR. */
  datatype RenewalRequest = RenewalRequest(serial: Serial, key: Key)

  datatype Agent = Agent(keyFile: Key, certFile: Pem, stash: Option<Key>,
                         identity: Pem, lastAttempt: Option<Instant>, failed: nat)

  datatype Attempt = Idle | Fatal | Published(request: RenewalRequest) | Unpublished

  /** How far an attempt gets: the key cannot be stashed, or the request not published or queued, or both work. */
  datatype Sending = NotStashed | NotSent | Sent

  /** Which steps of installing an answer work: writing the key, writing the certificate, reading both back. */
  datatype Install = Install(key: bool, cert: bool, loads: bool)

  const WORKS := Install(true, true, true)

  /** A freshly started agent, with the identity loaded from its files. */
  function Restarted(a: Agent): Agent {
    a.(identity := a.certFile, lastAttempt := None, failed := 0)
  }

  predicate Cooling(a: Agent, now: Instant) {
    a.lastAttempt.Some? && now - a.lastAttempt.value < MIN_BETWEEN_ATTEMPTS
  }

  predicate Doomed(a: Agent, now: Instant) {
    a.identity.notAfter - now <= CRITICAL_WINDOW && a.failed >= MAX_FAILURES_BEFORE_FATAL
  }

  /** What one tick of the loop does, given the key it would generate. */
  function Tick(a: Agent, now: Instant, newKey: Key, sending: Sending): Attempt {
    if a.identity.notAfter - now > RENEW_WINDOW || Cooling(a, now) then Idle
    else if Doomed(a, now) then Fatal
    else if sending == Sent then Published(RenewalRequest(a.identity.serial, newKey))
    else Unpublished
  }

  function AfterTick(a: Agent, now: Instant, newKey: Key, sending: Sending): Agent {
    match Tick(a, now, newKey, sending)
    case Idle => a
    case Fatal => Restarted(a)
    case Published(_) => a.(stash := Some(newKey), lastAttempt := Some(now), failed := a.failed + 1)
    case Unpublished =>
      var stash := if sending == NotStashed then a.stash else Some(newKey);
      a.(stash := stash, lastAttempt := Some(now), failed := a.failed + 1)
  }

  /**
    Handling an accepted answer: without a stashed key it is an error and changes nothing. The key is written before
    the certificate, and the stash is removed once both are.
   */
  function AfterInstall(a: Agent, pem: Pem, io: Install): Agent {
    if a.stash.None? || !io.key then a
    else if !io.cert then a.(keyFile := a.stash.value)
    else if !io.loads then a.(keyFile := a.stash.value, certFile := pem, stash := None)
    else Agent(a.stash.value, pem, None, pem, None, 0)
  }

  function AfterResponse(a: Agent, pem: Pem): Agent {
    AfterInstall(a, pem, WORKS)
  }

  // ---- when the agent renews, and when it gives up ----

  /** The last attempt is four hours old, or there was none. */
  predicate Rested(last: Option<Instant>, now: Instant) {
    last.None? || now - last.value >= 4 * 3600 * 1_000_000_000
  }

  /** At most 24 hours are left and three attempts failed. */
  predicate TooLate(left: int, failed: nat) {
    left <= 24 * 3600 * 1_000_000_000 && failed >= 3
  }

  /**
    A tick does nothing more than 14 days before expiry or within four hours of the last attempt. Otherwise it gives up
    exactly if at most 24 hours are left and three attempts failed, and else asks for the serial of its certificate.
   */
  lemma TickExactly(a: Agent, now: Instant, newKey: Key, sending: Sending)
    ensures var left, attempt := a.identity.notAfter - now, Tick(a, now, newKey, sending);
      && (attempt == Idle <==> left > 14 * 24 * 3600 * 1_000_000_000 || !Rested(a.lastAttempt, now))
      && (attempt == Fatal <==> TooLate(left, a.failed) && Rested(a.lastAttempt, now))
      && (attempt.Published? ==>
            attempt.request.serial == a.identity.serial && attempt.request.key == newKey && sending == Sent)
      && (attempt == Unpublished ==> sending != Sent)
  {}

  /** An attempt counts as failed until it is answered; giving up restarts the agent, and no tick touches the files. */
  lemma TickChanges(a: Agent, now: Instant, newKey: Key, sending: Sending)
    ensures var attempt, b := Tick(a, now, newKey, sending), AfterTick(a, now, newKey, sending);
      && b.keyFile == a.keyFile && b.certFile == a.certFile
      && (attempt == Idle ==> b == a)
      && (attempt == Fatal ==> b.stash == a.stash && b.identity == a.certFile && b.lastAttempt.None? && b.failed == 0)
      && (attempt.Published? || attempt == Unpublished ==>
            && b.identity == a.identity && b.lastAttempt == Some(now) && b.failed == a.failed + 1
            && b.stash == if sending == NotStashed then a.stash else Some(newKey))
  {}

  /** Handling copies of one answer, one after the other. */
  function Installs(a: Agent, pem: Pem, ios: seq<Install>): Agent
    decreases |ios|
  {
    if ios == [] then a else Installs(AfterInstall(a, pem, ios[0]), pem, ios[1..])
  }

  lemma {:induction false} NothingToInstall(a: Agent, pem: Pem, ios: seq<Install>)
    requires a.stash.None?
    ensures Installs(a, pem, ios) == a
    decreases |ios|
  {
    if ios != [] {
      NothingToInstall(a, pem, ios[1..]);
    }
  }

  /**
    Copies of an answer install it exactly if both writes work for one of them, whatever failed before: the agent is
    then, or after a restart, as if nothing had failed. Until then the next copy can still install it.
   */
  lemma {:induction false} CopiesInstall(a: Agent, pem: Pem, ios: seq<Install>)
    requires a.stash.Some?
    ensures var b := Installs(a, pem, ios);
      if exists i :: 0 <= i < |ios| && ios[i].key && ios[i].cert
      then Restarted(b) == Restarted(AfterResponse(a, pem))
      else b.stash == a.stash && b.certFile == a.certFile && AfterResponse(b, pem) == AfterResponse(a, pem)
    decreases |ios|
  {
    if ios != [] {
      var b := AfterInstall(a, pem, ios[0]);
      if ios[0].key && ios[0].cert {
        NothingToInstall(b, pem, ios[1..]);
      } else {
        CopiesInstall(b, pem, ios[1..]);
        assert forall i :: 0 <= i < |ios[1..]| ==> ios[1..][i] == ios[i + 1];
        assert forall i :: 1 <= i < |ios| ==> ios[i] == ios[1..][i - 1];
      }
    }
  }

  predicate Paired(a: Agent) {
    a.keyFile == a.certFile.key
  }

  /** An installation writes a key that is not the one of the certificate then on disk. */
  predicate Mismatches(a: Agent, pem: Pem, io: Install) {
    a.stash.Some? && io.key && a.stash.value != if io.cert then pem.key else a.certFile.key
  }

  class Renewer {
    var keyFile: Key
    var certFile: Pem
    var newKeyFile: Option<Key>
    var identity: Pem
    var lastAttempt: Option<Instant>
    var consecutiveFailed: nat

    constructor (keyFile: Key, certFile: Pem, newKeyFile: Option<Key>)
      ensures State() == Agent(keyFile, certFile, newKeyFile, certFile, None, 0)
    {
      this.keyFile, this.certFile, this.newKeyFile := keyFile, certFile, newKeyFile;
      identity, lastAttempt, consecutiveFailed := certFile, None, 0;
    }

    function State(): Agent
      reads this
    {
      Agent(keyFile, certFile, newKeyFile, identity, lastAttempt, consecutiveFailed)
    }

    method TryRenew(now: Instant, newKey: Key, sending: Sending) returns (attempt: Attempt)
      modifies this
      ensures attempt == Tick(old(State()), now, newKey, sending)
      ensures attempt != Fatal ==> State() == AfterTick(old(State()), now, newKey, sending)
      ensures attempt == Fatal ==> State() == old(State())
    {
      if identity.notAfter - now > RENEW_WINDOW {
        return Idle;
      }
      if lastAttempt.Some? && now - lastAttempt.value < MIN_BETWEEN_ATTEMPTS {
        return Idle;
      }
      if identity.notAfter - now <= CRITICAL_WINDOW && consecutiveFailed >= MAX_FAILURES_BEFORE_FATAL {
        return Fatal;
      }
      lastAttempt := Some(now);
      attempt := PublishRenewal(newKey, sending);
      consecutiveFailed := consecutiveFailed + 1;
    }

    /** A request on its way always has its key on disk; a failed attempt may have replaced the stash. */
    method PublishRenewal(newKey: Key, sending: Sending) returns (attempt: Attempt)
      modifies this`newKeyFile
      ensures attempt.Published? <==> sending == Sent
      ensures attempt.Published? ==>
        newKeyFile == Some(attempt.request.key) && attempt.request.serial == identity.serial
      ensures !attempt.Published? ==> attempt == Unpublished
      ensures newKeyFile == if sending == NotStashed then old(newKeyFile) else Some(newKey)
    {
      if sending == NotStashed {
        return Unpublished;
      }
      newKeyFile := Some(newKey);
      if sending == NotSent {
        return Unpublished;
      }
      attempt := Published(RenewalRequest(identity.serial, newKey));
    }

    method HandleRenewalResponse(pem: Pem, io: Install) returns (ok: bool)
      modifies this
      ensures ok == (old(newKeyFile).Some? && io == WORKS)
      ensures State() == AfterInstall(old(State()), pem, io)
    {
      if newKeyFile.None? {
        return false;
      }
      var written := Persist(newKeyFile.value, pem, io);
      if !written {
        return false;
      }
      newKeyFile := None;
      if !io.loads {
        return false;
      }
      identity, consecutiveFailed, lastAttempt := certFile, 0, None;
      return true;
    }

    /**
      The key is written before the certificate, so a failing second write leaves the new key beside the old
      certificate.
     */
    method Persist(key: Key, pem: Pem, io: Install) returns (ok: bool)
      modifies this`keyFile, this`certFile
      ensures ok == (io.key && io.cert)
      ensures keyFile == if io.key then key else old(keyFile)
      ensures certFile == if ok then pem else old(certFile)
    {
      if !io.key {
        return false;
      }
      keyFile := key;
      if !io.cert {
        return false;
      }
      certFile := pem;
      ok := true;
    }
  }
}
