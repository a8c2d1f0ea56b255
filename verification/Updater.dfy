/** The agent's self-update: download to staging, verify, make executable, exit 42. */
module Updaters {
  import opened Prelude
  import opened WatchdogSteps

  datatype Release = Release(version: string, sha256: string, signature: string)

  /**
    The hash and signature functions, and whether a signing key is configured. An undecodable signature never
    verifies.
   */
  datatype Crypto = Crypto(digest: Content -> string, verify: (Content, string) -> bool, hasKey: bool)

  datatype Fetch = Refused | Truncated(part: Content) | Body(content: Content)

  /** What the network and the file operations of one update do. */
  datatype Io = Io(fetch: Fetch, createOk: bool, removeOk: bool, chmodOk: bool)

  predicate HashOk(crypto: Crypto, release: Release, c: Content) {
    release.sha256 == "" || crypto.digest(c) == release.sha256
  }

  predicate SignatureOk(crypto: Crypto, release: Release, c: Content) {
    !crypto.hasKey || release.signature == "" || crypto.verify(c, release.signature)
  }

  predicate Passes(crypto: Crypto, release: Release, c: Content) {
    HashOk(crypto, release, c) && SignatureOk(crypto, release, c)
  }

  predicate Outdated(release: Release, current: string) {
    release.version != "" && release.version != current
  }

  /** The staging file after an update attempt, and whether the agent exits with code 42. */
  datatype Pulled = Pulled(staging: Option<Content>, exits: bool)

  function Pull(crypto: Crypto, staging: Option<Content>, release: Release, io: Io): Pulled {
    if io.fetch.Refused? || !io.createOk then Pulled(staging, false)
    else if io.fetch.Truncated? then Pulled(if io.removeOk then None else Some(io.fetch.part), false)
    else if !Passes(crypto, release, io.fetch.content) then
      Pulled(if io.removeOk then None else Some(io.fetch.content), false)
    else Pulled(Some(io.fetch.content), io.chmodOk)
  }

  class Puller {
    const crypto: Crypto
    var staging: Option<Content>

    constructor (crypto: Crypto, staging: Option<Content>)
      ensures this.crypto == crypto && this.staging == staging
    {
      this.crypto, this.staging := crypto, staging;
    }

    method Download(io: Io) returns (ok: bool)
      modifies this`staging
      ensures ok <==> io.fetch.Body? && io.createOk
      ensures ok ==> staging == Some(io.fetch.content)
      ensures !ok ==> staging == Pull(crypto, old(staging), Release("", "", ""), io).staging
    {
      if io.fetch.Refused? || !io.createOk {
        return false;
      }
      if io.fetch.Truncated? {
        staging := Some(io.fetch.part);
        Remove(io);
        return false;
      }
      staging := Some(io.fetch.content);
      return true;
    }

    method Remove(io: Io)
      modifies this`staging
      ensures staging == if io.removeOk then None else old(staging)
    {
      if io.removeOk {
        staging := None;
      }
    }

    method Apply(release: Release, io: Io) returns (exits: bool)
      modifies this`staging
      ensures Pulled(staging, exits) == Pull(crypto, old(staging), release, io)
      ensures exits && release.sha256 != "" ==> crypto.digest(staging.value) == release.sha256
      ensures exits && crypto.hasKey && release.signature != "" ==> crypto.verify(staging.value, release.signature)
    {
      var ok := Download(io);
      if !ok {
        return false;
      }
      if release.sha256 != "" && crypto.digest(staging.value) != release.sha256 {
        Remove(io);
        return false;
      }
      if crypto.hasKey && release.signature != "" && !crypto.verify(staging.value, release.signature) {
        Remove(io);
        return false;
      }
      return io.chmodOk;
    }

    method CheckAndApply(release: Release, current: string, io: Io) returns (exits: bool)
      modifies this`staging
      ensures release.version != "" && release.version != current ==>
        Pulled(staging, exits) == Pull(crypto, old(staging), release, io)
      ensures release.version == "" || release.version == current ==> !exits && staging == old(staging)
    {
      if release.version == "" || release.version == current {
        return false;
      }
      exits := Apply(release, io);
    }
  }

  /**
    Exit 42 happens exactly for a complete download whose digest is the one announced, if one is, and whose signature
    verifies, if there is one and a key is configured; staging then holds that download. One that fails a check is
    removed when it can be.
   */
  lemma ExitsExactlyWhenVerified(crypto: Crypto, staging: Option<Content>, release: Release, io: Io)
    ensures var p, body := Pull(crypto, staging, release, io), io.fetch;
      && (p.exits <==>
            && body.Body? && io.createOk && io.chmodOk
            && (release.sha256 != "" ==> crypto.digest(body.content) == release.sha256)
            && (crypto.hasKey && release.signature != "" ==> crypto.verify(body.content, release.signature)))
      && (p.exits ==> p.staging == Some(body.content))
      && (body.Body? && io.createOk && release.sha256 != "" && crypto.digest(body.content) != release.sha256 ==>
            !p.exits && p.staging == if io.removeOk then None else Some(body.content))
      && (body.Body? && io.createOk && crypto.hasKey && release.signature != "" &&
          !crypto.verify(body.content, release.signature) ==>
            !p.exits && p.staging == if io.removeOk then None else Some(body.content))
  {}

  /** A download that fails leaves staging as it was, or its partial file unless that can be removed. */
  lemma FailedDownload(crypto: Crypto, staging: Option<Content>, release: Release, io: Io)
    requires !io.fetch.Body? || !io.createOk
    ensures var p := Pull(crypto, staging, release, io);
      && !p.exits
      && p.staging ==
           if io.fetch.Refused? || !io.createOk then staging
           else if io.removeOk then None
           else Some(io.fetch.part)
  {}
}
