/** Where the binaries come from: updates, crashes, swaps and rollbacks in any order, one update at a time. */
module BinaryLineage {
  import opened Prelude
  import opened WatchdogSteps
  import opened Updaters

  /** An update attempt of the running agent, or the end of the agent process with whatever lies in staging. */
  datatype Event =
    | Update(release: Release, current: string, io: Io, now: Instant, faults: Faults)
    | Ends(clean: bool, staging: Option<Content>, now: Instant, faults: Faults)

  function StagingOf(files: Files): Option<Content> {
    if Staging in files then Some(files[Staging]) else None
  }

  function Next(crypto: Crypto, w: Watch, e: Event): Watch {
    match e
    case Update(release, current, io, now, faults) =>
      if Active !in w.files || !Outdated(release, current) then w else
      var p := Pull(crypto, StagingOf(w.files), release, io);
      if p.exits then Iterate(w, Launch(Ota, now, p.staging, faults))
      else w.(files := FilesAtExit(w, Launch(Error, now, p.staging, faults)))
    case Ends(clean, staging, now, faults) => Iterate(w, Launch(if clean then Clean else Error, now, staging, faults))
  }

  function After(crypto: Crypto, w: Watch, events: seq<Event>): Watch
    decreases |events|
  {
    if events == [] then w else After(crypto, Next(crypto, w, events[0]), events[1..])
  }

  function Installed(files: Files): set<Content> {
    (if Active in files then {files[Active]} else {}) + (if Backup in files then {files[Backup]} else {})
  }

  /** The download has the digest announced, if any, and a signature that verifies, if there is one and a key. */
  predicate Checked(crypto: Crypto, e: Event) {
    && e.Update? && e.io.fetch.Body?
    && (e.release.sha256 != "" ==> crypto.digest(e.io.fetch.content) == e.release.sha256)
    && (crypto.hasKey && e.release.signature != "" ==> crypto.verify(e.io.fetch.content, e.release.signature))
  }

  /** The downloads of a run that stand the checks of their release. */
  function Verified(crypto: Crypto, events: seq<Event>): set<Content> {
    set k | 0 <= k < |events| && Checked(crypto, events[k]) :: events[k].io.fetch.content
  }

  lemma LineageStep(crypto: Crypto, w: Watch, e: Event)
    ensures Installed(Next(crypto, w, e).files) <= Installed(w.files) + Verified(crypto, [e])
  {
    if e.Update? {
      ExitsExactlyWhenVerified(crypto, StagingOf(w.files), e.release, e.io);
      if Active in w.files && Outdated(e.release, e.current) &&
        Pull(crypto, StagingOf(w.files), e.release, e.io).exits {
        assert [e][0] == e;
        assert e.io.fetch.content in Verified(crypto, [e]);
        SwapSources(w, Launch(Ota, e.now, Some(e.io.fetch.content), e.faults));
      }
    } else {
      SwapSources(w, Launch(if e.clean then Clean else Error, e.now, e.staging, e.faults));
    }
  }

  /** A launch installs at most the staged binary, and that only at exit 42. */
  lemma SwapSources(w: Watch, l: Launch)
    ensures Installed(Iterate(w, l).files) <=
      Installed(w.files) + (if l.exit == Ota && l.staging.Some? then {l.staging.value} else {})
  {}

  /**
    Every binary ever at the active or backup path was installed at the start or passed the checks before it was
    swapped in.
   */
  lemma {:induction false} Lineage(crypto: Crypto, w: Watch, events: seq<Event>)
    ensures Installed(After(crypto, w, events).files) <= Installed(w.files) + Verified(crypto, events)
    decreases |events|
  {
    if events != [] {
      LineageStep(crypto, w, events[0]);
      Lineage(crypto, Next(crypto, w, events[0]), events[1..]);
      VerifiedSplit(crypto, events);
    }
  }

  lemma VerifiedSplit(crypto: Crypto, events: seq<Event>)
    requires events != []
    ensures Verified(crypto, [events[0]]) + Verified(crypto, events[1..]) <= Verified(crypto, events)
  {
    forall c | c in Verified(crypto, events[1..]) ensures c in Verified(crypto, events) {
      var k :| 0 <= k < |events[1..]| && Checked(crypto, events[1..][k]) && c == events[1..][k].io.fetch.content;
      assert events[k + 1] == events[1..][k];
    }
  }
}
