# EdgeGuardian in Dafny

A model of the stateful core of EdgeGuardian, a fleet manager for edge devices, and proofs about it. The controller
signs device certificates, stores manifests, opens shell sessions and manages organisations; the agent renews its
certificate, queues messages, forwards logs and reconciles files and services; a watchdog swaps and rolls back the
agent's binary.

Operations that change state are methods of classes whose contracts tie the new state to a specification function.
Protocols are runs of atomic steps over those functions, and the theorems speak of every run. Where a promise is false
of the code, a lemma says exactly when it holds and another shows a history in which it does not.

| files | component |
|---|---|
| Prelude, Decimals | options, numerals and their byte-wise order |
| CertificateTables, CertificateInvariants, CertificateTheorems, CertificateBounds, CertificateEffects, CertificateService | requests, certificates and CRLs |
| RenewalAgent, RenewalHandshake, RenewalHistory | certificate renewal between agent and controller |
| CrashWindow, WatchdogSteps, Watchdog, WatchdogTheorems, WatchdogHistory, Updater, BinaryLineage | binary updates, swaps and rollbacks |
| QueueKeys, QueueOrder, OfflineQueue, MqttClient, DrainInterleaving, DrainOrder | the offline queue and its drains |
| LogForwarder | the bounded log buffer |
| Manifests, DesiredState | manifests from controller to agent |
| Actions, AtomicWrites, FileSteps, FileManager, SharedPaths, ServiceManager, Reconciler, ReconcileTheorems, StatusTheorems | reconciliation |
| ShellDesk, ShellTheorems, ShellSessions, AgentShellSteps, AgentShell, AgentShellTheorems | shell sessions on both sides |
| Slugs, OrganizationTables, OrganizationTheorems, OrganizationRuns, OrganizationEffects, OrganizationService | organisations and membership |

`dafny verify dfyconfig.toml` checks everything.

## Where code and documentation differ

The model follows the code.

- controller/README.md:84 says that a request is BLOCKED while a valid certificate exists. The code never produces that
  state; the valid certificate is revoked as SUPERSEDED (CertificateService.java:60-91).
- The comment at agent/internal/comms/mqtt_client.go:317 says no message is lost when a drain fails. Only the failing
  message is queued again, not the rest of its batch (MqttClients.DrainAccounting,
  DrainInterleaving.FailureLosesRest).
- agent/internal/storage/store.go:102 and 120 promise first in, first out. The queue keeps that (QueueOrder.Fifo); the
  order of publishing is the order of the keys, or of arrival, only when no drain overtakes another and no failing
  publish falls behind later messages (DrainOrder.OldestExactly, PutOrderExactly; Overtaken, FailureReorders).
- A comment in DeviceLifecycleServiceIT.java:155 says certificate rows are kept after a device is deleted. V4__pki.sql
  deletes them with the device, so the next CRL of the organisation drops their serials
  (CertificateTheorems.AgreesExactly, CertificateBounds.DeletionUnlists).
- OrganizationService documents that every organisation has an OWNER. The organisation inserted by
  V6__seed_default_org.sql has none and never gets one; the invariant is stated for all others.
- V7__invitations.sql says an invitation for a registered user never lands in the table. Users are stored with the email
  as the identity provider spells it but looked up by the normalised one (OrganizationRuns.InviteFindsNormalized and
  InvitationMissesUser).
- The reconciler reports "converged" when no action carried an error. A refused chown and a cancelled cycle carry none,
  and neither does a rewrite that loses the mode (StatusTheorems.StatusTruth says when the status is true;
  EditLosesMode, RefusedChownLooksConverged and CancelledMissesFile show it untrue).

## Assumptions

- A device is not moved to another organisation by a second enrolment (CertificateTables.KeepsOrgs) where the contents
  of a CRL are concerned; CertificateBounds.StrayOrganisation and StrayReached say what depends on it. CRL numbers and
  the live-certificate bounds need no such assumption.
- Every answer of a renewal attempt is handled before the next attempt, and no revocation, enrolment or deletion of the
  same identity comes between (RenewalHandshake.Allowed); LateAnswerMismatch shows what happens otherwise. The agent's
  file writes succeed in those runs; RenewalAgent.CopiesInstall and RenewalHandshake.PairedExactly cover failing ones.
- Serials, session ids, tickets and keys are fresh random values; a serial that repeats aborts the transaction.
- Times are integers read once per transaction, and do not run backwards where a theorem says so.
- The file system is a map from paths to files, a rename is atomic, and each step that can fail is an input. Temporary
  files never have the name of a managed file, and permission bits of files are nine bits wide.

## Model

| member | source | states |
|---|---|---|
| `CertificateServices.CertificateService.RebuildCrl` | controller/src/main/java/com/edgeguardian/controller/service/CrlService.java:34-68 | rebuilding stores the CRL that lists every revoked certificate of the organisation, with the number after the stored one; if the CRL cannot be signed nothing changes |
| `CertificateServices.CertificateService.GetOrBuildCrl` | controller/src/main/java/com/edgeguardian/controller/service/CrlService.java:71-74 | an existing CRL is left alone, a missing one is built |
| `CertificateServices.CertificateService.MarkCertsRevoked` | controller/src/main/java/com/edgeguardian/controller/service/CertificateService.java:247-256 | revocation date and reason of exactly the given rows are set |
| `CertificateServices.CertificateService.RevokeAndRebuild` | controller/src/main/java/com/edgeguardian/controller/service/CertificateService.java:77-91 | revoking a batch rebuilds the CRL of the organisation passed in, an empty batch does nothing; if the CRL cannot be signed the batch stays marked, for the transaction to roll back |
| `CertificateServices.CertificateService.StoreRequest` | controller/src/main/java/com/edgeguardian/controller/service/CertificateService.java:264-279 | a new request row under a fresh id |
| `CertificateServices.CertificateService.Issue` | controller/src/main/java/com/edgeguardian/controller/service/CertificateService.java:281-311 | the request becomes APPROVED and its certificate is stored, unless signing fails or the serial is taken |
| `CertificateServices.CertificateService.ProcessNonRenewal` | controller/src/main/java/com/edgeguardian/controller/service/CertificateService.java:60-91 | INITIAL and MANIFEST requests supersede the live certificates of the name, store the request and, for MANIFEST, issue; it fails exactly when a signature does or the serial is taken |
| `CertificateServices.CertificateService.SetReplacedBy` | controller/src/main/java/com/edgeguardian/controller/service/CertificateService.java:118-120 | exactly the renewed certificate points at its successor |
| `CertificateServices.CertificateService.ProcessRenewal` | controller/src/main/java/com/edgeguardian/controller/service/CertificateService.java:93-134 | a renewal without a serial aborts, one for a serial not owned is stored REJECTED, any other issues, revokes the old certificate as RENEWED and rebuilds the CRL |
| `CertificateServices.CertificateService.Handle` | controller/src/main/java/com/edgeguardian/controller/mqtt/CertRequestListener.java:42-95 | requests of unregistered devices never reach the service; a request that fails at any point leaves the tables as they were |
| `CertificateServices.CertificateService.ApproveRequest` | controller/src/main/java/com/edgeguardian/controller/service/CertificateService.java:137-152 | only a PENDING request of the expected organisation is approved and answered with a certificate |
| `CertificateServices.CertificateService.RejectRequest` | controller/src/main/java/com/edgeguardian/controller/service/CertificateService.java:155-167 | only a PENDING request of the expected organisation is rejected |
| `CertificateServices.CertificateService.RevokeCertificate` | controller/src/main/java/com/edgeguardian/controller/service/CertificateService.java:170-185 | an unrevoked certificate of the expected organisation is revoked as ADMIN_REVOKED and its CRL rebuilt |
| `CertificateServices.CertificateService.RejectPendingRequests` | controller/src/main/java/com/edgeguardian/controller/service/CertificateService.java:206-228 | exactly the pending requests of the device become REJECTED |
| `CertificateServices.DeviceLifecycleService.DeleteDevice` | controller/src/main/java/com/edgeguardian/controller/service/DeviceLifecycleService.java:27-50 | revoke, reject, then remove the row, in one transaction |
| `CertificateInvariants.InvStep` | controller/src/main/java/com/edgeguardian/controller/service/CertificateService.java:37-228 | every transaction keeps all table invariants: homed rows, one certificate per approved request, well-formed revocations and successors, no revocation missing from a CRL |
| `CertificateInvariants.InvRemove` | controller/src/main/resources/db/migration/V4__pki.sql:13-41 | removing a device row with its requests and certificates keeps all invariants |
| `CertificateInvariants.InvRun` | controller/src/main/java/com/edgeguardian/controller/service/CertificateService.java:37-228 | the invariants hold in every reachable state |
| `CertificateInvariants.RenewalOutcome` | controller/src/main/java/com/edgeguardian/controller/service/CertificateService.java:103-126 | a renewal that commits replaced exactly one certificate, the one with the requested serial |
| `CertificateInvariants.RenewableIsOne` | controller/src/main/java/com/edgeguardian/controller/service/CertificateService.java:103-107 | the serial determines the certificate that is renewed |
| `CertificateInvariants.RenewalRecords` | controller/src/main/java/com/edgeguardian/controller/service/CertificateService.java:93-126 | each approved renewal is recorded on the certificate it renewed |
| `CertificateInvariants.CoveredAfterBatch` | controller/src/main/java/com/edgeguardian/controller/service/CertificateService.java:247-262 | revoking and rebuilding leaves no revocation unlisted |
| `CertificateTheorems.RequestBijection` | controller/src/main/java/com/edgeguardian/controller/service/CertificateService.java:281-311 | approved requests and certificates are in bijection by request id |
| `CertificateTheorems.RenewedOnce` | controller/src/main/java/com/edgeguardian/controller/service/CertificateService.java:93-134 | a serial is renewed at most once, however often its request is delivered |
| `CertificateTheorems.SuccessorsInjective` | controller/src/main/java/com/edgeguardian/controller/service/CertificateService.java:117-121 | replacedBy is injective, points to a newer certificate of the same device and name, and is set exactly on certificates revoked as RENEWED |
| `CertificateTheorems.SettlesStep` | controller/src/main/java/com/edgeguardian/controller/service/CertificateService.java:247-322 | APPROVED and REJECTED are terminal; a revocation keeps its date, reason and successor; only deletion removes rows |
| `CertificateTheorems.RecordedGrows` | controller/src/main/java/com/edgeguardian/controller/service/CertificateService.java:247-256 | the revocations on record only grow, up to the moment a deletion removes its device |
| `CertificateTheorems.CrlStep` | controller/src/main/java/com/edgeguardian/controller/service/CrlService.java:34-68 | after every transaction a CRL row has the next number and lists exactly the revocations then on record, or it is untouched and so is the record (section 5.2.3 of RFC 5280) |
| `CertificateTheorems.NumberStep` | controller/src/main/java/com/edgeguardian/controller/service/CrlService.java:51-59 | a CRL is the same or has a higher number after any transaction |
| `CertificateTheorems.NumbersRise` | controller/src/main/java/com/edgeguardian/controller/service/CrlService.java:51-59 | over every run whatsoever |
| `CertificateTheorems.RecordSplits` | controller/src/main/resources/db/migration/V4__pki.sql:13-41 | removing a device takes exactly the entries of its revoked certificates off the record |
| `CertificateTheorems.ExplainedStep` | controller/src/main/java/com/edgeguardian/controller/service/CrlService.java:34-68 | every transaction, deletions included, keeps each CRL equal to the record plus the stranded entries |
| `CertificateTheorems.AgreementRun` | controller/src/main/java/com/edgeguardian/controller/service/CrlService.java:34-74 | over every run, deletions included, a CRL lists exactly what is on record plus the entries stranded since its last rebuild |
| `CertificateTheorems.AgreesExactly` | controller/src/main/java/com/edgeguardian/controller/service/CrlService.java:34-74 | from the empty tables a CRL agrees with them if and only if no certificate revoked at the time was removed with its device since that CRL was last rebuilt |
| `CertificateTheorems.LosesExactly` | controller/src/main/java/com/edgeguardian/controller/service/CrlService.java:34-68 | a rebuild loses exactly the stranded entries, and nothing else ever leaves a CRL |
| `CertificateTheorems.CountMatches` | controller/src/main/java/com/edgeguardian/controller/service/CrlService.java:60-62 | the stored count is the number of entries |
| `CertificateTheorems.DeletionAgreement` | controller/src/main/java/com/edgeguardian/controller/service/DeviceLifecycleService.java:27-50 | after a deletion the CRLs agree with the tables if and only if the deletion took no revoked certificate along |
| `CertificateTheorems.ForgottenListed` | controller/src/main/java/com/edgeguardian/controller/service/DeviceLifecycleService.java:27-50 | every certificate a deletion takes along is revoked and in the CRL at that moment |
| `CertificateTheorems.RebuildDropsForgotten` | controller/src/main/java/com/edgeguardian/controller/service/CrlService.java:34-68 | the next rebuild drops exactly the entries whose rows are gone |
| `CertificateBounds.LiveStep` | controller/src/main/java/com/edgeguardian/controller/service/CertificateService.java:60-152 | an INITIAL resets the allowance of a pair to 0, a MANIFEST to 1, an approval or a renewal of an expired certificate adds one; live certificates never exceed it |
| `CertificateBounds.LiveBound` | controller/src/main/java/com/edgeguardian/controller/service/CertificateService.java:60-152 | the bound over every run, re-enrolments included |
| `CertificateBounds.KeyedStep` | controller/src/main/java/com/edgeguardian/controller/service/CertificateService.java:37-228 | ids and serials stay distinct under every transaction |
| `CertificateBounds.PlainAllowance` | controller/src/main/java/com/edgeguardian/controller/service/CertificateService.java:60-134 | without approvals and renewals of expired certificates the allowance stays at most one |
| `CertificateBounds.AtMostOneLive` | controller/src/main/java/com/edgeguardian/controller/service/CertificateService.java:60-134 | such runs keep at most one live certificate per device and name |
| `CertificateBounds.AddsExactly` | controller/src/main/java/com/edgeguardian/controller/service/CertificateService.java:93-152 | an approval or a renewal of an expired certificate adds exactly one live certificate if and only if the new one outlives the moment |
| `CertificateBounds.OneLiveStep` | controller/src/main/java/com/edgeguardian/controller/service/CertificateService.java:60-152 | from at most one live certificate a transaction leaves at most one if and only if it does not add a live one beside a live one |
| `CertificateBounds.OneLiveExactly` | controller/src/main/java/com/edgeguardian/controller/service/CertificateService.java:60-152 | a run keeps at most one live certificate per device and name throughout if and only if no such addition happens |
| `CertificateBounds.TwoApprovalsTwoLive` | controller/src/main/java/com/edgeguardian/controller/service/CertificateService.java:137-152 | approving two waiting INITIAL requests leaves two live certificates |
| `CertificateBounds.RetireKills` | controller/src/main/java/com/edgeguardian/controller/service/DeviceLifecycleService.java:33-38 | the revocations and rejections of a deletion already leave nothing live or pending |
| `CertificateBounds.DeadStep` | controller/src/main/java/com/edgeguardian/controller/mqtt/CertRequestListener.java:42-92 | no transaction but a new enrolment gives a device without a row a live certificate or a pending request |
| `CertificateBounds.StaysDead` | controller/src/main/java/com/edgeguardian/controller/service/DeviceLifecycleService.java:27-50 | so a deleted device stays dead over every run until it enrols again |
| `CertificateBounds.StrayOrganisation` | controller/src/main/java/com/edgeguardian/controller/service/CertificateService.java:77-91 | a batch revocation is covered by the CRL of the organisation passed in if and only if all its certificates carry that organisation |
| `CertificateBounds.StrayReached` | controller/src/main/java/com/edgeguardian/controller/service/CertificateService.java:77-91 | a concrete history of a device enrolled in two organisations whose superseded certificate no CRL lists |
| `CertificateBounds.DeletionUnlists` | controller/src/main/java/com/edgeguardian/controller/service/DeviceLifecycleService.java:27-50 | a concrete history in which a withdrawn serial disappears from the next CRL after its device was deleted |
| `CertificateBounds.TwoDevicesReached` | controller/src/main/java/com/edgeguardian/controller/service/CertificateService.java:37-58 | that history starts from a reachable state |
| `CertificateEffects.DeclineEffect` | controller/src/main/java/com/edgeguardian/controller/service/CertificateService.java:155-167 | a rejection commits exactly for a PENDING request of the organisation, which alone becomes REJECTED |
| `CertificateEffects.RejectionIsFinal` | controller/src/main/java/com/edgeguardian/controller/service/CertificateService.java:137-167 | over every run after it the request stays REJECTED as long as its row exists, and no certificate is ever issued for it |
| `CertificateEffects.AcceptEffect` | controller/src/main/java/com/edgeguardian/controller/service/CertificateService.java:137-152 | an approval commits exactly for a PENDING request of the organisation that gets a signature under a new serial; it becomes APPROVED and one certificate with its fields is added |
| `CertificateEffects.WithdrawEffect` | controller/src/main/java/com/edgeguardian/controller/service/CertificateService.java:170-185 | a withdrawal commits exactly for an unrevoked certificate of the organisation if the CRL can be signed; it alone is revoked as ADMIN_REVOKED and the next CRL lists it with code 9 |
| `CertificateEffects.DeleteEffect` | controller/src/main/java/com/edgeguardian/controller/service/DeviceLifecycleService.java:27-50 | a deletion takes exactly the rows of the device, and the CRL lists what was still valid with code 5 |
| `CertificateEffects.SupersedeEffect` | controller/src/main/java/com/edgeguardian/controller/service/CertificateService.java:60-91 | an INITIAL or MANIFEST request revokes exactly the valid certificates of device and name as SUPERSEDED, listed with code 4, and adds one request row, APPROVED with its certificate for MANIFEST, PENDING without one for INITIAL |
| `CertificateEffects.RenewalEffect` | controller/src/main/java/com/edgeguardian/controller/service/CertificateService.java:93-134 | a renewal commits exactly if the new certificate and the CRL get their signatures under a new serial; the old certificate alone is revoked as RENEWED, listed with code 4 and points at the new one |
| `CertificateEffects.UnownedEffect` | controller/src/main/java/com/edgeguardian/controller/service/CertificateService.java:103-107 | a renewal of a serial the device does not hold adds a REJECTED row and nothing else |
| `CertificateEffects.RefusedEffect` | controller/src/main/java/com/edgeguardian/controller/service/CertificateService.java:93-97 | a renewal without a serial, and a request of a device without a row, changes nothing |
| `CertificateEffects.FetchEffect` | controller/src/main/java/com/edgeguardian/controller/service/CrlService.java:71-74 | a CRL once built is served as it is; the first has number 1 and lists what is revoked with its date |
| `CertificateEffects.LinkedStep` | controller/src/main/java/com/edgeguardian/controller/service/CertificateService.java:281-311 | every transaction keeps certificates linked one to one to approved requests with the same fields, moved devices included |
| `RenewalAgent.Renewer.TryRenew` | agent/internal/bootstrap/renewal.go:82-131 | a tick renews only inside the window, not within four hours of the last attempt, and is fatal after three failures in the last 24 hours |
| `RenewalAgent.Renewer.HandleRenewalResponse` | agent/internal/bootstrap/renewal.go:166-198 | an answer without a stashed key is an error; the key, the certificate and the removal of the stash follow in order, up to the step that fails |
| `RenewalAgent.Renewer.Persist` | agent/internal/bootstrap/identity.go:159-173 | the key is written first; a failing second write leaves it beside the old certificate |
| `RenewalAgent.TickExactly` | agent/internal/bootstrap/renewal.go:82-131 | a tick does nothing more than 14 days before expiry or within four hours of the last attempt; otherwise it gives up exactly if at most 24 hours are left and three attempts failed |
| `RenewalAgent.TickChanges` | agent/internal/bootstrap/renewal.go:82-163 | an attempt counts as failed until answered and may replace the stash; giving up restarts the agent; no tick touches key or certificate file |
| `RenewalAgent.CopiesInstall` | agent/internal/bootstrap/renewal.go:166-198 | copies of an answer install it exactly when both writes work for one of them, whatever failed before, a failure to read the files back being repaired by a restart; until then the next copy can still install it |
| `RenewalHandshake.HandshakeStep` | agent/internal/bootstrap/renewal.go:82-198 | every tick, delivery, duplicate and unrelated transaction keeps agent and controller in step |
| `RenewalHandshake.HandshakeRun` | agent/internal/bootstrap/renewal.go:82-198 | over every allowed run |
| `RenewalHandshake.HandshakeStarts` | agent/internal/bootstrap/identity.go:111-152 | an enrolled device with nothing in flight is in step |
| `RenewalHandshake.HandshakePromise` | agent/internal/bootstrap/renewal.go:82-198 | the key file matches the certificate file, and the certificate is unrevoked or its one unrevoked successor is in an undelivered answer |
| `RenewalHandshake.RenewalCompletes` | controller/src/main/java/com/edgeguardian/controller/service/CertificateService.java:93-134 | an attempt, its request and its answer leave the agent with the new certificate and key |
| `RenewalHandshake.GrantedRequest` | controller/src/main/java/com/edgeguardian/controller/service/CertificateService.java:93-126 | a granted request is the pending attempt, and its answer becomes the one expected |
| `RenewalHandshake.AttemptsSpaced` | agent/internal/bootstrap/renewal.go:82-131 | attempts with no success and no restart between them are at least four hours apart |
| `RenewalHandshake.PairedExactly` | agent/internal/bootstrap/renewal.go:133-198 | over every run, whatever the network does and whichever writes fail, key and certificate on disk match throughout if and only if no installation writes a key other than that of the certificate then on disk |
| `RenewalHandshake.AllowedNeverBreaks` | agent/internal/bootstrap/renewal.go:82-198 | no allowed run has such an installation |
| `RenewalHandshake.LateAnswerMismatch` | agent/internal/bootstrap/renewal.go:133-198 | a second attempt before the first answer overwrites the stash, and the late answer leaves a mismatched pair on disk |
| `RenewalHistory.CountsAttempts` | agent/internal/bootstrap/renewal.go:82-198 | over every run the failures counted are exactly the attempts since the last success, restart or surrender |
| `RenewalHistory.GivesUpExactly` | agent/internal/bootstrap/renewal.go:103-110 | over every run a tick gives up if and only if at most 24 hours are left, three attempts were made since the last success or restart, and the last is four hours old |
| `CrashWindow.CrashLog.Prune` | agent/cmd/watchdog/main.go:105-113 | filtering in place keeps exactly the recent times in order |
| `CrashWindow.CrashLog.Append` | agent/cmd/watchdog/main.go:105-105 | a time is added at the end |
| `CrashWindow.RecentTwice` | agent/cmd/watchdog/main.go:105-113 | pruning at an earlier cutoff loses nothing a later one needs |
| `CrashWindow.RecentMembers` | agent/cmd/watchdog/main.go:106-112 | a time is kept exactly when it lies after the cutoff |
| `CrashWindow.RecentSuffix` | agent/cmd/watchdog/main.go:106-112 | of times in order a suffix is kept |
| `Watchdogs.Watchdog.SwapBinary` | agent/cmd/watchdog/main.go:171-189 | two renames of which each may fail; the first failure aborts |
| `Watchdogs.Watchdog.RollBack` | agent/cmd/watchdog/main.go:192-208 | the backup returns if its rename works, even when the broken binary could not be moved aside |
| `Watchdogs.Watchdog.HandleCrash` | agent/cmd/watchdog/main.go:82-133 | immediate rollback after a swap; otherwise log, prune, threshold rollback and doubled backoff |
| `Watchdogs.Watchdog.Round` | agent/cmd/watchdog/main.go:54-144 | one launch and what its exit calls for |
| `Watchdogs.Watchdog.Loop` | agent/cmd/watchdog/main.go:54-145 | the loop computes the specified state after any number of launches |
| `WatchdogTheorems.RecoverableRun` | agent/cmd/watchdog/main.go:54-145 | whichever renames fail, the active binary or its backup is on disk |
| `WatchdogTheorems.AlwaysLaunches` | agent/cmd/watchdog/main.go:54-145 | without rename failures every launch finds an active binary |
| `WatchdogTheorems.IdleKeeps` | agent/cmd/watchdog/main.go:70-79 | exits 42 that find nothing staged change neither binary nor the swap flag |
| `WatchdogTheorems.SwapThenCrashRestores` | agent/cmd/watchdog/main.go:70-99 | after a successful swap and any exits 42 that swap nothing, an error exit brings back exactly the replaced binary if and only if the backup can be renamed back and no exit in between moved the new binary over it |
| `WatchdogTheorems.FailedSwapsKeep` | agent/cmd/watchdog/main.go:70-79 | exits 42 that swap nothing keep the replaced binary as backup exactly if none fails between its two renames |
| `WatchdogTheorems.MissingBinaryReturns` | agent/cmd/watchdog/main.go:103-125 | with no binary to launch, the third failure inside the window brings the backup back at the latest, whatever the log held |
| `WatchdogTheorems.WindowExact` | agent/cmd/watchdog/main.go:103-113 | the log holds exactly the crashes since the last successful rollback that the last cutoff lets through |
| `WatchdogTheorems.ThresholdExact` | agent/cmd/watchdog/main.go:115-125 | a rollback is attempted exactly when three or more crashes lie in the last five minutes, and clears the log exactly if it works, whichever renames fail |
| `WatchdogTheorems.LogNeverExceeds300` | agent/cmd/watchdog/main.go:103-133 | with a backoff between a second and five minutes the log never exceeds 300 entries |
| `WatchdogTheorems.StartIsBounded` | agent/cmd/watchdog/main.go:50-52 | the bound holds at the start |
| `WatchdogHistory.FlagExactly` | agent/cmd/watchdog/main.go:70-144 | over every run the swap flag is up if and only if some launch swapped and every launch since exited 42 |
| `WatchdogHistory.CrashExactly` | agent/cmd/watchdog/main.go:82-125 | over every run a crash is rolled back at once and left out of the log exactly in the wake of a swap; any other is recorded, and binaries are rolled back only at the third within five minutes |
| `WatchdogHistory.CleanExitEndsWake` | agent/cmd/watchdog/main.go:136-144 | after a clean exit the next crash is recorded like any other, however recent the swap |
| `WatchdogHistory.RollbackMoves` | agent/cmd/watchdog/main.go:192-208 | a rollback sets the active binary aside as failed if it can and puts the backup in its place if it can |
| `WatchdogHistory.SwapMoves` | agent/cmd/watchdog/main.go:171-189 | a swap puts the staged binary in place and the active one aside, or nothing moves unless the undoing fails too |
| `WatchdogHistory.BackoffExactly` | agent/cmd/watchdog/main.go:50-133 | the backoff is one second doubled for every crash of the current streak, at most five minutes |
| `WatchdogHistory.PauseExactly` | agent/cmd/watchdog/main.go:79-143 | the agent is started again at once after exit 42, after a second or after the backoff |
| `Updaters.Puller.Download` | agent/internal/ota/updater.go:77-103 | a failed copy leaves a partial file in staging unless it can be removed |
| `Updaters.Puller.Apply` | agent/internal/ota/selfupdate.go:78-107 | the staged file is kept and the agent exits exactly when hash and signature check out |
| `Updaters.ExitsExactlyWhenVerified` | agent/internal/ota/selfupdate.go:78-107 | exit 42 if and only if the download is complete, has the announced digest if one is announced, and a signature that verifies if there is one and a key; a download failing either check is removed when it can be |
| `Updaters.FailedDownload` | agent/internal/ota/updater.go:77-103 | a failed download leaves staging alone, or its part unless that can be removed |
| `Updaters.Puller.CheckAndApply` | agent/internal/ota/selfupdate.go:112-121 | nothing happens when the release is the running version |
| `BinaryLineage.LineageStep` | agent/cmd/watchdog/main.go:171-208 | one update attempt or launch brings no unverified content to the active or backup path |
| `BinaryLineage.SwapSources` | agent/cmd/watchdog/main.go:171-189 | a launch installs at most the staged content, and only at exit 42 |
| `BinaryLineage.Lineage` | agent/internal/ota/selfupdate.go:78-107 | every content ever at either path was installed at the start, or had the announced digest and, with a key, a signature that verifies |
| `QueueKeys.KeyLength` | agent/internal/storage/store.go:111-113 | every 64-bit key has twenty characters |
| `QueueKeys.KeyOrder` | agent/internal/storage/store.go:111-113 | keys are distinct and sort byte-wise as their numbers do |
| `QueueOrder.PassedTakes` | agent/internal/storage/store.go:128-144 | the cursor takes exactly the oldest valid messages up to the limit and leaves the rest |
| `QueueOrder.PassedTwice` | agent/internal/storage/store.go:128-144 | two dequeues pass what one with the summed limit passes |
| `QueueOrder.PassedAll` | agent/internal/storage/store.go:128-144 | a dequeue that cannot be filled empties the queue |
| `QueueOrder.Fifo` | agent/internal/storage/store.go:103-155 | over every run what was taken, followed by what is queued, is what was added, in order |
| `QueueOrder.DequeueTakesOldest` | agent/internal/storage/store.go:121-155 | a dequeue returns the oldest messages |
| `OfflineQueues.Store.EnqueueMessage` | agent/internal/storage/store.go:103-117 | a message goes to the end under the next sequence number |
| `OfflineQueues.Store.DequeueMessages` | agent/internal/storage/store.go:121-155 | exactly the oldest messages are returned; they and the corrupted entries passed are deleted, nothing else |
| `OfflineQueues.Store.Delete` | agent/internal/storage/store.go:146-150 | the collected keys are deleted |
| `OfflineQueues.Scan` | agent/internal/storage/store.go:125-145 | the cursor walk in byte order collects the messages and keys that the order of numbers prescribes |
| `OfflineQueues.DeletePrefix` | agent/internal/storage/store.go:146-150 | deleting the keys of the first items leaves exactly the others |
| `OfflineQueues.NextKey` | agent/internal/storage/store.go:128-130 | the least key left is the next number |
| `MqttClients.MqttClient.PublishWithQueue` | agent/internal/comms/mqtt_client.go:350-382 | a message is sent, or queued when the broker is away or silent; without a store that is an error |
| `MqttClients.MqttClient.DrainOfflineQueue` | agent/internal/comms/mqtt_client.go:301-338 | the drain publishes a FIFO prefix; with no failure everything, leaving an empty queue; at a first failure the failing message goes to the tail |
| `MqttClients.MqttClient.PublishBatch` | agent/internal/comms/mqtt_client.go:312-336 | one batch up to its first failure |
| `MqttClients.DrainAccounting` | agent/internal/comms/mqtt_client.go:301-338 | published, requeued, lost and untouched messages are the old queue in order; at most nine are lost, and none exactly when the failing message was the last of its batch |
| `MqttClients.DrainFails` | agent/internal/comms/mqtt_client.go:312-330 | the rest of the failing batch is neither published nor stored |
| `MqttClients.DrainEnds` | agent/internal/comms/mqtt_client.go:305-311 | a drain that finds nothing more has published everything |
| `DrainInterleaving.DrainsAccount` | agent/internal/comms/mqtt_client.go:301-405 | however enqueues and the drains of several reconnects interleave, every message is published, lost, held or queued as often as it was put in, and each failure loses at most nine |
| `DrainInterleaving.LosesExactly` | agent/internal/comms/mqtt_client.go:312-330 | a run loses a message if and only if some publish fails on a message that is not the last its drain holds |
| `DrainInterleaving.FailureLosesRest` | agent/internal/comms/mqtt_client.go:312-330 | a concrete run: of two messages in a batch the failing first is queued again and the second is nowhere |
| `DrainOrder.OvertakesExactly` | agent/internal/comms/mqtt_client.go:312-336 | a publishing drain is not the first in line, in the order the batches were taken, if and only if another drain holds an earlier message; queued ones are always later |
| `DrainOrder.OldestExactly` | agent/internal/comms/mqtt_client.go:301-405 | over every run with any number of drains and failures, no message is published while one with a smaller key is held or queued if and only if no drain overtakes; the published keys then rise |
| `DrainOrder.PutOrderStep` | agent/internal/comms/mqtt_client.go:319-329 | every event keeps what is held and queued in the order it was put in, except a failing publish with later messages left, which always breaks it |
| `DrainOrder.PutOrderExactly` | agent/internal/comms/mqtt_client.go:301-405 | what waits is always in put order and the earliest is published if and only if no drain overtakes and no failing publish falls behind later messages; messages are then published in put order |
| `DrainOrder.FoundInStore` | agent/internal/storage/store.go:103-117 | every store is a starting point of these runs: its keys rise up to its sequence number |
| `DrainOrder.Overtaken` | agent/internal/comms/mqtt_client.go:384-405 | a concrete run in which a second drain publishes a younger message before an older one |
| `DrainOrder.FailureReorders` | agent/internal/comms/mqtt_client.go:319-329 | a concrete run in which a failing publish puts its message behind a later one |
| `LogForwarders.Forwarder.Push` | agent/internal/logfwd/forwarder.go:48-57 | the oldest entry makes room |
| `LogForwarders.Forwarder.Restore` | agent/internal/logfwd/forwarder.go:100-112 | a failed batch goes back in front as far as there is room |
| `LogForwarders.Forwarder.Flush` | agent/internal/logfwd/forwarder.go:80-113 | a failed flush leaves the newest entries of old buffer and arrivals; a successful one sends the old buffer |
| `LogForwarders.PanicsExactly` | agent/internal/logfwd/forwarder.go:48-113 | a run panics if and only if the buffer has capacity zero and something is pushed |
| `LogForwarders.PushedAllLast` | agent/internal/logfwd/forwarder.go:48-57 | pushing keeps the newest entries |
| `LogForwarders.FailedFlushRefinesPushes` | agent/internal/logfwd/forwarder.go:80-113 | a failed flush equals pushing alone, whatever arrived meanwhile |
| `LogForwarders.InOrderOnce` | agent/internal/logfwd/forwarder.go:48-113 | over every run the entries sent, in flight and buffered are in push order without repetition, and all others overflowed or could not be encoded |
| `LogForwarders.KeptFailed` | agent/internal/logfwd/forwarder.go:100-112 | putting a batch back keeps order and accounting |
| `DesiredState.DeviceRegistry.Register` | controller/src/main/java/com/edgeguardian/controller/service/DeviceRegistry.java:40-61 | a device row exists afterwards; a manifest is kept |
| `DesiredState.DeviceRegistry.SaveManifest` | controller/src/main/java/com/edgeguardian/controller/service/DeviceRegistry.java:190-209 | the first manifest has version 1, each later one the next; other devices are untouched |
| `DesiredState.DeviceRegistry.Remove` | controller/src/main/java/com/edgeguardian/controller/service/DeviceRegistry.java:167-175 | device and manifest go together |
| `DesiredState.HeartbeatListener.OnHeartbeat` | controller/src/main/java/com/edgeguardian/controller/mqtt/HeartbeatListener.java:42-94 | the stored manifest is published if and only if the device is known and its version is above the reported one |
| `DesiredState.DesiredStateKeeper.OnDesiredState` | agent/cmd/agent/main.go:196-203 | any manifest received replaces the one in memory; the database follows if the write works |
| `DesiredState.DesiredStateKeeper.constructor` | agent/cmd/agent/main.go:436-448 | a start loads the cached manifest |
| `DesiredState.Provenance` | controller/src/main/java/com/edgeguardian/controller/service/DeviceRegistry.java:190-209 | whatever the network does, without removals every manifest anywhere is what was stored as its version, at most the controller's; with removals it was still stored some time |
| `DesiredState.MovesForward` | agent/cmd/agent/main.go:196-203 | with in-order delivery and a working database the version in memory never goes down |
| `DesiredState.OneHeartbeat` | controller/src/main/java/com/edgeguardian/controller/mqtt/HeartbeatListener.java:42-72 | once edits stop and older messages drained, one heartbeat and its push leave exactly the controller's manifest; nothing is pushed if the agent had it |
| `DesiredState.StaysSettled` | controller/src/main/java/com/edgeguardian/controller/mqtt/HeartbeatListener.java:62-65 | from then on no heartbeat causes a push |
| `DesiredState.RemovalStalls` | controller/src/main/java/com/edgeguardian/controller/service/DeviceRegistry.java:167-209 | after a removal an agent still at version v is pushed to if and only if more than v manifests were saved since |
| `DesiredState.SameVersionOtherContent` | controller/src/main/java/com/edgeguardian/controller/service/DeviceRegistry.java:167-209 | so agent and controller can hold different contents under one version |
| `AtomicWrites.NeverPartial` | agent/plugins/filemanager/filemanager.go:183-219 | whatever step fails and wherever the power is lost, the named files are those of the start or those with exactly the complete new file |
| `AtomicWrites.RenamesFlushed` | agent/plugins/filemanager/filemanager.go:196-214 | the file renamed into place is complete and flushed |
| `AtomicWrites.Succeeds` | agent/plugins/filemanager/filemanager.go:183-219 | an unhindered write leaves the complete file with mode 0600 and the process owner, and no temporary one |
| `AtomicWrites.Fails` | agent/plugins/filemanager/filemanager.go:190-214 | a failed write leaves a temporary file exactly if that was created and cannot be removed |
| `FileSteps.ErrorExactly` | agent/plugins/filemanager/filemanager.go:64-179 | a report carries an error exactly when a step the cycle needs was refused |
| `FileSteps.RightExactly` | agent/plugins/filemanager/filemanager.go:83-219 | a file reported without error is as desired after that cycle if and only if mode and owner can be reached and no rewrite loses one found right |
| `FileSteps.OctalExactly` | agent/plugins/filemanager/filemanager.go:225-247 | a mode is read exactly if it is octal digits of at most 32 bits, with their value |
| `FileSteps.OwnerExactly` | agent/plugins/filemanager/filemanager.go:249-272 | an owner is user, colon, group, and stands for the id of the user and the id of the group |
| `FileSteps.MatchesExactly` | agent/plugins/filemanager/filemanager.go:83-95 | a file matches exactly if content, permission bits, user id and group id are those the resource writes down |
| `FileSteps.CycleSets` | agent/plugins/filemanager/filemanager.go:83-219 | an undisturbed cycle leaves the content, the permission bits of a mode that was wrong, and what chown sets for an owner that was wrong |
| `FileSteps.ReportsChanges` | agent/plugins/filemanager/filemanager.go:97-179 | an error-free report says whether the file is new and otherwise what was not as asked |
| `FileSteps.TwoCyclesSuffice` | agent/plugins/filemanager/filemanager.go:64-179 | two undisturbed cycles reach a fixpoint |
| `FileSteps.SettlesExactly` | agent/plugins/filemanager/filemanager.go:64-272 | from the third cycle on nothing is left to do if and only if mode and owner can be reached |
| `FileSteps.SecondCycleNeeded` | agent/plugins/filemanager/filemanager.go:83-219 | the second cycle is needed exactly when the rewrite lost a mode or an owner found right before |
| `FileManagers.FileManager.CheckMode` | agent/plugins/filemanager/filemanager.go:222-238 | an empty mode matches; otherwise the octal value must equal the permission bits |
| `FileManagers.FileManager.SetMode` | agent/plugins/filemanager/filemanager.go:241-247 | only permission bits are set; an unreadable mode is an error |
| `FileManagers.FileManager.CheckOwner` | agent/plugins/filemanager/filemanager.go:251-256 | an empty owner matches; otherwise both names must look up to the ids of the file |
| `FileManagers.FileManager.SetOwner` | agent/plugins/filemanager/filemanager.go:260-272 | an owner without a colon or refused by chown changes nothing |
| `FileManagers.FileManager.AtomicWrite` | agent/plugins/filemanager/filemanager.go:183-219 | the write performs exactly the prescribed operations up to the failing step and its clean-up: the target is the new file or untouched |
| `FileManagers.FileManager.ReconcileFile` | agent/plugins/filemanager/filemanager.go:64-179 | one resource: the report and the file it leaves |
| `FileManagers.FileManager.Reconcile` | agent/plugins/filemanager/filemanager.go:41-62 | resources in order up to a cancellation |
| `FileManagers.Untouched` | agent/plugins/filemanager/filemanager.go:41-62 | files not named are untouched |
| `FileManagers.Independent` | agent/plugins/filemanager/filemanager.go:41-62 | with distinct paths each file goes through its own cycle |
| `FileManagers.NoopsChangeNothing` | agent/plugins/filemanager/filemanager.go:88-95 | a cycle of Noops leaves the disk as it is, with every file as desired |
| `SharedPaths.OwnerCycles` | agent/plugins/filemanager/filemanager.go:144-156 | from the second cycle on a file has the owner asked for exactly when the first resource of its path leaves it or some resource of the path sets it |
| `SharedPaths.NoopsExactly` | agent/plugins/filemanager/filemanager.go:83-95 | only Noops are reported exactly when every file is as all its resources ask |
| `SharedPaths.ManifestSettles` | agent/plugins/filemanager/filemanager.go:41-272 | any manifest, paths shared or not, settles in two cycles if and only if the resources of one path agree on content, mode and owner, every mode can be reached, and every owner is set by a resource of its path or left by the first |
| `SharedPaths.DistinctSettles` | agent/plugins/filemanager/filemanager.go:41-272 | with distinct paths that is each resource on its own being reachable |
| `SharedPaths.DisagreeingNeverSettle` | agent/plugins/filemanager/filemanager.go:41-179 | resources of one path that disagree never settle, whatever fails |
| `ServiceManagers.ServiceManager.ReconcileService` | agent/plugins/service/service.go:88-191 | one service: the report and the unit it leaves |
| `ServiceManagers.ServiceManager.Reconcile` | agent/plugins/service/service.go:65-86 | services in order up to a cancellation |
| `ServiceManagers.CycleMeans` | agent/plugins/service/service.go:88-191 | a report without error leaves the service active for "running", inactive for any other state, as it was for none, and likewise for enabled "true"; Noop exactly if it was so before |
| `ServiceManagers.CallsMean` | agent/plugins/service/service.go:109-165 | a start, stop, enable or disable is needed exactly where the service is not as the resource says |
| `ServiceManagers.ReportsChanges` | agent/plugins/service/service.go:88-191 | an error-free report lists what changed, run state first |
| `ServiceManagers.OneCycle` | agent/plugins/service/service.go:88-191 | one cycle ends without error in the wanted state exactly when the service is named and no needed call is refused; a Noop means the state was right |
| `ServiceManagers.ServicesSettle` | agent/plugins/service/service.go:65-191 | over distinct services, a cycle is free of errors if and only if no needed call is refused, and the next is all Noop |
| `ServiceManagers.UnitsUntouched` | agent/plugins/service/service.go:65-86 | services not named are untouched |
| `ServiceManagers.UnitsIndependent` | agent/plugins/service/service.go:65-86 | with distinct names each service goes through its own cycle |
| `ServiceManagers.UnitsUnchanged` | agent/plugins/service/service.go:176-183 | a cycle of Noops leaves the units as they are, with every service as wanted |
| `ServiceManagers.UnitsStay` | agent/plugins/service/service.go:65-191 | if nothing is refused services are as wanted after one cycle and stay so |
| `Reconcilers.MakeDiff` | agent/internal/reconciler/diff.go:15-63 | specs of each kind in manifest order |
| `Reconcilers.DispatchedOnce` | agent/internal/reconciler/reconciler.go:146-155 | every spec goes to exactly one plugin, in order |
| `Reconcilers.Extracted` | agent/internal/reconciler/reconciler.go:146-163 | a plugin works on exactly the manifest's resources of its kind |
| `Reconcilers.Reconciler.Dispatch` | agent/internal/reconciler/reconciler.go:147-163 | a plugin without specs is not called |
| `Reconcilers.Reconciler.Sweep` | agent/internal/reconciler/reconciler.go:146-183 | plugins run in registration order and their reports are joined |
| `Reconcilers.Reconciler.ReconcileOnce` | agent/internal/reconciler/reconciler.go:118-200 | the cycle: nothing without a manifest or resources; the status is an error exactly when a report carries one |
| `ReconcileTheorems.FullCycle` | agent/internal/reconciler/reconciler.go:146-183 | an uncancelled cycle reports once on every file and service |
| `ReconcileTheorems.ServicesConverge` | agent/plugins/service/service.go:65-191 | services are as the manifest says after one cycle and stay so |
| `ReconcileTheorems.Converges` | agent/internal/reconciler/reconciler.go:118-200 | from the third cycle on only Noops are reported if and only if the file resources of one path agree, modes and owners can be reached and the certificate plugin reports Noops |
| `ReconcileTheorems.ConvergedMeansDesired` | agent/internal/reconciler/reconciler.go:118-200 | such a cycle finds every file and service as desired and changes nothing |
| `ReconcileTheorems.OtherFiles` | agent/plugins/filemanager/filemanager.go:41-62 | files not named are untouched over any number of cycles |
| `ReconcileTheorems.OtherUnits` | agent/plugins/service/service.go:65-86 | services not named are untouched over any number of cycles |
| `ReconcileTheorems.CancelledLooksConverged` | agent/internal/reconciler/reconciler.go:165-194 | a cycle cancelled from the start changes nothing and still reports converged |
| `StatusTheorems.FilesTruth` | agent/plugins/filemanager/filemanager.go:64-219 | over distinct files no error is reported exactly when none was refused, and then all match exactly when one cycle is enough for each |
| `StatusTheorems.CycleErrs` | agent/internal/reconciler/reconciler.go:141-198 | the status is an error exactly when a file, a service or a certificate report carries one, in a cancelled cycle too |
| `StatusTheorems.StatusTruth` | agent/internal/reconciler/reconciler.go:118-200 | a cycle, cancelled or not and whatever fails, ends as converged if and only if nothing was refused, and the device is then as asked if and only if every handled file can be put right at once and the rest was right |
| `StatusTheorems.EditLosesMode` | agent/plugins/filemanager/filemanager.go:83-219 | editing a file that has its mode 0644 ends as converged with the file at 0600 |
| `StatusTheorems.RefusedChownLooksConverged` | agent/plugins/filemanager/filemanager.go:144-156 | a refused chown ends every cycle as converged, and the owner is never set |
| `StatusTheorems.CancelledMissesFile` | agent/internal/reconciler/reconciler.go:118-200 | a cancelled cycle ends as converged with a file missing |
| `ShellSessions.ShellSessionService.Create` | controller/src/main/java/com/edgeguardian/controller/service/ShellSessionService.java:58-77 | device and online checks, purge, limits, then a reservation; the purge stays even when a limit refuses |
| `ShellSessions.ShellSessionService.Activate` | controller/src/main/java/com/edgeguardian/controller/service/ShellSessionService.java:83-102 | the ticket is consumed even by a failed activation; a late one removes the session |
| `ShellSessions.ShellSessionService.Close` | controller/src/main/java/com/edgeguardian/controller/service/ShellSessionService.java:115-133 | the session and its ticket go, and an active one is audited as closed |
| `ShellSessions.ShellSessionService.PurgeExpired` | controller/src/main/java/com/edgeguardian/controller/service/ShellSessionService.java:148-159 | exactly the expired reservations and their tickets go |
| `ShellSessions.ShellSessionService.CountOnDevice` | controller/src/main/java/com/edgeguardian/controller/service/ShellSessionService.java:136-146 | sessions of the device |
| `ShellSessions.ShellSessionService.CountInOrg` | controller/src/main/java/com/edgeguardian/controller/service/ShellSessionService.java:139-146 | sessions of the organisation |
| `ShellTheorems.Agreement` | controller/src/main/java/com/edgeguardian/controller/service/ShellSessionService.java:58-159 | in every reachable state with fresh ids and tickets the index is the map of waiting sessions, limits hold, no ticket is used twice or late, and the audit's open sessions are the active ones |
| `ShellTheorems.IndexedStep` | controller/src/main/java/com/edgeguardian/controller/service/ShellSessionService.java:58-159 | every step keeps the ticket index exact |
| `ShellTheorems.LimitedStep` | controller/src/main/java/com/edgeguardian/controller/service/ShellSessionService.java:135-146 | every step keeps both limits |
| `ShellTheorems.OnceStep` | controller/src/main/java/com/edgeguardian/controller/service/ShellSessionService.java:83-102 | no step uses a ticket twice or after its deadline |
| `ShellTheorems.ActivatesInTime` | controller/src/main/java/com/edgeguardian/controller/service/ShellSessionService.java:83-93 | an activation succeeds if and only if a waiting session holds the ticket and its time is not over; at once the ticket is unknown |
| `ShellTheorems.CreatesExactly` | controller/src/main/java/com/edgeguardian/controller/service/ShellSessionService.java:58-77 | a session is reserved exactly for an online device while fewer open sessions than allowed are on it and in its organisation; each refusal says which failed |
| `ShellTheorems.ReservesExactly` | controller/src/main/java/com/edgeguardian/controller/service/ShellSessionService.java:58-81 | the reservation stores the caller, the ticket and its deadline, and only expired reservations go |
| `ShellTheorems.DurationExact` | controller/src/main/java/com/edgeguardian/controller/service/ShellSessionService.java:83-133 | over every run a session is logged as opened when activated and as closed with exactly the time between; nothing but its closing ends it |
| `ShellTheorems.AuditedStep` | controller/src/main/java/com/edgeguardian/controller/service/ShellSessionService.java:98-131 | every step keeps the audit log in agreement with the active sessions |
| `AgentShell.Session.Close` | agent/internal/shell/session.go:136-143 | the terminal is closed once |
| `AgentShell.Session.ReportExit` | agent/internal/shell/session.go:145-154 | the first report wins, end of file and closed pipe count as clean |
| `AgentShell.Session.ReadPump` | agent/internal/shell/session.go:55-69 | all data up to and including the read that fails is forwarded in order, then the exit is reported once |
| `AgentShell.PumpedExactly` | agent/internal/shell/session.go:55-69 | what is forwarded is the data of all reads up to the failing one, its own included |
| `AgentShell.Manager.Admit` | agent/internal/shell/manager.go:96-108 | the check under the first lock |
| `AgentShell.Manager.Insert` | agent/internal/shell/manager.go:120-128 | the insertion under the second lock replaces whatever held the id |
| `AgentShell.Manager.Announce` | agent/internal/shell/manager.go:130-134 | the started event is published after the lock is released |
| `AgentShell.Manager.OnSessionExit` | agent/internal/shell/manager.go:175-186 | an exit removes whatever its id stands for |
| `AgentShell.Manager.CloseAll` | agent/internal/shell/manager.go:163-173 | every live session is closed |
| `AgentShellTheorems.BoundStep` | agent/internal/shell/manager.go:95-135 | live and half-open sessions stay below limit plus concurrent opens |
| `AgentShellTheorems.LimitHolds` | agent/internal/shell/manager.go:95-135 | at most max + k - 1 sessions in the map with k opens at once |
| `AgentShellTheorems.RunningBounded` | agent/internal/shell/manager.go:95-135 | unless an insertion finds its id taken, at most that many shells run |
| `AgentShellTheorems.LimitIsTight` | agent/internal/shell/manager.go:95-135 | that many are reached, for every max and k |
| `AgentShellTheorems.ExactStep` | agent/internal/shell/manager.go:120-178 | the map stays exactly the running sessions if and only if no insertion finds its id taken |
| `AgentShellTheorems.MapIsExact` | agent/internal/shell/manager.go:95-186 | the map is exact throughout a run if and only if no insertion finds its id taken; ids of ended sessions may be used again |
| `AgentShellTheorems.RemovedByOwnExit` | agent/internal/shell/manager.go:175-178 | a session leaves the map by its own exit and nothing else |
| `AgentShellTheorems.DistinctNeverClash` | agent/internal/shell/manager.go:95-135 | with distinct ids no insertion does |
| `AgentShellTheorems.ExitBeforeStarted` | agent/internal/shell/manager.go:130-134 | a session can have exited before its started event is published |
| `AgentShellTheorems.RepeatedIdsLoseSessions` | agent/internal/shell/manager.go:95-178 | with repeated ids any number of shells can run outside an empty map |
| `Slugs.FreeSlug` | controller/src/main/java/com/edgeguardian/controller/service/OrganizationService.java:243-254 | the search ends with the first free candidate |
| `Slugs.CandidatesDiffer` | controller/src/main/java/com/edgeguardian/controller/service/OrganizationService.java:248-252 | candidates are pairwise distinct |
| `Slugs.SearchIsShort` | controller/src/main/java/com/edgeguardian/controller/service/OrganizationService.java:250-252 | at most one round more than there are slugs |
| `Slugs.BaseShape` | controller/src/main/java/com/edgeguardian/controller/service/OrganizationService.java:244-247 | a base has only lower-case letters, digits and single hyphens |
| `Slugs.NormalizeExactly` | controller/src/main/java/com/edgeguardian/controller/service/OrganizationService.java:216-218 | normalising drops the blanks at both ends and turns capitals into small letters, and does nothing else |
| `Slugs.BaseExactly` | controller/src/main/java/com/edgeguardian/controller/service/OrganizationService.java:244-247 | a base is what stands before the first at-sign in small letters, with every other character replaced by a hyphen and runs of hyphens squeezed |
| `Slugs.NormalizeIsProjection` | controller/src/main/java/com/edgeguardian/controller/service/OrganizationService.java:216-218 | normalising leaves exactly the normalised emails alone |
| `OrganizationServices.OrganizationService.Create` | controller/src/main/java/com/edgeguardian/controller/service/OrganizationService.java:40-51 | organisation and OWNER row together, or neither |
| `OrganizationServices.OrganizationService.CreatePersonalOrganization` | controller/src/main/java/com/edgeguardian/controller/service/OrganizationService.java:79-83 | under a slug nobody has |
| `OrganizationServices.OrganizationService.AddMember` | controller/src/main/java/com/edgeguardian/controller/service/OrganizationService.java:94-102 | never an OWNER, never twice |
| `OrganizationServices.OrganizationService.UpdateMemberRole` | controller/src/main/java/com/edgeguardian/controller/service/OrganizationService.java:108-116 | neither from nor to OWNER |
| `OrganizationServices.OrganizationService.RemoveMemberById` | controller/src/main/java/com/edgeguardian/controller/service/OrganizationService.java:122-129 | never the OWNER |
| `OrganizationServices.OrganizationService.InviteMember` | controller/src/main/java/com/edgeguardian/controller/service/OrganizationService.java:147-172 | a known user joins at once, otherwise one pending invitation is stored or updated |
| `OrganizationServices.OrganizationService.ResolvePendingInvitations` | controller/src/main/java/com/edgeguardian/controller/service/OrganizationService.java:179-196 | every invitation for the email is accepted or dropped |
| `OrganizationServices.OrganizationService.RevokeInvitation` | controller/src/main/java/com/edgeguardian/controller/service/OrganizationService.java:207-214 | only within the organisation |
| `OrganizationServices.OrganizationService.RegisterNewUser` | controller/src/main/java/com/edgeguardian/controller/service/UserService.java:83-98 | user, personal organisation and, for a verified email, memberships; a failure undoes all |
| `OrganizationTheorems.ResolvedExactly` | controller/src/main/java/com/edgeguardian/controller/service/OrganizationService.java:179-196 | no invitation for the email is left and no other changed; existing memberships keep their role; every other invited organisation gets the user with the invited role |
| `OrganizationTheorems.OrgCreated` | controller/src/main/java/com/edgeguardian/controller/service/OrganizationService.java:40-51 | a new organisation has exactly one OWNER and a new slug |
| `OrganizationTheorems.OrgDeleted` | controller/src/main/java/com/edgeguardian/controller/service/OrganizationService.java:74-76 | deleting an organisation with its memberships and invitations keeps the tables sound |
| `OrganizationRuns.SoundStep` | controller/src/main/java/com/edgeguardian/controller/service/OrganizationService.java:40-214 | every operation keeps the tables sound |
| `OrganizationRuns.AlwaysSound` | controller/src/main/java/com/edgeguardian/controller/service/OrganizationService.java:40-214 | in every reachable state each organisation but the seeded one has exactly one OWNER, no invitation carries OWNER, and memberships, invitations, slugs and users are unique |
| `OrganizationRuns.OwnersStep` | controller/src/main/java/com/edgeguardian/controller/service/OrganizationService.java:40-214 | no operation touches the OWNER row of an organisation that stays |
| `OrganizationRuns.OwnerNeverChanges` | controller/src/main/java/com/edgeguardian/controller/service/OrganizationService.java:40-214 | an organisation keeps its owner as long as it exists |
| `OrganizationRuns.InviteFindsNormalized` | controller/src/main/java/com/edgeguardian/controller/service/OrganizationService.java:147-172 | inviting a registered user adds them if and only if their email was stored normalised |
| `OrganizationRuns.InvitationMissesUser` | controller/src/main/java/com/edgeguardian/controller/service/OrganizationService.java:147-172 | a concrete history in which the invitation of a registered user stays pending |
| `OrganizationEffects.SetRoleEffect` | controller/src/main/java/com/edgeguardian/controller/service/OrganizationService.java:108-116 | a role is set exactly for a row of the organisation that neither is nor becomes OWNER, and for no other |
| `OrganizationEffects.RoleLasts` | controller/src/main/java/com/edgeguardian/controller/service/OrganizationService.java:108-129 | over every run it stays until it is set again, the member removed or the organisation deleted |
| `OrganizationEffects.RemoveEffect` | controller/src/main/java/com/edgeguardian/controller/service/OrganizationService.java:122-129 | a row is removed exactly if it belongs to the organisation and is not OWNER, and no other |
| `OrganizationEffects.RemovedStaysOut` | controller/src/main/java/com/edgeguardian/controller/service/OrganizationService.java:122-129 | over every run the user stays out until a step grants membership again |
| `OrganizationEffects.GrantedStep` | controller/src/main/java/com/edgeguardian/controller/service/OrganizationService.java:40-214 | only creating, adding, inviting by the stored email and a first login make anyone a member |
| `OrganizationEffects.AddEffect` | controller/src/main/java/com/edgeguardian/controller/service/OrganizationService.java:94-102 | a known user joins a known organisation exactly if not yet in it and not as OWNER |
| `OrganizationEffects.InviteKnown` | controller/src/main/java/com/edgeguardian/controller/service/OrganizationService.java:147-160 | inviting by an email under which a user is stored adds that user |
| `OrganizationEffects.InviteAgain` | controller/src/main/java/com/edgeguardian/controller/service/OrganizationService.java:160-166 | inviting again gives the pending invitation the new role |
| `OrganizationEffects.InviteNew` | controller/src/main/java/com/edgeguardian/controller/service/OrganizationService.java:167-172 | otherwise an invitation is stored, if the organisation exists |
| `OrganizationEffects.RevokeEffect` | controller/src/main/java/com/edgeguardian/controller/service/OrganizationService.java:207-214 | an invitation goes exactly if it is one of the organisation |
| `OrganizationEffects.CreateEffect` | controller/src/main/java/com/edgeguardian/controller/service/OrganizationService.java:40-51 | an organisation and its OWNER row are added exactly if the slug is free and the user known |
| `OrganizationEffects.FirstLoginEffect` | controller/src/main/java/com/edgeguardian/controller/service/UserService.java:83-98 | a first login commits exactly for a new email and subject; without a verified email it adds the user and a personal organisation and nothing else |
| `OrganizationEffects.LoginEffect` | controller/src/main/java/com/edgeguardian/controller/service/UserService.java:32-56 | a login changes subject and email of its user exactly if no other user has either |

## Left out

- Errors of the agent's database: a message that cannot be stored, or stored again, is only logged and lost.
- The web interface, the HTTP controllers and the mail service.
- Cryptography and encodings: signatures, hashes, certificates, CSRs and JSON are inputs or plain values.
- MQTT, BoltDB, JPA, MinIO, EMQX and Loki themselves: brokers are message sequences or bags, tables are maps with rollback, bbolt is an ordered map with atomic transactions.
- The broker's retained message as such: redelivering the last push is one of the deliveries the network may make at any time.
- Metadata that no decision reads: who decided on a request and why, common names, alternative names, audit details of certificates, session kickouts, labels, telemetry.
- Ids are drawn from a counter without the gaps that a rolled-back transaction leaves, and integers do not overflow: manifest versions and CRL numbers have 64 bits, the slug counter 32.
- A failing audit write: the service would then throw after its state has changed.
- Interleavings of two database transactions; each is one atomic step.
- A crash of the agent between writing its key and its certificate.
- The certificate plugin of the reconciler: its reports are an input.
- Recreating parent directories, directories and links in the place of a file, special mode bits, and platforms other than Linux for file owners.
- Deployment and rollback markers, the health check that the watchdog never calls, and signals that stop it.
- Timers of shell sessions: a timeout is one of the moments at which a session closes.
- Letter case and blanks outside ASCII in emails.
- Role levels, API keys, device tokens, memory limits, output truncation and installer templates.
- RemoveDevice: tokens, telemetry and commands that the database deletes along with a device are not modelled.
- Slugs.Base: the length limits of database columns are not modelled, because an insert that exceeds them only aborts.
