# Verification model of the file-journaled authentication protocols

This project models the stateful cores of the authentication package and proves, for every
run, what they are meant to keep: enrollment, factor retirement, first-administrator
bootstrap, action step-up permits, the canonical encoder behind the material digests,
bounded sessions and their file queue, and the smaller cores (user indexes, TOTP replay,
the repository cache, the audit buffer).

`dafny verify dfyconfig.toml` checks everything.

## How the model is built

* **Storage.** `DurableFile` is the file system every journal relies on. A name has the value
  readers see and the set of values a crash may leave there. A rename changes the first and
  adds to the second; a directory sync makes the visible value the only one. Each write ends
  before its rename, after it without the sync, or acknowledged. A crash picks any value from
  the set, name by name.
* **Protocols** are state machines: `Apply(state, step)` is one stretch of the source's code
  between two awaits (or one whole gated call where nothing can interleave), a step that is
  not enabled changes nothing, and `Exec` folds `Apply` over any sequence of steps. Main
  results are about `Exec` of every sequence from the fresh state: every interleaving, every
  failure, every crash point.
* **Acceptance** is proved as well as safety. `EnrollmentBegin`, `RetirementEntry`,
  `BootstrapEntry`, `StepUpEntry` and `SessionEffects` say of the stored values, the clocks and the
  answers, without the operations' own predicates, exactly when each operation goes through and
  what it then writes and returns.
* **Imperative code** is in classes: `ProcessGate`, the enrollment scan,
  `FileTotpRetirementCoordinator` with its `FileStorage`, `FileBootstrapCoordinator`,
  `FileActionStepUpStore` over its shared directory, `SessionFile`, `MemoryStorageAdapter`,
  `AdminUserRepository`, `AuditLogger`, `TotpFactor`; loops that fill sets, sort an array in
  place, scan a list or prune a directory are loops here. Each method's `ensures` ties its new
  state to the function the protocol lemmas are about.
* **Assumptions.** SHA-256 and HMAC are one-to-one, AES-GCM decrypts what it encrypted, random
  ids and references never repeat, and nobody presents a random reference that was generated
  but never handed out. The clock is an input of every step; lemmas that need it not to run
  backwards say so. Callbacks passed in the configuration (`loadCurrent`, `project`, the
  retirement `authorize`, and so on) do not re-enter the coordinator, as their contracts demand.

| part | files |
|---|---|
| shared | `Wrappers`, `DurableFile`, `Utf16` |
| enrollment | `EnrollmentGate`, `EnrollmentProgress`, `EnrollmentJournal`, `EnrollmentSafety`, `EnrollmentCoordinator`, `EnrollmentLedger`, `EnrollmentBegin` |
| encoder and digests | `Canonical`, `CanonicalInjective`, `CanonicalForm`, `RetirementMaterial`, `JournalMaterial`, `TotpRecords`, `Principal` |
| retirement | `Retirement`, `RetirementSafety`, `RetirementRecovery`, `RetirementEntry`, `RetirementCoordinator` |
| bootstrap | `Bootstrap`, `BootstrapSafety`, `BootstrapRecovery`, `BootstrapEntry`, `BootstrapCoordinator` |
| step-up | `StepUp`, `StepUpSafety`, `StepUpCapacity`, `StepUpEntry`, `StepUpStore` |
| sessions | `SessionPolicy`, `PromiseQueue`, `FileSessions`, `SessionEffects` |
| smaller cores | `TotpReplay`, `MemoryUsers`, `UserCache`, `AuditBuffer` |

## Promises the code does not keep

Each is proved by a lemma with a concrete run, or for a whole family, beside a lemma that says
exactly when the promise does hold. The model follows the code.

* **One proof, one enrollment attempt.** When `begin` fails on its directory sync and is
  retried inside the same gate entry, the retry shows a setup the disk may still lose; after a
  crash the same proof yields another attempt (`UnacknowledgedResumeCanRepeat`). The binding is
  permanent exactly when every value on disk carries it (`BindingIsPermanentExactlyWhenOnDisk`),
  which holds in every run whose `begin` calls find the journal acknowledged
  (`OneAttemptPerProof`).
* **A committed retirement can always be recovered.** If a usage-counter write of the factor
  was renamed but never synced, a retirement committed over it and then crashed leaves a factor
  the commit does not match: the commit stays, and no sequence of recoveries and crashes makes
  the coordinator ready again (`UnacknowledgedUseBlocksRecovery`, over storage that exists by
  `InterruptibleExists`). A durable commit is recovered after every crash exactly when every
  version of every file a crash may leave is one it accepts (`RecoversExactlyWhen`).
* **A TOTP code is used once.** The comment on `verifyTokenWithStep` promises it, but the
  library and the service read the clock separately, so a code sent twice across a step
  boundary is accepted twice (`TwoReadingsAllowReplay`). At any point of any run an accepted
  code is accepted again exactly when the new call's readings drift further apart than the old
  one's by more than the steps consumed since (`ReplayAcceptedExactlyWhen`); without drift it
  never is (`OneReadingNoReplay`).
* **The email index follows the user.** Clearing an email in `updateUser` leaves its entry
  (`ClearedEmailIsStillFound`); agreement is kept exactly by operations that collide with nobody
  and clear nothing (`AgreesExactlyWhen`).
* **A write leaves nothing stale in the cache.** A lookup whose read a write overtakes caches
  what it read, so a deleted user is answered until the time to live is over
  (`OvertakenReadOutlivesDeletion`). A lookup leaves a wrong answer behind exactly when it found
  a user that the file has lost or changed since the read (`CachesStaleExactlyWhen`); runs
  without such overtaking answer every lookup as a scan would (`LookupIsFreshScan`).
* **A logged event is flushed in time.** A failed write puts its batch back and arms nothing
  for it (`FailedWriteStrandsEvents`), and a slow external logger lets a timer fire over an
  empty buffer, after which logging arms none until a flush takes the buffer
  (`SlowExternalLoggerStrandsEvents`, `SpentUntilFlushed`). A run ends with events nothing will
  take exactly when one of these two happened and neither a log nor an explicit flush has come
  since (`StrandedExactlyWhen`); without an external logger only the first can
  (`OnlyFailuresStrandPromptLogs`).
* **An event is stored once, in log order.** A failed flush stores again what it had already
  stored (`FailureRepeatsAccepted`); an event is, or can without further failures come to be,
  stored twice exactly when some write threw after storage had taken part of its batch
  (`RepeatsExactlyWhen`). Overlapping flushes reorder (`OverlapReorders`): a second flush may at
  once store an event out of order exactly when the first still holds one never stored
  (`OverlapReordersExactlyWhen`), and runs without overlap never do (`FirstAcceptancesInLogOrder`).

## Model

| member | source | states |
|---|---|---|
| EnrollmentGate.RunningIsOneChain | src/storage/file-totp-enrollment.ts:448-483 | for every interleaving of root, nested, sibling and late calls, the operations started and not settled form one chain from a root to a leaf |
| EnrollmentGate.InactiveContextNeverRunsAgain | src/storage/file-totp-enrollment.ts:464-483 | once a context is inactive no step gives it another child, and the children it has stay settled |
| EnrollmentGate.NextRootWaitsForEveryChild | src/storage/file-totp-enrollment.ts:449-483 | a root starts only when everything called under earlier roots has settled, children appended while they drained included |
| EnrollmentGate.DrainedMeansEmpty | src/storage/file-totp-enrollment.ts:473-480 | the drain loop releases a context only when no child of it is unsettled |
| EnrollmentGate.ProcessGate.Call | src/storage/file-totp-enrollment.ts:449-462 | a call from an active context that is projecting is refused and changes nothing; otherwise the active caller's tail, or the gate's, is extended by the new operation |
| EnrollmentGate.ProcessGate.DrainTurn | src/storage/file-totp-enrollment.ts:473-480 | one turn of the loop: deactivate the context when its tail is still the one awaited |
| EnrollmentProgress.CallNests | src/storage/file-totp-enrollment.ts:449-462 | after any run a call becomes one waiting operation, a child of the caller's running or draining context and a root otherwise, linked to the latest operation called under the same parent |
| EnrollmentProgress.StartsExactlyWhen | src/storage/file-totp-enrollment.ts:454-461 | a waiting operation starts exactly when everything called before it under its parent has settled |
| EnrollmentProgress.DrainReleasesExactlyWhen | src/storage/file-totp-enrollment.ts:470-482 | two turns of the drain loop release a context exactly when all its children have settled, late ones included |
| EnrollmentProgress.NeverStuck | src/storage/file-totp-enrollment.ts:448-483 | after any run, while some operation has not settled, a start, finish, drain turn or settling changes the state |
| EnrollmentProgress.EverythingSettles | src/storage/file-totp-enrollment.ts:448-483 | without further calls every order of such steps settles everything after the same number of them, at most four an operation |
| EnrollmentSafety.NothingRunsOverACommit | src/storage/file-totp-enrollment.ts:464-483 | with failures and crashes anywhere, no gated operation starts while a committed record is on disk |
| EnrollmentSafety.OneCommitAtATime | src/storage/file-totp-enrollment.ts:614-622 | the whole directory holds at most one committed record, whatever a crash leaves |
| EnrollmentSafety.ProjectionIsFrozen | src/storage/file-totp-enrollment.ts:746-785 | every projection, also an only one, finds its material durably committed; all of one attempt get the same material, and no gated operation starts between the first and the last |
| EnrollmentSafety.OneWorker | src/storage/file-totp-enrollment.ts:765-785 | at most one recovery, begin or completion is at work in the gate |
| EnrollmentSafety.NothingStartsBesideAWorker | src/storage/file-totp-enrollment.ts:448-483 | nothing else starts while it is |
| EnrollmentCoordinator.FileTotpEnrollmentCoordinator.RecoverUnsafe | src/storage/file-totp-enrollment.ts:746-763 | it succeeds exactly when both syncs and the replay of every committed record do; then every committed record is its applied receipt, all others are as they were, everything is synced and the flag of its root is cleared, which otherwise stays |
| EnrollmentCoordinator.FileTotpEnrollmentCoordinator.ApplyCommitted | src/storage/file-totp-enrollment.ts:765-785 | one committed record is projected and then published as applied, or recovery stops |
| EnrollmentCoordinator.CallIsTaken | src/storage/file-totp-enrollment.ts:449-462 | a call without an active context is a new root that must recover; application code in an active context joins its root unless that is projecting |
| EnrollmentCoordinator.StartGoesOn | src/storage/file-totp-enrollment.ts:464-469 | an operation recovers first while its root must, and goes on otherwise |
| EnrollmentCoordinator.BeginPublishes | src/storage/file-totp-enrollment.ts:512-553 | a begin let through leaves a new durable pending attempt for its user and every other record |
| EnrollmentCoordinator.CompletePublishes | src/storage/file-totp-enrollment.ts:614-622 | a completion let through commits the pending attempt, projects it once over a durable commit, leaves its receipt and clears the flag |
| EnrollmentLedger.OneAttemptPerProof | src/storage/file-totp-enrollment.ts:489-553 | with a clock that never goes back, one primary proof yields setup for one attempt ever, although the ledger drops expired uses |
| EnrollmentLedger.BindingIsPermanentExactlyWhenOnDisk | src/storage/file-totp-enrollment.ts:489-505 | a shown setup is the proof's only one in every future exactly when every value on disk ties the proof to it |
| EnrollmentLedger.UnacknowledgedResumeCanRepeat | src/storage/file-totp-enrollment.ts:495-505 | a begin retried in the same gate entry after a failed directory sync, then a crash, lets the proof start a second attempt |
| EnrollmentLedger.ReplacementKeeps | src/storage/file-totp-enrollment.ts:506-543 | a record begin writes passes the record checks, keeps every live use and adds its own |
| EnrollmentLedger.HeldProofIsRefused | src/storage/file-totp-enrollment.ts:506-511 | a proof with a live use is never bound to a new attempt |
| EnrollmentLedger.RunRespectsBinding | src/storage/file-totp-enrollment.ts:489-553 | once every value on disk ties a proof to an attempt, no run ties it to another |
| EnrollmentLedger.ValidatePrimaryUses | src/storage/file-totp-enrollment.ts:295-309 | the ledger check accepts exactly the non-empty lists of at most 256 uses with distinct proofs and attempts that contain the current one |
| EnrollmentBegin.WritesExactlyWhen | src/storage/file-totp-enrollment.ts:489-543 | for both modes a record is written exactly when account, session and claims are admitted, no unfinished attempt is stored, onboarding finds no live use or a proof is not live and fewer than 256 are, and both ends of the new attempt are still to come |
| EnrollmentBegin.WrittenRecord | src/storage/file-totp-enrollment.ts:512-535 | it is pending for a new attempt and this proof, until the earlier of the configured time and the claims' end, with the live uses in order and its own |
| EnrollmentBegin.ResumesExactlyWhen | src/storage/file-totp-enrollment.ts:495-505 | a stored attempt is shown again exactly when it is unfinished, for the same proof or none, and everything holds again at disclosure |
| EnrollmentBegin.ShownExactlyWhen | src/storage/file-totp-enrollment.ts:495-553 | a setup is shown exactly on such a resumption, or when the new record is acknowledged and, for a proof, everything still holds at disclosure |
| EnrollmentBegin.ShownIsStored | src/storage/file-totp-enrollment.ts:495-553 | in every run what is shown is the pending record readers see and, for a proof, unexpired and proven at the last reading |
| EnrollmentBegin.FirstOnboarding | src/storage/file-totp-enrollment.ts:489-553 | a run from the empty journal in which a new administrator's request is written and shown |
| CanonicalInjective.ParserUndoesEncoder | src/storage/totp-retirement-material.ts:19-27 | a parser reads back from the encoded text the value up to key order and undefined fields |
| CanonicalInjective.EncodingIsInjective | src/storage/totp-retirement-material.ts:19-27 | two values have one encoding exactly when they are the same document |
| CanonicalInjective.SameDocumentSameText | src/storage/totp-retirement-material.ts:25-26 | key order and undefined fields never show in the text |
| CanonicalInjective.EncodedIsWellFormed | src/storage/totp-retirement-material.ts:28-30 | encoded text has no unpaired surrogate, so its UTF-8 bytes identify it |
| CanonicalInjective.EncodersAgreeOnPlainData | src/storage/file-totp-enrollment.ts:257-264 | the encoder without checks agrees with the checked one on data without undefined or non-finite values |
| CanonicalInjective.LaxIsInjective | src/storage/file-totp-enrollment.ts:257-264 | on what JSON.parse can return, two values have one text exactly when they are the same document |
| CanonicalForm.DecimalIsNumeral | src/storage/totp-retirement-material.ts:19-27 | a number is written as its one numeral, without leading zeros or a needless sign |
| CanonicalForm.NumeralIsUnique | src/storage/totp-retirement-material.ts:19-27 | there is one numeral for each number |
| CanonicalForm.EscapesAreStandard | src/storage/totp-retirement-material.ts:19-27 | quote, backslash and five controls have their short escapes, other controls and lone surrogates the long one, everything else stays |
| CanonicalForm.LongEscapeIsHex | src/storage/totp-retirement-material.ts:19-27 | the long escape has the four lower-case hexadecimal digits of the unit |
| CanonicalForm.EscapeSpreads | src/storage/totp-retirement-material.ts:19-27 | a string is escaped piece by piece, surrogate pairs being pieces |
| CanonicalForm.ObjectsAscend | src/storage/totp-retirement-material.ts:25-26 | fields are written in the order of their keys, unit by unit |
| JournalMaterial.NameEndsAtNul | src/storage/file-totp-enrollment.ts:266-289 | a domain ends at its NUL, so one hashed text has one domain and one document |
| JournalMaterial.EnrollmentIdentifies | src/storage/file-totp-enrollment.ts:266-271 | equal completion digests exactly for equal versions and equal documents |
| JournalMaterial.PrimaryIdentifies | src/storage/file-totp-enrollment.ts:286-289 | equal digests exactly for equal proof references and equal authorizations |
| JournalMaterial.BootstrapIdentifies | src/storage/file-bootstrap.ts:189-196 | equal completion digests exactly for equal documents, and never one of an enrollment |
| RetirementMaterial.PrefixEndsAtNul | src/storage/totp-retirement-material.ts:28-30 | the first NUL ends the domain, so one hashed text has one domain and one material |
| RetirementMaterial.DigestIdentifies | src/storage/totp-retirement-material.ts:28-30 | equal digests exactly for equal domains and equal documents |
| TotpRecords.GenerationIdentifies | src/storage/totp-retirement-material.ts:55-59 | equal generation digests exactly for factors equal up to their usage counters |
| TotpRecords.SnapshotIdentifies | src/storage/totp-retirement-material.ts:60-63 | equal snapshot digests exactly for equal factors |
| TotpRecords.RecoverySetIdentifies | src/storage/totp-retirement-material.ts:64-68 | equal recovery-set digests exactly for equal sets, use marks included; absence is its own |
| TotpRecords.AssertCodes | src/storage/totp-retirement-material.ts:41-54 | the code check accepts exactly at most 256 codes with distinct ids and distinct hashes |
| Principal.PrincipalIdentifies | src/storage/file-totp-retirement.ts:116-123 | equal principal digests exactly for accounts equal in all sixteen listed fields |
| RetirementSafety.OneCommitAtATime | src/storage/file-totp-retirement.ts:145-174 | at most one retirement is committed, now or after any crash |
| RetirementSafety.NoSessionOutlivesTheFactor | src/storage/file-totp-retirement.ts:214-233 | over any storage and any other work, if each decision starts when no crash can take its factor or flag away: from commit to receipt, a factor missing or switched off in any version a crash may leave means no version of the session file has a session of its user |
| RetirementSafety.GuardedExactlyWhenAcknowledged | src/storage/file-totp-retirement.ts:145-233 | a decision that reaches its commit keeps that, wherever it is interrupted, exactly when no crash can take the factor or its flag away as it starts |
| RetirementSafety.OnlyFrozenMaterialGoes | src/storage/file-totp-retirement.ts:214-248 | every credential ever unlinked is exactly the one frozen by its receipt's commit, with no live change in between |
| RetirementSafety.OneGenerationPerReceipt | src/storage/file-totp-retirement.ts:161-174 | over all runs and restarts one receipt deletes one factor |
| RetirementSafety.ReceiptsAreForever | src/storage/file-totp-retirement.ts:177-186 | an issued receipt is durable at once and every later lookup returns it, whatever follows |
| RetirementEntry.CurrentExactly | src/storage/file-totp-retirement.ts:187-213 | the current authority is exactly: the sole account with the id or the handle, with both, active, unlocked, past onboarding and first login, not removed, of an admin role, its factor switched on; its factor and codes; and a live stored session of it |
| RetirementEntry.BeginsExactlyWhen | src/storage/file-totp-retirement.ts:145-148 | the callback is asked with exactly that, and not at all without it |
| RetirementEntry.CommitsExactlyWhen | src/storage/file-totp-retirement.ts:145-172 | with a journal that can be written a receipt is committed exactly when its proof was consumed for this user, such an authority holds, nothing covered by the check changed but usage moving forward, it was never committed, the journal has room and the session is live; otherwise nothing changes |
| RetirementEntry.CommitFreezesCurrent | src/storage/file-totp-retirement.ts:161-172 | the commit names, and freezes, the factor and codes stored at that moment |
| RetirementEntry.EveryCommitIsAuthorized | src/storage/file-totp-retirement.ts:145-172 | over every run a receipt gets its first record only by such a decision |
| RetirementEntry.RetiresExactlyWhen | src/storage/file-totp-retirement.ts:145-240 | without failures the answer is a receipt exactly then, with its operation, user, generation and times, and nothing of the factor, codes or sessions is left |
| RetirementEntry.ReadsExactlyWhen | src/storage/file-totp-retirement.ts:177-186 | a lookup answers exactly with the applied record of the receipt, to its own user |
| RetirementEntry.ClearsOnlyOne | src/storage/file.ts:495-505 | clearing the flags changes the first account with the id and nothing else of it |
| RetirementSafety.AuthorizedMeansUnchanged | src/storage/file-totp-retirement.ts:155-160 | the comparison of digests is equality of account, session time, factor generation and codes, with usage moving forward |
| RetirementSafety.UsedReceiptIsRefused | src/storage/file-totp-retirement.ts:163-164 | in every run a receipt that ever deleted a factor or codes, or was ever answered, is refused and changes neither storage nor journal |
| RetirementSafety.ApplyKeepsInv | src/storage/file-totp-retirement.ts:214-240 | wherever apply stops the invariant holds, and when it answers nothing of the factor is left for a crash to bring back |
| RetirementRecovery.AppliesExactlyWhen | src/storage/file-totp-retirement.ts:217-239 | without failures apply answers exactly when its first checks pass on a valid session store |
| RetirementRecovery.RecoversExactlyWhen | src/storage/file-totp-retirement.ts:214-248 | a recovery without failures of a durable commit succeeds after every crash exactly when every version of every file on disk is one the commit accepts |
| RetirementRecovery.UnacknowledgedUseBlocksRecovery | src/storage/file-totp-retirement.ts:217-248 | a run from the empty journal: a retirement commits over an unsynced usage counter, the crash brings the older one back, and whatever follows the commit stays and the coordinator is never ready |
| RetirementRecovery.InterruptibleExists | src/storage/file-totp-retirement.ts:217-223 | storage with such a counter and a retirement that passes every check exist |
| RetirementRecovery.RecoveryConverges | src/storage/file-totp-retirement.ts:214-248 | after any crashes and failed recoveries, one recovery without failures ends with no factor, no codes, no sessions, cleared flags, and everything else as it was |
| RetirementCoordinator.FileStorage.RevokeSessions | src/storage/file.ts:421-427 | a valid store loses exactly the user's sessions, a malformed one is left |
| RetirementCoordinator.FileStorage.DeleteTOTPSecretExpected | src/storage/file.ts:476-483 | unlink only the factor with the expected snapshot, and sync even when it is gone |
| RetirementCoordinator.FileStorage.DeleteBackupCodesExpected | src/storage/file.ts:485-492 | the same for recovery codes, refusing any when none are expected |
| RetirementCoordinator.FileStorage.ClearTotpFlagsExpected | src/storage/file.ts:495-505 | only the flags of the one consistent owner change |
| RetirementCoordinator.FileTotpRetirementCoordinator.Apply | src/storage/file-totp-retirement.ts:214-240 | the four effects and the receipt, each after the one before is acknowledged |
| RetirementCoordinator.FileTotpRetirementCoordinator.RecoverUnsafe | src/storage/file-totp-retirement.ts:241-248 | the loop over the journal redoes each committed record and stops at the first failure |
| RetirementCoordinator.FileTotpRetirementCoordinator.Decide | src/storage/file-totp-retirement.ts:149-173 | from the callback's decision to the receipt, in the order of the checks |
| BootstrapSafety.OneCompletionProjected | src/storage/file-bootstrap.ts:370-416 | over any run the projection callback is given one completion only |
| BootstrapSafety.ProjectedAsBegunAndAcknowledged | src/storage/file-bootstrap.ts:358-416 | it carries the id, password hash, handle and hashed codes its attempt generated, and the attempt was acknowledged under its own reference |
| BootstrapSafety.ReservationsNeverChange | src/storage/file-bootstrap.ts:345-368 | profile and acknowledgment updates leave id, secret, codes and expiry as generated |
| BootstrapSafety.NoSecondBootstrap | src/storage/file-bootstrap.ts:299-343 | once only a commit or its receipt is on disk, no begin, read, update or acknowledgment succeeds again, whatever happens to storage |
| BootstrapSafety.ProjectedIsLatched | src/storage/file-bootstrap.ts:411-413 | projection starts only when a crash can leave nothing but the commit |
| BootstrapEntry.BeginsExactlyWhen | src/storage/file-bootstrap.ts:308-333 | an attempt is set up exactly when no record or only an expired one stands, the installation is untouched and free, ten distinct codes and a lifetime of at most ten minutes are given, and all holds in time around the publication |
| BootstrapEntry.ReadsExactlyWhen | src/storage/file-bootstrap.ts:335-343 | exactly the attempt of the presented reference is shown, in time over an untouched installation |
| BootstrapEntry.UpdatesExactlyWhen | src/storage/file-bootstrap.ts:345-355 | an update is noted exactly when it finds such an attempt and publishes it, with the profile changed and nothing else |
| BootstrapEntry.AcknowledgesExactlyWhen | src/storage/file-bootstrap.ts:358-368 | likewise an acknowledgment, or at once when there was one before |
| BootstrapEntry.CompletesExactlyWhen | src/storage/file-bootstrap.ts:370-414 | a reserved attempt is committed exactly when it is found and acknowledged, the proof is verified, its ten code ids differ, the names are free, the installation is untouched and all clocks are in time |
| BootstrapEntry.RepeatsReceiptExactlyWhen | src/storage/file-bootstrap.ts:370-374 | after completion exactly the attempt's reference gets the same receipt |
| BootstrapEntry.ProjectedWasProven | src/storage/file-bootstrap.ts:370-416 | whatever a run projects, one of its steps completed the record then seen, acknowledged and under the presented reference, with a verified proof whose step, cipher, code ids and time it carries |
| BootstrapEntry.LastProfileIsProjected | src/storage/file-bootstrap.ts:345-397 | an acknowledged profile is the projected one unless an update came after it |
| BootstrapEntry.CompletingCodeIsRefusedExactlyWhen | src/storage/file-bootstrap.ts:383-397 | the completing code is refused by the projected factor exactly when the later call's readings drift no further than the completing call's |
| BootstrapEntry.CompletionInstalls | src/storage/file-bootstrap.ts:370-416 | without failures the answer is the receipt for what was completed and the installation holds it for good |
| BootstrapEntry.ProjectionPlaces | src/storage/file-bootstrap.ts:484-495 | a projection that gets through has placed factor, codes, profile and account in their own files and nowhere else |
| BootstrapEntry.ChecksExactlyWhen | src/storage/file-bootstrap.ts:459-483 | the check passes exactly on an installation that is empty or part of the frozen one, used codes and later steps allowed, and in the end on all of it |
| BootstrapEntry.AppliesExactlyWhen | src/storage/file-bootstrap.ts:484-495 | over anything else nothing is written, and the answer follows exactly when every write and the last check succeed |
| BootstrapRecovery.PrefixAccepted | src/storage/file-bootstrap.ts:459-483 | the projection check accepts every prefix of a projection, used codes and later steps included |
| BootstrapRecovery.ProjectKeepsPrefix | src/storage/file-bootstrap.ts:484-495 | wherever the projection stops or a crash cuts it, a prefix is left; when it gets through, the frozen account |
| BootstrapRecovery.BootstrapConverges | src/storage/file-bootstrap.ts:447-495 | after a durable commit and any crashes, failed recoveries and uses, one recovery without failures ends applied with exactly the frozen account |
| BootstrapRecovery.UseIsNeverUndone | src/storage/file-bootstrap.ts:464-495 | once durable, no crash, replay or later use lowers the stored step or unsets a used code |
| BootstrapCoordinator.FileBootstrapCoordinator.RecoverUnsafe | src/storage/file-bootstrap.ts:447-457 | nothing without a record, otherwise sync and apply a commit |
| BootstrapCoordinator.FileBootstrapCoordinator.Begin | src/storage/file-bootstrap.ts:299-333 | reserve when the record is absent or expired and the installation is empty before and after publication |
| BootstrapCoordinator.FileBootstrapCoordinator.Complete | src/storage/file-bootstrap.ts:370-416 | the historical receipt for the right reference, or verification, commit and projection of the acknowledged attempt |
| StepUp.BindingIsExact | src/storage/action-step-up.ts:443-460 | a challenge issued for one binding matches that binding and no other |
| StepUpEntry.IdentityIsExact | src/storage/action-step-up.ts:443-448 | a challenge issued for one binding matches that identity and no other |
| StepUpEntry.PermitsExactlyWhen | src/storage/action-step-up.ts:246-275 | a permit is returned, new and ending with the challenge, exactly when the challenge is pending with tries left, asked about by its own identity in time, the factor says yes and the write is acknowledged in time |
| StepUpEntry.CountsExactlyWhen | src/storage/action-step-up.ts:259-267 | a false answer is counted exactly for such a challenge, and recorded exactly when it also comes in time and is acknowledged |
| StepUpEntry.ReceiptsExactlyWhen | src/storage/action-step-up.ts:278-300 | a receipt is returned exactly for the issued binding and the verified permit, in time and acknowledged |
| StepUpEntry.ChallengesExactlyWhen | src/storage/action-step-up.ts:220-243 | a challenge is returned, new and for this binding and lifetime, exactly when pruning comes to its end with room left and the write is acknowledged in time |
| StepUpEntry.PrunesExactly | src/storage/action-step-up.ts:386-436 | a pass unlinks the names it has come to and found expired and no others |
| StepUpEntry.OnlyOwnIdentityCounts | src/storage/action-step-up.ts:246-300 | over every run a permit, a counted false answer and a receipt come only from calls that present what was fixed at issue |
| StepUp.JsonIdentifies | src/storage/action-step-up.ts:318-320 | the text digested for identity and binding identifies the list of strings |
| StepUpSafety.SingleUse | src/storage/action-step-up.ts:246-300 | across stores, calls and crashes each challenge returns at most one permit and at most one receipt |
| StepUpSafety.ReceiptIsExact | src/storage/action-step-up.ts:278-300 | a receipt carries the binding fixed at issue and the permit returned by its verify |
| StepUpSafety.ReturnedIsDurable | src/storage/action-step-up.ts:333-384 | a record a crash may leave under a returned permit or receipt shows it as used, and every crash leaves one until a pruning pass reads, for that name, a time at or after its end |
| StepUpSafety.LifetimeIsFixed | src/storage/action-step-up.ts:226-238 | every record keeps the creation and expiry of its issue and passes the record checks |
| StepUpSafety.RecordedFailuresStayInBudget | src/storage/action-step-up.ts:259-267 | under any clock and any failed writes, a factor check answers false only while the recorded failures are below the budget |
| StepUpSafety.FailureBudget | src/storage/action-step-up.ts:259-267 | with a clock that never goes back and no failed writes, at most the budget of factor checks answer false and none follows |
| StepUpSafety.StepStaysCounted | src/storage/action-step-up.ts:143-176 | in such runs every false answer is on record, except one given as the challenge expired, and the store never builds a record it refuses |
| StepUpCapacity.CapacityHolds | src/storage/action-step-up.ts:222-225 | the directory never holds more records than the largest limit of the stores that issue into it |
| StepUpCapacity.LiveIsOccupancy | src/storage/action-step-up.ts:386-436 | a completed pruning pass counts at least every name that may still hold a record |
| StepUpStore.StepUpDirectory.PruneExpired | src/storage/action-step-up.ts:386-436 | the loop unlinks exactly what its clock finds expired and syncs once if it removed anything |
| StepUpStore.FileActionStepUpStore.Issue | src/storage/action-step-up.ts:220-243 | sync, prune, capacity check, publish, and a challenge only if still live |
| StepUpStore.FileActionStepUpStore.Verify | src/storage/action-step-up.ts:246-275 | the checks in order, a counted failure or one permit |
| StepUpStore.FileActionStepUpStore.Consume | src/storage/action-step-up.ts:278-300 | the checks in order and one receipt, durable before it returns |
| SessionPolicy.AssertStoredSessions | src/storage/session-policy.ts:12-24 | the check accepts exactly stores whose sessions are well kept and whose ids differ |
| SessionPolicy.SortByAge | src/storage/session-policy.ts:33-34 | the array ends in age order, in place |
| SessionPolicy.BoundedSessions | src/storage/session-policy.ts:27-37 | refuses an invalid policy or store, otherwise others, the kept, the new one |
| SessionPolicy.KeepsTheYoungest | src/storage/session-policy.ts:32-35 | kept are exactly the user's live sessions with fewer than cap - 1 younger ones, oldest first |
| SessionPolicy.OthersStay | src/storage/session-policy.ts:36 | other users' sessions stay unchanged and in order |
| SessionPolicy.BoundedIsStored | src/storage/session-policy.ts:27-37 | ids stay unique and the user's count is at most the cap |
| SessionPolicy.StoredOrderDoesNotMatter | src/storage/session-policy.ts:33-35 | what is kept does not depend on the stored order |
| PromiseQueue.Linearized | src/storage/file.ts:46-56 | any interleaving, failed calls and map clean-up included, leaves the file and answers every call as running them one by one in order of arrival |
| PromiseQueue.MutualExclusion | src/storage/action-step-up.ts:179-190 | one operation of a queue is under way at a time, all earlier ones having settled |
| PromiseQueue.NeverStuck | src/storage/file.ts:46-56 | while a call is unsettled the first such call runs and settles when it finishes, or runs when it starts |
| PromiseQueue.ArrivesLast | src/storage/file.ts:46-56 | a call joins at the end, waiting |
| PromiseQueue.TurnExactly | src/storage/file.ts:156-167 | what throws changes nothing, a write changes the file once renamed and answers once acknowledged |
| FileSessions.SessionFile.Mutate | src/storage/file.ts:156-167 | one read, one array operation, one checked write |
| SessionEffects.CreatesExactly | src/storage/file.ts:374-398 | a create adds the session exactly when it is proper and its id free |
| SessionEffects.BoundsExactly | src/storage/file.ts:355-372 | a bounded create keeps everyone else's sessions in order, then the user's live ones with fewer than cap - 1 younger, oldest first, then the new one, or throws exactly on an invalid policy, a malformed session or a taken id |
| SessionEffects.UpdatesExactly | src/storage/file.ts:403-410 | an update sets the named fields of the one session and leaves all else, and throws exactly when there is none or the result may not be stored |
| SessionEffects.DeletesExactly | src/storage/file.ts:412-419 | a delete takes out the session with the id and no other, and says whether there was one |
| SessionEffects.RevokesExactly | src/storage/file.ts:421-427 | revoking takes out all of a user's sessions and nobody else's, and counts them |
| SessionEffects.CleansExactly | src/storage/file.ts:434-441 | the cleanup takes out what has expired by its clock and nothing else |
| FileSessions.DeletedNeverReappears | src/storage/file.ts:403-419 | once a deletion has answered, the session is in no later answer and not in the file, unless a later call names its id |
| FileSessions.CapHolds | src/storage/file.ts:355-401 | when a user's creates are bounded and updates move no session, the file never exceeds the cap, however calls race |
| MemoryUsers.AgreesExactlyWhen | src/storage/memory.ts:77-135 | an operation keeps both indexes in one-to-one agreement exactly when it collides with nobody and clears nothing |
| MemoryUsers.LookupIsScan | src/storage/memory.ts:61-71 | after any such run an indexed lookup is the scan for the user matching whatever the case |
| MemoryUsers.ClearedEmailIsStillFound | src/storage/memory.ts:101-106 | clearing an email leaves the user found by the old one |
| MemoryUsers.UpdateSets | src/storage/memory.ts:90-117 | an update sets what it names and keeps the rest, and rekeys an index exactly for a new handle or email that is not empty and differs |
| MemoryUsers.CreateSets | src/storage/memory.ts:77-88 | a create adds the user under its handle and, when it has one, its email |
| MemoryUsers.DeleteSets | src/storage/memory.ts:119-127 | a delete takes out the user and its two keys and nothing else |
| MemoryUsers.MemoryStorageAdapter.CreateUser | src/storage/memory.ts:77-88 | the three maps after a create |
| MemoryUsers.MemoryStorageAdapter.UpdateUser | src/storage/memory.ts:90-117 | the three maps after an update, none without the user |
| MemoryUsers.MemoryStorageAdapter.DeleteUser | src/storage/memory.ts:119-127 | the three maps after a delete |
| TotpReplay.StepsIncrease | src/core/totp/index.ts:198-206 | consumed steps strictly increase under any clock |
| TotpReplay.AcceptanceIsBounded | src/core/totp/index.ts:172-210 | while the clock stays in steps a to b at most b - a + 1 + 2 * window codes are accepted |
| TotpReplay.OneReadingNoReplay | src/core/totp/index.ts:172-210 | while no call's two readings fall in different steps no step's code is accepted twice |
| TotpReplay.ReplayNeedsDrift | src/core/totp/index.ts:172-210 | in any run a code accepted twice drifted further the second time, by a step at least for every code accepted since |
| TotpReplay.ReplayAcceptedExactlyWhen | src/core/totp/index.ts:178-203 | after any run, the code of any earlier acceptance is accepted again exactly when the new call's readings drift further than that one's did by more than the steps consumed since |
| TotpReplay.TwoReadingsAllowReplay | src/core/totp/index.ts:50-53 | a code sent twice in the last instant of its step is accepted twice |
| TotpReplay.TotpFactor.VerifyTokenWithStep | src/core/totp/index.ts:172-210 | the returned step is stored and only a later one is accepted |
| UserCache.LookupIsFreshScan | src/admin-user-repository/repository.ts:94-189 | with one writer and no write between a lookup's read and its caching, a lookup answers exactly when the file can be read or the entry is fresh, and then with the scan of the file now, also after writes that failed |
| UserCache.ScanIs | src/admin-user-repository/repository.ts:64-189 | a scan finds the first active user with the handle or username, or the user with the id, the federation flag made a boolean |
| UserCache.WritesClear | src/admin-user-repository/repository.ts:94-131 | a write clears the cache however it ends, and leaves the file when it was not renamed |
| UserCache.UpdateWrites | src/admin-user-repository/repository.ts:356-375 | an update changes the first user with the id as asked, with a new stamp, and nobody else |
| UserCache.DeleteWrites | src/admin-user-repository/repository.ts:384-395 | a permanent delete takes out the first user with the id and nobody else |
| UserCache.CreateWrites | src/admin-user-repository/repository.ts:260-303 | a create adds its user at the end exactly when nobody has the handle, as handle or username |
| UserCache.CachesStaleExactlyWhen | src/admin-user-repository/repository.ts:136-189 | a lookup caches a wrong answer exactly when it found a user the file has lost or changed since the read |
| UserCache.OvertakenReadOutlivesDeletion | src/admin-user-repository/repository.ts:384-395 | a user deleted while a lookup reads is answered until the time to live is over |
| UserCache.CachedAnswerIsRecent | src/admin-user-repository/repository.ts:136-189 | with other writers a cached answer is what a read found, cached less than the time to live ago and after this repository's last write; the read began at most its own length before that |
| UserCache.SlowReadOutlivesTtl | src/admin-user-repository/repository.ts:152 | the age of the read itself is not bounded by the time to live: the stamp is taken when the read is over |
| UserCache.AdminUserRepository.FindBy | src/admin-user-repository/repository.ts:136-189 | the cached answer while fresh, otherwise the first match, which is then cached |
| UserCache.AdminUserRepository.WriteUsers | src/admin-user-repository/repository.ts:94-131 | the cache is cleared however the write ends |
| UserCache.AdminUserRepository.CreateUser | src/admin-user-repository/repository.ts:260-303 | succeeds exactly when the file is readable, the handle free and the write acknowledged; then the file is the old one and the user |
| UserCache.AdminUserRepository.UpdateUser | src/admin-user-repository/repository.ts:356-375 | succeeds exactly when the user is there, the file readable and the write acknowledged; the first user with the id is replaced by the one returned |
| UserCache.AdminUserRepository.DeletePermanently | src/admin-user-repository/repository.ts:384-395 | false exactly for an unknown id in a readable file, true exactly when the first user with the id is removed and the write acknowledged |
| AuditBuffer.EveryEventIsAccountedFor | src/modules/audit/index.ts:50-123 | whatever writes fail and however flushes overlap, an event occurs among what is accepted, ahead in flights and buffered once, and once more for each time a failed write repeated it |
| AuditBuffer.NothingIsLost | src/modules/audit/index.ts:50-123 | every event is accepted, still to be written by a flush in flight, or in the buffer |
| AuditBuffer.RepeatsExactlyWhen | src/modules/audit/index.ts:103-123 | an event is, or can without further failures come to be, stored twice exactly when some write threw after storage had taken part of its batch |
| AuditBuffer.FirstAcceptancesInLogOrder | src/modules/audit/index.ts:103-123 | while flushes do not overlap, first acceptances are the log's events in order, none left out |
| AuditBuffer.OverlapReordersExactlyWhen | src/modules/audit/index.ts:103-117 | with one flush in flight and events behind it, a second flush may at once store out of order exactly when the first still holds an event never stored |
| AuditBuffer.OverlapReorders | src/modules/audit/index.ts:103-117 | a run in which overlapping flushes store the second event first |
| AuditBuffer.FailureRepeatsAccepted | src/modules/audit/index.ts:118-122 | a run in which a failed write makes storage take the first event twice |
| AuditBuffer.StrandedExactlyWhen | src/modules/audit/index.ts:76-122 | a run ends with events that no timer and no log under way will take exactly when a write failed with neither, or the last log returned over a fired timer, and no log or explicit flush has come since |
| AuditBuffer.OnlyFailuresStrandPromptLogs | src/modules/audit/index.ts:76-122 | without an external logger that happens exactly after a failed write |
| AuditBuffer.FailedWriteStrandsEvents | src/modules/audit/index.ts:109-121 | a critical event whose write fails waits in the buffer with no timer |
| AuditBuffer.SpentUntilFlushed | src/modules/audit/index.ts:90-112 | in any run a fired timer that was not cleared stays useless until a flush takes the buffer |
| AuditBuffer.SlowExternalLoggerStrandsEvents | src/modules/audit/index.ts:81-97 | a slow external logger can leave an event in the buffer with no timer to flush it |
| AuditBuffer.AuditLogger.Flush | src/modules/audit/index.ts:103-123 | writes up to the first failure; storage gains exactly what it took, and a failure puts the whole batch back |

## Left out

- Real cryptography, otplib, bcrypt and QR rendering: foreign libraries. The distance a TOTP check reports is an input within the window.
- Symbolic links, inodes, modes, ancestor checks, file size limits and leftover temporary files: operating-system behaviour. A temporary file has no authority in any journal.
- Field-by-field shape validators, regular expressions and date texts: records are typed values and times are instants; only the relational checks are modelled.
- Inside the enrollment and bootstrap protocols a completion stands for its own digest; that the digest identifies it is proved in `JournalMaterial`.
- Numbers other than integers in the encoder: a finite fraction's text is the JavaScript engine's.
- Object freezing, prototype defence and binding the trusted TOTP service: JavaScript runtime behaviour.
- `withFileLock` and the unqueued user, invitation and audit writes of the file adapter: the code gives them no full serialization. Retirement's flag write is modelled under the exclusive gate.
- Overlapping writes of one `AdminUserRepository`: its callers own their serialization, so each read-modify-write is one step; lookups overlap freely.
- Rotation of the signing or encryption key between writes and reads: a journal sealed under another key is refused, which the model shows as a read or recovery that fails.
- The reads inside `loadCurrent` and the principal and session checks of enrollment: one input of each request says whether they pass.
- Other file names in the promise queues: entries of the two maps for different names never meet, so one name is modelled.
- Session, credential and invitation maps of the in-memory adapter, GitHub linking, public projections and audit queries: they add only easy members.
- SvelteKit adapters, cookies, CSRF, mTLS, credential cards, role tables, the fixed-tenant wrapper, invitations, backup-code checking, activity tracking and the legacy bootstrap service: framework glue or thin delegation.
- EnrollmentSafety.ProjectionIsFrozen: the projection callback's own writes are not modelled; that replay overwrites no later change rests on no gated operation starting in between.
- RetirementSafety.NoSessionOutlivesTheFactor: is for runs whose decisions start when no crash can take the factor or its flag away, as a finished enrollment leaves them; `GuardedExactlyWhenAcknowledged` shows the condition is exact.
- BootstrapRecovery.BootstrapConverges: the projection callback is taken to acknowledge each record it finds as well as each it writes, the durable reading of its contract.
- FileSessions.DeletedNeverReappears: is about what readers see; crashes of the session file itself are covered only through the outcome of each write.
