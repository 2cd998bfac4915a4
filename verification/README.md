# Durable erasure, export and restore

This project models the parts of the Telegram user-bot that must hold over every interleaving,
crash and restore: the export lease protocol and its race with erasure, the restore gate with its
independent erasure ledger, the one-way erasure guards in the database, the evidence chain of a
restore run, the generation retry loop, the prepared-run cache and the membership byte encoding.

Each database transaction, each statement of a process between two shared effects, and each
segment of a coroutine between two await points is one atomic step. A run is any sequence of
steps; a step that is not enabled, a rejected write and a failed command change nothing. Clocks,
cryptography, the language's own JSON, date and number readers, and the outcome of foreign calls
are parameters; where an assumption about them is needed it is a named predicate (`Faithful`,
`Injective`, `NoCollision`, `Sha256Sized`).

## Files

| file | what it holds |
|---|---|
| `Basics.dfy` | options, results, bytes, identifiers |
| `ExportRows.dfy`, `ExportRowLaws.dfy` | the export table: claim, renewal, completion, failure, revocation, cleanup, the trigger, the domain shape |
| `ExportProtocol.dfy`, `ExportSafety.dfy`, `ExportSteps.dfy`, `ExportCleanup.dfy`, `ExportRuns.dfy`, `ExportTidy.dfy`, `ExportLeases.dfy`, `ExportProgress.dfy` | exporters, cleaners, erasures and crashes as steps; the joint invariant; the theorems over runs: safety, files that are gone, leases and fences, and what undisturbed processes achieve |
| `ExportTable.dfy` | the same operations as classes with loops: table, lease guard, staging directory, cleanup |
| `ArtifactNames.dfy` | how artifact file names are spelled and which names cleanup takes |
| `Hex.dfy`, `Ledger.dfy`, `LedgerLaws.dfy`, `LedgerHistory.dfy`, `HistoryLaws.dfy` | base 16 and identifiers as text; printing and loading the ledger; exports and replicas over time; the contract of each command written out |
| `RestoreGate.dfy`, `RestoreLaws.dfy`, `RestoreRuns.dfy`, `RestoreStore.dfy` | the gate's transactions and exactly when each succeeds; runs in which the database is replaced by an earlier state of itself; the commands as loops |
| `RestoreEvidence.dfy`, `EvidenceLaws.dfy` | the stage log of a restore run, its digest chain and its verdict |
| `PayloadGuard.dfy`, `PayloadRuns.dfy`, `PayloadLaws.dfy` | scope resolution and the guard of migration 0030; histories of rows and of the whole database; what blocks a row and what the guard decides |
| `MetadataGuard.dfy`, `MetadataRuns.dfy`, `MetadataLaws.dfy`, `MetadataRedaction.dfy`, `RedactionLaws.dfy` | owner resolution and the guard of migrations 0032, 0034 and 0036; row histories; redacting a scope; owners, decisions and redacted rows written out |
| `MediaObjects.dfy`, `MediaLaws.dfy`, `MediaLife.dfy` | the media guards of migration 0033 and what they decide; families, object histories and the live-media query of 0034 |
| `GenerationRetry.dfy`, `GenerationLaws.dfy` | the model-call loop of one turn and the dispatch of its messages; which calls are made and how a turn ends, by what it meets |
| `PreparedCache.dfy`, `CacheLaws.dfy` | the bounded cache of prepared runs under interleaving; hits, evictions and progress |
| `MembershipClaim.dfy` | the bytes under a turn's membership fingerprint |

## Where the code falls short of its own description

The code is modelled as it is. Six statements in its comments, or expected of it, fail; each has
a lemma with the exact condition, and a concrete run.

- *A healthy exporter renews its lease* (comment at deploy/ops/data_export.py:1117). Nothing
  renews between the two fences, because the first one joins the renewer thread:
  `ExportLeases.EncryptionMustFitTheLease` says exactly when the second fence is granted, and
  `ExportLeases.LoneExportIsLost` is a run that loses its claim with nobody interfering. Safety
  does not depend on it.
- *A claimed row's lease ends after its creation* (the domain record, not the table). It fails
  exactly while the last claim or renewal that set the lease read a clock at least a lease
  behind the row's creation: `ExportLeases.DomainShapeExactly`, with `ExportRowLaws.ClaimShape`
  and `ExportRowLaws.RenewShape` for the two statements; `ExportLeases.LateClaimLeavesDomainShape`
  is such a run.
- *An erased job is never runnable*. The guard accepts an erasing update that leaves the job
  pending (`MetadataRuns.ErasingWriteMayLeaveJobPending`); such a job can run exactly until the
  next write to its row (`MetadataRuns.ErasedWorkRunsExactly`). The redactor never writes one.
- *A failed restore leaves no usable database behind* (comment at deploy/ops/run_restore.py:825).
  `RestoreEvidence.FailedRunLeavesGateOpenExactly` says exactly when the gate is open, counting
  the gate a backup brings along and commands that fail after taking effect;
  `RestoreEvidence.EarlyFailureKeepsTheBackupsGate` is such a run.
- *A turn that ends in an exception is not settled*. Dispatching the messages of a completed turn
  may raise after the completion is stored, and a cancellation may cut off the final stopping of
  the typing feedback after anything is stored: `GenerationRetry.ReportIsLastEvent` says exactly
  when, and `GenerationRetry.SettledTurnsPropagate` has a turn of each kind.
- *Invalidating a profile drops its prepared secrets*. A preparation in flight survives:
  `PreparedCache.InvalidationMissesPreparationInFlight`. An invalidation takes effect for good
  exactly when no run bound to the profile is being prepared:
  `PreparedCache.ReachedInvalidationHoldsExactly`.

A restored database must be closed again before its evidence means anything; without that the gate
opens on evidence from before the restore (`RestoreRuns.UnclosedRestoreTrustsOldEvidence`), with it
never (`RestoreRuns.OpenNeedsFreshEvidence`).

## Model

| member | source | states |
|---|---|---|
| `ExportRuns.CleanedForever` | deploy/ops/data_export.py:967-1038 | in every run of any number of exporters, cleaners, erasures, crashes and clocks, once erasure_cleaned_at is set it stays, and no temporary or final file of that request exists in any later state |
| `ExportRuns.CompletedIsFetchable` | deploy/ops/data_export.py:870-964 | in every reachable state a completed, unexpired, unrevoked export has its final file, named by the row's attempt_count and hashing to artifact_sha256, whatever lost attempts and cleaners unlink |
| `ExportRuns.OutcomeIsFinal` | deploy/ops/data_export.py:822-867 | over any run a changed row has a higher version, attempts never fall, and a finished row keeps state, attempt, digest and completion time, so a request completes at most once |
| `ExportRuns.OutdatedFenceIsHarmless` | deploy/ops/data_export.py:361-388 | with a version read before the row moved, a renewal, completion or failure by any owner at any time changes nothing and reports the loss |
| `ExportRuns.LastClaimerCompletes` | deploy/ops/data_export.py:307-358 | the attempt that completes is the row's latest, and every other exporter of that request, alive or not, has an older one |
| `ExportRuns.RowsStayInShape` | src/telegram_userbot/domain/data_export.py:103-149 | every reachable row has the per-state shape of the domain record, field by field, but for the lease clause, which `ExportLeases.DomainShapeExactly` decides; artifacts are deleted not before completion and completion is strictly before expiry |
| `ExportLeases.DomainShapeExactly` | src/telegram_userbot/domain/data_export.py:118-127 | every reachable claimed row has the lease of the last claim or renewal that changed it, and is in the domain's shape exactly when the clock that step read was less than a lease behind the row's creation; all other reachable rows always are |
| `ExportLeases.LateClaimLeavesDomainShape` | src/telegram_userbot/domain/data_export.py:118-127 | a run from the initial state in which a claim by a clock one lease behind the row's creation commits and leaves the row outside the domain's shape |
| `ExportRuns.ErasureReachesEveryExport` | alembic/versions/0031_scope_export_budget.py:95-128 | in every reachable state no export in the scope of an inserted erasure request is requested or claimed or owned, and all are marked revoked |
| `ExportLeases.SecondFenceExactly` | deploy/ops/data_export.py:361-388 | in every run an exporter that has published gets its second fence exactly when the row still has the version of its fence, the clock is before lease and expiry, and no erasure blocks the scope |
| `ExportLeases.EncryptionMustFitTheLease` | deploy/ops/data_export.py:489-505 | between the two fences nothing renews: the second is granted exactly when the row is the one the first fence left and the clock is before the lease that row had then |
| `ExportLeases.LoneExportIsLost` | deploy/ops/data_export.py:489-505 | a run from the initial state with one request, one exporter, no erasure and no fault in which the export publishes and then loses its claim |
| `ExportLeases.FenceUnmovedWhileWriting` | deploy/ops/data_export.py:600-669 | from the first fence to the end of the encryption an exporter keeps its fence and cannot go back |
| `ExportRuns.StepKeeps` | deploy/ops/data_export.py:870-1153 | every atomic step of every process keeps the joint invariant over rows, files, locks, attempts and clock, and only advances the table |
| `ExportTidy.RecordedDeletionIsReal` | deploy/ops/data_export.py:1057-1113 | in every reachable state an artifact recorded as deleted is not in the staging directory |
| `ExportTidy.GivingUpLeavesNothing` | deploy/ops/data_export.py:870-964 | in every run an exporter that has given up, whatever stopped it, has left neither its temporary nor its final file; what stands under its final name belongs to the row it completed |
| `ExportProgress.UndisturbedExportCompletes` | deploy/ops/data_export.py:870-964 | in every reachable state a due request of an open scope whose lock is free is completed by an exporter that nobody disturbs and whose steps each come before the lease of the one before: the row holds the digest of what was written, the final file holds that content, and nothing else has changed |
| `ExportProgress.ExpiredArtifactIsDeleted` | deploy/ops/data_export.py:1085-1113 | in every reachable state an expired artifact with the recorded digest is deleted and recorded as deleted at the cleaner's time; with another digest nothing changes |
| `ExportProgress.ErasedRequestIsEmptied` | deploy/ops/data_export.py:967-1038 | in every reachable state a revoked request whose lock is free ends with no name of it left, all other names as they were, and the acknowledgement on its row |
| `ExportProgress.StaleTemporaryIsDeleted` | deploy/ops/data_export.py:1041-1082 | a stale temporary file goes, and nothing else, when its request's lock is free; otherwise nothing changes |
| `ExportProgress.FailedExportIsReported` | deploy/ops/data_export.py:846-964 | in every reachable state an exporter that fails at any stage while it holds its claim ends the request as failed if the failure is to be reported, leaves the row alone otherwise, and removes its own files and no others |
| `ExportProgress.LostClaimGoesUnreported` | deploy/ops/data_export.py:870-964 | a busy lock or a lost claim is never reported as a failure, a completion that the database refuses is; from the rename on there is an artifact to remove |
| `ExportProgress.ExpiryStartsExactly` | deploy/ops/data_export.py:1085-1097 | a cleaner takes up an artifact exactly when it is completed, expired, not yet recorded as deleted, and its request is not revoked |
| `ExportProgress.ErasureReachesAtOnce` | alembic/versions/0031_scope_export_budget.py:95-128 | a new erasure request revokes at once every export it reaches and touches no other |
| `ExportProgress.AccountDecidesScope` | alembic/versions/0031_scope_export_budget.py:49-61 | an account that starts being deleted closes all its exports; in any other account exactly those are closed that an erasure reaches |
| `ExportRowLaws.ClaimSucceedsExactly` | deploy/ops/data_export.py:307-327 | a claim commits exactly when the request is unexpired and requested, or its lease ran out, and no erasure blocks its scope |
| `ExportRowLaws.ClaimIsExclusive` | deploy/ops/data_export.py:307-388 | until the lease ends nobody else can claim the request, and only the new owner with the new version passes the fence |
| `ExportRowLaws.ClaimShape` | src/telegram_userbot/domain/data_export.py:118-127 | a newly claimed row satisfies the domain's lease clause exactly when creation lies before the new lease's end |
| `ExportRowLaws.RenewShape` | src/telegram_userbot/domain/data_export.py:118-127 | so does a renewed row |
| `ExportRowLaws.RenewSucceedsExactly` | deploy/ops/data_export.py:361-388 | a renewal is granted exactly while the fence holds and no erasure blocks the scope, and then moves only lease and version |
| `ExportRowLaws.InsertErasureKeeps` | alembic/versions/0031_scope_export_budget.py:110-128 | inserting an erasure keeps every row in shape and leaves no export of any erased scope unrevoked |
| `ExportRowLaws.BlockedIsInScope` | alembic/versions/0031_scope_export_budget.py:49-61 | the scope query of the trigger blocks exactly the exports that some erasure of the account revokes, or whose account is gone or being deleted |
| `ExportRowLaws.CoveredRowIsFenced` | alembic/versions/0031_scope_export_budget.py:63-93 | in a table that keeps the invariant an export in an erased scope can neither be claimed nor renewed nor completed |
| `ExportRowLaws.CompletionSucceedsExactly` | deploy/ops/data_export.py:822-843 | a completion is stored exactly while the fence holds and the scope is open, and stores the outcome without owner and lease |
| `ExportRowLaws.ErasureTakesEffect` | alembic/versions/0031_scope_export_budget.py:110-128 | an erasure revokes exactly the exports in its scope that were not revoked before: unfinished ones fail, finished ones keep their outcome, all lose owner and lease |
| `ExportRowLaws.MarkCleanedKeeps` | deploy/ops/data_export.py:1019-1038 | acknowledging a cleaned erasure keeps the shape, including that the artifact is recorded as deleted not before its completion |
| `ExportRowLaws.MarkArtifactDeletedKeeps` | deploy/ops/data_export.py:1085-1113 | acknowledging an expired artifact keeps the shape, because completion was before expiry and cleaning at or after it |
| `ExportTable.Table.ClaimNext` | deploy/ops/data_export.py:330-358 | takes the oldest due request no other transaction has locked, by creation time and id, and claims it; none exactly when there is none; an error exactly when the trigger refuses that one |
| `ExportTable.Table.Erase` | alembic/versions/0031_scope_export_budget.py:110-128 | the row-by-row revocation loop has the effect of revoking the whole scope at once |
| `ExportTable.Table.Acknowledge` | deploy/ops/data_export.py:1019-1038 | the acknowledging compare-and-set does what the row operation says; it never raises on a table in shape |
| `ExportTable.LeaseGuard.RenewOnce` | deploy/ops/data_export.py:512-544 | success leaves guard and row with the same next version and owner; any doubt marks the claim lost for good and keeps the version |
| `ExportTable.LeaseGuard.FinalizeVersion` | deploy/ops/data_export.py:489-505 | stops renewing; a fence is returned exactly while the claim is owned and the row admits it, is the row's version, and lets the completion through at the same clock |
| `ExportTable.Staging.EraseRequestFiles` | deploy/ops/data_export.py:967-999 | deletes exactly the files of the request, or nothing when a registered artifact's content does not match |
| `ExportTable.CleanOne` | deploy/ops/data_export.py:1002-1038 | one pending request is emptied and acknowledged, left exactly as it was, or reported exactly when a registered artifact's content does not match |
| `ExportTable.CleanupErased` | deploy/ops/data_export.py:1002-1038 | the cleanup loop empties and acknowledges exactly the requests whose lock is free, counts them, and on a mismatch has done exactly a prefix |
| `ArtifactNames.CleanupTakesOwnNames` | deploy/ops/data_export.py:588-597 | every artifact path the exporter uses for a request is taken by that request's cleanup |
| `ArtifactNames.CleanupTakesOnlySpellings` | deploy/ops/data_export.py:967-999 | a name the cleanup pattern takes is the spelling of some artifact of that request, and of no other request's |
| `ArtifactNames.SpellingIsInjective` | deploy/ops/data_export.py:588-597 | two artifacts never share a file name |
| `Hex.DecodeEncode` | deploy/ops/restore_gate.py:31 | lower-case base 16 (section 8 of RFC 4648) reads back the bytes it printed |
| `Hex.EncodeDecode` | deploy/ops/restore_gate.py:31 | a text accepted as lower-case base 16 is the only one for its bytes |
| `Hex.ParseCanonical` | deploy/ops/restore_gate.py:250-254 | an identifier printed in 8-4-4-4-12 form is read back by the lenient reader |
| `Hex.ParseDecorated` | deploy/ops/restore_gate.py:250-254 | so is one with the prefixes of a URN, one in braces, and one without hyphens |
| `LedgerLaws.IdentifiersNameFiles` | deploy/ops/data_export.py:588-597 | printed identifiers are the texts that the names of export files are built from |
| `Ledger.LedgerDocument` | deploy/ops/restore_gate.py:282-357 | the printing loop refuses exactly bad identities, oversized inventories and invalid or repeated rows, and otherwise prints the header and each row in order |
| `Ledger.CheckEntries` | deploy/ops/restore_gate.py:243-278 | the checking loop with its two seen-sets accepts the records in order or fails with the first record's fault |
| `Ledger.EntriesAcceptExactly` | deploy/ops/restore_gate.py:243-278 | a list of records is accepted exactly when each is well formed with a supported scope and no request or key occurs twice |
| `Ledger.LoadedIsSound` | deploy/ops/restore_gate.py:202-279 | an accepted ledger has a bounded number of well-formed, pairwise distinct entries, and a digest issued for one file admits no other |
| `Ledger.PrintThenLoad` | deploy/ops/restore_gate.py:202-357 | whatever is printed is loaded under the same identity, digest and all scopes: same snapshot id, same entries in order, each reading back as the row it came from |
| `LedgerHistory.ByIdFinds` | deploy/ops/restore_gate.py:476-482 | the dictionary keyed by request id finds every accepted entry |
| `LedgerHistory.ExportedFileReads` | deploy/ops/restore_gate.py:456-483 | a successful export is readable, holds exactly the rows, and keeps every entry of the file it replaced |
| `LedgerHistory.FileOnlyGrows` | deploy/ops/restore_gate.py:460-483 | over any sequence of exports and backups, failed or not, the exported file stays readable and no entry is lost or changed |
| `LedgerHistory.HistoryOnlyGrows` | deploy/ops/erasure_replica.py:156-214 | whatever happens to the local file, replicas form a growing history: each extends all earlier ones, export times never go backwards, and none is lost |
| `LedgerHistory.PublishedEntriesStay` | deploy/ops/erasure_replica.py:170-179 | an entry once replicated is in the latest replica after any run, found under its request, unchanged |
| `LedgerHistory.FreshExportReplicatesExactly` | deploy/ops/erasure_replica.py:161-179 | a fresh export is replicated exactly when the latest copy is readable, not newer, and contained in it |
| `LedgerHistory.RecoveredIsTheCopy` | deploy/ops/erasure_replica.py:217-229 | recovery under a receipt's digest writes exactly the copy the receipt was issued for, only where no file was |
| `LedgerHistory.ReplicaHost.Backup` | deploy/ops/erasure_replica.py:156-214 | success means the copy is the latest replica and was read back; receipt and freshness marker never describe a copy that was not |
| `LedgerLaws.LoadsExactly` | deploy/ops/restore_gate.py:202-279 | a file is loaded exactly when its digest, size, header, and every record are what the ledger's contract says for this deployment and account and no request or key occurs twice; its snapshot and its entries in order are returned |
| `LedgerLaws.PrintsExactly` | deploy/ops/restore_gate.py:282-357 | a ledger is printed exactly when names, counts and every row are what the contract says; otherwise the first fault is reported |
| `LedgerLaws.PrintedLoadsForItsOwnOnly` | deploy/ops/restore_gate.py:235-246 | a ledger printed for one deployment and account loads for another exactly when both agree, and is otherwise refused for its header |
| `HistoryLaws.ExtendsFileExactly` | deploy/ops/restore_gate.py:476-482 | over a readable file the comparison by request id is inclusion: no earlier entry is missing or changed |
| `HistoryLaws.ExportsExactly` | deploy/ops/restore_gate.py:456-483 | an export takes place exactly when the rows can be printed, every entry of the file that is there is still among them, the text fits into 16 MiB and is stored; it leaves the printed bytes |
| `HistoryLaws.ReplicatesExactly` | deploy/ops/erasure_replica.py:156-179 | the file is appended to the replicas exactly when it is usable and the latest replica, if any, is usable, no newer, and has all its entries in it |
| `HistoryLaws.RecoversExactly` | deploy/ops/erasure_replica.py:217-229 | recovery writes exactly the fetched bytes, and just when no file stands, their digest is the expected one and they are usable |
| `RestoreRuns.OpenNeedsFreshEvidence` | deploy/ops/restore_gate.py:1033-1062 | in every run with arbitrary restores, opening requires of each contact and account entry its request, of the same account, scope, key and policy, with a media check recorded after its staging, which was after the current generation began; if the gate was closed after the last restore, the check is younger than that restore |
| `RestoreRuns.ClosingOutdatesTheRestore` | deploy/ops/restore_gate.py:162-190 | closing after a restore dates the gate after it, and nothing but another restore ends that |
| `RestoreRuns.OnlyVerificationOpens` | deploy/ops/restore_gate.py:1106-1172 | no other command, and no work of cleanup owners, takes the gate from validating to open |
| `RestoreRuns.UnclosedRestoreTrustsOldEvidence` | deploy/ops/restore_gate.py:1033-1062 | a run that restores a validating snapshot and opens without closing again trusts evidence from before the restore |
| `RestoreStore.StagingResetsExactlyOnce` | deploy/ops/restore_gate.py:960-1030 | staging a ledger again in a generation keeps all contact and account progress; the first staging in a generation resets request, media check and progress |
| `RestoreStore.StageEntryEffect` | deploy/ops/restore_gate.py:980-1030 | one staged entry touches only its own request, and nothing if it was staged before in this generation |
| `RestoreStore.MemoryReplayIsIdempotent` | deploy/ops/restore_gate.py:589-652 | replaying a memory entry twice is replaying it once; afterwards the memory is marked forgotten and on the ledger |
| `RestoreStore.ReplayLedger` | deploy/ops/restore_gate.py:655-677 | an unknown scope is refused before any handler runs; otherwise each handler gets its entries in ledger order |
| `RestoreStore.EachEntryHandledOnce` | deploy/ops/restore_gate.py:655-677 | every entry of a known scope reaches exactly one handler, as often as the ledger lists it |
| `RestoreRuns.ClosingVoidsEvidence` | deploy/ops/restore_gate.py:162-190 | after closing, in a new generation with no verification mark left, no contact or account entry verifies until it is staged again |
| `RestoreStore.Store.StageReplay` | deploy/ops/restore_gate.py:1065-1103 | the staging loop does what staging the entries in order says, and an error leaves the database as it was |
| `RestoreStore.Store.Open` | deploy/ops/restore_gate.py:1106-1172 | verification in the source's order, committing the opened gate or nothing |
| `RestoreLaws.FindMemoryExactly` | deploy/ops/restore_gate.py:595-618 | a ledger target names the last of the account's own memories whose hash it is, and none exactly when there is none |
| `RestoreLaws.ErasedMemoriesAreForgotten` | deploy/ops/restore_gate.py:589-677 | after staging or opening, every memory of the account that an entry of the ledger names is forgotten or was erased with its scope, and nothing else of any memory has changed |
| `RestoreLaws.StagesExactly` | deploy/ops/restore_gate.py:931-1030 | an account or contact entry is staged exactly when it names a party the database has and its request is of that party; then exactly this request is stored |
| `RestoreLaws.OpensExactly` | deploy/ops/restore_gate.py:1106-1172 | the gate opens exactly when every check passes, every account and contact entry is proven in this generation, and every request of the account is completed or completed now by forgetting its memory; otherwise the first failure in the source's order is reported |
| `RestoreStore.HandlersKeepTheOrder` | deploy/ops/restore_gate.py:655-677 | each handler's entries are those of its scope, all of them, in ledger order |
| `RestoreEvidence.Restore.Run` | deploy/ops/run_restore.py:602-869 | records are a prefix of the chain that fits the outcomes, all of it unless a write failed; a manifest covers the whole chain with the run's verdict; no stage runs after a failure; the gate ends as the stages that took effect leave it |
| `RestoreEvidence.ChainTellsTheOutcome` | deploy/ops/run_restore.py:763-869 | records are numbered without gaps and linked; all pass exactly when all stages and the inventory passed, otherwise only the last fails |
| `RestoreEvidence.HeadDeterminesChain` | deploy/ops/run_restore.py:447-508 | with an injective digest the head determines the whole sequence of records |
| `RestoreEvidence.FailedRunLeavesGateOpenExactly` | deploy/ops/run_restore.py:588-846 | a failed run leaves the gate open exactly when the backup brought an open gate and closing it did not take effect, or opening took effect and no closing after it did; a failed command may have taken effect |
| `RestoreEvidence.EarlyFailureKeepsTheBackupsGate` | deploy/ops/run_restore.py:687-760 | a run whose migration fails over a backup with an open gate ends with the gate open |
| `EvidenceLaws.RecordsFollow` | deploy/ops/run_restore.py:447-480 | each record carries the run's identity, its number, its time, its stage's outcome, and the digest of the one before, the first 64 zeros |
| `EvidenceLaws.FilesAreDistinct` | deploy/ops/run_restore.py:447-480 | different records are written to different files |
| `EvidenceLaws.RunsExactly` | deploy/ops/run_restore.py:763-830 | a stage is run exactly when all before it succeeded and every record up to it was written |
| `EvidenceLaws.SucceedsExactly` | deploy/ops/run_restore.py:763-869 | a run succeeds exactly when everything in it did, down to the checksum of its manifest |
| `EvidenceLaws.GateAfterExactly` | deploy/ops/run_restore.py:588-846 | the gate at the end is that of the last opening, closing or restoring stage that took effect, or validating after a failed inventory was closed again |
| `PayloadGuard.BlockedIsReachability` | alembic/versions/0030_scope_derived_erasure.py:77-119 | the recursive scope query ends and holds exactly when a chain of lookups from the row reaches a missing, erased, redacted or fenced row |
| `PayloadGuard.EnforcePayloadErasure` | alembic/versions/0030_scope_derived_erasure.py:121-178 | the trigger's loops decide as the verdict says, in the source's order of errors |
| `PayloadRuns.RowHistory` | alembic/versions/0030_scope_derived_erasure.py:121-178 | over any accepted updates owners never change, an erased row's payload and marks are frozen, and while blocked each payload column keeps its value or becomes empty and stays empty |
| `PayloadRuns.AcceptedUpdate` | alembic/versions/0030_scope_derived_erasure.py:150-157 | the step to erased changes only payload and redaction columns and leaves the payload empty |
| `PayloadRuns.NoInsertIntoBlockedScope` | alembic/versions/0030_scope_derived_erasure.py:166-176 | no row comes into being erased or inside a blocked scope |
| `PayloadRuns.FirmStays` | alembic/versions/0030_scope_derived_erasure.py:31-54 | a row blocked through its immutable links stays blocked under all accepted writes and other transactions |
| `PayloadRuns.BlockedScopeOnlyEmpties` | alembic/versions/0030_scope_derived_erasure.py:121-178 | in the whole database, over any run, a row so blocked only loses payload and once empty stays empty |
| `PayloadRuns.ErasedAccountStaysEmpty` | alembic/versions/0030_scope_derived_erasure.py:77-178 | once an erased account holds no payload, none ever appears in it again, in old rows or new |
| `PayloadLaws.StopsExactly` | alembic/versions/0030_scope_derived_erasure.py:77-119 | a row is bad by itself exactly when it is missing, erased or redacted, its account is missing or on its way out, its contact is being deleted, or an erasure of either is on record |
| `PayloadLaws.BlockedOnlyThrough` | alembic/versions/0030_scope_derived_erasure.py:31-54 | a row not bad by itself is blocked only through a missing or blocked parent, a blocked reference, or a missing or blocked source revision |
| `PayloadLaws.DecidesExactly` | alembic/versions/0030_scope_derived_erasure.py:121-178 | a write is accepted exactly when it moves no owner and is an unmarked insert into an open scope, leaves an erased row's payload and marks alone, erases payload and touches nothing else, only empties payload, or adds payload to an unredacted row in an open scope; otherwise the first fault is reported |
| `MetadataGuard.RoutesGoDown` | alembic/versions/0032_scope_metadata_erasure.py:49-99 | every owner lookup leads to a table of lower rank, so resolution ends |
| `MetadataGuard.EnforceMetadataErasure` | alembic/versions/0032_scope_metadata_erasure.py:138-219 | the trigger's checks and rewrites of the new row decide as the guard says, with the draft binding of 0036 and the append-only list of 0034 |
| `MetadataLaws.OwnerOfJob` | alembic/versions/0032_scope_metadata_erasure.py:49-99 | a job is owned as the first of conversation, contact, turn, message or request that its payload names |
| `MetadataLaws.OwnerOfNotice` | alembic/versions/0032_scope_metadata_erasure.py:49-99 | an outbox or audit row is owned as what it is about |
| `MetadataLaws.OwnerOfPeer` | alembic/versions/0032_scope_metadata_erasure.py:49-99 | a peer is owned by the contact that has it, when there is just one |
| `MetadataLaws.BlockedExactly` | alembic/versions/0032_scope_metadata_erasure.py:123-134 | a row is blocked exactly when it is no cleanup notice and its resolved owner has an account and a closed scope |
| `MetadataLaws.InsertsExactly` | alembic/versions/0032_scope_metadata_erasure.py:198-218 | an insert into an open scope is stored as it is; one into a closed scope is refused, or in the append-only tables stored without its metadata |
| `MetadataLaws.UpdatesExactly` | alembic/versions/0032_scope_metadata_erasure.py:177-218 | an update of a live row that keeps the owners is stored as it is when it adds no metadata or finds and leaves its scope open; otherwise it is refused, or in the append-only tables stored without its metadata |
| `MetadataLaws.UpdatesErasedExactly` | alembic/versions/0032_scope_metadata_erasure.py:154-176 | an update of an erased row keeps marker and metadata, strips a late report of its metadata, and cannot make a job or outbox row due again |
| `MetadataRuns.RowHistory` | alembic/versions/0032_scope_metadata_erasure.py:138-219 | over any accepted updates owners are fixed but for one binding of a draft to its run, erased rows keep marker and empty columns, erased jobs and outbox rows are stopped by the next write for good, and a blocked scope gains nothing |
| `MetadataRuns.BlockedInsertIsEmptied` | alembic/versions/0034_scope_erasure_completion.py:43-53 | an insert into a blocked scope is accepted only into the append-only tables, and stored erased and emptied with everything else kept |
| `MetadataRuns.BlockedUpdateAddsNothing` | alembic/versions/0032_scope_metadata_erasure.py:198-217 | an update that finds its scope blocked before or after keeps or empties each guarded column and leaves no runnable job |
| `MetadataRuns.LateOutcomeIsRecorded` | alembic/versions/0032_scope_metadata_erasure.py:154-163 | a late outcome on an erased run, attempt or command is accepted, with every unguarded column as reported and every guarded one empty |
| `MetadataRuns.ErasedWorkRunsExactly` | alembic/versions/0032_scope_metadata_erasure.py:164-189 | erased work can run exactly until the first write after an erasing write that left it runnable |
| `MetadataRuns.ErasingWriteMayLeaveJobPending` | alembic/versions/0032_scope_metadata_erasure.py:177-189 | an accepted erasing update that leaves a job pending |
| `MetadataRedaction.OneByOneIsAtOnce` | alembic/versions/0032_scope_metadata_erasure.py:251-281 | in any order that leaves jobs to the end, updating row by row with ownership resolved along the way equals redacting at once every row that matched at entry |
| `MetadataRedaction.RedactionErasesTheScope` | alembic/versions/0032_scope_metadata_erasure.py:285-328 | every guarded row that matched at entry ends erased, empty and stopped, every deletable one is gone, and all other rows are untouched |
| `MetadataRedaction.OwnerAlike` | alembic/versions/0032_scope_metadata_erasure.py:49-99 | owner resolution is the same at every stage of the redaction |
| `MetadataRedaction.DeletedRowsStayAway` | alembic/versions/0032_scope_metadata_erasure.py:221-237 | no accepted write of a reaction or edit session, before or after it, belongs to a quiescent erased scope, provided the row's conversation is not with another contact |
| `MetadataRedaction.RedactionIsAcceptedExactly` | alembic/versions/0032_scope_metadata_erasure.py:177-189 | a redaction goes through exactly when the resolved scope of every row due at entry is blocked at entry, in any order that leaves jobs to the end |
| `MetadataRedaction.RedactionIsAccepted` | alembic/versions/0032_scope_metadata_erasure.py:302-328 | in particular when the request is on record and no matched row's conversation is with another contact |
| `RedactionLaws.ClosedRowsMatch` | alembic/versions/0032_scope_metadata_erasure.py:251-281 | every row that an erasure alone closes is matched by its redaction, so none that may no longer be written to keeps its metadata |
| `RedactionLaws.MatchesExactly` | alembic/versions/0032_scope_metadata_erasure.py:251-281 | a redaction for an account takes its rows but for cleanup notices; one for a contact takes the contact's own, those of its conversations, and the runs and attempts erased before |
| `RedactionLaws.RedactsExactly` | alembic/versions/0032_scope_metadata_erasure.py:285-328 | each matched live row becomes its redacted form, reactions and edit sessions go, and every other row is as it was |
| `RedactionLaws.RedactedWorkExactly` | alembic/versions/0032_scope_metadata_erasure.py:263-281 | a redacted job is cancelled unless it was over, without lease, under a higher version and fencing token; a redacted outbox row counts as published |
| `RedactionLaws.AcceptedUpdateKeepsOwner` | alembic/versions/0032_scope_metadata_erasure.py:138-219 | an accepted update leaves a row with the resolved account, contact and conversation it had; only a job's payload may route it elsewhere |
| `MediaObjects.Media.Check` | alembic/versions/0033_media_upload_erasure.py:58-106 | an accepted object keeps its account, parent and source revision, and enters only under a parent of the same account and revision that takes dependants |
| `MediaObjects.Media.UpdateObject` | alembic/versions/0033_media_upload_erasure.py:58-106 | an update stores what the guard makes of it or changes nothing |
| `MediaLife.RunsMakeForests` | alembic/versions/0033_media_upload_erasure.py:84-103 | from empty tables parent links always form a forest and a family shares one account and source revision |
| `MediaLife.ObjectHistory` | alembic/versions/0033_media_upload_erasure.py:62-124 | over any run an object keeps its owner, a deletion request is permanent, pending and ready are not entered after it, files change only on reaching deleted, deleted is final, and no reference is gained after the request |
| `MediaLife.EntryNeedsOpenScope` | alembic/versions/0033_media_upload_erasure.py:85-103 | an object appears or becomes ready only in an open scope, from an unblocked source revision and under a parent that takes dependants |
| `MediaLaws.EntryExactly` | alembic/versions/0033_media_upload_erasure.py:84-106 | an object may enter exactly when its account is there, not on its way out and not erased, its source revision is the account's and not blocked, and its parent is the account's, takes dependants and has the same source; otherwise the first of these is reported |
| `MediaLife.LiveExactly` | alembic/versions/0034_scope_erasure_completion.py:57-96 | the recursive query ends and returns exactly the account's objects whose family holds a seed |
| `MediaLife.FamiliesLiveTogether` | alembic/versions/0034_scope_erasure_completion.py:90-96 | a family is wholly live or wholly dead |
| `GenerationRetry.DelayIsBounded` | src/telegram_userbot/processes/conversation_runtime.py:345-378 | with the configured base in (0, 30] a retry waits between 0 and 30 seconds whatever the provider asks |
| `GenerationRetry.RunTurn` | src/telegram_userbot/processes/conversation_runtime.py:221-343 | the loop, with the dispatch of a completed turn's messages and the final stopping of the typing feedback, makes the calls, settlements and hand-overs of its specification and ends as it says |
| `GenerationRetry.TurnsAreSafe` | src/telegram_userbot/processes/conversation_runtime.py:221-343 | for every sequence of outcomes, failures and cancellations the turn keeps the order of calls, records, sleeps and fences, makes at most the configured number of calls, and reports how it ended |
| `GenerationRetry.ReportIsLastEvent` | src/telegram_userbot/processes/conversation_runtime.py:302-343 | what a turn reports is its last stored event; an exception gets out of a settled turn exactly when stopping the feedback was cut off, or an answered attempt's completion is stored and dispatching its group broke off; no message is handed over before |
| `GenerationRetry.SettledTurnsPropagate` | src/telegram_userbot/processes/conversation_runtime.py:302-343 | a completed turn whose messages cannot be read and a failed turn cancelled while it stops its feedback: both end in an exception |
| `GenerationRetry.RetriesAreEarned` | src/telegram_userbot/processes/conversation_runtime.py:279-305 | each further call comes right after a granted fence, after the durable record of a retryable failure that cannot have been sent, with at most one sleep of at most 30 seconds between |
| `GenerationRetry.NothingAfterSettling` | src/telegram_userbot/processes/conversation_runtime.py:306-343 | no turn is settled twice, as completed and failed or otherwise |
| `GenerationLaws.OnlyRefusedCallsAreRepeated` | src/telegram_userbot/processes/conversation_runtime.py:280-305 | for every world, a call is made again only after the provider's answer to the one before was a gateway refusal that is retryable and was not sent: never after a timeout, a lost connection or an unknown error |
| `GenerationLaws.CallsExactly` | src/telegram_userbot/processes/conversation_runtime.py:221-305 | a call is made exactly when it is admitted in time and every attempt before it was so refused, recorded, waited for and fenced in time |
| `GenerationLaws.EndsBeforeOrAtTheReply` | src/telegram_userbot/processes/conversation_runtime.py:240-278 | the whole trace of a turn that stops before a call or at its reply, with the settlement and code by what stopped it |
| `GenerationLaws.EndsAfterTheReply` | src/telegram_userbot/processes/conversation_runtime.py:279-343 | the whole trace of a turn that stops after a failed call, with the code it is failed under by which step failed |
| `GenerationLaws.DelayIsExactly` | src/telegram_userbot/processes/conversation_runtime.py:345-378 | the wait is the least that is neither below the provider's demand nor below the drawn part of a doubling window, each capped at 30 seconds |
| `GenerationLaws.FailureIs` | src/telegram_userbot/processes/conversation_runtime.py:347-357 | of what a call can raise, just a gateway error that is retryable and not sent may be retried |
| `GenerationLaws.HandedExactly` | src/telegram_userbot/processes/conversation_runtime.py:588-639 | a message reaches the gateway exactly when all before it were delivered and it was admitted, prepared and still admitted |
| `GenerationRetry.DispatchGroup` | src/telegram_userbot/processes/conversation_runtime.py:588-639 | messages are handed over in sequence and counted while delivered and stored; the first that is not ends the dispatch, and it breaks off exactly when handling that one raised |
| `PreparedCache.CacheIsSound` | src/telegram_userbot/processes/model_gateway.py:272-311 | under any interleaving the cache keeps its limit, no run is prepared twice at once, and callers get only values the durable store gave for that run with the expected role |
| `PreparedCache.StepKeeps` | src/telegram_userbot/processes/model_gateway.py:272-311 | each segment between await points keeps order, limit, stripe exclusion and provenance |
| `PreparedCache.EvictsLeastRecent` | src/telegram_userbot/processes/model_gateway.py:306-310 | an evicted entry was used before every entry kept |
| `PreparedCache.WithoutProfileIs` | src/telegram_userbot/processes/model_gateway.py:246-270 | invalidation keeps exactly the entries of other profiles |
| `PreparedCache.Cache.InvalidateProfile` | src/telegram_userbot/processes/model_gateway.py:246-270 | removes exactly the profile's cached entries, in order, and counts them |
| `PreparedCache.ServedEntryIsNewest` | src/telegram_userbot/processes/model_gateway.py:275-280 | a served entry is last with its value unchanged; all other entries stay, in their order |
| `PreparedCache.Cache.Store` | src/telegram_userbot/processes/model_gateway.py:306-311 | a stored run is the newest entry and the oldest leave until the limit holds |
| `PreparedCache.ReachedInvalidationHoldsExactly` | src/telegram_userbot/processes/model_gateway.py:246-311 | in every reachable state, with each run bound to one profile and role, after invalidating a profile a value prepared from before can still be cached or answered exactly when some task is preparing a main generation of a run bound to that profile |
| `PreparedCache.InvalidationHoldsExactly` | src/telegram_userbot/processes/model_gateway.py:246-311 | whatever the durable store may answer, it can exactly when a preparation is in flight for which the store may give a value of the profile in the role asked for |
| `PreparedCache.RunKeepsStale` | src/telegram_userbot/processes/model_gateway.py:246-311 | over any run after an invalidation every entry of the profile and every answer was prepared after it or is what a preparation of the same run in flight at it came to |
| `PreparedCache.InvalidationMissesPreparationInFlight` | src/telegram_userbot/processes/model_gateway.py:246-270 | a run from the empty cache in which a preparation begun before an invalidation of its profile is cached after it |
| `CacheLaws.AsksExactly` | src/telegram_userbot/processes/model_gateway.py:272-281 | a cached run is served to whoever asks in its role and refused to everyone else without a preparation; only a run not cached is waited for |
| `CacheLaws.LoadsExactly` | src/telegram_userbot/processes/model_gateway.py:289-311 | a loaded value of the role asked for is answered and cached as the newest and costs at most the oldest entry, only when the cache is full of other runs; any other is neither answered nor cached |
| `CacheLaws.LoadedIsServed` | src/telegram_userbot/processes/model_gateway.py:272-311 | the next caller in the same role is answered from the cache with the loaded value |
| `CacheLaws.ValueLeavesExactly` | src/telegram_userbot/processes/model_gateway.py:246-311 | a cached value leaves only by an invalidation of its profile, by a preparation of its own run, or as the oldest of a full cache |
| `CacheLaws.SomeTaskCanGoOn` | src/telegram_userbot/processes/model_gateway.py:281-288 | no task is stuck: it can take its lock or the one preparing under it can come back |
| `MembershipClaim.MembershipReadsBack` | alembic/versions/0027_m8_model_run_claim.py:17-31 | an accepted membership reads back from the hashed bytes, so no two are encoded alike |
| `MembershipClaim.Layout` | alembic/versions/0027_m8_model_run_claim.py:17-31 | the bytes are the tag, a zero byte, and the members in order, identifier then revision, most significant byte first, separated by zero bytes |

## Left out

- Docker, Compose, restic, age, subprocesses, HTTP, Telethon, Redis and psycopg: foreign calls. A transaction is one step whose result is known; an ambiguous commit, and an exception between a finalizing commit and its return, are not part of this model.
- A renewer thread that outlives its 15-second join may still renew after its exporter gave the claim up; that moves only lease and version of the claim, like a renewal before giving up, and is not a step of the model.
- `latest` of the replica history is the one last appended; restic's `--latest 1` goes by snapshot time, so a host clock set back is not part of this model.
- Permissions, symbolic links, inodes and secret files. Staging is a map from names to contents with one lock per request that a crash releases; the age cutoff for stale temporaries is left to chance, so any stale temporary may be chosen at any time.
- SHA-256 and HMAC are functions; injectivity is assumed only by lemmas that say so.
- JSON text, UTF-8 beyond ASCII, date syntax and the base-16 number reader are fields of `Ledger.Syntax`, assumed faithful on what the ledger prints. A non-ASCII header hash makes the comparison raise a type error in the source; the model reports an invalid header.
- `data_export.py`: batch limits, reading and serializing the exported rows, and `expire_due` of the repository; the domain's expired state is never entered by a modelled step.
- One revocation uses one clock reading for all rows.
- Migration 0031's budget trigger and the audit row that ends a redaction: direct checks that add no property to those above.
- 0034's `redact_scope_retention` has the form of the metadata redaction with other rules and no deletions; the theorems hold for any rules, but its own request checks are not modelled.
- The frozen lists of guarded columns are parameters (`Rule`, `Rules`) assumed not to contain owner or routing columns, except the payload of jobs and outbox rows. Erasure requests are not deleted, contact links are not nulled and accounts being deleted do not come back: `PayloadRuns.Evolves` states what other transactions are assumed to keep.
- PayloadRuns.BlockedScopeOnlyEmpties: covers rows blocked through owner columns and parents; a row blocked only through a reference that the guard lets change, such as its model run, may become unblocked in the source too.
- RestoreStore.MemoryReplayIsIdempotent: of a memory's redaction only the forgotten mark, the request and the ledger entry are modelled, not the derived rows it empties.
- The session, integrity, reconciliation and credential checks of opening, which are inputs.
- The live-media seeds, a union of joins over tables with their own guards, are an input.
- `_maintain_generation` and admission are answers from outside (the monitor is assumed to end without an exception but cancellation, as its code does unless its clock raises), typing feedback is whether it started and whether starting or stopping it was cancelled; the durable effects of completing and failing a run are not part of this model.
- The remaining lifecycle code, monitors, inventories and migrations: wiring, finite tables or one-off backfills.
