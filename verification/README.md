# AstraFile: a verified model

A Dafny model of the parts of AstraFile that must not lose, leak or mix up data: multipart uploads and
their completion, storage accounting, purging, version history, folders and shares, the change feed,
download grants, the browser's transfer scheduler, encrypted backups and encrypted fields.

`dafny verify dfyconfig.toml` checks everything.

## How it is built

- **Planning, ObjectStore, Catalog, Transactions, Runs.** The metadata tables and the S3-like store are
  values. Each database transaction of the API and the worker is a function on both; `None` is a
  transaction that throws and rolls back. Store calls are not rolled back: every transaction that
  calls the store takes a `crash` flag that kills the process between the store call and the commit.
  `Runs` interleaves 24 kinds of steps freely: requests of any account, part uploads through any signed
  URL, worker jobs, sweeps and crashes. The hash is an arbitrary function; only the results about
  contents ask that it has no collisions.
- **Integrity, Completion, Versions, Safety, References, Purging, Quota, DiskFloor, History, Delivery.**
  The invariant and what holds over whole runs.
- **Effects, FileEffects, Limits, Quarantine.** What each request and each step of the worker answers and
  changes, in the words of the tables, and what follows for admission and scanning over whole runs.
- **Rounds, Races, Witnesses.** The worker's rounds as runs of single steps, with what each round
  achieves; what happens when a step comes between two halves that no lock ties together; and runs from
  the empty system that show what the assumptions below protect.
- **Backend, UploadRoutes, FileRoutes, CloudRoutes, Worker, Listings.** The same operations as methods
  that change a shared database and store statement by statement, restore the rows they started from
  when they fail, and are proved equal to the transaction functions the run results are about; the
  worker's rounds are proved to be runs of them.
- **Closure, Folders, Sharing; ChangeFeed; Grants; Scheduler; Cipher, Backup, BackupFormat, Fields.**
  The other components, each with its methods, its reference definitions and its theorems.

Two things the steps take for granted are written down in `Runs.Assumed`: the second half of a create
request meets the row its first half inserted, and no moderator changes the state of an EXPIRED file.
The code enforces neither. `Quota.LateInitQuotaExactly`, `Quota.RevivalQuotaExactly` and
`Quota.RevivalBytesExactly` say exactly when quotas and bytes survive such a step, and
`Witnesses.LateInitRun`, `Witnesses.RevivalRun` and `Witnesses.HollowRevivalRun` reach states in which
they do not.

Two more assumptions are about timing. Transactions run one at a time. The source runs them at READ
COMMITTED; the rows a bulk action works on, the source of a replace and the references a purge looks at
are read without locks, and a later write does not look again. `Races.LateWriteBytesExactly` and the
lemmas beside it say exactly when such a write keeps bytes, references and quotas, and
`Witnesses.LateRestoreRun` is a run before one that does not. And the no-leak results ask that a purge job
is marked as completed right after its transaction; `Races.ForgottenExactly` says exactly which runs in
between do harm, and `Witnesses.ForgettingRun` is one.

## What the proofs turned up

- `enqueue` does nothing while the same job is RUNNING. If the last reference to an object goes between
  a purge job's look at the references and its completion, the object is neither purged nor queued.
- The transaction for a stale upload spares only completed uploads, so an upload aborted after it was
  selected turns from ABORTED to EXPIRED.
- The second half of a create request writes its row blindly: an upload ended in between turns from
  ABORTED or EXPIRED back to UPLOADING and is charged again. No other step takes an upload out of these two.
- A bulk restore that was allowed just before the trash cleanup ended the file can bring it back without
  its bytes.
- The decipher of an encrypted field is given no tag length, so a field is read with a tag cut to one of the
  shorter lengths of GCM, too.
- An override out of EXPIRED checks neither quota nor bytes, and one to BLOCKED even rewrites the row of a
  purged object.
- If an upload whose object is already stored is aborted between its selection as stale and its turn, the
  whole cleanup job fails there.
- An empty chunk at the end of an encrypted backup is refused as trailing data.
- The fifteen-minute grant limit holds for half-open spans; a span with both ends can hold twice as many.
- A new reference to an object is only ever copied from an existing one, which is why a purge that
  crashed after removing the bytes does no harm.

## Model

| member | source | states |
|---|---|---|
| Planning.PlanFitsStorageLimit | packages/validation/index.ts:8 | for every size and configured part size the part size is positive and the plan has between 1 and 10000 parts |
| Planning.PartLengths | packages/validation/index.ts:9 | each planned part length is positive and at most a chunk, only the last one may be shorter, and part n ends at byte min(n * chunk, size) |
| Planning.TilingSizesSum | packages/validation/index.ts:8-9 | cutting whole chunks off the front until one is left gives lengths that sum to the size |
| Planning.TilingIsFormula | packages/validation/index.ts:9 | the closed formula for the length of part n agrees with that cutting, part by part |
| Planning.AssertPartsExact | packages/validation/index.ts:10-13 | the manifest check accepts a list if and only if it is the reference cutting with an etag on every part; an accepted list sums to the file size |
| Listings.PageContinues | packages/storage/index.ts:24 | each page of a part listing continues exactly where the last one stopped, and there is a next marker if and only if parts remain |
| Listings.ListParts | packages/storage/index.ts:24 | the marker loop returns every stored part once and in order, whatever the page size |
| UploadRoutes.ReserveSpace | apps/api/src/lib.ts:20-34 | admission runs the checks in order; there is no error if and only if disk, concurrency, reservation, file, storage and period limits all allow the upload |
| UploadRoutes.PostUpload | apps/api/src/uploads.ts:59-74 | a create request inserts the object, file and upload rows together or nothing |
| UploadRoutes.OpenSession | apps/api/src/uploads.ts:75-76 | the second half opens a store session and records it, or marks the upload INIT_FAILED; a crash in between leaves only the session |
| UploadRoutes.SignParts | apps/api/src/uploads.ts:85-96 | the signing loop records each new part under its first checksum, refuses any other checksum, signs exactly the requested parts with their planned lengths, and rolls everything back on a refusal |
| UploadRoutes.AckPart | apps/api/src/uploads.ts:97-100 | an acknowledgement only overwrites the etag of an already signed part |
| UploadRoutes.ReconcileListing | apps/api/src/uploads.ts:14-20 | the loop refuses a listing that has an unsigned part, a wrong length or a wrong checksum, and otherwise gives each listed part the last etag listed for it |
| UploadRoutes.GetUpload | apps/api/src/uploads.ts:80-84 | a status request reconciles the row with the store or changes nothing |
| UploadRoutes.AssembleObject | apps/api/src/uploads.ts:29-36 | reconcile, check the listing, check the recorded manifest, complete; on any refusal the rows are as before while the store keeps what it did |
| UploadRoutes.ActivateUpload | apps/api/src/uploads.ts:37-44 | head, size check and final rows; a mismatch or a crash rolls the rows back |
| UploadRoutes.CompleteUpload | apps/api/src/uploads.ts:21-54 | the completion transaction with all its refusals, including recovery through an object that already exists |
| UploadRoutes.NoteFailure | apps/api/src/uploads.ts:101 | the separate error update of the completion route |
| UploadRoutes.EndUpload | apps/worker/src/index.ts:39 | closing the session and then ending upload, file and object rows; a crash in between leaves the rows |
| UploadRoutes.AbortUpload | apps/api/src/uploads.ts:55-57 | abort refuses completed and finalizing uploads, is repeatable, and otherwise ends all three rows |
| Integrity.SignKeeps | apps/api/src/uploads.ts:87-95 | signing keeps the invariant of tables and store: every URL describes the row of its part |
| Integrity.PutKeeps | packages/storage/index.ts:23 | a part accepted by the store has the recorded length and checksum |
| Integrity.AckKeeps | apps/api/src/uploads.ts:97-100 | a fake acknowledgement does not break the invariant |
| Integrity.AbortKeeps | apps/api/src/uploads.ts:55-57 | abort, with or without a crash before its commit, keeps the invariant |
| Integrity.TimeOutKeeps | apps/worker/src/index.ts:38-39 | so does the transaction for a stale upload, whatever happened to the row since it was selected |
| Integrity.BulkKeeps | apps/api/src/files.ts:42-61 | a bulk action over any list of files keeps the invariant |
| Integrity.OverrideKeeps | apps/api/src/files.ts:70-74 | so does a moderator override that does not start from EXPIRED |
| Integrity.RunPurgeKeeps | apps/worker/src/index.ts:25-27 | so does the purge, even if it crashes between removing the bytes and its commit |
| Completion.ListingAccepted | apps/api/src/uploads.ts:17 | for a session that backs an upload the integrity check of the listing never fails |
| Completion.ManifestFollowsListing | apps/api/src/uploads.ts:30-33 | once the listing has the planned shape, the second assertParts cannot fail |
| Completion.JoinAssembles | apps/api/src/uploads.ts:35 | completing with such a manifest joins the planned parts in order, each at its offset, with the recorded checksum |
| Completion.FinalizeIsCompletion | apps/api/src/uploads.ts:21-54 | an attempt changes the database only by completing its upload, with the signed parts and checksums unchanged |
| Completion.FinalizeKeeps | apps/api/src/uploads.ts:21-54 | every completion attempt keeps the invariant, with part uploads arriving in the middle and a crash after the store call |
| Safety.StepKeeps | apps/api/src/uploads.ts:14-103 | every step of API, worker and store keeps the invariant |
| Safety.RunKeeps | apps/api/src/uploads.ts:14-103 | every run of such steps keeps it |
| Backend.StepIsReachable | apps/api/src/uploads.ts:21-103 | a system that starts empty and takes an admitted step is again in a reachable state |
| Safety.StoredFilesAreAssembled | apps/api/src/uploads.ts:29-37 | in every reachable state a stored file has bytes that are the planned parts 1..n in order, each with the checksum recorded for it |
| Safety.SlicesDetermine | apps/web/src/upload/engine.ts:61 | two byte strings that agree on every planned slice are equal |
| Safety.StoredFileIsOriginal | apps/web/src/upload/engine.ts:61 | if the recorded checksums are those of slices of a file and the hash has no collisions, the stored bytes are that file |
| Safety.FirstChecksumIsFinal | apps/api/src/uploads.ts:90-91 | along any run the checksum a part was first signed with never changes |
| Safety.RunRespectsUploads | apps/api/src/uploads.ts:14-103 | between any two moments of a run upload rows only appear and step forward: size, owner, file and signed parts are final, COMPLETE and EXPIRED stay |
| Safety.CommittedStates | apps/api/src/uploads.ts:34-44 | FINALIZING is never committed and no upload ever made more than one share |
| Safety.CompletesAtMostOnce | apps/api/src/uploads.ts:24-49 | once an upload has completed or ended it never completes, makes no further share and keeps its file key, over any retries |
| Safety.ActivatesAtMostOnce | apps/api/src/uploads.ts:24-49 | once a completion attempt has changed the database, no later attempt for that upload changes anything, neither rows nor store |
| Effects.CompletionExactly | apps/api/src/uploads.ts:37-44 | an attempt changes the rows if and only if it is answered with success and the upload was not complete before; then upload, file and object are complete with the detected type, QUARANTINED if a scan is due and AVAILABLE otherwise, one share is added if and only if sharing is allowed, and no other row changes |
| Effects.RefusalsExactly | apps/api/src/uploads.ts:23-25 | in whatever state the tables are, a completion is not found for any but the owner, refused for an upload that has not begun or has ended, and answered again for a completed one |
| Effects.ExistingObjectDecides | apps/api/src/uploads.ts:26-37 | an object that is already there completes the upload if and only if it is as long as the file |
| Effects.SessionDecides | apps/api/src/uploads.ts:29-36 | without an object the listing has to agree with the signed parts, be the whole plan and leave the recorded parts the whole plan before the store is asked to put them together |
| Effects.ReconcileExactly | apps/api/src/uploads.ts:14-20 | a listing is refused if and only if one of its parts was not signed or has another length or checksum; otherwise each listed part gets the last etag listed for it |
| Quarantine.AvailableWasReleased | apps/api/src/uploads.ts:41-43 | along any run an object that became AVAILABLE was scanned clean, was waived by the completion of its own upload, or was lifted by a moderator |
| Quarantine.UnscannedIsNeverAvailable | apps/api/src/files.ts:50-55 | in every reachable state no AVAILABLE file, copied, restored, replaced or overridden, is on an object that still waits for the scanner |
| Effects.AbortExactly | apps/api/src/uploads.ts:55-57 | an abort changes anything if and only if the caller owns an upload that has neither completed nor ended: its session and parts are gone, the three rows have ended, and exactly its reservation is free; a crash leaves the rows |
| Effects.TimeOutExactly | apps/worker/src/index.ts:39 | the stale-upload transaction does the same to every upload that has not completed |
| Effects.InitExactly | apps/api/src/uploads.ts:75-76 | a recorded session is new, open and empty and the upload may begin; a failure frees exactly its reservation; a crash leaves the row |
| Effects.SignExactly | apps/api/src/uploads.ts:85-96 | a signing request is served if and only if the owner, the state, the session and the disk allow it and every part is in the plan under its one checksum; recorded parts stay, new ones are recorded at their planned length, and exactly the URLs asked for are added |
| Effects.AckExactly | apps/api/src/uploads.ts:97-100 | an acknowledgement writes the etag of one signed part of the caller and nothing else |
| Effects.StatusExactly | apps/api/src/uploads.ts:80-84 | after a status request every recorded part that the store holds has the store's etag, and nothing else has changed |
| Safety.EndedIsLeftExactly | apps/api/src/uploads.ts:75 | whatever step is taken, an upload leaves ABORTED and EXPIRED if and only if the second half of its own create request writes it late, and ABORTED becomes EXPIRED if and only if the stale-upload transaction commits on it |
| Safety.UnfinishedRollsBack | apps/api/src/uploads.ts:21-54 | an attempt that is refused leaves the database as it was |
| Safety.RetrySucceeds | apps/api/src/uploads.ts:27-28 | when the store already holds the object a later attempt succeeds without touching the store |
| Safety.CrashLeavesRetryable | apps/api/src/uploads.ts:35 | a crash between the store completion and the commit leaves a state from which the next attempt succeeds |
| Completion.FirstCompletionExactly | apps/api/src/uploads.ts:29-36 | with an open session and no object yet, an undisturbed completion finishes if and only if the store holds every planned part |
| Safety.FailureIsRecorded | apps/api/src/uploads.ts:101 | the separate error update after one of the three recorded refusals always meets a row of the caller that has a session, so it writes unless the upload completed meanwhile |
| Delivery.OnlySigningAddsParts | apps/api/src/uploads.ts:91 | no step but signing records a part or changes a recorded checksum |
| Delivery.RecordedPartsAreTheFiles | apps/web/src/upload/engine.ts:61-64 | as long as the signing requests the owner makes for an upload are its client's, the recorded checksums are those of the client's slices, whatever other accounts ask for |
| Delivery.StoredFileIsTheClients | apps/web/src/upload/engine.ts:60-70 | end to end: for every interleaving of requests, retries, uploads and crashes in which the owner's client signs its own slices, other accounts being free to request anything, the stored object is the client's file byte for byte |
| References.StepRefs | apps/api/src/files.ts:42-61 | no step gives an unreferenced object a reference, and an object that loses its last one is purged or queued |
| References.ContentSwitches | apps/api/src/cloud.ts:40-41 | replacing content keeps the old object referenced by the new version and only points at an object that was referenced |
| Purging.NeededBytesExist | apps/worker/src/index.ts:25-27 | in every reachable state an object that a live finished file or a version points at has its bytes and is not PURGED |
| Purging.UnreferencedForGood | apps/worker/src/index.ts:26 | an object nothing refers to is never referred to again in any run |
| Purging.OrphanForgottenExactly | apps/api/src/lib.ts:43 | when a step takes the last reference of an unpurged object and its purge job is then marked completed, nothing is forgotten if and only if that job was not running before the step |
| Races.ForgottenExactly | apps/worker/src/index.ts:83 | whatever steps come between the purge of a running job and its end, marking it completed forgets the object if and only if it was still needed at the purge and is not at the end |
| Races.QueuedAlwaysAfterUpload | apps/worker/src/index.ts:82 | in every reachable state no object of an unfinished upload was ever queued for purging |
| Purging.PromptRunNeverLeaks | apps/worker/src/index.ts:83 | in runs in which every successful purge job ends right after its transaction, every unpurged object is referenced or has a pending, running or failed job |
| Witnesses.ForgettingRun | apps/api/src/lib.ts:43 | an admitted run from the empty system, a stored file with two copies, after which an unreferenced object with bytes has no job left |
| Races.LateWriteBytesExactly | apps/api/src/files.ts:47-58 | a bulk restore or delete that writes after its checks went stale keeps the bytes of all live files if and only if the bytes of its file are still there and its object is not PURGED; it does as long as the file is still live |
| Races.LateCopyBytesExactly | apps/api/src/files.ts:52-56 | so does a bulk copy that inserts its row late |
| Races.LateSwitchBytesExactly | apps/api/src/cloud.ts:36-41 | so does a replace that switches to content it read earlier |
| Races.LateRemovalBytesExactly | apps/worker/src/index.ts:26 | a purge that removes the bytes after its look at the references went stale does no harm if and only if nothing refers to the object at that moment |
| Races.LateWriteRefsExactly | apps/api/src/files.ts:47-58 | a late restore or delete revives no unreferenced object if and only if its file's object still has a reference |
| Races.LateWriteQuotaExactly | apps/api/src/files.ts:47-58 | and keeps every quota if and only if the file is charged already or the balance plus its size fits |
| Witnesses.LateRestoreRun | apps/api/src/files.ts:50 | an admitted run in which a restore is allowed, the trash cleanup and the purge come first, and the late write leaves a live file without bytes |
| Rounds.DrainedIsExact | apps/worker/src/index.ts:82-83 | draining the queue leaves unpurged exactly the referenced objects and those whose job has failed and is not due again |
| Rounds.DrainIsRun | apps/worker/src/index.ts:82-83 | draining is a run of single claims, purges and finishes |
| Purging.SweepSparesNeeded | apps/worker/src/index.ts:52 | listing keys removes only bytes whose row is PURGED and unreferenced and whose upload is not running |
| Purging.SweepSparesSessions | apps/worker/src/index.ts:53 | listing sessions aborts only sessions that no upload records; these hold no part |
| Rounds.RoundKeeps | apps/worker/src/index.ts:28-57 | a round of worker steps keeps the invariant, every quota and the no-leak property |
| Rounds.RoundIsReachable | apps/worker/src/index.ts:28-57 | and takes a reachable system to a reachable one |
| Rounds.PassClearsLeftovers | apps/worker/src/index.ts:52 | a pass over listed keys removes exactly the bytes of the listed keys whose row is PURGED and unreferenced, and changes no row |
| Rounds.PassAbortsUnrecorded | apps/worker/src/index.ts:53 | a pass over listed sessions aborts exactly the old ones no upload records, and leaves rows, objects and other sessions as they are |
| Rounds.RowCheckBlocksOnlyUnneeded | apps/worker/src/index.ts:54-55 | after the row check exactly the AVAILABLE rows with bytes are still AVAILABLE; a row that changed became BLOCKED, and nothing refers to it |
| Rounds.EndingEndsFiles | apps/worker/src/index.ts:31-37 | after a cleanup loop every listed finished file is over, restored trash excepted, its object has an active job, and no other file has changed |
| Rounds.StaleRoundExactly | apps/worker/src/index.ts:38-39 | the loop over stale uploads gets through if and only if none of them has ended with its object still stored; then each is complete, if the store held its object, or EXPIRED |
| Worker.PurgeObject | apps/worker/src/index.ts:25-27 | the purge transaction with its crash point |
| Worker.RunPurgeJob | apps/worker/src/index.ts:82-83 | claiming, running and finishing one purge job; a failed one is picked only when it is due |
| Worker.DrainQueue | apps/worker/src/index.ts:74-86 | the job loop over all purge jobs is the drain that DrainedIsExact describes |
| Worker.SweepKeys | apps/worker/src/index.ts:52 | the loop over listed keys is the run that PassClearsLeftovers describes |
| Worker.SweepSessions | apps/worker/src/index.ts:53 | the loop over listed sessions is the run that PassAbortsUnrecorded describes |
| Worker.SweepRows | apps/worker/src/index.ts:54-55 | the loop that checks AVAILABLE rows is the run that RowCheckBlocksOnlyUnneeded describes |
| Worker.EndFiles | apps/worker/src/index.ts:31-37 | the cleanup loops over expired files, trash and deleted folders are the runs that EndingEndsFiles describes |
| Worker.EndStaleUploads | apps/worker/src/index.ts:38-39 | the loop over stale uploads is the run that StaleRoundExactly describes, and stops at the first refused completion |
| Quota.QuotaAlwaysHolds | apps/api/src/lib.ts:27-31 | in every reachable state used plus reserved bytes of every account are within its storage entitlement |
| Quota.StepKeepsQuota | packages/database/migrations/003_cloud_versions.sql:37-42 | every step keeps all accounts within their entitlement, including each item of a bulk copy |
| Quota.CreateReserves | apps/api/src/uploads.ts:68-74 | creating an upload adds exactly its size to its owner's reservation and nothing to anyone's used bytes |
| Limits.AdmissionExactly | apps/api/src/lib.ts:20-34 | a create request is refused if and only if it is empty, its period allowance is used up, or with its rows a limit on uploads, reservations, file size, storage or disk would not hold |
| Limits.LimitsAlwaysHold | apps/api/src/lib.ts:27-30 | in every reachable state every account is within its limits on running uploads, reserved bytes and file size |
| Quota.CompletionMoves | apps/api/src/uploads.ts:42-44 | completing moves exactly the size from reserved to used |
| Quota.EndingReleases | apps/api/src/uploads.ts:56 | aborting or timing out releases exactly the reservation and changes no used bytes |
| Quota.CopyCharges | apps/api/src/files.ts:52-55 | a copy charges its object's expected size once more, to its owner only |
| FileEffects.BulkExactly | apps/api/src/files.ts:42-61 | a bulk action other than a copy is served if and only if it may be taken on every listed file; then exactly those files have changed state and only a permanent deletion queues their objects |
| FileEffects.BulkCopyExactly | apps/api/src/files.ts:52-56 | a bulk copy is served if and only if every listed file is an own AVAILABLE one and all copies together fit the quota; each copy has its original's object and type |
| FileEffects.StateCosts | packages/database/migrations/003_cloud_versions.sql:39 | trash costs as much as anything else, and a file costs nothing from the moment it is PURGED or EXPIRED |
| FileEffects.SwitchCosts | apps/api/src/cloud.ts:40-43 | a replace charges the owner the new object on top of what the old one goes on costing as a version |
| Quota.PruneShrinks | apps/api/src/cloud.ts:13 | pruning raises nobody's balance |
| Quota.ReplaceKeepsQuota | apps/api/src/cloud.ts:40-43 | a replace that commits keeps every account within its entitlement |
| Quota.OverrideMoves | apps/api/src/files.ts:73 | reassigning a file charges the new owner for the file and its whole history, and nobody else pays more |
| Quota.OverrideChecksCharge | apps/api/src/files.ts:73 | what the reassignment checks bounds that charge |
| FileEffects.OverrideExactly | apps/api/src/files.ts:73 | when a moderator's change is served, and what it does to the file, its object and the purge queue, and to nothing else |
| FileEffects.ScanExactly | apps/worker/src/index.ts:64 | a scanner's verdict settles the object and every QUARANTINED file on it and no other file |
| FileEffects.PurgeExactly | apps/worker/src/index.ts:25-27 | a purge removes the bytes of an object if and only if nothing refers to it, and marks its row unless it crashes in between |
| FileEffects.SweepKeyExactly | apps/worker/src/index.ts:52 | a listed key without a row is removed once it is old, one whose row is PURGED is purged again, and others stay |
| FileEffects.JobsExactly | apps/worker/src/index.ts:82-83 | what claiming and finishing a job write |
| Quota.RevivalQuotaExactly | apps/api/src/files.ts:73 | bringing an EXPIRED file back keeps the quota if and only if the owner's balance plus the file fits |
| Quota.RevivalBytesExactly | apps/api/src/files.ts:73 | and keeps the promise to hold its bytes if and only if they are stored and the object row is not PURGED; an override to BLOCKED rewrites that row, so it asks for the bytes only |
| Witnesses.RevivalRun | apps/api/src/files.ts:73 | an admitted run after which such an override takes an account over its quota |
| Witnesses.HollowRevivalRun | apps/api/src/files.ts:73 | an admitted run after which an override to BLOCKED or DELETED yields a file without bytes |
| Quota.LateInitKeepsExactly | apps/api/src/uploads.ts:75-76 | recording the outcome of opening a session keeps the invariant if and only if the upload was not ended in between or the process died first |
| Quota.LateInitQuotaExactly | apps/api/src/uploads.ts:75-76 | recording a session late keeps every account within its quota if and only if nothing is recorded, the upload had not ended or never counted, or the balance plus its size fits |
| Witnesses.LateInitRun | apps/api/src/uploads.ts:75-76 | an admitted run, create, abort, create, after which the late second half of the first request turns ABORTED into UPLOADING and takes the account over its quota |
| DiskFloor.CreateKeepsFloor | apps/api/src/lib.ts:21-24 | admission keeps free bytes minus unsent bytes of counted uploads at or above the floor |
| DiskFloor.PutKeepsFloor | apps/api/src/uploads.ts:86 | a part upload takes as much from the unsent bytes as from the disk; a repeated one replaces its part |
| DiskFloor.FinalizeKeepsFloor | apps/api/src/uploads.ts:29-37 | completion turns parts into an object without lowering the headroom |
| DiskFloor.FloorAlwaysHolds | apps/api/src/lib.ts:21-24 | a disk that starts above the floor never falls below it in any run, and the unsent bytes of all counted uploads still fit |
| FileRoutes.BulkFile | apps/api/src/files.ts:47-58 | one file of a bulk action, with the refusals of each action |
| FileRoutes.BulkFiles | apps/api/src/files.ts:42-61 | a bulk action over the distinct ids: all files or none |
| FileRoutes.PatchFile | apps/api/src/files.ts:38-41 | an edit with an expected revision is refused unless it is the current one |
| FileRoutes.AdminPatchFile | apps/api/src/files.ts:70-74 | the override of state and owner with all its checks and its effect on the object row and the purge queue |
| CloudRoutes.PruneVersions | apps/api/src/cloud.ts:8-15 | pruning deletes the versions past count or age and enqueues every object they pointed at |
| CloudRoutes.ReplaceContent | apps/api/src/cloud.ts:28-46 | replace and restore in the order of the source, rolled back when the quota check at the end fails |
| Versions.SurvivorsExact | apps/api/src/cloud.ts:13 | pruning deletes exactly the versions outside count or age and reorders nothing |
| Versions.PruneKeepsNewest | apps/api/src/cloud.ts:13 | a version newer than a kept one is kept |
| Versions.PruneBounds | apps/api/src/cloud.ts:10-13 | afterwards a file has at most the allowed number of versions, all within the allowed age |
| Versions.PruneDropsForAReason | apps/api/src/cloud.ts:13-14 | a deleted version was outnumbered by newer ones or too old, and its object has an active purge job |
| Versions.PruneKeepsLimits | apps/api/src/cloud.ts:8-15 | after pruning a file has at most the account's and at most the site's number of versions, none if it is over, and none older than either number of days |
| Versions.PruneTakesExactly | apps/api/src/cloud.ts:11-13 | a version goes if and only if its file is over, it is older than one of the two ages, or at least the smaller of the two counts of versions were made after it |
| Versions.PruneQueuesExactly | apps/api/src/cloud.ts:13-14 | pruning queues the object of every version it takes and changes nothing else |
| Versions.RevisionNeverClashes | packages/database/migrations/003_cloud_versions.sql:5 | every version of a file has a revision below the file's, so UNIQUE(file_id,revision) is never violated |
| Versions.ReplaceKeeps | apps/api/src/cloud.ts:28-46 | replace and restore keep the invariant |
| FileEffects.SourceExactly | apps/api/src/cloud.ts:36-37 | the content of a replace is that of an own accessible file or of a stored version of this very file, with an AVAILABLE object |
| FileEffects.ReplaceExactly | apps/api/src/cloud.ts:28-45 | when a replace is served, given its source, and what it makes of the file and its history before pruning |
| History.RevisionsGrow | packages/database/migrations/003_cloud_versions.sql:17 | along any run files only appear and their revisions never drop |
| History.OnlyOneReplaceWins | apps/api/src/cloud.ts:32 | of any number of replaces sent with the same expected revision at most one changes the file |
| FileEffects.EditExactly | apps/api/src/files.ts:40 | an edit is served for the owner, with an expected revision only at that revision, and counts it up by one |
| History.RestoreBringsBack | apps/api/src/cloud.ts:36-41 | restoring the version a replace made brings the earlier object and type back, whatever happened in between |
| Closure.ReachExact | apps/api/src/files.ts:66 | a recursive query finds exactly the rows a seed is connected to |
| Closure.ReachDual | apps/api/src/shares.ts:13 | walking a relation down from seeds meets a row exactly when walking up from the row meets a seed |
| Folders.FolderTables.PostFolder | apps/api/src/files.ts:63 | creating a folder in an own, undeleted folder |
| Folders.FolderTables.PatchFolder | apps/api/src/files.ts:64-69 | moving, trashing and restoring a folder, with the cycle check |
| Folders.FolderTables.MoveFiles | apps/api/src/files.ts:51 | the bulk move: all files or none |
| Folders.FolderTables.AdminPatch | apps/api/src/files.ts:73 | a new owner takes a file out of its folder |
| Folders.NewFolderExactly | apps/api/src/files.ts:63 | a folder is created if and only if its place is an own folder out of the trash or the top level |
| Folders.EditFolderExactly | apps/api/src/files.ts:64-69 | an edit of a folder is served if and only if the caller owns it and a new parent is an own place outside the folder; it changes what was sent and nothing else |
| Folders.TrashHidesExactly | apps/api/src/files.ts:13 | putting a folder in the trash makes exactly the files somewhere inside it inaccessible |
| Folders.RestoreUndoesTrash | apps/api/src/files.ts:67 | taking it out again undoes that |
| Folders.MoveAllExactly | apps/api/src/files.ts:46-51 | a bulk move is served if and only if all files and the place are the caller's; then the listed files, and no others, are there |
| Folders.CopyFileExactly | apps/api/src/files.ts:55 | a copy is the same file in the place asked for, or beside its original |
| Folders.AdminFileExactly | apps/api/src/files.ts:73 | a new owner gets the file at the top level; a folder sent along must be the owner's |
| Folders.AccessibleExactly | apps/api/src/files.ts:13 | the single-file rule in the words of paths: nothing on the way up is in the trash |
| Folders.NoFolderInsideItself | apps/api/src/files.ts:66 | in an acyclic table no folder is among the descendants of its child |
| Folders.MoveKeepsAcyclicExactly | apps/api/src/files.ts:66 | a move keeps the table acyclic if and only if the new parent is not in the subtree, which is what the check tests |
| Folders.RequestsKeepForest | apps/api/src/files.ts:63-69 | after any requests the folders are an acyclic forest with one owner per tree, and files are in folders of their owner |
| Sharing.AncestorsAreConnected | apps/api/src/files.ts:13 | the upward walk and the downward walk between two folders agree |
| Sharing.HiddenIsAncestorWalk | apps/api/src/shares.ts:13 | a folder is in the downward closure of the trash if and only if some ancestor is in the trash |
| Sharing.SharedIsAncestorWalk | apps/api/src/shares.ts:13 | a folder out of the trash is in the shared tree if and only if one of its ancestors is shared |
| Sharing.ListedIsAccessible | apps/api/src/shares.ts:13 | for an active owner a share lists a file if and only if it is the owner's, selected by the share, and accessible by the single-file rule |
| Sharing.SharesOnlyListAccessible | apps/api/src/files.ts:13 | so after any requests every listed file passes accessibleFile |
| Sharing.ListedIsNeverGone | apps/api/src/shares.ts:56 | a download through a share is never refused by the second check of the file |
| Sharing.DownloadGrantedExactly | apps/api/src/shares.ts:56 | a download through a share is granted if and only if owner, share, selection, file and grant limits all allow it; it is counted and nothing else about the share changes |
| ChangeFeed.CloudTables.EmitChange | packages/database/migrations/003_cloud_versions.sql:8-13 | an emission takes the next number of its account |
| ChangeFeed.CloudTables.UpdateRow | packages/database/migrations/003_cloud_versions.sql:14-24 | an update bumps the revision and tells the owner; a change of owner also tells the old one |
| ChangeFeed.CloudTables.TellObjectChanged | packages/database/migrations/003_cloud_versions.sql:28-35 | the loop over the files of a changed object |
| ChangeFeed.InsertTells | packages/database/migrations/003_cloud_versions.sql:14-24 | a new row is told to its owner only, as an insertion at revision 1 |
| ChangeFeed.UpdateTells | packages/database/migrations/003_cloud_versions.sql:17-23 | an update counts the revision of files and folders up and is told to the owner; an old owner is told of a deletion |
| ChangeFeed.DeleteTells | packages/database/migrations/003_cloud_versions.sql:18-20 | a deletion is told to the owner at the last revision |
| ChangeFeed.ObjectTells | packages/database/migrations/003_cloud_versions.sql:28-35 | a change of an object is told to every account with a file on it, once for each such file in order of id, as an update at its current revision, and nothing else is |
| ChangeFeed.UpdateKeeps | packages/database/migrations/003_cloud_versions.sql:22-23 | a change of owner keeps both feeds faithful |
| ChangeFeed.FeedIsFaithful | packages/database/migrations/003_cloud_versions.sql:8-36 | after any changes replaying an account's feed gives exactly the entities it owns with their current revisions, numbered 1, 2, ... without gaps |
| ChangeFeed.PageIsNextStretch | apps/api/src/cloud.ts:17-23 | a page is the next stretch of the feed; a cursor is refused if and only if the account has not reached it; no more means the end |
| ChangeFeed.ReaderMissesNothing | apps/api/src/cloud.ts:17-23 | paging from any valid cursor while changes are appended delivers each later change once and in order |
| Grants.Ledger.DirectDownload | apps/api/src/files.ts:14-20 | a download is recorded exactly when both grant limits allow it |
| Grants.WindowLimit | apps/api/src/lib.ts:38-39 | no half-open span of fifteen minutes holds more grants of an owner than allowed, in any commit order |
| Grants.MonthLimit | apps/api/src/lib.ts:40-41 | in no calendar month are more bytes authorized than allowed, in any commit order |
| Grants.GrantedExactly | apps/api/src/lib.ts:35-42 | a download is granted if and only if the last fifteen minutes leave room for one more grant and the month for its bytes; it is recorded with its owner, time and bytes |
| Grants.ClosedWindowLimit | apps/api/src/lib.ts:38 | a span that includes both of its ends holds at most twice the limit |
| Grants.ClosedWindowAttained | apps/api/src/lib.ts:38 | and for every limit some order of requests attains twice the limit |
| Scheduler.UploadRuntime.MainRound | apps/web/src/upload/engine.ts:79-82 | one round of the outer loop with the dispatch loop inside |
| Scheduler.UploadRuntime.WorkerStep | apps/web/src/upload/engine.ts:60-70 | what a part worker does between two awaits |
| Scheduler.UploadRuntime.AfterWorkers | apps/web/src/upload/engine.ts:83 | what follows once all workers have ended |
| Scheduler.StepKeeps | apps/web/src/upload/engine.ts:60-87 | every step keeps the scheduler in order |
| Scheduler.RunIsOrderly | apps/web/src/upload/engine.ts:71-87 | in any run at most eight parts are in flight, each part is handed out at most once with at most six attempts, and completion is asked for only when all parts 1..count are confirmed |
| Scheduler.ConfirmedIsNotSentAgain | apps/web/src/upload/engine.ts:80 | a part that is confirmed at some moment is never handed out after it |
| Scheduler.FailureStopsExactly | apps/web/src/upload/engine.ts:68 | a failure stops the transfer if and only if it is final or the part has had six attempts; any other leaves a worker that asks again when its wait ends |
| Scheduler.ErrorHasCause | apps/web/src/upload/engine.ts:62-68 | along any run a transfer fails only for a final failure or a part with six attempts |
| Scheduler.LimitMoves | apps/web/src/upload/engine.ts:67-68 | the number of parallel parts goes down by one with each failure and up by one with every twelfth success, within its bounds |
| Scheduler.PausedSendsNothing | apps/web/src/upload/engine.ts:63-64 | from the moment it is paused or cancelled a transfer sends nothing |
| Scheduler.RoundExactly | apps/web/src/upload/engine.ts:79-82 | a round hands out exactly the next unconfirmed parts, until there is no room or no part left |
| Scheduler.OutcomeExactly | apps/web/src/upload/engine.ts:83-85 | how a run ends once its workers have |
| Scheduler.CleanRunCompletes | apps/web/src/upload/engine.ts:60-84 | a run in which nothing fails and nobody interferes completes, and sends each missing part exactly once and no other |
| Scheduler.CanFinish | apps/web/src/upload/engine.ts:79-84 | from every state a run can be in there is such a way to its end |
| Scheduler.RunIsBounded | apps/web/src/upload/engine.ts:62-70 | the number of steps of a run is bounded from the start |
| Scheduler.NeverStuck | apps/web/src/upload/engine.ts:79-83 | as long as a run is not over some await of its own can end |
| Backup.EncryptBackup | packages/privacy/backup.ts:10-24 | the writer yields the header, one frame per piece and the end frame, or fails after 0xffffffff frames |
| Backup.ByteReader.Take | packages/privacy/backup.ts:27 | a read returns the next bytes or fails exactly when fewer are left, and never pulls a chunk it does not need |
| Backup.NextFrame | packages/privacy/backup.ts:32-36 | reading one frame with every way it can fail |
| Backup.DecryptBackup | packages/privacy/backup.ts:25-39 | streaming decryption yields what parsing the whole byte string yields, for every chunking; a trailing empty chunk turns success into a trailing-data error |
| Backup.AllPulled | packages/privacy/backup.ts:36 | all chunks are pulled once all bytes are read if and only if the last chunk is not empty |
| BackupFormat.AllPiecesRejoin | packages/privacy/backup.ts:22 | cutting the source into frames loses nothing and makes no empty frame, for every source chunking |
| BackupFormat.RoundTrip | packages/privacy/backup.ts:10-39 | under any later ring that kept the version, decrypting gives back the source bytes; the read ends well if and only if the received chunks do not end in an empty one |
| BackupFormat.ExtensionRefused | packages/privacy/backup.ts:36 | a stream with bytes appended yields the source and ends in a trailing-data error |
| BackupFormat.PrefixRefused | packages/privacy/backup.ts:27-36 | a stream cut anywhere is refused as truncated, and what was yielded is a prefix of the source |
| BackupFormat.AcceptedThenMore | packages/privacy/backup.ts:36 | for every cipher and ring, any accepted bytes followed by more yield the same chunks and end in a trailing-data error |
| BackupFormat.PrefixFree | packages/privacy/backup.ts:25-39 | no accepted stream is a proper prefix of another, whoever wrote them |
| BackupFormat.WrittenPrefixFree | packages/privacy/backup.ts:10-39 | of two backups one of which begins with the other both are the same stream of the same source bytes |
| BackupFormat.HeaderDecides | packages/privacy/backup.ts:28-31 | a stream that begins with a header some writer would have written is read on under its version's key, or refused for want of the key |
| BackupFormat.NoHeaderRefused | packages/privacy/backup.ts:28-31 | any other stream is refused, as cut short if it may still become such a header and as no backup if not |
| BackupFormat.NoncesDistinct | packages/privacy/backup.ts:16 | two frames share a nonce if and only if they share seed and frame number |
| BackupFormat.NoncesNeverRepeat | packages/privacy/backup.ts:15-16 | within a backup every frame is sealed under its own nonce |
| BackupFormat.OnlyOriginalsAccepted | packages/privacy/backup.ts:28-37 | with an ideal cipher whatever is yielded from any bytes is a prefix of one written backup, and only its original stream is accepted in full |
| Fields.EncodeRoundTrip | packages/privacy/crypto.ts:16-21 | base64url decodes what it encoded and uses no dot |
| Fields.SplitInvertsJoin | packages/privacy/crypto.ts:16-19 | splitting at dots inverts joining dot-free parts |
| Fields.JoinInvertsSplit | packages/privacy/crypto.ts:19 | and joining what was split restores the text |
| Fields.FieldRoundTrip | packages/privacy/crypto.ts:13-22 | any text, the empty one included, comes back under every ring that kept the version |
| Fields.KeyRingExactly | packages/privacy/crypto.ts:3-7 | a key ring is accepted if and only if its active version is there and all its names and keys have the right form |
| Fields.FieldOpensExactly | packages/privacy/crypto.ts:18-22 | a text of four parts is opened under the key of its version if nonce and tag are there |
| Fields.OtherTextsRefused | packages/privacy/crypto.ts:18-19 | a text of any other number of parts is refused |
| Fields.FieldIsOriginal | packages/privacy/crypto.ts:18-22 | with an ideal cipher a field that decrypts was sealed with that key in that context, and its text is the one written then if and only if its base64url parts are canonical and its tag is whole; a canonical text with a shorter tag is that text with the tag cut |
| Fields.StoredDigestFound | packages/privacy/crypto.ts:8-12 | with a collision-free HMAC a stored digest is among the candidates of a later ring if and only if value and context are the stored ones |

## Left out

- UploadRoutes.ReserveSpace: the daily and monthly upload allowances, the cooldown after failures, the rate limits and the read-only switch are one flag, `allowed`; they depend on clocks and counters and guard nothing the invariants need.
- UploadRoutes.PostUpload: folder, name, expiry, fingerprint and blocked extensions of a new upload are not in this table; Folders has the folder check.
- UploadRoutes.SignParts: the session's expiry is the flag `active`; the limit of sixteen parts a request is not imposed, so the result covers longer requests too.
- UploadRoutes.CompleteUpload: scanning setting, detected type and share allowance are a `Verdict`; hash and scan jobs, audit rows and the share's own columns are left out, the number of shares made is kept.
- UploadRoutes.GetUpload: the fallback to completion when the session is gone is the next step of a run, `Finalize`; confirmed-byte counters are left out.
- UploadRoutes.NoteFailure: the failure counter is left out. Asking for a recorded session is no restriction: Safety.FailureIsRecorded derives it.
- UploadRoutes.OpenSession: opening the store session and recording it are one step with four outcomes; other steps do not fall in between, so a row that an abort changes in that gap is covered by Quota.LateInitKeepsExactly, Quota.LateInitQuotaExactly and Safety.EndedIsLeftExactly only. The catch clause also runs when the commit took effect and only its answer was lost; the row is then FAILED with INIT_FAILED and has a session, and signing revives it while it stays uncounted. That outcome is not in `InitOutcome`.
- DiskFloor.FloorAlwaysHolds: reading the free space and inserting the upload are one step; uploads are the only writers to the disk.
- FileRoutes.PatchFile: which columns an edit changes does not matter to bytes and quotas; only the revision check and the bump are kept.
- FileRoutes.AdminPatchFile: role and status checks, expiry and the disabling of shares are left out; Folders.AdminFile has the folder part.
- CloudRoutes.ReplaceContent: what accessibleFile asks of the source beyond owner and states is the flag `visible`; Folders.AccessibleFile states it in full.
- CloudRoutes.ReplaceContent: the file name is not kept in the version rows; a restore does not change it.
- Worker.EndStaleUploads: the session a stale upload had when it was selected is the one its row has in the transaction.
- Worker.EndFiles: what the selecting queries look at (expiry, trash age, deleted folders) is left to the caller, which may pass any files.
- Worker.DrainQueue: attempt counters and backoff times are the set `due` of failed jobs that may be picked again; the other kinds of jobs are left out, and no job fails in it.
- Purging.PromptRunNeverLeaks: nothing comes between a successful purge and the end of its job; without this the claim is false, see Witnesses.ForgettingRun.
- Integrity.OverrideKeeps: a state override out of EXPIRED is excluded; Quota.RevivalQuotaExactly and Quota.RevivalBytesExactly say exactly what it breaks.
- Safety.StepKeeps: excludes the same, and a late second half of a create request; Quota.LateInitQuotaExactly says exactly what that breaks.
- Quota.QuotaAlwaysHolds: entitlements and settings are fixed during a run.
- Listings.ListParts: the same loop over keys and sessions is not repeated for the two other listings.
- Sharing.ListedIsAccessible: the limit of 5000 rows and the order by name are left out; a listing is a part of what is described.
- Sharing.DownloadsStayWithinLimit: lowering the maximum, passwords, visibility, cookies and versions of a share are left out.
- ChangeFeed.FeedIsFaithful: the feed starts from empty tables; rows that existed before migration 003 appear in it with their next change. Emission order across accounts is by file id, not by account, which no account can see.
- ChangeFeed.ReaderMissesNothing: account locks make emissions of one account serial; the model takes them so.
- Grants.WindowLimit: times are whole units of the database clock.
- Grants.MonthLimit: calendar months are an arbitrary numbering of times.
- Scheduler.RunIsOrderly: one run at a time; several files waiting for each other, IndexedDB and progress figures are left out. A failing checkpoint is a step of its own, and does send a confirmed part again within its six attempts.
- Scheduler.RunIsBounded: the bound counts steps, not time; that every await ends one way or another is taken for granted.
- Backup.EncryptBackup: the 8-byte seed is a parameter; AES-GCM is a pair of abstract functions.
- BackupFormat.OnlyOriginalsAccepted: assumes an ideal cipher and that no two backups under one key have the same version and seed.
- Fields.EncodeRoundTrip: in decoding, characters outside both alphabets are skipped; the padding sign is one of them.
- Fields.FieldRoundTrip: texts are UTF-8 bytes, so lone surrogates do not occur.
- Fields.StoredDigestFound: contexts are taken to contain no NUL character, the separator of the digest input.
- Planning.PlanFitsStorageLimit: the part size is taken over the integers; the floating-point expression agrees with it for sizes up to 5 TiB.
- Purging.NeededBytesExist: transactions run one at a time, which the code does not enforce at READ COMMITTED; Races.LateWriteBytesExactly, Races.LateCopyBytesExactly, Races.LateSwitchBytesExactly and Races.LateRemovalBytesExactly say exactly when an unlocked read that went stale breaks it.
- Purging.UnreferencedForGood: the same; Races.LateWriteRefsExactly says exactly when a late write breaks it.
- Concurrency of transactions: runs are sequences of whole transactions. Row and advisory locks order many of those that meet on a row, but not all of them; interleavings inside a transaction other than the late writes of Races are not modelled.
- A request that fails validation of its body changes nothing and is not a step.
- Sessions, accounts, CMS, support tickets, e-mail, API keys, SEO, traffic figures and provisioning: simple guarded updates or input and output.
