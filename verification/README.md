# Miniform in Dafny

Miniform is a self-hosted form backend: one process, one SQLite database and one directory of uploaded files. This
project models the parts of it where a database step and an effect outside the database have to agree, and proves what
its design relies on. `dafny verify dfyconfig.toml` checks everything.

## What is modelled

**Uploads.** Rows and files share no transaction. Creates write files into a staging directory, commit rows and move the
files in; deletes move originals into a quarantine, commit the delete and resolve the quarantine; at start a recovery
resolves whatever was interrupted by looking at the committed rows. `UploadStore` is the persistent state and its
invariant; `UploadServer` the process with its single file operations and transactions, each of which may fail. The
server's ghost log records, for every state that ever reached the disk, what a crash right then would leave to recover;
contracts about the log are therefore statements about a crash between any two steps. It also counts the locks that
statements and commits have met. `UploadDeletions`, `Management` and `Submissions` are the operations;
`ConcurrentUploads` interleaves any number of creates with other transactions, deletes, recoveries and crashes. A file
*promised* to a row is the one whole content its path has anywhere.

**Outbox and quota.** `Outbox` and `Records`: one event per eligible channel, stored with the submission, and the upload
quota.

**Delivery.** `DeliveryEvents`, `DeliveryQueue` and `Dispatch`: leased claims, fenced saves, manual retries and batches,
with many workers on a clock that moves forward. Claims and manual retries read the clock before their transaction,
which may wait. `DeliveryQueue` interleaves any number of workers; `Dispatch` follows one dispatcher through its batches
while others use the table.

**Recipient safeguard.** `Safeguard`: forms, email deliveries and captcha profiles, including updates that read the
primary delivery before their transaction.

**Accounts.** `Accounts`: logins split into authentication and registration, interleaved with credential changes.

**Deployment.** `Deployment` and `Backups`: restart and restore with compensation, where each command may fail before or
after it took effect; names and retention of backups.

**Rate limits and origins.** `RateLimit` and `Origins`: two refinements. `Text` holds the string operations they share.

In `Accounts` and `Safeguard` the state is one value and the methods of the class take steps on it; their ghost result
`run` lists every step taken during a call, those of other requests included, so the lemmas about runs apply to it, and
`before` is the state their transaction met.

Everything that may fail does so at will, unless `reliable` is set on the server, the host, the backup directory, the
dispatcher or the store: then files, queries and commands work, and only locks and what others do stand in the way.
Contracts say what is refused for which reason in that case, so nothing is ever refused without one.

## What came out

- *The lease fence is not unconditional.* Claims and manual retries read the clock before their transaction. A save is
  accepted only from the last claimer, and attempts are counted right, if and only if not both of them can wait 60
  seconds or more until they commit (`FencingHoldsExactlyWhenPrompt`, `CountsAreRightExactlyWhenPrompt`). The retry
  policy allows 75.56 seconds for either (`RetryBudget`). What holds without any condition: one unexpired lease per
  event, no event stranded or revived, and, in runs without manual retries, the fence and the attempt limit.
- *A stale reading can overtake.* An insert or a manual retry that read the clock before an event was due and commits
  after that goes first. So does one that read it at that very time, for an event created earlier or, created at the
  same time, with a lower key. Nothing else does (`OnlyStaleReadingsOvertake`), and each costs the event one place
  (`ClaimedInTime`).
- *A login survives two email changes that cancel out.* The recheck at registration compares email and hash. A password
  change always ends earlier logins; an email change ends them unless the old email is given back. The comment in
  internal/accounts/accounts.go:256-257 reads as if every credential change did (`AcceptedExactlyWhen`,
  `ReturningEmailRevivesALogin`).
- *Backups in one second.* From the fifth backup of one second on, each new one takes a freed low name and is pruned by
  the same call, which still reports its path (`LostFromTheFifthOn`). A restart or restore whose safety backup is lost
  that way cannot complete its rollback, and says so; in a second later than every backup's it always can
  (`RestartDeployment`, `RestoreSelected`).
- *Rate-limit reads may be late.* The clock is read before the lock is taken, so a delayed reader can miss an entry that
  had not expired at its own time (`LateGetMisses`); with times in order the storage is exact.
- *The safeguard rests on keys that are never reused.* An update addresses the primary delivery it read by key alone
  (`StaleCommitIsSafeExactlyWhen`, `ReusedKeyWouldBreakTheSafeguard`).

## Assumptions

One process owns the data directory (README.md:97), and recovery runs before it serves (internal/app.go:287). Random
tokens, salts and autoincremented keys are new when drawn. Transactions are serialised
(internal/database/manager.go:115-126) and may fail for contention or otherwise; foreign keys are enforced. The clock
does not run backwards. The upload lock is shared by creates and exclusive for deletes and recovery; `ConcurrentUploads`
therefore takes a whole delete or recovery as one step, and `DeleteAlone` and `RecoverAlone` show that what `Management`
and `UploadDeletions` prove of their single steps and crashes is such a step; `CreateAlone` shows that a create of
`Submissions` is a run of its steps. Matcha's reload either runs a new container under the base name, or leaves the
stopped base container in place and perhaps a container under the other name. For address literals only this is used of
`net.ParseIP`: it accepts only hexadecimal digits, colons and dots, nothing that starts with a dot, and ignores case.

## Model

| member | source | states |
|---|---|---|
| StoredPaths.CleanStoredUploadPath | internal/forms/upload_deletions.go:106-112 | An accepted path lies under `uploads/` and has no empty, `.` or `..` segment, however the text was written |
| StoredPaths.CleanedShape | internal/forms/upload_deletions.go:107-111 | Climbing segments survive cleaning only at the front, so a cleaned path that starts with a plain segment is plain throughout |
| StoredPaths.CleanStoredIsIdempotent | internal/forms/upload_deletions.go:106-112 | An accepted path is accepted again, unchanged |
| StoredPaths.CleanLeadsToTheSame | internal/forms/upload_deletions.go:106-112 | Cleaning a relative path does not change where it leads, from whatever directory |
| StoredPaths.AcceptedExactlyWhen | internal/forms/upload_deletions.go:106-112 | A relative path is accepted if and only if from every directory it leads to one place below its `uploads`, and then it is cleaned to that place |
| StoredPaths.StoredIsClean | internal/forms/upload_deletions.go:94-101 | Every path the upload code itself stores is accepted as it is |
| StoredPaths.WalkRecoversOriginal | internal/forms/upload_deletions.go:216-228 | What the recovery walk finds below an operation is the original path of the file staged there (a round trip through the slot path) |
| StoredPaths.StoredUploadPaths | internal/forms/upload_deletions.go:86-104 | The accepted paths of all given rows, each once; an error exactly for an unacceptable one |
| Records.DeletedIsExact | internal/forms/forms.go:331-355 | Deleting a form or a submission leaves nothing of it and takes nothing else, in every table: other forms and submissions stay, with their files, events and delivery settings, all rows as they were |
| UploadStore.SettledHoldsWhatIsReferenced | internal/forms/upload_deletions.go:179-201 | Without interrupted work a file is at a storage path exactly when a committed row references the path, with the promised content |
| UploadStore.SettledIsUnique | internal/forms/upload_deletions.go:179-201 | Rows and promised contents determine the finished store, so recovery has one possible result |
| UploadStore.MoveKeepsMeaning | internal/forms/upload_deletions.go:71-73 | Renaming between two places of a path keeps every row backed by one whole content |
| UploadStore.DropKeepsMeaning | internal/forms/upload_deletions.go:168-170 | Destroying a file that no row references loses no promised content |
| UploadStore.CommittingDelete | internal/forms/management.go:25-45 | Committing a delete once its originals are set aside keeps the contents of all remaining rows |
| UploadStore.ReceivingKeepsMeaning | internal/forms/files.go:181-197 | Writing into a staging slot changes nothing for any committed row |
| UploadDeletions.RestoreStagedUpload | internal/forms/upload_deletions.go:127-145 | The file is back at its path, or was already; an error moves nothing, and the occupied-destination error needs both places occupied |
| UploadDeletions.ResolveStagedFiles | internal/forms/upload_deletions.go:157-171 | By the rows: referenced files go back, others are destroyed; every state on the way means the same to a recovery |
| UploadDeletions.Finish | internal/forms/upload_deletions.go:147-176 | Resolves an operation by the committed rows; may stop anywhere and be run again; the occupied-destination error cannot occur; with working file operations it fails only for a lock |
| UploadDeletions.ResolvingStaged | internal/forms/upload_deletions.go:31-176 | Staging and then finishing gives back the very same tree while the rows stand, and the tree without exactly their originals once they are gone |
| UploadDeletions.RestoreWithRoot | internal/forms/upload_deletions.go:114-125 | Undoing a partial staging puts everything back, last first |
| UploadDeletions.StageStoredFiles | internal/forms/upload_deletions.go:31-84 | On success every accepted original is in the fresh operation and the rest of the tree is untouched; with working file operations a failure leaves everything as it was |
| UploadDeletions.StageAll | internal/forms/upload_deletions.go:57-82 | The loop moves exactly the originals that are there, and no crash in it changes what recovery would restore |
| UploadDeletions.WalkOperation | internal/forms/upload_deletions.go:212-231 | Each file below an operation is listed once under the path its walked name cleans to; a name that cannot be cleaned is an error |
| UploadDeletions.WalkFindsOriginals | internal/forms/upload_deletions.go:212-231 | For what the protocol staged there is no such error, and the paths found are exactly those the files were staged from |
| UploadDeletions.RecoverStagedUploadRoot | internal/forms/upload_deletions.go:203-245 | Success leaves the staging root gone; every state passed through recovers to the same store |
| UploadDeletions.RecoverUploadDeletions | internal/forms/upload_deletions.go:179-201 | Success leaves no interrupted work; every state passed through means the same to another recovery; run on a finished store it changes nothing; with working I/O it succeeds |
| UploadDeletions.RecoveriesAgree | internal/forms/upload_deletions.go:179-201 | Wherever a recovery was cut short, a second one that succeeds ends in the very store the first would have ended in |
| Management.DeleteRecords | internal/forms/forms.go:331-355 | The statements together, each of which may fail, delete exactly the target; those on delivery settings and the form itself run for a form only; contention comes from a lock that was met |
| Management.UndoEarlierAttempt | internal/forms/management.go:27-32 | A rerun first undoes what the attempt before it staged |
| Management.FinishingHeld | internal/forms/management.go:46-46 | Finishing what a delete holds, even after partial finishes, leaves the original tree or the tree without its originals, as the rows say |
| Management.DeleteAttempt | internal/forms/management.go:25-45 | One run of the transaction body: commits the whole delete, or changes neither rows nor meaning; contention exactly when it met a lock, and with working I/O no other failure of a target that exists |
| Management.DeleteWithRetry | internal/pkg/dbtxn/retry.go:23-55 | Contention exactly when all ten runs met a lock; rows and meaning are then as before |
| Management.Delete | internal/forms/management.go:20-56 | One point in time separates "everything recovers as before" from "rows and contents gone, all else kept"; with working I/O a target that exists is deleted, rows and files both, if and only if fewer than ten runs met a lock, and otherwise both are unchanged |
| Outbox.CreateDeliveryEvents | internal/forms/submissions.go:153-171 | In the form's own settings: a webhook event if and only if the webhook is enabled and has a URL, and for each email delivery one if and only if it is enabled, has a recipient and, when a field gives it, a captcha; each once, none other, and no other row changes |
| Outbox.EventsAnnounce | internal/forms/submissions.go:153-171 | One event for each eligible channel says just that of the settings |
| Outbox.CheckUploadQuota | internal/forms/submissions.go:135-151 | Accepts exactly when there is no file, no maximum, or stored and incoming bytes fit it |
| Outbox.SumSizes | internal/forms/submissions.go:139-142 | The sum of sizes over the file rows, in any order |
| Outbox.AddedBytes | internal/forms/submissions.go:107-117 | Stored bytes grow by exactly the bytes of the new records |
| Outbox.AddedFilesAreDistinct | internal/forms/submissions.go:107-117 | Rows for files no row has named before keep different rows on different files |
| Outbox.QuotaIsKept | internal/forms/submissions.go:135-151 | A create that passed the check keeps stored bytes within the maximum |
| Outbox.FewerRowsFewerBytes | internal/forms/submissions.go:138-144 | Deleting rows never raises the stored bytes |
| Outbox.StoringKeepsLinks | internal/forms/submissions.go:88-119 | A stored submission keeps all foreign keys |
| Outbox.ConsumeHoneypot | internal/forms/submissions.go:173-188 | Both bait fields leave the payload; spam exactly when one of them held a text that is not blank or any other value than null |
| Submissions.SaveFilesAt | internal/forms/files.go:159-213 | All uploads complete in the staging directory, or the directory is emptied again; no committed row notices; with working I/O and names of their own they complete |
| Submissions.StageUnassignedFiles | internal/forms/files.go:135-157 | The same under a fresh token, with the operation removed after a failure |
| Submissions.StoreRows | internal/forms/submissions.go:88-119 | One run of the body stores submission, files and events together, also when an earlier run was rolled back and left its keys in the records |
| Submissions.CommittingCreate | internal/forms/submissions.go:88-119 | The commit promises the staged contents to the new rows and changes no other |
| Submissions.StoreWithRetry | internal/pkg/dbtxn/retry.go:23-55 | However many attempts: all rows in one commit, or none; stored bytes within the maximum; contention exactly when all ten met a lock |
| Submissions.FinishUploads | internal/forms/submissions.go:120-120 | After a commit all files arrive at their storage paths, after a failure none stays |
| Submissions.CreateSubmission | internal/forms/submissions.go:53-133 | One point in time separates "no trace" from "submission, file rows, contents and the events its settings call for"; an error leaves no row; spam has neither files nor events; with working I/O and uploads with names of their own it is refused only for an empty submission, a full quota, a missing form or ten locks |
| ConcurrentUploads.DeleteAlone | internal/forms/management.go:20-56 | A whole delete is a step of the machine, and so is whatever state a crash at any moment of it leaves |
| ConcurrentUploads.RecoverAlone | internal/forms/upload_deletions.go:179-201 | The same for a recovery |
| ConcurrentUploads.CreatedByARun | internal/forms/submissions.go:71-133 | For every committed create there is a run of its steps, receiving each upload, committing and moving the files in, that leaves the same to be recovered and ends with all files at their paths |
| ConcurrentUploads.AbandonedByARun | internal/forms/submissions.go:120-133 | A create that cannot commit has a run that destroys what it received and leaves the store as it was |
| ConcurrentUploads.DiscardedByARun | internal/forms/files.go:159-213 | So has one whose writing failed |
| ConcurrentUploads.CreateAlone | internal/forms/submissions.go:53-133 | A whole create, at every moment of it, leaves to a recovery what it leaves in some state of a run of the machine, and with working I/O ends with the rows, files and operations such a run ends with |
| ConcurrentUploads.StartIsSafe | internal/forms/upload_deletions.go:179-201 | A process starting on a sound store, an empty one for instance, is in a safe state |
| ConcurrentUploads.StepKeeps | internal/forms/submissions.go:71-133 | Every step of interleaved creates, of other transactions, of deletes and recoveries, and a crash keep the invariant and all contents still referenced |
| ConcurrentUploads.EveryRunIsSafe | internal/forms/upload_deletions.go:31-176 | In every state of every run each committed row has its whole content in exactly one place and no other row names it, and what lies at a storage path is referenced |
| ConcurrentUploads.NothingPromisedIsLost | internal/forms/upload_deletions.go:147-176 | Content is destroyed only when no committed row references it |
| ConcurrentUploads.NeverAClash | internal/forms/upload_deletions.go:133-134 | No create in any run reaches the occupied-destination branch; for deletes and recoveries Finish excludes it |
| ConcurrentUploads.StoredBytesAreTheContents | internal/forms/submissions.go:138-144 | The sum of stored sizes is the number of bytes in the files the rows reference |
| ConcurrentUploads.StoredBytesOverRuns | internal/forms/submissions.go:138-144 | In every state of every run, whatever maximum creates carry or do not carry |
| ConcurrentUploads.QuotaHoldsOverRuns | internal/forms/submissions.go:135-151 | Concurrent creates with one positive maximum never take that sum above it |
| Dbtxn.RetryPause | internal/pkg/dbtxn/retry.go:68-78 | Between the doubled, capped pause and a fifth more |
| Dbtxn.RetryBudget | internal/pkg/dbtxn/retry.go:23-55 | Ten attempts at a locked database may take 75.56 seconds, longer than the 60-second lease |
| DeliveryEvents.NewRetryPlan | internal/jobs/retry.go:30-40 | A valid plan from positive delays, with the limit never below one |
| DeliveryEvents.NextAttempt | internal/jobs/retry.go:42-50 | Absent only without delays; otherwise the delay with the number of the attempt, the last delay for all later ones, and so after now and at most the longest delay away |
| DeliveryEvents.StateRecordsAttempt | internal/jobs/retry.go:100-124 | What an attempt makes of its row: delivered if and only if it was sent; failed if and only if it could not be made or was the last one allowed; otherwise tried again after the delay that serves it; one more attempt counted unless it could not be made |
| DeliveryEvents.EventTable.Claim | internal/jobs/retry.go:68-90 | A lease of 60 seconds exactly for an event neither delivered nor failed and due at the time read, and only status and lease change |
| DeliveryEvents.EventTable.Save | internal/jobs/retry.go:137-162 | Stores the state exactly while the row shows the worker's lease |
| DeliveryEvents.RetryStartsOver | internal/forms/management.go:317-336 | A manual retry gives a failed event all attempts again, due at once and under no lease, touches no other event, and repeated does nothing |
| DeliveryQueue.OneUnexpiredLease | internal/jobs/retry.go:68-90 | At any time at most one worker holds an unexpired lease on an event, however late claims commit |
| DeliveryQueue.Lifecycle | internal/jobs/retry.go:100-124 | In each step: an event becomes delivered if and only if a save of an attempt that was sent is let through, and stays so; failed comes from such a save and is left only by a manual retry; only a save adds an attempt |
| DeliveryQueue.DeliveredExactlyWhenSent | internal/jobs/retry.go:100-162 | Over every run an event ends as delivered if and only if it began so or an attempt that sent it was saved |
| DeliveryQueue.SavesRecordAttempts | internal/jobs/retry.go:100-162 | Under the fence a save records its attempt on the row as it then is |
| DeliveryQueue.EveryOutcomeIsSaved | internal/jobs/retry.go:68-162 | Each way an attempt may end is reached by a run from the empty queue, and its row shows it |
| DeliveryQueue.NeverStranded | internal/jobs/retry.go:42-90 | After every run an event neither delivered nor failed is given to whoever claims it the longer of a lease and the longest delay later |
| DeliveryQueue.DeliveredIsFinal | internal/jobs/retry.go:100-103 | Over every run a delivered event stays as it is |
| DeliveryQueue.TimelyKept | internal/jobs/retry.go:42-60 | Each open event stays due within the longer of lease and longest delay |
| DeliveryQueue.RunsStayTimely | internal/jobs/retry.go:42-90 | Over every run no open event is stranded and leases stay exclusive |
| DeliveryQueue.FencesKept | internal/jobs/retry.go:68-162 | One way to keep the fence: a claim that waited less than a lease leaves every overtaken worker strictly below the current lease |
| DeliveryQueue.SpacedKept | internal/jobs/retry.go:68-162 | The other way, for claims that wait however long: only a manual retry that waited a whole lease can bring an event's next lease down to an older one |
| DeliveryQueue.AccountsKept | internal/jobs/retry.go:137-162 | The attempt count, read after the claim, equals the counted saves, is at most the limit, and below it while open |
| DeliveryQueue.RunsStayFenced | internal/jobs/retry.go:68-192 | Fence and count over every run whose claims wait less than a lease |
| DeliveryQueue.RunsStaySpaced | internal/jobs/retry.go:68-192 | Fence and count over every run whose manual retries wait less than a lease, or that has none |
| DeliveryQueue.CountedOnce | internal/jobs/retry.go:137-192 | Without a manual retry the history counts each accepted save exactly once |
| DeliveryQueue.AttemptsLeft | internal/jobs/retry.go:109-124 | Without manual retries the attempts left bound the counted saves still to come, however late claims are; after manual retries of any delay, as long as claims wait less than a lease |
| DeliveryQueue.StaleSaveAccepted | internal/jobs/retry.go:137-162 | The run that breaks both, for any plan: a claim and a manual retry that each wait a minute reissue an overtaken worker's lease; its save is let through and notes two attempts where one was made |
| DeliveryQueue.FencingHoldsExactlyWhenPrompt | internal/jobs/retry.go:68-162 | Only the last claimer ever saves if and only if claims, or else manual retries, wait less than a lease between reading the clock and committing |
| DeliveryQueue.CountsAreRightExactlyWhenPrompt | internal/jobs/retry.go:137-192 | The attempt counts of all events are right under exactly the same condition |
| Dispatch.DueEventIds | internal/jobs/retry.go:62-66 | The first ten due events in queue order |
| Dispatch.Dispatcher.Handle | internal/jobs/webhook.go:49-66 | One event is claimed at most once, tried only under the lease that claim was given, and saved only under it with what the attempt came to; a refused claim is passed over, otherwise success means that the save was let through; with a working database it fails only when the event is deleted |
| Dispatch.Dispatcher.ProcessBatch | internal/jobs/webhook.go:39-69 | While submissions, manual retries and deletions go on, the dispatcher claims chosen events only, each once and not before the choice, tries and saves only under a lease it was given, and each save that is let through records the outcome and count of its attempt on the row; without error each was passed over, or claimed and saved; with a working database an error takes a deletion |
| Dispatch.Dispatcher.Run | internal/jobs/runner.go:25-50 | Batch after batch, whether or not the one before failed: what happens is a sequence of rounds as the lemmas below take it, all saves recording their attempts |
| Dispatch.OvertakesExactlyWhen | internal/jobs/retry.go:52-60 | What others do brings exactly one event ahead of an open one when it overtakes, and none otherwise |
| Dispatch.OnlyStaleReadingsOvertake | internal/jobs/retry.go:52-60 | An insert or a manual retry that takes effect overtakes an event if and only if it read the clock before that event was due, or at that very time for an event created earlier, or created at the same time with a lower key |
| Dispatch.StaleRetryOvertakes | internal/forms/management.go:317-336 | A run from an empty table: the retry asked for at 40 of an event that failed in a batch, committed after an event due at 50, goes first |
| Dispatch.BatchMakesWay | internal/jobs/webhook.go:39-69 | A completed batch that leaves a due event alone takes ten of those ahead of it out of its way, whatever others do; only overtaking moves bring any back |
| Dispatch.FailedBatchAddsNothing | internal/jobs/webhook.go:49-66 | A batch that fails brings nothing ahead of it either |
| Dispatch.FirstClaimIsGranted | internal/jobs/retry.go:68-90 | A due event that nobody deletes is as it was until the dispatcher claims it, so the claim is granted |
| Dispatch.ClaimedInTime | internal/jobs/retry.go:52-66 | No starvation: with k events ahead and m overtaking moves, a due event is claimed with success, and saved if that batch completes, or deleted by others, before more than floor((k+m)/10) batches have completed, however many fail in between; until then its row is as it was |
| Dispatch.ClaimedInTimeWithFreshReadings | internal/jobs/retry.go:52-66 | The same within floor(k/10) completed batches when no insert and no retry has a stale reading in the exact sense above |
| Deployment.RunningApplication | cmd/miniform/deployment.go:284-304 | The one running container, or none; two at once are an error |
| Deployment.StopApplication | cmd/miniform/deployment.go:257-282 | On success nothing runs and the stopped container is kept under the base name, with the database as at the halt; a failure after the halt is undone by starting the container again on that database |
| Deployment.PrepareApplicationRollback | cmd/miniform/deployment.go:306-324 | On success only the stopped container is left, under the name it had |
| Deployment.RestartPreviousApplication | cmd/miniform/deployment.go:326-334 | Nothing to do without an original; otherwise it runs again, started on the database as it lay |
| Deployment.RestartStoppedApplication | cmd/miniform/deployment.go:336-341 | The stopped container runs again under its own name on the database it left |
| Deployment.BackupDatabaseForRestore | cmd/miniform/deployment.go:211-226 | A missing or unsound database is no error and gives no backup; a backup holds the database, and is still there exactly when fewer than three recognised names came after it |
| Deployment.RestoreDatabase | cmd/miniform/deployment.go:497-504 | Succeeds only for a sound backup that is still there, and then the database is that backup |
| Deployment.RollbackRestore | cmd/miniform/deployment.go:343-354 | Success puts the safety backup in place and the original back under its name; with working commands it succeeds exactly when that backup is still there |
| Deployment.RestartDeployment | cmd/miniform/deployment.go:228-245 | The database is exchanged only while nothing runs; a rollback happens only after a reload failed, and a completed one brings the halted container back under its name, started on the database of the halt; with working commands it completes if and only if fewer than three recognised backups sort after the safety backup, so always in a second later than every backup's |
| Deployment.RestoreSelected | cmd/miniform/deployment.go:102-130 | The same for a restore, whose selected backup is checked before anything stops and is what the new container starts on; there is a safety backup exactly when the database at the halt was sound |
| Backups.GeneratedIsRecognised | cmd/miniform/deployment.go:618-655 | Every generated name is recognised as a backup again |
| Backups.PartsOfGenerated | cmd/miniform/deployment.go:618-638 | Taking a generated name apart gives the date, the clock and the index it was made from |
| Backups.RecognisedExactlyWhen | cmd/miniform/deployment.go:618-638 | A name is taken for a backup if and only if it is a second that there is, written in the layout, with at most a fraction and a six-character index after it |
| Backups.NameOrder | cmd/miniform/deployment.go:640-655 | Lexicographic order of generated names is the order of second and index |
| Backups.ReadDir | cmd/miniform/deployment.go:704-707 | The listing is complete and ascending |
| Backups.BackupDirectory.AvailableBackupPath | cmd/miniform/deployment.go:640-655 | The lowest free index of the second |
| Backups.BackupDirectory.RemoveOldBackups | cmd/miniform/deployment.go:703-721 | Success keeps exactly the unrecognised files and the three newest backups; a failure keeps at least those |
| Backups.BackupDirectory.CreateDatabaseBackup | cmd/miniform/deployment.go:451-479 | A snapshot of a sound database under the lowest free name, then pruning; whatever fails, the two newest older backups stay |
| Backups.NewBackupSurvives | cmd/miniform/deployment.go:451-479 | The two laws below for one call: the new backup is there afterwards exactly by the names there were, and always in a later second |
| Backups.SurvivesExactlyWhen | cmd/miniform/deployment.go:703-721 | A new backup outlives its own pruning if and only if fewer than three recognised names sort after it |
| Backups.NewestCount | cmd/miniform/deployment.go:715-719 | Pruning leaves three backups, or all when there are fewer |
| Backups.LaterSecondSurvives | cmd/miniform/deployment.go:451-479 | In a second later than every backup's the new backup stays, with the newest two of the old ones |
| Backups.LostFromTheFifthOn | cmd/miniform/deployment.go:640-721 | Of the backups made in one second exactly the first four stay when made; each later one reuses the freed first name and is pruned at once |
| Accounts.AccountStore.Authenticate | internal/accounts/accounts.go:125-153 | A login names a user whose present email and password were given; without such a user the credentials are invalid; with a working database that and missing fields are the only refusals |
| Accounts.AccountStore.RegisterSession | internal/accounts/accounts.go:250-277 | Registers exactly a login still matching under the write lock, with no password stored since it began; of the other sessions exactly the expired ones go |
| Accounts.AccountStore.IsSessionActive | internal/accounts/accounts.go:279-288 | Active sessions belong to a login that would still be accepted |
| Accounts.AccountStore.RevokeSession | internal/accounts/accounts.go:290-297 | The token has no session afterwards and every other session stays |
| Accounts.AccountStore.ChangeEmail | internal/accounts/accounts.go:155-186 | The new email is set, exactly the user's sessions are gone and nothing else has changed; a change to the same email changes nothing; each error with its cause, and none other with a working database |
| Accounts.AccountStore.ChangePassword | internal/accounts/accounts.go:188-207 | The new password is set, exactly the user's sessions are gone and no login begun so far is accepted any more; each error with its cause, and none other with a working database |
| Accounts.AccountStore.ResetPassword | internal/accounts/accounts.go:209-221 | The same without a current password |
| Accounts.AccountStore.StoreHash | internal/accounts/accounts.go:234-248 | The hash made before the transaction is the one stored, together with the end of exactly that user's sessions |
| Accounts.RunKeepsInv | internal/accounts/accounts.go:125-297 | Unique emails, fresh salts, and sessions only of current logins, over every interleaving |
| Accounts.EverySessionIsCurrent | internal/accounts/accounts.go:250-277 | In every state of every run each session was registered by a login whose email and hash are still the user's |
| Accounts.AcceptedExactlyWhen | internal/accounts/accounts.go:255-266 | An earlier login is accepted if and only if no password was stored since and the user has its email again or still |
| Accounts.PasswordChangeEndsLogins | internal/accounts/accounts.go:234-248 | No login begun before a password change has a session at any later point |
| Accounts.EmailChangeEndsLogins | internal/accounts/accounts.go:173-178 | Nor one begun before an email change, unless the old email is given back |
| Accounts.ReturningEmailRevivesALogin | internal/accounts/accounts.go:255-266 | The run that gives it back, from an empty table of users on: after two changes, which end all sessions, the old login opens one |
| Safeguard.PrepareEmailDelivery | internal/forms/email_deliveries.go:206-290 | The prepared settings are the requested ones, field by field, addressed by a field exactly when the source says so; which requests are refused, and how; an enabled one has a mailer and a recipient |
| Safeguard.FormStore.PrimaryEmailDelivery | internal/forms/email_deliveries.go:178-183 | The form's delivery with the lowest key, if it has any |
| Safeguard.FormStore.Create | internal/forms/forms.go:86-166 | A new form with at most the one delivery asked for; an enabled field delivery without a captcha never succeeds; each refusal with its cause, and with a working database none without one |
| Safeguard.FormStore.Update | internal/forms/forms.go:168-264 | Commits exactly what was asked for onto whatever the stale primary row has become, and changes no other row; an enabled field delivery without a captcha never succeeds, nor does removing the captcha under another one; with a working database it is refused only for a cause |
| Safeguard.FormStore.CreateEmailDelivery | internal/forms/email_deliveries.go:69-94 | One more delivery, as asked for, passing the safeguard the form has at that moment; refused only for a cause with a working database |
| Safeguard.FormStore.UpdateEmailDelivery | internal/forms/email_deliveries.go:96-136 | Changes only a delivery of that form, to what was asked for, passing its present safeguard; refused only for a cause with a working database |
| Safeguard.FormStore.DeleteEmailDelivery | internal/forms/email_deliveries.go:138-152 | Removes exactly that delivery of that form |
| Safeguard.RunKeepsInv | internal/forms/forms.go:86-290 | Safeguard, links and the soundness of pending updates over every interleaving |
| Safeguard.EveryRunIsSafeguarded | internal/forms/forms.go:266-290 | In every state of every run an enabled delivery to a submitted address belongs to a form whose captcha profile exists |
| Safeguard.DynamicDeliveriesAreMade | internal/forms/forms.go:86-166 | Such deliveries are made: a request for one with existing profiles leads to it |
| Safeguard.EnabledIsEligible | internal/forms/submissions.go:161-165 | So the outbox never passes over an enabled delivery |
| Safeguard.StaleCommitIsSafeExactlyWhen | internal/forms/forms.go:209-243 | When a stale update is safe: its primary row is gone, its own form's, or the settings suit the form that owns the row |
| Safeguard.ReusedKeyWouldBreakTheSafeguard | internal/forms/forms.go:233-243 | Why keys must never be reused: the update addresses the row by key alone |
| RateLimit.Storage.Get | internal/rate_limit_storage.go:27-44 | The answer of a plain expiring map; it is missed exactly for an entry still valid at the time read but dropped before, which needs a reading behind the latest one |
| RateLimit.Storage.Set | internal/rate_limit_storage.go:46-62 | Stores a copy; with times in order every entry left expires later than now minus one second |
| RateLimit.Storage.Delete | internal/rate_limit_storage.go:64-69 | The key is gone at any time |
| RateLimit.Storage.Reset | internal/rate_limit_storage.go:71-77 | Nothing is left |
| RateLimit.Storage.SweepExpired | internal/rate_limit_storage.go:83-93 | Does nothing within a second of the last sweep; otherwise drops exactly the expired entries |
| RateLimit.StoredBytesAreOutOfReach | internal/rate_limit_storage.go:43-51 | Changing the buffer given to Set or got from Get never changes what is stored |
| RateLimit.LateGetMisses | internal/rate_limit_storage.go:32-41 | The request that reads the clock before another one drops the entry, and looks after it |
| Origins.HostNeedsSlashes | internal/forms/origins.go:94-103 | Only two slashes, at the start or after a scheme, introduce a host |
| Origins.BothSidesAgree | internal/forms/validation.go:55-72 | For an accepted entry the storing side and the matching side read the same host |
| Origins.ValidIsItsOwn | internal/forms/validation.go:55-93 | A valid host is its own origin host |
| Origins.LowerIsValid | internal/forms/validation.go:74-93 | Lower case keeps a host valid |
| Origins.ValidExactlyWhenHostName | internal/forms/validation.go:74-93 | But for addresses, a host is valid if and only if it is labels of letters, digits and inner hyphens, up to 63 characters each and 253 together |
| Origins.HostNamesAreAccepted | internal/forms/validation.go:19-52 | Every host name can be listed, with or without the wildcard, and is kept in lower case |
| Origins.UrlNamesItsHost | internal/forms/validation.go:55-72 | A web address, with or without a port, is read as its host |
| Origins.BracketsAreRemoved | internal/forms/validation.go:55-72 | An address in brackets is read as the address |
| Origins.OneHostAllows | internal/forms/origins.go:16-38 | A list of one host allows, of all valid hosts, exactly those whose labels end in its labels, in any case |
| Origins.MatchesItsNormalForm | internal/forms/origins.go:74-83 | An accepted entry, wildcard or not, matches exactly the hosts its normal form names |
| Origins.RejectedExactlyWhen | internal/forms/validation.go:21-52 | A list is rejected exactly for a bad entry that no `*` comes before |
| Origins.CollectedHosts | internal/forms/validation.go:19-52 | Otherwise the list holds exactly the hosts there are, each once |
| Origins.NormalizeAllowedOrigins | internal/forms/validation.go:17-53 | The loop computes the normal form |
| Origins.NormalizingIsIdempotent | internal/forms/validation.go:17-53 | Normalising an accepted list again changes nothing |
| Origins.NormalizingKeepsTheHosts | internal/forms/origins.go:16-38 | The stored list allows exactly the hosts the typed list allows |
| Origins.MatchesExactlyBySuffixOfLabels | internal/forms/origins.go:82-82 | A host matches exactly when its labels end in the allowed host's labels |

## Left out

- pruneEmptyUploadParents and empty directories below `uploads`: directories carry no content, so nothing stated here depends on them.
- Directories, symbolic links and stray plain files at upload paths or in staging roots: rows and files the protocol itself writes never lead to them; their error branches appear as failing file operations.
- Power loss: a crash of the process keeps every completed file operation; what an operating system may reorder is not modelled.
- A data directory that is unset: the upload code then does nothing.
- Transactions of other requests between two attempts of one delete: the exclusive lock keeps uploads away, and other tables are not read by it.
- File rows written by other or older software, whose content may never have existed.
- Removal of a directory tree is one step in the concurrent model of creates; Submissions removes it file by file.
- UploadServers.Server.Token: freshness of random tokens is built in, as their use requires.
- Deployment.Host.Reload: what Matcha does inside a reload, and SelfUpdate, Install and image pulls.
- Deployment.Host.Replace: checkpointing, permissions, ownership and side files of SQLite; the exchange is its rename.
- Choosing a backup from the printed list, deployment configuration and locking, and searching for a residual database.
- Backups.IsDatabaseBackup: names are taken as ASCII; time.Parse is modelled for this layout only.
- Attempt errors and their shortening, response bodies, signatures and SMTP: a send is an outcome nobody controls.
- Delivery timestamps for display (last attempt, delivered at) and the last-login time of accounts.
- Webhook settings, names, slugs, HTML and templates of forms, reply-to checks, and recipient list parsing: they do not bear on the safeguard.
- Safeguard.EveryRunIsSafeguarded: migration and legacy captcha conversion are not part of the model; it starts from an empty database.
- Accounts: email normalisation and mailbox syntax are given as inputs; bcrypt, token hashing and the seventy-two byte limit are opaque.
- Origins.UrlParse: percent escapes, IPv6 zones and Unicode spaces and case are not modelled; other characters are.
- Form.ValidateRedirectURL: it builds on IsOriginAllowed with more parsing.
- Integer widths: sizes, counters and times are unbounded; sums stay far below 64 bits in practice.
- HTTP handlers, the command line, views, email templates, HTML embedding and exports.
