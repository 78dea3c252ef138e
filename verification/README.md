# Context Relay: protocol model

A Dafny model of the concurrent protocols and byte-level parsers of Context Relay: the MCP bridge, the daemon's
background supervisors, device membership and revocation, the desktop gateway's write identities, hosted sign-in and
hosted sync, and the Mach-O signature walker of the release scripts. Each protocol is a state machine whose steps are
the sections the source runs under one lock or between two `await`s; a class with the source's fields carries out
those steps and is proved against the machine; and the theorems are about every run of the machine, with events in
any order and anything that can fail failing anywhere.

| module | what it models |
|---|---|
| `RateLimit` | the bridge's token bucket, exact against a rule over windows |
| `CallTable` | in-flight tool calls: permits, the race between cancel and completion, reused ids |
| `Framing` | line framing over resumable and abandoned reads, and the bounded writer |
| `ConstraintDigest` | `constraint_digest`, sound and complete against a declarative format |
| `Membership` | the backward walk over membership history with its budgets |
| `RevocationVault`, `Revocation`, `Submission` | the vault's revocation transactions, the crash-resumable application of a receipt, and when a revocation is published |
| `Restart`, `MissedRecord`, `OvertakenRecord` | what a restart does to all accepted receipts, revocations applied without their control record, and revocations after the newest record was overtaken |
| `Preparation`, `Execution`, `NativeMemory` | the three background supervisors |
| `WriteIdentity` | operation ids of desktop writes against lost answers and overlapping calls |
| `HostedAuth`, `HostedSync` | sign-in generations and sessions, and the order, scope and unblocking of sync cycles |
| `Options`, `Sets` | an option type and a fact about set sizes |

`dafny verify dfyconfig.toml` checks the project.

## What the code does not do

Five promises one might expect hold only under a condition. Each has its failing case and the exact condition as
lemmas.

- The framing does not read back every line of bytes: a payload that ends in CR loses it, and no other does
  (`Framing.RoundTrip`, `Framing.TrailingCrIsLost`). The messages the encoder writes end in a closing brace, so all of
  them are read back as sent (`Framing.EncodedMessagesRoundTrip`).
- Applying a revocation receipt does not always leave a control record. It does exactly when the record was there
  already, or the receipt can be recorded, the verified history stands at the parent and the record can be committed:
  its epoch is free, it is lawful, and the newest record stored, if any, is the one the history ends in
  (`Revocation.ApplicationAchieves`). It fails in two ways.
  - If membership reconciliation moved the history to the successor first, the application succeeds without a record
    (`MissedRecord.ReconciledHistoryMissesRecord`); once the history moves on, no application of that receipt succeeds
    in any later run (`MissedRecord.MissedRecordIsNeverAccepted`).
  - If the history moved past the newest record, as any reconciled event makes it
    (`OvertakenRecord.ReconcilingOvertakes`), the application of a revocation that starts there is refused
    (`Revocation.OlderRecordRefuses`). The control records are then frozen in every later run
    (`OvertakenRecord.RecordsAreFrozen`), and no such revocation is ever applied, by itself or by a restart
    (`OvertakenRecord.NoFurtherRevocationApplies`, `OvertakenRecord.EveryRestartFails`).

  The claims about later runs take it that a genuine history never returns to a state it has left.
- A restart does not always finish a revocation that a crash cut off. Receipts are applied again in the order of their
  ids until one fails, so the restart reaches a receipt exactly when every accepted one before it applies
  (`Restart.ReachedExactlyWhenAllBeforeApply`, `Restart.RestartAppliesOnce`). A receipt whose record was missed blocks
  all that follow it (`Restart.MissedRecordBlocksRestart`, `Restart.BlockedVault`).
- The design says that a new digest resets the 750 ms timer, and that an observation is ready only after its digest
  stayed the same for that long. A read of the known baseline does not reset the timer
  (`NativeMemory.TimerFollowsTheRead`), so what is ready was the only digest read since its timer started exactly when
  no probe in between failed or read another baseline (`NativeMemory.ReadyExactlyWhenUndisturbed`), and an edit that is
  undone and made again is ready at once (`NativeMemory.UndoneEditIsReadyAtOnce`). The model follows the code.
- A sign-in silences the jobs before it exactly when its operation id was never a job's generation
  (`HostedAuth.SilenceNeedsFreshIds`); a run with a reused id shows an old job speaking
  (`HostedAuth.ReusedIdRevivesOldJob`). Ids are UUIDs, so the other run theorems take them to be new.

## Model

The first 112 rows are the main results, module by module. The lemmas they rest on follow, and then the functions and
methods that carry out the steps.

| member | source | states |
|---|---|---|
| `RateLimit.ExactlyTheWindowRule` | crates/context-mcp/src/server.rs:496-525 | a decision sequence obeys the window rule if and only if it is the bucket's |
| `RateLimit.RefusedCallsAreNeutral` | crates/context-mcp/src/server.rs:511-524 | deleting refused calls from a sequence changes no other decision |
| `RateLimit.NoLawfulPolicyAdmitsMore` | crates/context-mcp/src/server.rs:496-525 | no policy that keeps every window admits more calls in total |
| `CallTable.PermitsInEveryRun` | crates/context-mcp/src/server.rs:309-351 | in every run free call permits plus live dispatches are 64, free cancel permits plus holding entries plus live cancel jobs are 64, each entry matches exactly one unfinished dispatch by local id, and the cancel permit is there whenever it is taken |
| `CallTable.OneFatePerCall` | crates/context-mcp/src/server.rs:535-586 | in every run each call that has finished met exactly one fate (answered once, canceled, undeliverable); a canceled call is never answered or found undeliverable, and reaches the daemon as exactly one cancel |
| `CallTable.AnswersAreForAdmittedCalls` | crates/context-mcp/src/server.rs:228-236 | every answer carries the id its own call was admitted under, however ids are reused |
| `CallTable.CanceledCallStaysSilent` | crates/context-mcp/src/server.rs:309-363 | a cancel read while its call is in the table silences that call for good and reaches the daemon exactly once |
| `CallTable.CancelsAreAimed` | crates/context-mcp/src/server.rs:309-363 | every daemon cancel comes from a cancel message and is aimed at the local id then active under the named id |
| `CallTable.DeliverableCallIsAnswered` | crates/context-mcp/src/server.rs:571-586 | in every reachable state an uncanceled call with a usable reply is answered under its id, and the id is free again |
| `CallTable.AdmittedExactlyWithRoom` | crates/context-mcp/src/server.rs:447-491 | in every run an id is refused as a duplicate exactly when a call of that id is unfinished, otherwise a call is busy exactly when 64 dispatches hold a permit or 64 cancel permits are held or in use, and otherwise it starts with its own entry |
| `CallTable.UndeliverableCallIsSilent` | crates/context-mcp/src/server.rs:571-586 | in every run a canceled or undeliverable completion sends nothing and still frees the id |
| `CallTable.LateCancelIsIgnored` | crates/context-mcp/src/server.rs:309-351 | in every run a cancel message for an unknown or already canceled call changes nothing |
| `Framing.Serve` | crates/context-mcp/src/protocol.rs:39-67 | for every stream and every schedule of partial and abandoned reads the delivered frames are a prefix of the simple split, all of it when the loop ends, and it ends if reads keep finding bytes |
| `Framing.EncodedIsOneFrame` | crates/context-mcp/src/protocol.rs:105-115 | what the encoder wrote for a message, with anything following it on the wire, is read back as that one message and leaves exactly what follows |
| `Framing.RoundTrip` | crates/context-mcp/src/protocol.rs:39-115 | what the encoder wrote for any conversation of newline-free payloads it accepts is read back as the same payloads if and only if none ends in CR |
| `Framing.EncodedMessagesRoundTrip` | crates/context-mcp/src/protocol.rs:105-115 | for every conversation of JSON objects the encoder accepts, the frames read from the bytes it wrote are those objects, one a line |
| `Framing.SameLimit` | crates/context-mcp/src/protocol.rs:105-129 | the writer accepts a payload exactly when the reader returns it and refuses it exactly when the reader reports the size error; what the writer wrote is then read back as the payload |
| `Framing.TrailingCrIsLost` | crates/context-mcp/src/protocol.rs:56-61 | every newline-free payload that ends in CR comes back without that byte |
| `ConstraintDigest.Digest` | scripts/macos_signing.py:16-61 | returns a digest if and only if the image meets the declarative format, and it is the hash of the constraint blob |
| `ConstraintDigest.AcceptedBlobUnique` | scripts/macos_signing.py:16-61 | an image has at most one constraint blob |
| `ConstraintDigest.BlobsPack` | scripts/macos_signing.py:48-60 | the blob sizes of an accepted signature sum to at most length - 12 - 8 * count |
| `ConstraintDigest.OnlySignedBytesMatter` | scripts/macos_signing.py:16-61 | altering any other byte changes the result in neither direction |
| `ConstraintDigest.EveryBlobIsAccepted` | scripts/macos_signing.py:16-61 | every blob that states its own size and fits a signature is the constraint of some accepted image, so the format is not empty |
| `ConstraintDigest.AcceptedImageBegins` | scripts/macos_signing.py:22-47 | byte for byte, an accepted image begins as a thin arm64 executable, its signature as an embedded signature, and both are within their limits |
| `Membership.FoundChainIsSound` | crates/contextd/src/pairing.rs:246-308 | whatever the server answers, a found chain is linked from local to remote, was fetched link by link, and keeps both budgets |
| `Membership.WalkIsComplete` | crates/contextd/src/pairing.rs:246-308 | over a fixed store the walk succeeds if and only if a chain within both budgets exists |
| `Membership.FailsForWantOfAnAnswerExactly` | crates/contextd/src/pairing.rs:266-293 | the walk fails as unavailable if and only if everything up to some fetch linked up and that fetch brought no answer; every other failure is a conflict |
| `Revocation.ReconcileAchieves` | crates/contextd/src/pairing.rs:246-308 | success means the old history plus a linked chain to the remote endpoint within both budgets, that endpoint activated unless the history already was there, and control records untouched |
| `Revocation.ReconcilesExactly` | crates/contextd/src/pairing.rs:246-308 | in every ledger: reconciliation succeeds if and only if the verified history is at the remote endpoint, or a chain found leads on to it and its keys open; and what the ledger is afterwards, in success (endpoint active) and in each failure |
| `Revocation.CrashedApplicationResumes` | crates/contextd/src/pairing.rs:333-403 | from every crash point, applying again ends exactly as the uninterrupted application, in success and failure |
| `Revocation.ManyCrashesResume` | crates/contextd/src/pairing.rs:333-403 | so after any number of crashes |
| `Revocation.ApplicationAchieves` | crates/contextd/src/pairing.rs:333-403 | in every vault: an application succeeds if and only if its receipt can be recorded and is ripe at the parent or settled past it; its control record is stored afterwards if and only if it was before, or the receipt can be recorded, the history stands at the parent and the record can be committed; and the whole vault afterwards, in success and in failure |
| `Revocation.TrailInOrder` | crates/contextd/src/pairing.rs:333-403 | at every crash point the receipt is durable before anything else changes, the record before the history, and the history before the activation |
| `Revocation.OlderRecordRefuses` | crates/core/src/vault/revocation.rs:701-718 | when the newest stored record does not lead to the parent, the application changes nothing and leaves no record, whatever else holds |
| `Revocation.MovedOnHistoryIsKept` | crates/contextd/src/pairing.rs:333-403 | with the record in place and the history past the successor, applying again changes only the activation |
| `Revocation.SuccessionAllApplies` | crates/contextd/src/pairing.rs:333-403 | as long as no record was missed or overtaken, every succession of revocations in order applies, however long; each is recorded under the control epoch it leads to, no record is lost, and both epochs advance by one each |
| `Restart.RestartAppliesOnce` | crates/contextd/src/pairing.rs:676-686 | with any number of other accepted receipts, of which none is left to advance the history: a restart succeeds if and only if every accepted receipt with a smaller id is settled, this one is ripe or settled, and every larger one is settled after it; its history and control records are those of one application, or unchanged if a smaller one is not settled |
| `Restart.RestartCompletesCrashedApplication` | crates/contextd/src/pairing.rs:333-430 | the same after a crash anywhere past the recorded receipt, against the application that was cut off |
| `Restart.ReachedExactlyWhenAllBeforeApply` | crates/contextd/src/pairing.rs:405-430 | in every vault the loop gets as far as an id if and only if every receipt before it applies in its turn |
| `Restart.MissedRecordBlocksRestart` | crates/contextd/src/pairing.rs:405-430 | an accepted receipt with a smaller id whose record was missed keeps a restart from applying the others |
| `Restart.BlockedVault` | crates/contextd/src/pairing.rs:405-430 | for any two revocations of that kind the second would apply and store its record, yet the restart fails and applies nothing |
| `MissedRecord.ReconciledHistoryMissesRecord` | crates/contextd/src/pairing.rs:246-403 | when membership reconciliation has fetched the successor first, every application succeeds without a control record |
| `MissedRecord.MissedRecordIsNeverAccepted` | crates/contextd/src/pairing.rs:246-403 | once a genuine history went through a revocation and on without its record, then after any reconciliations and applications, whole or cut off, no application of it succeeds and its record is never stored |
| `MissedRecord.CrashThenReconciliation` | crates/contextd/src/pairing.rs:246-403 | an application cut off anywhere, then any reconciliations, then applied again: it succeeds with its record if and only if the history is still at the parent, or the record was committed before the crash and the history went through the revocation |
| `OvertakenRecord.RecordsAreFrozen` | crates/core/src/vault/revocation.rs:683-732 | once the history has left the state the newest record led to, no run of reconciliations and applications, whole or cut off, changes a control record |
| `OvertakenRecord.NoFurtherRevocationApplies` | crates/contextd/src/pairing.rs:333-403 | in every such run no revocation that starts where the history stands is applied, and the ledger stays as it is |
| `OvertakenRecord.EveryRestartFails` | crates/contextd/src/pairing.rs:405-430 | nor does a restart at any time apply it, if no other accepted receipt is left to advance the history |
| `OvertakenRecord.ReconcilingOvertakes` | crates/contextd/src/pairing.rs:246-308 | one reconciliation past an applied revocation is enough to overtake its record |
| `Submission.PublishedOnlyAfterDurableMark` | crates/contextd/src/pairing.rs:432-488 | in every run each publish happened with the durable state Submitting, reached from Prepared or Unconfirmed without send-cancel; a repeat starts from Unconfirmed; an intent canceled before sending was never published |
| `Submission.NeverPublishedAgain` | crates/contextd/src/pairing.rs:432-488 | once an intent is Accepted, Conflict or flagged as canceled it is never published again |
| `Submission.CanceledIsNeverPublishedAgain` | crates/core/src/vault/revocation.rs:483-506 | after a cancel request at any moment of any run nothing of that intent is published again and the flag stands; one canceled while prepared is canceled before sending for good and never published at all |
| `Submission.DispositionsMoveAsTheyMay` | crates/core/src/vault/revocation.rs:428-558 | in every run a disposition moves only along the allowed edges, each only by its own event, and send-cancel is set exactly by a cancel request |
| `Submission.OutcomeIsRecorded` | crates/contextd/src/pairing.rs:459-488 | in every run a refused publication is a conflict and one with the expected receipt is accepted, both for good; a wrong receipt changes nothing and no answer leaves it unconfirmed |
| `Submission.StatusIsRecorded` | crates/contextd/src/pairing.rs:432-458 | the same for what a status request learns of an intent under way |
| `Submission.SentOnExactlyWhenSendable` | crates/contextd/src/pairing.rs:629-672 | in every run a revoke request publishes once more exactly when the intent is prepared or unconfirmed and not canceled |
| `Submission.VerdictStandsInEveryRun` | crates/core/src/vault/revocation.rs:508-558 | Accepted and Conflict are final in every run |
| `Preparation.OneTaskInEveryRun` | crates/contextd/src/harness_preparation.rs:193-243 | in every run, with close at any moment, at most one item of work is queued or running, the worker never finds its operation missing, and an admitted start and the first Stop always find room in the channel of two |
| `Preparation.AdmittedStartSucceeds` | crates/contextd/src/harness_preparation.rs:193-243 | so an admitted start never answers with an internal error |
| `Preparation.ArtifactsConserved` | crates/contextd/src/harness_preparation.rs:81-119 | in every run each artifact produced is in exactly one place: held, queued for disposal, being built, built or dropped |
| `Preparation.BuiltAtMostOnce` | crates/contextd/src/harness_preparation.rs:257-304 | an artifact handed to `build` is never held or handed out again |
| `Preparation.FailedExactlyWithError` | crates/contextd/src/harness_preparation.rs:332-355 | in every run a status says Failed exactly when it carries an error |
| `Preparation.LateReportNeedsAnUnfailedOperation` | crates/contextd/src/harness_preparation.rs:93-99 | a report in any state of any run would keep that so if and only if the operation has not failed, and would hit the `expect` if and only if there is none |
| `Preparation.StoredPreviewReplays` | crates/contextd/src/harness_preparation.rs:257-304 | in every run, once a preview is stored, it stays with its operation as long as that is in place and answers every preview of it while the supervisor accepts |
| `Preparation.BuiltPreviewReplays` | crates/contextd/src/harness_preparation.rs:290-303 | what a build returns answers every later preview of its operation, and the operation shows failed exactly when the build failed |
| `Preparation.ResultIsShown` | crates/contextd/src/harness_preparation.rs:102-118 | in every run a task's result shows as ready, canceled or failed as it was returned, and stays so while its operation is in place, except that a failed build makes a ready one failed |
| `Preparation.StartAnswersExactly` | crates/contextd/src/harness_preparation.rs:193-243 | in every run a start is answered with the running operation exactly when it repeats it, is busy exactly when closed, in flight or building, and otherwise begins a new operation |
| `Preparation.PreviewAnswersExactly` | crates/contextd/src/harness_preparation.rs:257-287 | in every run a preview is answered with the stored result, the artifact or busy exactly when each is so |
| `Preparation.CancelFlagExactly` | crates/contextd/src/harness_preparation.rs:306-330 | in every run an operation is flagged as canceled exactly by a cancel of it in flight or by closing, and then shows that it is canceling until its task ends |
| `Execution.HistoryInEveryRun` | crates/contextd/src/harness_execution.rs:20-150 | in every interleaving at most one attempt is open and it is in front with its ticket live, the history holds at most 16 attempts of distinct keys, and an attempt without a ticket is finished |
| `Execution.StartedOnlyWhenAllFinished` | crates/contextd/src/harness_execution.rs:54-86 | a new attempt is admitted if and only if every attempt is finished |
| `Execution.PhasesOnlyAdvance` | crates/contextd/src/harness_execution.rs:123-150 | over any run an attempt goes from queued to running to finished and keeps its outcome |
| `Execution.ResultIsRecorded` | crates/contextd/src/harness_execution.rs:132-140 | from the worker's report on, in every continuation, an attempt is finished and shows an error exactly when the work failed |
| `Execution.NoResultIsAnError` | crates/contextd/src/harness_execution.rs:142-150 | an attempt whose ticket goes without a report, dropped by the worker or refused by the queue, is finished with an error in every continuation |
| `Execution.ReportedResultStands` | crates/contextd/src/harness_execution.rs:142-150 | dropping the ticket after a report leaves the reported outcome for good |
| `Execution.HistoryKeepsTheNewest` | crates/contextd/src/harness_execution.rs:54-86 | in every interleaving the history is a prefix of the latest attempts of each key, newest first, and the newest sixteen of them if none was rejected |
| `Execution.OpenAttemptAnswers` | crates/contextd/src/harness_execution.rs:54-65 | in every run, while an attempt is open, a start gets it exactly when it is accepted and of the same key, and busy otherwise |
| `Execution.EachHappensOnce` | crates/contextd/src/harness_execution.rs:97-150 | in every run a submission is followed by at most one mark or removal, and a ticket begins, reports and goes at most once, in that order |
| `NativeMemory.InFlightIsWhatWasSubmitted` | crates/contextd/src/native_memory.rs:249-341 | in every run, whatever refreshes do, the pending entry of a source in flight is absent or exactly what was submitted, and a source has at most one unanswered submission |
| `NativeMemory.BaselineIsWhatWasSubmitted` | crates/contextd/src/native_memory.rs:202-215 | in every run a success sets its own source's baseline to the submitted digest or leaves all baselines alone; a failure keeps the entry for another try |
| `NativeMemory.ReadyWasStable` | crates/core/src/native_memory/debounce.rs:31-58 | in every run what is pending or in flight was read twice at least 750 ms apart with no other digest read between except the baseline |
| `NativeMemory.StableReadBecomesReady` | crates/contextd/src/native_memory.rs:278-314 | from any state, what reads the same at every scan for 750 ms and is not the baseline is ready |
| `NativeMemory.ReadIsReadyExactlyWhenTimed` | crates/contextd/src/native_memory.rs:278-314 | after a read exactly what was read is pending, if it was before or has been timed for the whole window and is not the baseline, as a first preview exactly until one is complete |
| `NativeMemory.ReadyExactlyWhenUndisturbed` | crates/contextd/src/native_memory.rs:278-314 | in every run, what a scan makes ready was the only digest read since its timer started, if and only if since then no probe of the source failed or read a baseline that is another digest |
| `NativeMemory.TimerFollowsTheRead` | crates/contextd/src/native_memory.rs:288-297 | a running timer is for the digest just read if and only if the read was not the known baseline with a timer running for something else |
| `NativeMemory.UndoneEditIsReadyAtOnce` | crates/contextd/src/native_memory.rs:294-297 | for every edit, baseline and times 750 ms apart, an edit undone in between and made again is ready at once |
| `NativeMemory.LostSourceStaysInFlight` | crates/contextd/src/native_memory.rs:202-215 | in every run, after a submission whose join failed, its source stays in flight in every continuation and is never scanned or submitted again |
| `WriteIdentity.OneLiveIdPerKey` | apps/desktop/src/workspace.ts:776-810 | in every run a key has at most one live id, no two keys share one, and every other id ever assigned is retired |
| `WriteIdentity.LateAnswerKeepsNewerId` | apps/desktop/src/workspace.ts:253-288 | neither a late acknowledgement nor a late cleanup retires a newer id of its key |
| `WriteIdentity.RetiredExactlyWhenObserved` | apps/desktop/src/workspace.ts:271-277 | an acknowledgement removes exactly the entries it observed, all of them applied; whatever was ever retired was applied or discarded on request |
| `WriteIdentity.CreatedAtMostOnePerRetirement` | apps/desktop/src/workspace.ts:776-810 | in every run the records created for a key are at most its retirements, plus one while an id is live |
| `WriteIdentity.AcknowledgedByExactlyOneAnswer` | apps/desktop/src/workspace.ts:812-832 | for every write and id exactly one answer is an acknowledgement: the written record alone, at its revision or as decided; and a write creates a record exactly when that always bears the operation id |
| `WriteIdentity.SentWriteCanBeRetried` | apps/desktop/src/workspace.ts:776-810 | in every run a write that is out and not retired has a recovery copy of itself under its id |
| `WriteIdentity.CopyGoesOnlyOnceRetired` | apps/desktop/src/workspace.ts:265-288 | in every run the copy of an assigned id goes only once the id is retired, so once its write was applied or discarded |
| `WriteIdentity.AnsweredWriteIsDone` | apps/desktop/src/workspace.ts:790-810 | in every run a write that is applied, acknowledged and cleaned up ends applied once, with its id retired and its copy gone |
| `HostedAuth.OlderJobsStaySilent` | crates/contextd/src/hosted_auth.rs:122-131 | after a start, cancel, sign-out or close no job launched before it ever changes the state again, whatever follows |
| `HostedAuth.SilenceNeedsFreshIds` | crates/contextd/src/hosted_auth.rs:391-446 | taking a start silences every earlier job if and only if its operation id was never a job's generation |
| `HostedAuth.ReusedIdRevivesOldJob` | crates/contextd/src/hosted_auth.rs:391-446 | a run in which a start reuses the first generation's id, is taken, and is then ended by the late report of that generation's job |
| `HostedAuth.RepeatedStartLaunchesNothing` | crates/contextd/src/hosted_auth.rs:391-404 | a repeated start changes nothing at any later time, is answered with the status while current and a conflict afterwards, and no two jobs share a generation |
| `HostedAuth.ConnectedOnlyBeforeTheDeadline` | crates/contextd/src/hosted_auth.rs:376-387 | under any wall-clock jumps a reply says Connected only for the current generation's last accepted session, before its monotonic deadline and within the lifetime then read |
| `HostedAuth.ReportsConnectedExactlyWhileItLasts` | crates/contextd/src/hosted_auth.rs:376-387 | in every run a status request is told Connected if and only if the shown session lasts on both clocks |
| `HostedAuth.ShownExactlyUntilEnded` | crates/contextd/src/hosted_auth.rs:122-237 | in every run a session is shown exactly from the step of its current, uncanceled job until a report of that job, a request that finds it over, or a sign-out |
| `HostedAuth.TimeEndsEverySession` | crates/contextd/src/hosted_auth.rs:376-387 | whatever the wall clock says, a session is not reported once its lifetime has passed |
| `HostedAuth.SignInStartsExactlyWhen` | crates/contextd/src/hosted_auth.rs:391-450 | in every run a start with a new id is taken exactly when it names the current generation and the client would be told that there is no session; its reply and effect in every case |
| `HostedAuth.CurrentOperationAnswers` | crates/contextd/src/hosted_auth.rs:391-404 | in every run the current operation's id starts nothing: its own request is told where it stands, any other conflicts |
| `HostedAuth.SignOutStartsExactlyWhen` | crates/contextd/src/hosted_auth.rs:451-497 | a cancel is taken exactly while signing in and a sign-out exactly unless signing out; reply and effect in every case |
| `HostedAuth.HandedInTokenIsCanceled` | crates/contextd/src/hosted_auth.rs:412-527 | a token a current job handed in shows nothing ever again once the generation is replaced or the service closed |
| `HostedSync.OneUnblockPerStretch` | crates/contextd/src/hosted_sync.rs:252-276 | over all cycles with any failures, between two unblocks for one session object another was admitted, and every push follows an unblock for its session in the same stretch |
| `HostedSync.OneScopePerCycle` | crates/contextd/src/hosted_sync.rs:406-551 | every step and push of a cycle is in one scope, whatever the key material says in between |
| `HostedSync.EveryTurnIsInCourse` | crates/contextd/src/hosted_sync.rs:406-551 | in every run each cycle begins with Begin and each later turn is the one the answer before it calls for; each answer is what the step and the engine make it |
| `HostedSync.FinishComesLast` | crates/contextd/src/hosted_sync.rs:406-551 | in every run a cycle told to finish had, in order, its certificates, a pull that was done, a checkpoint begun right then, and its end; it is told of more work exactly when an answer in between reported some |
| `HostedSync.AnsweredExactlyWhen` | crates/contextd/src/hosted_sync.rs:217-385 | in every run a step is answered exactly when it is delivered, authorized, in its cycle's scope, done by the engine and, for a new session's certificates, unblocks the outbox; the cycle goes on exactly after an answer that is not final |
| `HostedSync.PushIsFinishedNext` | crates/contextd/src/hosted_sync.rs:277-286 | in every run a push is finished exactly in the step right after it went out, in the same cycle |
| `RateLimit.CreditIsLeastSlack` | crates/context-mcp/src/server.rs:511-524 | for any policy, the credit left at a call is the smallest slack of all windows ending there, and some window attains it |
| `RateLimit.BucketCredit` | crates/context-mcp/src/server.rs:511-524 | the capped, refilled credit of the bucket equals that uncapped account of its own decisions |
| `RateLimit.BucketIsExact` | crates/context-mcp/src/server.rs:496-525 | for every nondecreasing sequence of call times, a call is admitted if and only if every window ending now and starting at this or an earlier call stays within 64 calls plus 16 a second |
| `RateLimit.WindowsDetermineDecisions` | crates/context-mcp/src/server.rs:496-525 | two decision sequences that both obey the window rule are equal |
| `RateLimit.RefusedCallsLeaveSameBucket` | crates/context-mcp/src/server.rs:511-524 | after deleting refused calls the bucket is the same for every later call |
| `RateLimit.GreedyStaysAhead` | crates/context-mcp/src/server.rs:511-524 | the bucket's count of admissions plus its credit is never behind that of a policy obeying every window |
| `RateLimit.AheadAfterCall` | crates/context-mcp/src/server.rs:511-524 | that lead survives one more call of either kind |
| `CallTable.UnfinishedIsCurrent` | crates/context-mcp/src/server.rs:571-584 | `still_current` is always true |
| `CallTable.StepKeepsInv` | crates/context-mcp/src/server.rs:309-351 | every admit, cancel, complete and end keeps permit conservation and the one-to-one match of entries and dispatches |
| `CallTable.EveryRunKeepsInv` | crates/context-mcp/src/server.rs:309-351 | so does every run |
| `CallTable.LaterStatesOnlyAdd` | crates/context-mcp/src/server.rs:309-351 | cancellations and admissions are never forgotten later in a run |
| `Framing.FramesOfLine` | crates/context-mcp/src/protocol.rs:56-66 | a line within the limit is delivered with at most one trailing CR removed, and the rest is split as before |
| `Framing.FramesOverLimit` | crates/context-mcp/src/protocol.rs:62-66 | a line over the limit yields the size error and nothing after it |
| `ConstraintDigest.TooManyCommands` | scripts/macos_signing.py:25 | the early count check refuses no image of the format |
| `ConstraintDigest.SignatureUnique` | scripts/macos_signing.py:27-43 | an image has at most one signature place |
| `ConstraintDigest.SpansPack` | scripts/macos_signing.py:48-60 | pairwise disjoint ranges inside a region have sizes summing to at most its length |
| `ConstraintDigest.OrderIrrelevant` | scripts/macos_signing.py:48-60 | permuting the index entries keeps the verdict and the blob |
| `ConstraintDigest.SameConstraint` | scripts/macos_signing.py:16-61 | an image equal in header, commands and signature (up to index order) accepts the same blob |
| `Membership.LinkedMeans` | crates/contextd/src/pairing.rs:246-308 | a linked chain leads parent to successor from the local to the remote state with no gap |
| `Membership.LedTo` | crates/contextd/src/pairing.rs:246-308 | what the loop has fetched and what is left of it always make up the whole walk |
| `Membership.ChainIsFound` | crates/contextd/src/pairing.rs:246-308 | over a fixed store any chain within both budgets is found |
| `Membership.AnswersOfFixedStore` | crates/contextd/src/pairing.rs:246-308 | over a fixed store what was fetched is what is stored, byte for byte of budget |
| `Revocation.SettleResumes` | crates/contextd/src/pairing.rs:347-403 | settling again from any intermediate state ends as the first settling would have |
| `Revocation.SettleAchieves` | crates/contextd/src/pairing.rs:347-403 | a successful settling advances the history from the parent or leaves it, and says when the record is stored |
| `Revocation.SettlesExactly` | crates/contextd/src/pairing.rs:347-403 | in every ledger a receipt applies if and only if it is ripe or settled, and when its record is stored afterwards |
| `Revocation.SettlesAtParent` | crates/contextd/src/pairing.rs:357-401 | at the parent it applies if and only if it is ripe, leaves its record if and only if that can be committed, and otherwise changes nothing |
| `Revocation.SettleEnds` | crates/contextd/src/pairing.rs:347-403 | where settling ends in every ledger: record, history and activation each change exactly when they can |
| `Revocation.SettleTrailInOrder` | crates/contextd/src/pairing.rs:347-403 | the durable states of settling come in the order record, history, activation |
| `RevocationVault.ExtensionTakenExactly` | crates/core/src/vault/membership.rs:429-510 | an extension is taken if and only if it is within both budgets, joins the two endpoints, and the verified history is what it extends or what it leads to; taking it again changes nothing |
| `RevocationVault.ActivatedWhereTheHistoryEnds` | crates/core/src/vault/membership/activation.rs:64-100 | only the endpoint the verified history ends in is ever activated, and it is whenever it is the one asked for and can be opened |
| `OvertakenRecord.SettleGrows` | crates/contextd/src/pairing.rs:347-403 | an application, whole or cut off, only grows the history and commits at most its own record at its parent |
| `MissedRecord.MovingOnLeavesBehind` | crates/contextd/src/pairing.rs:246-308 | a reconciliation past the successor is what leaves the revocation behind |
| `MissedRecord.LifeKeepsLeftBehind` | crates/contextd/src/pairing.rs:246-403 | every run of reconciliations and applications keeps it left behind |
| `Restart.ResumeInParts` | crates/contextd/src/pairing.rs:405-430 | resuming a list is resuming its parts in turn |
| `Restart.AboveCursor` | crates/contextd/src/pairing.rs:405-430 | what lies above the last id of a page is the rest of the list |
| `Restart.PageStep` | crates/contextd/src/pairing.rs:405-430 | one page and the rest above its cursor are the whole |
| `Restart.SettledExactly` | crates/contextd/src/pairing.rs:371-401 | a receipt that cannot advance the history applies if and only if it is settled, and changes no record |
| `Restart.ResumeQuietly` | crates/contextd/src/pairing.rs:405-430 | resuming such receipts succeeds if and only if each is settled, and leaves history and control records alone |
| `Submission.StepKeepsInv` | crates/contextd/src/pairing.rs:629-672 | every revoke, status, cancel, crash and restart step keeps the submission invariant |
| `Submission.EveryRunKeepsInv` | crates/contextd/src/pairing.rs:432-488 | so does every run |
| `Submission.EveryRunKeepsFiling` | crates/core/src/vault/revocation.rs:508-534 | in every run intents are filed under their own ids and an accepted receipt is the expected one |
| `Submission.CanceledBeforeSendStands` | crates/core/src/vault/revocation.rs:483-506 | canceled before sending is final in every run |
| `Submission.RestartUnconfirms` | crates/core/src/vault/revocation.rs:471-481 | in every run a restart leaves no intent submitting and keeps everything else |
| `Submission.JobsEnd` | crates/contextd/src/pairing.rs:459-488 | in every run the daemon is free for a request exactly when no send is under way and it is not down |
| `Preparation.StepKeepsFlight` | crates/contextd/src/harness_preparation.rs:70-125 | every step keeps at most one item of work in flight and matched to the operation |
| `Preparation.StepKeepsOperation` | crates/contextd/src/harness_preparation.rs:343-355 | every step keeps the operation's status consistent |
| `Preparation.StepKeepsBuild` | crates/contextd/src/harness_preparation.rs:257-304 | every step keeps at most one build per operation |
| `Preparation.StepConserves` | crates/contextd/src/harness_preparation.rs:81-119 | every step conserves artifacts |
| `Preparation.EveryRunKeepsInv` | crates/contextd/src/harness_preparation.rs:70-125 | every run keeps all of these |
| `Preparation.ShownStands` | crates/contextd/src/harness_preparation.rs:102-118 | what an ended operation shows stands while it is in place |
| `Preparation.ProgressIsShown` | crates/contextd/src/harness_preparation.rs:343-355 | each stage is shown under its own name unless canceling, with capped counts |
| `Preparation.WorkerMovesInOrder` | crates/contextd/src/harness_preparation.rs:81-118 | in every run the worker takes, looks up, works and waits again, each by its own event, stops only at a Stop and never panics |
| `Execution.StepKeepsInv` | crates/contextd/src/harness_execution.rs:20-150 | every step under a lock keeps the history invariant |
| `Execution.EveryRunKeepsInv` | crates/contextd/src/harness_execution.rs:20-150 | so does every interleaving |
| `Execution.StepMoves` | crates/contextd/src/harness_execution.rs:123-150 | one step moves a phase only forward |
| `Execution.AcceptedFromItsMark` | crates/contextd/src/harness_execution.rs:101-106 | an attempt is accepted exactly from its mark on |
| `Execution.EveryRunKeepsNewest` | crates/contextd/src/harness_execution.rs:54-113 | every run keeps the history newest first, with a place lost only to a rejected attempt |
| `NativeMemory.StepKeepsInv` | crates/contextd/src/native_memory.rs:202-240 | every scan, submission, answer, lost answer and refresh keeps the bookkeeping and the probe history |
| `NativeMemory.EveryRunKeepsInv` | crates/contextd/src/native_memory.rs:202-240 | so does every run |
| `NativeMemory.SubmittedExactlyWhenAdmitted` | crates/contextd/src/native_memory.rs:318-341 | in every run a pending entry is submitted exactly when its source is not in flight and the worker admits it |
| `NativeMemory.ScanTouchesOneSource` | crates/contextd/src/native_memory.rs:271-316 | a turn of the scan changes nothing of another source or of one in flight, and is noted |
| `NativeMemory.FailedReadForgetsTheTimer` | crates/contextd/src/native_memory.rs:282-287 | a failed read keeps what is ready and restarts the timer of what is not |
| `NativeMemory.RefreshForgetsExactly` | crates/contextd/src/native_memory.rs:249-269 | a refresh forgets exactly what was pending or timed for sources that went away |
| `WriteIdentity.StepKeepsLive` | apps/desktop/src/workspace.ts:253-288 | every step keeps live ids and assigned, unretired ids the same thing |
| `WriteIdentity.StepKeepsSettled` | apps/desktop/src/workspace.ts:253-288 | every step retires only applied or discarded ids |
| `WriteIdentity.RetiresOnlyApplied` | apps/desktop/src/workspace.ts:812-832 | an acknowledged write retires a creation only after the daemon applied it |
| `WriteIdentity.EveryRunKeepsInv` | apps/desktop/src/workspace.ts:776-810 | every run keeps the identity invariant, with any call failing or overlapping |
| `WriteIdentity.EveryRunKeepsRecoverable` | apps/desktop/src/workspace.ts:776-810 | every run keeps a copy of each write being sent until its id is retired |
| `WriteIdentity.CallsMoveInOrder` | apps/desktop/src/workspace.ts:776-810 | in every run a call goes from preparing to sending to cleaning up, or ends, only by its own events |
| `WriteIdentity.PreparedIsSentExactlyWhenAnswered` | apps/desktop/src/workspace.ts:792-802 | a preparation leaves the copy it stored and sends the write exactly when it was answered |
| `WriteIdentity.CleanedUpForGood` | apps/desktop/src/workspace.ts:265-288 | cleaning up or discarding an id removes exactly its entry and its copy |
| `WriteIdentity.FailureLosesNothing` | apps/desktop/src/workspace.ts:279-288 | a failed call keeps ids and applied writes, and the copy unless the request to forget it had gone through |
| `HostedAuth.StepKeepsInv` | crates/contextd/src/hosted_auth.rs:352-527 | every request and job step keeps generations unique and Connected backed by a session |
| `HostedAuth.EveryRunKeepsInv` | crates/contextd/src/hosted_auth.rs:352-527 | so does every run |
| `HostedAuth.CurrentReportIsTold` | crates/contextd/src/hosted_auth.rs:122-131 | what the current job reports is what the next status request is told |
| `HostedAuth.ClosedAnswersNothing` | crates/contextd/src/hosted_auth.rs:505-527 | a closed service stays closed, holds no token and answers every request alike |
| `HostedSync.ApplyKept` | crates/contextd/src/hosted_sync.rs:223-276 | a step keeps the record lawful and runs only in the scope it was submitted under |
| `HostedSync.StepKeepsInv` | crates/contextd/src/hosted_sync.rs:406-599 | every turn and every new cycle keeps the invariant |
| `HostedSync.EveryRunKeepsInv` | crates/contextd/src/hosted_sync.rs:406-599 | so does every run |
| `HostedSync.EveryRunKeepsCourse` | crates/contextd/src/hosted_sync.rs:406-599 | every run keeps every turn in course |
| `HostedSync.EveryRunKeepsPairs` | crates/contextd/src/hosted_sync.rs:406-599 | every run keeps each push paired with its finish |
| `HostedSync.WakeOpensTheNextCycle` | crates/contextd/src/hosted_sync.rs:554-599 | in every run a wake-up opens a cycle that begins at the beginning, and its session counts as changed exactly when the outbox was not unblocked for it since another was admitted |
| `HostedSync.CertificatesAreTakenOnce` | crates/contextd/src/hosted_sync.rs:252-256 | an authority takes certificates once, whatever the first step with them came to |
| `RateLimit.ToolCallRateLimit.constructor` | crates/context-mcp/src/server.rs:504-509 | starts full at the given instant |
| `RateLimit.ToolCallRateLimit.Admit` | crates/context-mcp/src/server.rs:511-524 | admits and moves the bucket as the specification says, with the saturating 128-bit arithmetic of the source |
| `CallTable.Server.constructor` | crates/context-mcp/src/server.rs:71-81 | an empty table with 64 free permits of each kind |
| `CallTable.Server.CallTool` | crates/context-mcp/src/server.rs:447-491 | admission refuses a duplicate id or a missing permit, and otherwise takes both permits and enters the call |
| `CallTable.Server.Cancelled` | crates/context-mcp/src/server.rs:309-351 | a cancellation flags the call, hands its permit to one cancel job and never finds that permit missing |
| `CallTable.Server.CompleteCall` | crates/context-mcp/src/server.rs:571-586 | the completion section answers a current, uncanceled call, gives back the unused cancel permit and removes the entry |
| `CallTable.Server.DropCallPermit` | crates/context-mcp/src/server.rs:535-586 | the call permit returns when the dispatch ends |
| `CallTable.Server.DropCancelPermit` | crates/context-mcp/src/server.rs:342-348 | the cancel permit returns when the cancel job ends |
| `Framing.Connection.constructor` | crates/context-mcp/src/protocol.rs:39-44 | nothing read, nothing buffered |
| `Framing.Connection.TakeChunk` | crates/context-mcp/src/protocol.rs:51-52 | takes bytes up to and with the first newline and loses none |
| `Framing.Connection.ReadUntilLf` | crates/context-mcp/src/protocol.rs:43-52 | one bounded read up to a newline that may be abandoned between any two chunks keeps every byte |
| `Framing.Connection.ReadMessage` | crates/context-mcp/src/protocol.rs:39-67 | resumes the buffered line and delivers the next frame of the split, the end, or the size error; an abandoned read loses nothing |
| `Framing.Connection.TakeMessage` | crates/context-mcp/src/protocol.rs:39-67 | the caller takes the frame and the buffer is empty for the next one |
| `Framing.BoundedWriter.Write` | crates/context-mcp/src/protocol.rs:117-125 | a write is refused exactly when it would pass the limit, and then changes nothing |
| `Framing.EncodeMessage` | crates/context-mcp/src/protocol.rs:105-115 | however the serializer cuts the text, the result is the encoding that `EncodedIsOneFrame` and `SameLimit` fix: one frame with that text, or a refusal exactly over the limit |
| `ConstraintDigest.FindSignature` | scripts/macos_signing.py:24-43 | finds the signature command if and only if the load commands tile their region exactly and hold one well-placed signature command |
| `ConstraintDigest.FindConstraint` | scripts/macos_signing.py:48-60 | finds the constraint if and only if all blobs are in bounds, slots are distinct, ranges disjoint and slot 11 is present |
| `ConstraintDigest.TableDigest` | scripts/macos_signing.py:44-61 | the digest of a signature is that of its slot 11 blob, or there is none |
| `Membership.Walk` | crates/contextd/src/pairing.rs:246-308 | the backward loop computes the specification and makes at most 4096 fetches |
| `RevocationVault.Vault.Begin` | crates/core/src/vault/revocation.rs:428-451 | only an intent that is Prepared or Unconfirmed without send-cancel becomes Submitting; any other known one is left alone |
| `RevocationVault.Vault.SetUnconfirmed` | crates/core/src/vault/revocation.rs:453-469 | only Submitting becomes Unconfirmed |
| `RevocationVault.Vault.Recover` | crates/core/src/vault/revocation.rs:471-481 | afterwards no intent is submitting: each that was is unconfirmed with its artifacts and its send-cancel kept, and every other intent is as before |
| `RevocationVault.Vault.Cancel` | crates/core/src/vault/revocation.rs:483-506 | send-cancel is durable: a Prepared intent ends canceled before sending, a submission under way becomes Unconfirmed, a verdict stands (for every run: `Submission.CanceledIsNeverPublishedAgain`) |
| `RevocationVault.Vault.Accept` | crates/core/src/vault/revocation.rs:508-534 | only the expected receipt is stored and never over a conflict; the same receipt again changes nothing |
| `RevocationVault.Vault.SetConflict` | crates/core/src/vault/revocation.rs:536-558 | an undecided intent becomes a conflict; a decided one keeps its verdict |
| `RevocationVault.Vault.Commit` | crates/core/src/vault/revocation.rs:683-732 | stores a control record that is lawful over the history, if the newest stored record matches the end of the history; the same record again changes nothing, another at its epoch is refused |
| `RevocationVault.Vault.Extend` | crates/core/src/vault/membership.rs:429-510 | an extension within both budgets is taken only from the expected endpoint and only if the longer history verifies up to the successor; one already in place is accepted without change |
| `RevocationVault.Vault.ActivateCurrent` | crates/core/src/vault/membership/activation.rs:64-100 | the endpoint is activated only if the verified history ends there and its material opens |
| `Revocation.ApplyRevocationReceipt` | crates/contextd/src/pairing.rs:333-403 | applies a receipt as a series of durable transactions; each intermediate state is on the specified trail |
| `Revocation.SettleReceipt` | crates/contextd/src/pairing.rs:347-403 | the part after the receipt is recorded: commit at the parent, or confirm an existing record, then activate |
| `Revocation.ReconcileMembership` | crates/contextd/src/pairing.rs:246-308 | walks back, extends the stored history by exactly the found chain and activates the remote endpoint (`ReconcilesExactly`) |
| `Restart.ResumeAcceptedRevocations` | crates/contextd/src/pairing.rs:405-430 | paging by cursor through the stored ids visits each exactly once, in order, stopping at the first failure; past 4096 ids it fails after the whole pages that fit |
| `Restart.ResumePreparedDecisions` | crates/contextd/src/pairing.rs:676-686 | a restart recovers submissions and then resumes every accepted receipt |
| `Restart.ResumePage` | crates/contextd/src/pairing.rs:415-428 | one page of that loop, and what is left of the loop after it |
| `Restart.TurnPage` | crates/contextd/src/pairing.rs:409-418 | the next page starts what is left to resume, or nothing is |
| `Submission.SendRevocation` | crates/contextd/src/pairing.rs:459-488 | a send publishes exactly when the intent is sendable; the outcome is recorded on the durable mark, and a receipt is applied to the ledger |
| `Preparation.Supervisor.constructor` | crates/contextd/src/harness_preparation.rs:70-80 | accepting, no operation, empty channel |
| `Preparation.Supervisor.TrySend` | crates/contextd/src/harness_preparation.rs:233-241 | a send succeeds exactly when the channel has room |
| `Preparation.Supervisor.Start` | crates/contextd/src/harness_preparation.rs:193-243 | replays the same request, refuses conflicts and busy states, and otherwise replaces the operation and sends its work |
| `Preparation.Supervisor.Receive` | crates/contextd/src/harness_preparation.rs:81-82 | the worker takes the next item |
| `Preparation.Supervisor.Look` | crates/contextd/src/harness_preparation.rs:83-91 | the worker reads its operation under the lock |
| `Preparation.Supervisor.Report` | crates/contextd/src/harness_preparation.rs:343-355 | a report changes only the status: never to ready, canceled or failed, with a requested cancellation kept visible and the counts capped |
| `Preparation.Supervisor.Finish` | crates/contextd/src/harness_preparation.rs:102-118 | the result ends the operation: an artifact held, canceled, or failed |
| `Preparation.Supervisor.PreviewBegin` | crates/contextd/src/harness_preparation.rs:265-287 | a preview replays its stored result or takes the artifact |
| `Preparation.Supervisor.PreviewEnd` | crates/contextd/src/harness_preparation.rs:290-303 | the built result is stored for replay |
| `Preparation.Supervisor.Cancel` | crates/contextd/src/harness_preparation.rs:306-318 | cancel flags an active operation |
| `Preparation.Supervisor.Close` | crates/contextd/src/harness_preparation.rs:320-330 | close stops admission once and sends Stop once |
| `Preparation.Supervisor.Clear` | crates/contextd/src/harness_preparation.rs:332-341 | clear drops the operation with its artifact |
| `Execution.ExecutionClient.constructor` | crates/contextd/src/harness_execution.rs:20-22 | no history |
| `Execution.ExecutionClient.Start` | crates/contextd/src/harness_execution.rs:54-86 | replays an accepted open attempt, is busy with any other, and otherwise puts a new attempt in front and trims the history |
| `Execution.ExecutionClient.StatusOf` | crates/contextd/src/harness_execution.rs:32-47 | finds the accepted attempt of a key exactly when the history holds one |
| `Execution.ExecutionClient.Submitted` | crates/contextd/src/harness_execution.rs:97-100 | the worker takes the ticket or drops it |
| `Execution.ExecutionClient.MarkAccepted` | crates/contextd/src/harness_execution.rs:101-106 | the attempt is marked accepted after submission |
| `Execution.ExecutionClient.RemoveRejected` | crates/contextd/src/harness_execution.rs:107-113 | the rejected attempt is gone from the history, and every other entry is still there in its order |
| `Execution.ExecutionClient.TicketBegin` | crates/contextd/src/harness_execution.rs:124-130 | a ticket begins a queued attempt |
| `Execution.ExecutionClient.TicketFinished` | crates/contextd/src/harness_execution.rs:132-140 | a ticket finishes its attempt with an error exactly when the work failed (for every run: `ResultIsRecorded`) |
| `Execution.ExecutionClient.TicketDrop` | crates/contextd/src/harness_execution.rs:142-150 | dropping a ticket finishes its attempt if nothing else did |
| `Execution.Retain` | crates/contextd/src/harness_execution.rs:66-71 | the retain loop keeps exactly the entries of other keys, in order |
| `Execution.PopBack` | crates/contextd/src/harness_execution.rs:72-74 | the trimming loop keeps the newest entries |
| `Execution.RetainOthers` | crates/contextd/src/harness_execution.rs:107-113 | the retain loop drops exactly one attempt |
| `Execution.FirstUnfinished` | crates/contextd/src/harness_execution.rs:56-65 | the first open entry, or none if all are finished |
| `NativeMemory.Supervisor.constructor` | crates/contextd/src/native_memory.rs:181-188 | nothing pending, nothing in flight |
| `NativeMemory.Supervisor.Observe` | crates/core/src/native_memory/debounce.rs:31-58 | a new digest or a clock gone back restarts the timer; stable is reported once 750 ms have passed |
| `NativeMemory.Supervisor.Acknowledge` | crates/core/src/native_memory/debounce.rs:60-72 | only the very observation acknowledged ends its timer |
| `NativeMemory.Supervisor.ScanOne` | crates/contextd/src/native_memory.rs:278-314 | one source's turn: skipped in flight, invalidated on a failed read, filtered by the baseline, else observed and readied |
| `NativeMemory.Supervisor.ScanSources` | crates/contextd/src/native_memory.rs:271-316 | one poll is the turn of every source in order |
| `NativeMemory.Supervisor.SubmitOne` | crates/contextd/src/native_memory.rs:324-340 | a pending source not in flight is submitted if the worker admits it |
| `NativeMemory.Supervisor.SubmitPending` | crates/contextd/src/native_memory.rs:318-341 | the submission loop is that for every pending source in order |
| `NativeMemory.Supervisor.Answer` | crates/contextd/src/native_memory.rs:202-215 | a success ends the pending entry and its timer and moves the baseline of a source still registered |
| `NativeMemory.Supervisor.ReplaceRegisteredSources` | crates/contextd/src/native_memory.rs:249-269 | a refresh forgets pending entries and timers of exactly the sources that went away |
| `WriteIdentity.Gateway.constructor` | apps/desktop/src/workspace.ts:222-224 | no pending ids, draft numbers from 1 |
| `WriteIdentity.Gateway.Identify` | apps/desktop/src/workspace.ts:776-790 | same draft and request, same key; a key in use keeps its id; draft numbers are never shared |
| `WriteIdentity.Gateway.RetireEntries` | apps/desktop/src/workspace.ts:271-277 | the loop removes exactly the entries of the acknowledged id or of the creation of the acknowledged record |
| `HostedAuth.Service.constructor` | crates/contextd/src/hosted_auth.rs:271-281 | restoring with an owner, disabled without |
| `HostedAuth.Service.CheckLifetime` | crates/contextd/src/hosted_auth.rs:376-382 | Connected becomes expired once either clock says so |
| `HostedAuth.Service.LaunchLogin` | crates/contextd/src/hosted_auth.rs:416-450 | the new generation replaces the old, whose job is canceled, and one job is launched |
| `HostedAuth.Service.LaunchLogout` | crates/contextd/src/hosted_auth.rs:468-497 | the same for signing out |
| `HostedAuth.Service.BeginLogin` | crates/contextd/src/hosted_auth.rs:391-450 | a start replays, conflicts, is busy, or is taken |
| `HostedAuth.Service.BeginLogout` | crates/contextd/src/hosted_auth.rs:451-497 | a cancel or sign-out conflicts, changes nothing, or is taken |
| `HostedAuth.Service.HandleRequest` | crates/contextd/src/hosted_auth.rs:352-504 | the whole request, with its reply, including a closed or unconfigured service |
| `HostedAuth.Service.Report` | crates/contextd/src/hosted_auth.rs:122-131 | a job's report counts only for the current generation of an open service |
| `HostedAuth.Service.ShowSession` | crates/contextd/src/hosted_auth.rs:182-203 | a session is shown only for the current generation and an uncanceled token, with the deadline worked out beforehand |
| `HostedAuth.Service.Close` | crates/contextd/src/hosted_auth.rs:515-527 | closing is final and cancels the current token |
| `HostedSync.ApplyStep` | crates/contextd/src/hosted_sync.rs:217-385 | the worker's step: authority, material and scope checks, then certificates once with the unblock, or the engine's work |
| `HostedSync.Supervisor.constructor` | crates/contextd/src/hosted_sync.rs:554-563 | no session seen yet |
| `HostedSync.Supervisor.TakeTurn` | crates/contextd/src/hosted_sync.rs:406-551 | one turn of the cycle loop: the network call the last answer asks for, the step it calls for (`EveryTurnIsInCourse`), and its answer |
| `HostedSync.Supervisor.RunCycle` | crates/contextd/src/hosted_sync.rs:554-599 | one pass with a session is the cycle run to its end, its turns in course (`FinishComesLast`), and the session is remembered if its change was admitted |

## Left out

- The MCP lifecycle, parameter parsing, tool list paging and everything about JSON text: values arrive parsed, and ids are compared as values.
- Aborting jobs at shutdown, mutex poisoning and panics; a submission whose join fails is modelled in `NativeMemory` only.
- Preparation.FailedExactlyWithError: takes it that a task reports no progress after it has returned, as its reporter's type would allow; `Preparation.LateReportNeedsAnUnfailedOperation` says what such a report would do.
- Locally confirmed pairings (`accept_confirmed_membership_admission`), which extend the history like a reconciliation of one event does.
- Cryptography, SQLCipher, HTTP and the filesystem: hashes are numbers, verification and decoding are given, and each vault transaction is one step.
- The budgets inside the verification of a whole stored history: they are part of what makes it genuine.
- Overflow of 32-bit epochs in control records.
- Reference counting: shared attempts in `Execution` are numbered, and session objects in `HostedSync` are compared by number.
- Error codes and messages beyond the distinctions a caller acts on; every `ValueError` of `constraint_digest` is one rejection.
- Delays: the retry backoff and the re-check interval of `maintain_session`, the poll interval of the native-memory supervisor and the wake-up timer of the sync supervisor. Each may happen at any time.
- Building watched sources from ledgers, and the bytes of a snapshot: a probe yields a digest, absence or a failure.
- Engine work inside sync steps (operations, cursors, checkpoints) and the sync status shown to the user: only scopes, sessions, success and reports of more work are kept.
- The PKCE login exchange (`auth.rs`, `hosted_login.rs`): single use of a verifier would add easy members.
- Recovery-copy listing and its quota error in `workspace.ts`, and the effect of an accepted suggestion on memories.
- User interface, generated bindings, protocol validation, bridge installation, account lifecycle and the remaining scripts.
