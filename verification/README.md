# Companion verification model

A Dafny model of the parts of the S3 RLCD Deck Companion whose guarantees span whole runs, and proofs of
those guarantees. `dafny verify dfyconfig.toml` checks everything.

| part | modules | what is proved |
|---|---|---|
| Encrypted backup | `BackupModel`, `BackupChoices`, `BackupPlan`, `BackupReceipts`, `BackupVault`, `BackupBackend`, `BackupStaging`, `BackupOutcome`, `BackupImport`, `BackupRoundTrip` | the plan that the decisions determine; single-use receipts; secret accounting over every interleaving of imports with failures and crashes; the import as all-or-nothing; export followed by Replace as a round trip |
| Device Link Hub | `HubRegistry`, `HubRuns`, `HubRings` | sessions granted exactly when the device is free, no lost snapshot update, bracketed callbacks, unique sessions, the bounded ring cache as a refinement of the history |
| Diagnostic log | `DiagnosticIntake`, `DiagnosticLog`, `DiagnosticNames`, `DiagnosticBatch`, `DiagnosticTurns`, `DiagnosticOrder`, `DiagnosticWorker`, `DiagnosticExport` | no event lost without being counted, byte bound and retention, order on disk and exactly when it breaks, the export window |
| Codex App Server | `RpcClient`, `ThreadAuthority` | request/response correlation; which threads a published session may belong to, and when the limit of sixteen holds |
| Tools | `OtaSignature`, `StreamFraming`, `Bytes` | the DER reader as a bijection, the manifest as an injection, chunk-independent line framing |
| Quota windows | `QuotaWindows`, `Ordering`, `Decimal` | unique bounded names with a termination proof, rounding, acceptance by the consumer's validator |

How the parts are modelled:

- Code that updates fields under a lock is a class whose methods do the same updates and are proved equal to a
  function on the fields (`ensures View() == F(old(View()))`). Interleavings are runs of a state machine whose
  steps are those functions (`HubRuns`, `RpcClient`, `ThreadAuthority`, `BackupVault`), and the invariants are
  proved for every state of every run.
- The diagnostic worker and the backup import are written as the sequential programs they are. Before each
  access to shared state a method `Others` takes any number of steps of the other goroutines. What a turn of
  the diagnostic worker does to its state is also a function (`DiagnosticTurns`) of what the clock, the sizes
  and retention were; the methods are proved equal to it, and runs of turns are reasoned about with it.
- Storage, the vault, the clock and the random source are nondeterministic. An operation may fail, and a
  failed write may have taken effect all the same. Ghost counters named `faults` count such failures, so that
  the contracts can also say that nothing fails without a cause.

Where the code does not do what one would expect, the model follows the code and the exact condition is proved:

- The diagnostic log can leave the order of appending although the clock never steps back. The event branch
  reads the clock before it commits; if that commit first seals a full batch and then an overflow event that
  carries a later time, the event begins a batch at its older reading and the segment sorts first.
  `DiagnosticOrder.LogCanFallOutOfOrder` is a run of three turns that ends so. `DiagnosticOrder.RunExactly`
  gives the condition for whole runs: the log has always been a contiguous part of the history if and only if
  no new segment was named before the last of those that remained, and `DiagnosticWorker.Run` says the same of
  the worker itself. In terms of times that is a batch begun before the time of the last segment
  (`DiagnosticOrder.BehindInTime`), which for the event branch means that the event was received before it
  (`DiagnosticOrder.EventBranchExactly`).
- The limit of sixteen owned and pending threads can be exceeded: the deferred cleanup of a load that has
  committed can remove the entry of a newer load of the same thread (`ThreadAuthority.LimitCanBeExceeded`).
  `ThreadAuthority.LimitSurvivesExactly` gives the exact condition for one step, and
  `ThreadAuthority.SerialRunKeepsLimit` the limit for callers that serialise the loads of a thread.
- A reply that arrives after its call was cancelled ends the whole RPC client
  (`RpcClient.LateReplyEndsTheClient`). `RpcClient.LateReplyCanHappen` is a run in which an unrelated call fails
  that way, and `RpcClient.LateReplyExactly` the condition: the client survives exactly the replies to calls that
  are still under way and unanswered.
- `der_length` alone accepts one non-minimal form, which no accepted signature can contain
  (`OtaSignature.LengthIsShortestExcept`, `OtaSignature.LongFormIsUnreachable`).
- Of imports racing from one configuration, two can commit if somebody restores that configuration in between,
  and only then (`BackupVault.RacersCannotBothCommit`). `BackupVault.RacersCanBothCommit` is such a run, and
  `BackupVault.RacerCanCommitExactly` the condition for an import with everything staged.

Assumptions about code that is not modelled:

- The contracts of the configuration owner and of the secret store are those of
  `companion/internal/structuredprovider/definition_store.go:216-388` and `:566-578` and of
  `companion/internal/secretstore/store.go:168-287`: each update is atomic, a replacement is a compare-and-swap
  that takes activated references out of the journal and puts retired ones in, a committed update may still
  report an error, and deleting is idempotent. Other edits of the configuration follow the same protocol.
- A secret reference is never issued twice, and digests are injective.
- Encryption is an inverse pair: an archive that decrypts gives the validated document that was encrypted.
- The events that the diagnostic service finds at its start are numbered in the order of the files' names, and
  those it appends after them.
- The encoded length of a diagnostic event is the length it takes in its segment file; the event fields hold
  no character that one of the two encoders would escape.

## Model

| member | source | states |
|---|---|---|
| BackupModel.ValidateDocument | companion/internal/backup/archive.go:201-259 | accepts exactly the documents of at most 6 distinct, reference-free providers whose secrets are bound to their headers in order, with a complete order without repetition and at most 32 distinct device profiles |
| BackupModel.CollectProviders | companion/internal/backup/archive.go:215-233 | succeeds exactly if every provider is valid and no ID is repeated, and then returns the set of IDs |
| BackupModel.CheckOrder | companion/internal/backup/archive.go:234-246 | true exactly for an order of known IDs of the right length without repetition |
| BackupModel.OrderIsPermutation | companion/internal/backup/archive.go:234-246 | in a valid document the display order names each provider exactly once |
| BackupChoices.ParseInvertsRender | companion/internal/backup/service.go:475-505 | conflict keys are injective: no provider or device ID can make two conflicts share a decision |
| BackupChoices.ProviderOrderChoices | companion/internal/backup/service.go:690-717 | returns the two orders: one side's IDs followed by the other side's missing ones |
| BackupChoices.OrdersAreComplete | companion/internal/backup/service.go:690-717 | each order contains every provider of either side exactly once, and they are permutations of each other |
| BackupChoices.OrdersMean | companion/internal/backup/service.go:690-717 | the one begins with the current order and goes on with the archive's other IDs in the archive's order, the other the other way round |
| BackupChoices.PreviewDocument | companion/internal/backup/service.go:445-511 | one line a provider in the archive's order, and the conflicts in a fixed order, each once and with its labels: exactly where archive and configuration disagree, to be decided in every mode but Replace; fails only for an unknown mode |
| BackupChoices.CheckDecisions | companion/internal/backup/service.go:523-541 | accepts exactly if the decision keys are the required conflicts and every value is a proper decision |
| BackupChoices.NoProviderIsLost | companion/internal/backup/service.go:542-592 | a plan contains each provider of the union (of the archive, for Replace) exactly once |
| BackupChoices.PlanIsDetermined | companion/internal/backup/service.go:513-593 | archive, configuration, mode and decisions determine the plan completely |
| BackupChoices.PlannedProviderMeans | companion/internal/backup/service.go:549-570 | a planned provider is the archive's, and its secrets are to be staged, exactly if the archive has it and it is new or was decided for the archive; else it is the current one |
| BackupChoices.PlannedSettingsMean | companion/internal/backup/service.go:578-592 | which side the web and application settings come from, by mode and decision; only Replace and Merge touch the device profiles |
| BackupChoices.PlannedDeviceMeans | companion/internal/backup/service.go:742-768 | a merged profile is the archive's exactly if it is new or was decided for the archive |
| BackupChoices.DecidedMeans | companion/internal/backup/service.go:523-541 | which keys the decisions must have, key by key: the providers of both sides, the order if the two orders differ, the settings that differ, and none for Replace |
| BackupChoices.DecidedDeviceMeans | companion/internal/backup/service.go:494-507 | a profile of both sides is to be decided exactly if the two differ, and never in the mode for providers only |
| BackupChoices.ShownMeans | companion/internal/backup/service.go:468-507 | a provider conflict shows the names of both sides, a profile conflict the device ID, and a decision is asked for in every mode but Replace |
| BackupPlan.PlanImport | companion/internal/backup/service.go:513-593 | succeeds exactly for a known mode and exact decisions; with "provider_order" decided for the archive the IDs begin with the archive's order and go on with the current ones it lacks, else the other way round; every provider, setting and device profile comes from the decided side |
| BackupPlan.MergeProviders | companion/internal/backup/service.go:549-570 | the loop yields the keep order with each definition from the decided side, and records exactly the providers taken from the archive |
| BackupPlan.DefinitionsInOrder | companion/internal/backup/service.go:719-732 | the definitions of the order's known IDs, in that order; an unknown ID is passed over |
| BackupPlan.MergeDeviceProfiles | companion/internal/backup/service.go:742-768 | one profile for each ID of the union, sorted by ID, each from the decided side |
| BackupPlan.SortSorts | companion/internal/backup/service.go:764-766 | profiles with distinct IDs come out strictly sorted, and none is added or lost |
| BackupPlan.PlanReplace | companion/internal/backup/service.go:544-548 | Replace takes every provider, in the archive's order, and all settings and profiles from the archive |
| BackupReceipts.Previews.Issue | companion/internal/backup/service.go:362-402 | a returned token is live for exactly this archive, mode and configuration for ten minutes; there is none only after a failed digest or random source, with 64 unexpired receipts, or after eight tokens that had all been issued before |
| BackupReceipts.Previews.TryIssue | companion/internal/backup/service.go:380-399 | drops exactly the expired receipts; refuses exactly if 64 others are left, and else adds the receipt unless the token is taken |
| BackupReceipts.Previews.Consume | companion/internal/backup/service.go:404-428 | accepts exactly a live, unexpired receipt for the same archive, mode and configuration, and uses up whatever was presented |
| BackupReceipts.IssueAuthorisesOnce | companion/internal/backup/service.go:404-428 | one issue authorises at most one import, of the same archive, mode and configuration, before it expires |
| BackupReceipts.NoMoreImportsThanIssues | companion/internal/backup/service.go:362-428 | over any log, no more imports are let through with a token than receipts were issued for it |
| BackupVault.SecretsAreAccountedFor | companion/internal/backup/service.go:285-344 | at every step of every interleaving of imports, with failures and crashes, each vault reference is active, journaled, or a placeholder not yet journaled; active references have their secrets and are never about to be deleted |
| BackupVault.OpKeepsValid | companion/internal/backup/service.go:285-344 | every single step of the protocol keeps that accounting |
| BackupVault.RestartRecovers | companion/internal/structuredprovider/definition_store.go:627-709 | recovery from a crash at any moment is a run: all orphans are journaled in one step, then deleting what is journaled, in whatever order, leaves exactly the configuration's own secrets in the vault, unchanged, and an empty journal |
| BackupBackend.Backend.ReconcileCleanup | companion/internal/structuredprovider/definition_store.go:645-709 | success leaves the configuration's own secrets and an empty journal; whatever fails, every secret of the configuration stays, and the accounting holds |
| BackupVault.ClosedForGood | companion/internal/backup/service.go:285-360 | in every continuation of a run, an import that has ended commits nothing more, and no spent reference is used again |
| BackupVault.OthersAreHarmless | companion/internal/backup/service.go:306-335 | no step of another import touches what this one has staged, rewrites a settled secret, or revives a spent reference |
| BackupVault.RacersCannotBothCommit | companion/internal/backup/service.go:336-344 | of imports racing from one configuration, a second can commit only after somebody restored that configuration |
| BackupVault.RacerCanCommitExactly | companion/internal/backup/service.go:336-344 | an import with everything staged can commit if and only if the last commit left its base |
| BackupVault.RacersCanBothCommit | companion/internal/backup/service.go:252-360 | a concrete run in which two imports that race from one configuration both commit |
| BackupVault.TwoCommitsNeedAnother | companion/internal/backup/service.go:336-344 | if all commits start from one configuration and change it, there is at most one |
| BackupImport.Import.PutNew | companion/internal/secretstore/store.go:168-220 | a returned reference is new to every import, journaled before the secret was written, and holds the secret; it fails only after a fault |
| BackupImport.Import.Callback | companion/internal/backup/service.go:318-324 | a reservation is journaled and recorded as staged, or not recorded and deleted, unless the deletion fails too |
| BackupImport.Import.StageAll | companion/internal/backup/service.go:306-335 | on success every header of a backup provider has a fresh reference to that header's archive secret, kept definitions are unchanged, and exactly those references are activated |
| BackupBackend.Backend.ReplaceConfiguration | companion/internal/structuredprovider/definition_store.go:317-388 | swaps only if the expected configuration is in place and the new references are exactly the activated, journaled ones; retired references are journaled by the same step; it refuses only after a fault or for another configuration, and a swap that reports an error counts as a fault |
| BackupImport.Import.Rollback | companion/internal/backup/service.go:286-305 | the import has not committed and has ended; everything it staged is out of use for good, and deleted or still journaled; without an error it is out of vault and journal |
| BackupImport.Import.Cleanup | companion/internal/backup/service.go:595-617 | deletes only references that no import can use again; each is deleted or still journaled, and without an error all are gone from vault and journal |
| BackupImport.Import.Execute | companion/internal/backup/service.go:285-360 | commits the plan against the configuration it was made for, or commits nothing, and ends; after a commit the imported count is that of the archive's providers, a warning is given exactly if the replacement reported an error, cleanup is pending only after a fault, and there is no error without one; without a commit the error is CommitFailed exactly for a refused swap and SecretsFailed for staging, unless the rollback itself failed; staged references after a failure, and retired ones after a commit, are out of use for good and deleted or journaled |
| BackupImport.Import.Run | companion/internal/backup/service.go:252-360 | all-or-nothing: a commit puts the plan for the previewed archive and configuration in place, with an accepted receipt, and without a fault it reports no error, no warning and all providers of the archive; without a commit every staged reference is out of use for good and deleted, or journaled if rollback is reported pending; after one the same holds of the retired references; every failure has its cause in the request, a fault, or for the swap a commit by others, and the checks are made in their order; and the import has ended |
| BackupOutcome.CommittedDefinitions | companion/internal/backup/service.go:306-344 | after a commit each definition is either from the archive, with every header leading to that archive secret, or the one that was there before |
| BackupOutcome.StagedIsSwappable | companion/internal/backup/service.go:336-338 | after staging the swap is possible exactly if the configuration is still, or again, the one that was read |
| BackupRoundTrip.Export | companion/internal/backup/service.go:141-187 | the archive shows the configuration and the secrets of one moment, whatever imports do meanwhile; there is none only after a fault or a commit by others, for a header without a reference, or for a document that the validation refuses; export itself takes no step |
| BackupRoundTrip.RoundTrip | companion/internal/backup/service.go:141-187 | exporting and importing with Replace restores the same definitions in the same order, the same settings and profiles, and the same secret behind every header |
| HubRegistry.Hub.ReserveSession | companion/internal/devicelink/hub.go:426-442 | a device gets the session and a signal if and only if the hub is open, it has no session, and its last disconnect has finished; a refusal changes nothing |
| HubRegistry.Hub.RemoveBegin | companion/internal/devicelink/hub.go:444-459 | the connection loses its session, signal and outstanding request, and the callback is due exactly if it was the device's session |
| HubRegistry.Hub.RemoveEnd | companion/internal/devicelink/hub.go:460-467 | the device is free again only through the connection whose disconnect held it |
| HubRegistry.Hub.PublishLocked | companion/internal/devicelink/hub.go:172-204 | an acceptable document becomes the latest with the next generation, and exactly the current signals are to be raised |
| HubRegistry.Hub.RequestBegin | companion/internal/devicelink/hub.go:490-506 | at most one outstanding request a connection, and its ID is never zero; the request is logged |
| HubRegistry.Hub.AcceptDiagnostics | companion/internal/devicelink/hub.go:533-568 | accepts exactly the answer to the connection's outstanding request, its last exchange, while it is the device's session, and uses the request up; the cache stays what the accepted snapshots say |
| HubRegistry.Hub.Store | companion/internal/devicelink/hub.go:545-566 | the cache update with its eviction equals the specified insertion |
| HubRegistry.Hub.Latest | companion/internal/devicelink/hub.go:576-587 | returns the latest document exactly if its generation is not the one already sent |
| HubRuns.RunKeepsInv | companion/internal/devicelink/hub.go:598-682 | the invariants hold in every state of every interleaving of connections, publishers and Close |
| HubRuns.NoLostUpdate | companion/internal/devicelink/hub.go:183-204 | a live session that is behind has a signal pending or about to be raised, or is itself about to read the newest generation; the generations it received strictly increase |
| HubRuns.QuiescentSessionIsCurrent | companion/internal/devicelink/hub.go:674-682 | a waiting session without a pending signal has received the newest document |
| HubRuns.SessionsAreUnique | companion/internal/devicelink/hub.go:426-467 | one session a device, signals for exactly the live sessions, and accepted = disconnections + current sessions |
| HubRuns.HelloIsGranted | companion/internal/devicelink/hub.go:426-442 | in every run, a Hello makes its connection the live session if and only if the hub is open and no other connection of the device is live or departing |
| HubRuns.LookingDelivers | companion/internal/devicelink/hub.go:576-587 | in every run, a session that is behind and looks can write, and has then received the newest document |
| HubRuns.DeviceBecomesFree | companion/internal/devicelink/hub.go:444-467 | in every run, a leaving session can finish its disconnect, and the device is then free for the next connection |
| HubRuns.CallbacksAreBracketed | companion/internal/devicelink/hub.go:444-467 | OnDisconnect runs exactly once for each accepted session, and no callback of a newer connection starts before it has returned |
| HubRings.OldestRing | companion/internal/devicelink/hub.go:547-554 | finds a cached device of the smallest sequence number |
| HubRings.InsertRefines | companion/internal/devicelink/hub.go:545-566 | one insertion keeps the cache equal to what the history says |
| HubRings.CacheRefinesHistory | companion/internal/devicelink/hub.go:533-568 | over any sequence of acceptances the cache holds exactly the 32 most recently accepted devices, each with its latest snapshot |
| HubRings.RecentIsByRecency | companion/internal/devicelink/hub.go:533-568 | the reference lists each accepted device once, ordered by its last acceptance |
| HubRings.AnswerHasItsRequest | companion/internal/devicelink/hub.go:490-547 | in the exchanges that the hub logs, an accepted snapshot answers the connection's last request, which nothing had answered or cleared |
| HubRings.ZeroIdWouldMatch | companion/internal/devicelink/protocol.go:297 | over any exchanges, the comparison succeeds for the unanswered request's ID, or for zero if there is no such request |
| DiagnosticIntake.Service.RecordEvent | companion/internal/diagnostics/service.go:128-145 | a valid event offered while open is queued, or counted as dropped exactly if the queue is full |
| DiagnosticIntake.Service.Receive | companion/internal/diagnostics/service.go:351-352 | commands are taken in order, and when the stop command is taken nothing is queued behind it |
| DiagnosticIntake.Service.CloseSend | companion/internal/diagnostics/service.go:200-225 | the stop command is the last one ever queued |
| DiagnosticIntake.Service.Others | companion/internal/diagnostics/service.go:128-233 | any callers only append commands and count drops, and after the stop command do nothing |
| DiagnosticLog.Directory.EnforceRetention | companion/internal/diagnostics/service.go:491-524 | the preserved file is untouched, no file is new, what stays fits, and after success every other file is younger than the retention counted from the start of its hour; if no file is newer than the preserved one exactly the longest unexpired newest suffix that fits stays, so that a deleted file had expired or the files from it on were too large; it fails only after a fault, and always if a number in a name is out of range |
| DiagnosticLog.RetainedUnique | companion/internal/diagnostics/service.go:491-524 | that suffix is unique |
| DiagnosticLog.EnforcedMeans | companion/internal/diagnostics/service.go:504-519 | what the outcome means without the notion of expiry: after success no old file is left, and what went was old or too much |
| DiagnosticLog.SweptLess | companion/internal/diagnostics/service.go:506-519 | a deletion never comes after a file that stays |
| DiagnosticLog.PutTotal | companion/internal/diagnostics/service.go:300-302 | replacing a file changes the total by the difference of its sizes |
| DiagnosticNames.NamesSortLikeNumbers | companion/internal/diagnostics/service.go:417-431 | file names sort as strings by time and then by sequence, while 19 and 8 digits suffice |
| DiagnosticNames.ListingOrder | companion/internal/diagnostics/service.go:443-477 | sorting a listing by its names' strings is sorting it by time and sequence |
| DiagnosticNames.ListableExactly | companion/internal/diagnostics/service.go:463-472 | a listing takes a name exactly if its numbers have 19 and 8 digits, which for a 64-bit time is the bound of the model |
| DiagnosticNames.NinthDigitIsRefused | companion/internal/diagnostics/service.go:417-472 | a sequence number of nine digits would sort before one of eight, but makes the name too long, so that no listing and no retention succeeds |
| DiagnosticBatch.RetentionKeeps | companion/internal/diagnostics/service.go:286-289 | whatever retention deletes, and whether or not it fails, the log stays a gapless run of the history |
| DiagnosticBatch.WriteKeeps | companion/internal/diagnostics/service.go:300-302 | rewriting the active segment with the whole batch keeps the log within the maximum, and gapless and ordered unless it puts the segment before another |
| DiagnosticBatch.AppendKeeps | companion/internal/diagnostics/service.go:373-383 | appending to the batch keeps its byte count, its bound and the order |
| DiagnosticBatch.RoomAfter | companion/internal/diagnostics/service.go:279-289 | a successful enforcement with the reserve for the rewrite leaves room for the whole batch |
| DiagnosticBatch.WriteExactly | companion/internal/diagnostics/service.go:286-302 | with no empty files, a write leaves the log a contiguous part of the history if and only if no other segment sorts after the written one |
| DiagnosticBatch.NewSegmentExactly | companion/internal/diagnostics/service.go:290-302 | for a new segment: if and only if every other sorts before it |
| DiagnosticBatch.NextNameExactly | companion/internal/diagnostics/service.go:290-299 | after the last segment of the run, the next free name sorts last if and only if the batch was not begun before that one's time |
| DiagnosticOrder.PersistExactly | companion/internal/diagnostics/service.go:248-313 | a successful persist breaks the order if and only if it names a new segment before the last one left |
| DiagnosticOrder.BehindInTime | companion/internal/diagnostics/service.go:290-299 | once the run has a segment, that is: if and only if the batch was begun before that one's time and a file is left |
| DiagnosticOrder.EventBranchExactly | companion/internal/diagnostics/service.go:354-384 | an event that begins a batch after its commit breaks the order if and only if it was received before the time of the last segment and a file is left |
| DiagnosticOrder.TurnExactly | companion/internal/diagnostics/service.go:349-413 | a turn keeps the invariants, and breaks the order if and only if one of its writes is behind |
| DiagnosticOrder.RunExactly | companion/internal/diagnostics/service.go:235-415 | over any run of turns that succeed, on any directory without empty files, the log was always a contiguous part of the history if and only if no write was behind |
| DiagnosticOrder.LogCanFallOutOfOrder | companion/internal/diagnostics/service.go:314-384 | a concrete run within the bounds, with a clock that never steps back, that ends with a log that is not a contiguous part of the history |
| DiagnosticWorker.Worker.Persist | companion/internal/diagnostics/service.go:248-313 | the written file holds the whole batch after exact retention, which leaves no file past the retention, no other file changes, sealed ones included; success is the step of the run model; after a failure the batch is kept for a retry; it fails only after a fault |
| DiagnosticWorker.PersistMeans | companion/internal/diagnostics/service.go:279-302 | in the run model too, a persist leaves no file past the retention but its own |
| DiagnosticWorker.Worker.Commit | companion/internal/diagnostics/service.go:314-341 | the dropped count is appended as an event or given back, and success leaves nothing unsaved and is the step of the run model |
| DiagnosticWorker.Worker.HandleEvent | companion/internal/diagnostics/service.go:354-384 | a received event is appended with its text, the clock's reading and its size to a batch less than an hour old, which is a new one if the old had to be sealed first and else the old one; or it is counted as dropped, which happens only if it is too long or after a fault; without a fault it is the step of the run model |
| DiagnosticWorker.Worker.HandleStop | companion/internal/diagnostics/service.go:388-395 | when the stop command is handled no command is queued, and on success the last batch is sealed |
| DiagnosticWorker.Worker.Tick | companion/internal/diagnostics/service.go:396-412 | a batch of an hour is sealed; after a commit retention is enforced exactly if the clock went back or the retention or an hour has passed since the last time, whichever is shorter, and then no file past the retention is left; without a fault it is the step of the run model |
| DiagnosticWorker.Worker.NextSegmentPath | companion/internal/diagnostics/service.go:417-437 | the first free name of the series, which no file has |
| DiagnosticWorker.Open | companion/internal/diagnostics/service.go:112-126 | a directory that cannot be brought within its bounds is refused, which happens only after a fault |
| DiagnosticWorker.Run | companion/internal/diagnostics/service.go:235-415 | turns are taken until the limit or the stop command, and handle the commands in the order of sending; with any interference, failures and clock: events offered = queued + dropped counter and its wraps + accounted for by appended events; bytes within the maximum; the files, in the order of their names' strings, have always been the newest part of the history if no write overtook another segment, and only then if no empty file was found; without faults, if and only if no write was behind |
| DiagnosticExport.Window | companion/internal/diagnostics/service.go:526-599 | the exported lines are the longest suffix that fits of those young enough and not longer than the maximum, in their order, and `truncated` is true exactly if a young enough line was left out |
| DiagnosticExport.EligibleMeans | companion/internal/diagnostics/service.go:569-583 | the eligible lines are a subsequence of all lines: exactly those at or after the given time and within the size |
| DiagnosticExport.LongestSuffixUnique | companion/internal/diagnostics/service.go:566-590 | only one suffix is the longest that fits |
| RpcClient.Client.Register | companion/internal/codexappserver/rpc.go:83-93 | a call gets a fresh ID and a waiter, or the terminal error |
| RpcClient.Client.Fail | companion/internal/codexappserver/rpc.go:257-270 | the first failure takes all waiters and fixes the error; later ones do nothing |
| RpcClient.RunKeepsInv | companion/internal/codexappserver/rpc.go:77-136 | the invariants hold under any interleaving of Call, cancellation, accept and fail |
| RpcClient.SendsNeverBlock | companion/internal/codexappserver/rpc.go:235-270 | each waiter gets at most one message, so every send finds its one-slot channel empty |
| RpcClient.ResultsReachTheirCall | companion/internal/codexappserver/rpc.go:85-136 | IDs are unique, and a call returns only a result that carried its ID |
| RpcClient.ReplyWasRead | companion/internal/codexappserver/rpc.go:233-256 | what a call returns as its result, body and error flag, is a reply that was read with its ID in the run |
| RpcClient.AnswerArrives | companion/internal/codexappserver/rpc.go:233-256 | a reply read for a waiting call can be sent and received, and the call then returns its body and error flag |
| RpcClient.FailureIsFinal | companion/internal/codexappserver/rpc.go:257-270 | after fail no waiter is left or added, the error stays, and every waiting call can return |
| RpcClient.NobodyIsForgotten | companion/internal/codexappserver/rpc.go:77-136 | a waiting call has its message, is registered, or is owed a message |
| RpcClient.LateReplyEndsTheClient | companion/internal/codexappserver/rpc.go:239-245 | a reply to a call that has returned can only fail the client |
| RpcClient.LateReplyExactly | companion/internal/codexappserver/rpc.go:233-245 | a reply brings the reader down if and only if the client has failed or no call with that ID is under way and unanswered; the client can then fail at once |
| RpcClient.LateReplyCanHappen | companion/internal/codexappserver/rpc.go:119-136 | a concrete run in which a call is cancelled, its reply arrives, and another call returns with the client's error |
| ThreadAuthority.Collector.Begin | companion/internal/codexappserver/collector.go:228-251 | a load starts only for a valid thread that is neither owned nor pending, within the limit |
| ThreadAuthority.Collector.Commit | companion/internal/codexappserver/collector.go:296-305 | only a load of the current connection makes its thread owned |
| ThreadAuthority.Collector.Status | companion/internal/codexappserver/collector.go:319-356 | an owned thread's session gets the state of the status and the time, an unload removes session and ownership, any other thread is ignored, and a malformed status is rejected without a change |
| ThreadAuthority.StatusMeans | companion/internal/codexappserver/collector.go:358-389 | completed exactly for idle and failed exactly for systemError, both without flags; any other state comes from an active status with a list of flags, classified flag by flag |
| ThreadAuthority.NormalizeFlags | companion/internal/codexappserver/collector.go:358-389 | the first flag other than waiting for input decides: approval, or refusal of the list if it is unknown; without one, waiting for input, or running if there are no flags |
| ThreadAuthority.PublishedSessionsAreVerified | companion/internal/codexappserver/collector.go:319-356 | every published session belongs to a thread loaded through the current connection and not unloaded since; owned and pending are disjoint |
| ThreadAuthority.StaleLoadIsHarmless | companion/internal/codexappserver/collector.go:228-307 | a load that outlives its connection changes nothing |
| ThreadAuthority.LimitSurvivesExactly | companion/internal/codexappserver/collector.go:240-307 | a step keeps the limit of sixteen exactly if it is not a commit whose pending entry is gone while everything is taken |
| ThreadAuthority.SerialRunKeepsLimit | companion/internal/codexappserver/collector.go:228-307 | the limit always holds if the loads of each thread are serialised |
| ThreadAuthority.LimitCanBeExceeded | companion/internal/codexappserver/collector.go:228-307 | a concrete run that ends with seventeen |
| ThreadAuthority.SortSessions | companion/internal/codexappserver/collector.go:406-412 | sorts in place, and the result is a permutation |
| ThreadAuthority.PublishedOrderIsDetermined | companion/internal/codexappserver/collector.go:391-412 | the published order does not depend on the order in which the map is read |
| OtaSignature.SignatureBijection | tools/sign_ota_bundle.py:93-103 | the reader returns given 64 octets for exactly one document, the canonical DER encoding (X.690 clauses 8.1.3, 8.3.2 and 10.1) of their two scalars |
| OtaSignature.EncodingOctets | tools/sign_ota_bundle.py:76-103 | the octets of that encoding: tags and lengths at their places, and each scalar as the shortest big-endian octets with a clear sign bit |
| OtaSignature.ScalarOctets | tools/sign_ota_bundle.py:76-90 | a scalar is returned as the 32 big-endian octets of its value |
| OtaSignature.ReaderInvertsEncoder | tools/sign_ota_bundle.py:76-103 | every pair of unsigned 256-bit integers survives encoding and reading |
| OtaSignature.EncoderInvertsReader | tools/sign_ota_bundle.py:76-103 | whatever is accepted is the canonical encoding of what it reads as |
| OtaSignature.LongFormIsUnreachable | tools/sign_ota_bundle.py:61-73 | every length octet of an accepted document is in short form |
| OtaSignature.LengthIsShortestExcept | tools/sign_ota_bundle.py:61-73 | a length accepted on its own is in shortest form except exactly if it is 0x82 with a zero first octet |
| OtaSignature.NonMinimalLengthAlone | tools/sign_ota_bundle.py:61-73 | an accepted length that is not the shortest form |
| OtaSignature.ManifestInjective | tools/sign_ota_bundle.py:30-58 | manifests have 134 octets, and different metadata give different manifests |
| OtaSignature.ManifestOctets | tools/sign_ota_bundle.py:30-58 | there is a manifest exactly for valid metadata, and each of its 134 octets is given: magic, numbers, padded board, padded version, digest |
| StreamFraming.Monitor | tools/hil_smoke_live.py:275-318 | however the stream is cut into fragments, the capture is that of the whole stream |
| StreamFraming.Framer.Feed | tools/hil_smoke_live.py:275-318 | after each fragment the state is that of reading everything so far at once |
| StreamFraming.Framer.Finish | tools/hil_smoke_live.py:367-368 | a non-empty unterminated tail adds exactly one marker |
| StreamFraming.SplitIsExact | tools/hil_smoke_live.py:275-318 | splitting at newlines loses nothing and leaves no newline inside a line |
| StreamFraming.SplitIsUnique | tools/hil_smoke_live.py:275-318 | there is only one such split |
| StreamFraming.CaptureShape | tools/hil_smoke_live.py:275-318 | one entry a line in order: a marker for each line over 4096 bytes, else the line without the carriage returns at its end and only without those; a marker for a lost tail, and nothing else |
| QuotaWindows.Identifier | companion/internal/codexappserver/adapter_v1.go:314-332 | the one-pass loop joins the lower-cased alphanumeric words with single underscores |
| QuotaWindows.IdentifierKeepsLetters | companion/internal/codexappserver/adapter_v1.go:314-332 | every letter and digit of the label is kept in order, in lower case; only a leading "w" may be added |
| QuotaWindows.SafeWindowBase | companion/internal/codexappserver/adapter_v1.go:287-297 | the first of limit name, limit ID and fallback that is a safe label with a letter or digit wins, else the default |
| QuotaWindows.CutBaseMeans | companion/internal/codexappserver/adapter_v1.go:334-341 | a base that leaves room for its suffix is kept; a longer one is cut to that room and loses its underscores at the end, nothing else |
| QuotaWindows.CandidateMeans | companion/internal/codexappserver/adapter_v1.go:345-356 | the first candidate is the plain name, the others are its longest beginning that leaves room for an underscore and their number in decimal |
| QuotaWindows.UniqueWindowName | companion/internal/codexappserver/adapter_v1.go:334-359 | terminates with the first free candidate, which the consumer accepts as an identifier of at most 24 characters |
| QuotaWindows.CandidatesDiffer | companion/internal/codexappserver/adapter_v1.go:345-356 | candidates with different numbers are different, even after cutting |
| QuotaWindows.SomeCandidateIsFree | companion/internal/codexappserver/adapter_v1.go:345-356 | a finite set of used names cannot hold all candidates, which is why the loop ends |
| QuotaWindows.NormalizeSnapshots | companion/internal/codexappserver/adapter_v1.go:189-218 | succeeds exactly for at most four valid windows, and then yields them in order with distinct acceptable names |
| QuotaWindows.NormalizeWindow | companion/internal/codexappserver/adapter_v1.go:220-250 | succeeds exactly for a valid raw window, and the consumer accepts the result; used and remaining add up to 10000 |
| QuotaWindows.BasisPointsAccuracy | companion/internal/cursorprovider/client.go:300-308 | within half a basis point of the true ratio |
| QuotaWindows.BasisPointsMonotone | companion/internal/cursorprovider/client.go:300-308 | more spending never shows as less |
| QuotaWindows.CursorWindowsMean | companion/internal/cursorprovider/client.go:257-308 | there are windows exactly for an enabled plan with a limit and a cycle of whole minutes within a year; each reports its own used share of its own limit, and the first the cycle's minutes and end |
| QuotaWindows.CursorWindowsAccepted | companion/internal/cursorprovider/client.go:257-279 | Cursor's windows satisfy the consumer's validator (companion/internal/aisnapshot/snapshot.go:645-675, 853-865) |

## Left out

- age, scrypt, base64, JSON, TLS, HTTP, WebSocket and file formats: documents, archives and messages are values that have been decoded; digests are the values themselves.
- NormalizeBackupDefinition and the other field validators: `BackupModel.ValidateDocument` takes them as parameters, except that a draft has no references.
- BackupChoices.PreviewDocument: the fields of a preview that are constant, or copied from the archive's head, are not modelled; a conflict's kind is that of its key.
- BackupRoundTrip.Export: the check of the passphrase is not modelled.
- Zeroing of buffers (`Destroy`, `overwrite`) and cloning: values are never shared, so aliasing and erasure are not modelled.
- Provider edits outside imports (`Publish`, `DeleteDefinition`): their effect on the journal is that of the steps of `BackupVault`, but their own methods are not modelled.
- The bound of 512 journal entries and the format checks of the configuration owner: a refused update is one of the faults.
- DiagnosticWorker.Worker.HandleEvent: the `storageFaulted` and `terminalErr` values that callers can read are not modelled.
- DiagnosticWorker.Run: of the checks of a directory listing only those of the numbers in the names are modelled, for the others a listing just may fail; a segment of a negative time makes it fail and counts as a stale time.
- DiagnosticOrder.RunExactly: a turn that fails is not a step of these runs; `DiagnosticWorker.Run` covers it, with the condition in terms of the files.
- BackupImport.Import.Run: other requests for previews are not interleaved between its start and the use of its receipt; nothing before that use depends on the receipts, so they can be counted before its start.
- DiagnosticIntake.Service.CloseSend: the reply channels and contexts of Flush and Close are not modelled; a cancelled Close that has not sent its command reopens the service.
- HubRuns.NoLostUpdate: the snapshot generation is unbounded, and wrap-around of a 64-bit counter is not modelled.
- HubRegistry.Hub.Store: the ring sequence number is unbounded for the same reason.
- The serial, OTA and control messages of the hub, heartbeats, timers and authentication: they change none of the modelled fields.
- RpcClient.Client.Register: the 64-bit request ID is unbounded; the notification channel, which may race with closing, is left out.
- ThreadAuthority.Collector.Status: decoding of the status and the publisher's own errors are left out.
- QuotaWindows.Identifier: lower-casing is that of ASCII letters, the only ones a safe label can contain.
- QuotaWindows.CursorWindowsAccepted: it takes what the response validator has already checked as given.
- StreamFraming.Monitor: decoding, redaction patterns and the host actions of the monitor are left out; an entry is the bytes of a line or a marker.
- The firmware, the desktop shell, packaging, acceptance scripts and the documentation prototype.
