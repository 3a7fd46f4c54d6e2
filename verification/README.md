# Verified model of deployment state, trace evidence, recovery points and backfill accounting

The repository runs a TON wallet-analysis service. Four of its parts make promises that no single
function shows, and this project models those parts and proves the promises.

- **Deployment state.** A release is rolled out under a lock over three durable objects: an intent
  journal, a ledger of hash-chained events and a receipt naming the active release. The process can
  die after any atomic write. `DeploymentState` gives every operation as the list of durable states
  it passes through, `LockedState` is the class that performs them, `LedgerDirectory` is the ledger
  as files, and `RolloutDriver` is the driver that runs the rollout commands. `RolloutHistory` and
  `RolloutOutcomes` reason about any sequence of invocations, each cut anywhere by a crash;
  `RolloutOrder` says in which order commands run, `Authorization` exactly when an attempt opens,
  resumes and completes and how released versions move.
- **Trace evidence.** Three explicit-stack traversals of an untrusted transaction tree (preview,
  persisted graph, transaction bytes) are proved against one recursive preorder, and `TracePayload`
  says what is kept in terms of the payload's fields. `TraceProperties`
  rebuilds the tree from the stored rows and proves what the response schemas and unique indexes
  demand. `CursorPages`, `ProviderValues` and `AccountAddress` cover history pages, strict numerals
  and raw addresses.
- **Recovery.** `Restore` is the no-overwrite restore in which any one system call may fail, and the
  second close of its clean-up as well.
  `RecoveryPoint`, `RecoveryCreation` and `RecoveryDirectory` are creation, publication and
  retention of recovery points.
- **Backfill.** `CheckpointChain` and `Backfill` are the document validators, read as an inductive
  chain and a telescoping page account; `BackfillOutcomes` says what an accepted outcome means.

Notation: `Good` is the invariant of a deployment state (accepted by the validation made when the
lock is taken, no attempt id twice, and a journal that is either committed or still open).
`Effects` lists what one invocation does, in order: commands, the smoke check and durable writes.
`History` is what a whole run of invocations did. A `Medium` is a state directory on which a
chosen write fails, before it replaces its file or after it. `Tree` is the recursive preorder of a trace.

Behaviours of the code a maintainer should know:

- A ledger of 100000 events blocks an open attempt for ever: whatever invocations follow, crashed or
  not, the journal stays (`FullLedgerNeverClears`). `ResumeSettles` gives the exact condition for a
  resume, `FullLedger` a state.
- `restore_from_heartbeat` leaves its copy at the destination when the backup can no longer be read
  for the second digest: the call raises outside any clean-up (ops/restore_sqlite.py:95). The exact
  condition is in `RestoreFromHeartbeat`, an input in `PrunedBackupLeavesCopy`.
- When closing the temporary fails, the clean-up closes it again; if that raises too, the temporary
  stays and blocks every later restore to that destination (ops/restore_sqlite.py:356-359). The exact
  condition is in `RestoreWithoutOverwrite`, an input in `FailedCloseBlocksLaterRestores`. In a
  staging directory such a temporary defeats the rmdir of the clean-up, and every later creation
  refuses (`StagingIsCleared`, `StrandedStagingRefuses`).
- A recovery drill removes whatever file already has its random name, whether or not the restore
  got far enough to create it. `Drill.Run` states that the workspace is kept if and only if the
  name was free.
- `complete_attempt`, called on a redeployment whose completion died before the journal was cleared,
  records its event a second time under the same id. The driver never makes that call, since it
  resumes such an attempt as already completed. `CompletionIsExact` has the exact condition.
- An accepted backfill outcome never changes the number of streams, although the validator has no
  such check: it follows from the revision arithmetic (`OutcomeAccount`).

Check everything with `dafny verify dfyconfig.toml`.

## Model

| member | source | states |
|---|---|---|
| RolloutHistory.CrashSafety | ops/deployment_state.py:299-475 | From any good state, and from one whose journal an older receipt already carries, over any run of invocations with a crash after any effect, every durable state passes the validation of the next lock acquisition, no attempt id is committed twice, and the ledger only grows by appending. |
| RolloutHistory.SupersededIsCleared | ops/deployment_state.py:348-361 | From a state whose journal an older receipt already carries, an invocation clears that journal and does nothing else if its gates pass and it is the exact resume, and otherwise does nothing. |
| RolloutHistory.SupersededHistory | ops/deployment_state.py:921-966 | A run from such a state does nothing, or first clears the journal and is a legal history of the good state left. |
| RolloutHistory.InvocationIsLegal | ops/deploy_release.py:134-227 | Everything one invocation does on a good state follows the protocol: commands only for the open attempt, and each write is the opening, the checkpoint right after a passing fresh bootstrap, the event, the receipt or the clearing, in a good state. |
| RolloutHistory.HistoryIsLegal | ops/deploy_release.py:134-227 | The same of any run of crashed and resumed invocations. |
| RolloutHistory.CommittedSettles | ops/deployment_state.py:318-373 | Once the event is written, after every continuation of any length the state is still settling to the same state with the same ledger, or the continuation has passed through exactly that settled state. |
| RolloutHistory.CrashedCompletionSettles | ops/deployment_state.py:441-475 | Crash equivalence: after a completion dies behind its event or its receipt, every prefix of every run that follows is settling to the very state the uncrashed completion reaches, or has passed through it. |
| RolloutHistory.FullLedgerNeverClears | ops/deployment_state.py:816-851 | Over a full ledger an open attempt stays open, for the same attempt and with the same ledger, in every state of every run. |
| RolloutHistory.FailedWriteIsACrash | ops/deployment_state.py:1092-1124 | What an invocation does when a write fails is the history of a session cut right before that write, or right behind it when it had landed, so all that is proved of crashed runs covers it. |
| RolloutHistory.RefusedInvocation | ops/deployment_state.py:318-344 | A wrong bundle, a wrong operation, a missing resume flag, or a resume with no journal does nothing at all: no command, no write. |
| RolloutHistory.ActivationFollowsBootstrap | ops/deploy_release.py:348-426 | Across all invocations, no initial activation runs before a fresh bootstrap of the same attempt has passed. |
| RolloutHistory.FreshBootstrapNeverReruns | ops/deployment_state.py:405-439 | Once a checkpoint is journaled (or a release is active), no fresh bootstrap of any attempt runs again, in that invocation or a later one. |
| RolloutHistory.CheckpointIsReached | ops/deploy_release.py:79-131 | An initial rollout whose commands pass up to the fresh bootstrap journals the checkpoint, and the initial activation comes next. |
| RolloutOutcomes.FirstRolloutIsCheckpointed | ops/deploy_release.py:173-225 | From an empty directory such an invocation is a run in which the checkpoint is journaled: the hypotheses of the previous results are met. |
| RolloutHistory.StepsComplete | ops/deploy_release.py:79-131 | When everything passes from some step on, the rollout ends with the event appended, the receipt bound to it and no journal; with a full ledger it ends with the journal still there. |
| RolloutOutcomes.ResumeSettles | ops/deployment_state.py:318-373 | Resuming with the exact identity and operation, everything passing, clears the journal if and only if the event is already written or the ledger has room; a committed attempt ends in exactly the state the uncrashed run reaches. |
| RolloutOutcomes.ResumeIsAuthorized | ops/deployment_state.py:318-373 | Such a resume is never refused: it finishes a committed attempt or hands back the open one unchanged. |
| RolloutOutcomes.GrowthNeedsFullRollout | ops/deploy_release.py:173-225 | When an invocation adds an event, all it did outside the state directory until then is the complete command list of the right kind, in order, then the smoke check, everything passing, all for that attempt. |
| RolloutOutcomes.EveryEventWasRolledOut | ops/deploy_release.py:173-225 | Over a whole run, each added event is backed by one single invocation with such a complete rollout. |
| RolloutOutcomes.PassingRecords | ops/deployment_state.py:216-297 | A passing invocation appends one event and binds one receipt with its release, operation, completion time and journaled id, the next sequence number, the release before, and the digests that chain and bind them. |
| RolloutOutcomes.RollbackSwaps | ops/deployment_state.py:251-282 | A completed rollback exchanges active and previous release and adds one event. |
| RolloutOutcomes.TwoRollbacksRestore | ops/deployment_state.py:251-282 | Two consecutive rollbacks restore the same active and previous release. |
| RolloutOutcomes.VersionsNeverEqual | ops/deployment_state.py:486-518 | From an empty start, active and previous release never carry the same version in any state any run reaches. |
| RolloutOrder.ActionIsDueInRun | ops/deploy_release.py:79-131 | In any run every command and check comes right after the commands due before it, all of which passed in the same session for the same attempt. |
| RolloutOrder.ServiceActivationOrder | ops/deploy_release.py:428-461 | No service of an active release is activated before that session ran, in this order and all passing, the three configuration checks, the backup, its restore drill, the image pull and the migration rehearsal. |
| RolloutOrder.InitialActivationOrder | ops/deploy_release.py:348-426 | A first deployment is activated right after the checks, the pull and the bootstrap: the fresh one, unless the journal the session found carries the checkpoint. |
| RolloutOrder.OperationalActivationOrder | ops/deploy_release.py:348-426 | It goes operational only after its initial activation, backup, restore drill and migration verification, in this order and all passing. |
| RolloutOrder.SmokeComesLast | ops/deploy_release.py:230-461 | By the smoke check the session has run the whole command list of its kind, in order, all passing. |
| RolloutOrder.ClosingComesAfterActivation | ops/deploy_release.py:230-461 | Every closing command comes after a passing activation in the same session. |
| Authorization.OpeningIsExact | ops/deployment_state.py:486-518 | Without a journal an attempt opens if and only if identity and id are valid, resume is not asked for, and it deploys onto nothing, redeploys the active release, deploys a larger version triple, or rolls back to exactly the release before. |
| Authorization.OpeningJournals | ops/deployment_state.py:374-403 | What an opening journals and hands back, field by field. |
| Authorization.ResumeIsExact | ops/deployment_state.py:318-373 | With a journal exactly the resume of the same release and operation goes on. |
| Authorization.AcceptedResumeIsExact | ops/deployment_state.py:318-373 | In any accepted state the exact resume counts as completed if and only if its event heads the ledger or the receipt carries its id, operation and release; otherwise it goes on if and only if the active release has not changed and the target is still authorised. |
| Authorization.MarkingIsExact | ops/deployment_state.py:405-439 | A checkpoint is accepted if and only if it is presented for the journaled first deployment, with its id, while nothing is active. |
| Authorization.CompletionIsExact | ops/deployment_state.py:441-475 | A completion is accepted if and only if a sequence number is left and it is presented with the journaled release, operation and id, for an open attempt or for a redeployment of which only the journal is left. |
| Authorization.EventsContinue | ops/deployment_state.py:854-882 | Each event of a valid ledger continues the one before: base and previous release, digest, and a version at least as large unless it is a rollback to exactly the release before. |
| Authorization.VersionsNeverGoDown | ops/deployment_state.py:854-882 | In a stretch of events without a rollback released versions never go down. |
| Authorization.RunsNeverGoDown | ops/deployment_state.py:441-475 | The same of the ledger in every state of every run. |
| Authorization.StagesAreExact | ops/deployment_state.py:921-966 | Receipt, journal and ledger are consistent if and only if they are in one of the stages the protocol stops in. |
| Authorization.JournalIsExact | ops/deployment_state.py:766-806 | A journal is valid if and only if its id and releases are and it carries a checkpoint only for a deployment onto nothing. |
| Authorization.ReceiptIsExact | ops/deployment_state.py:712-763 | A receipt is valid if and only if its releases are and differ, with the id and sequence number its schema calls for. |
| Authorization.EventIsExact | ops/deployment_state.py:816-851 | An event is valid if and only if its id, number and releases are and the release before is another one. |
| FullLedger.FullStateIsOpen | ops/deployment_state.py:816-851 | A valid state exists whose ledger is full and whose journal is open. |
| FullLedger.FullLedgerBlocks | ops/deployment_state.py:441-475 | In that state the exact resume, with everything passing, leaves the journal in place. |
| FullLedger.FullStateNeverClears | ops/deployment_state.py:441-475 | From that state no run of invocations, crashed or not, ever ends the attempt or changes the ledger. |
| DeploymentSafety.JournalFreeStatesAreGood | ops/deployment_state.py:921-966 | An empty directory, a receipt of an older schema alone, and every accepted state without a journal and without a repeated attempt id satisfy the invariant. |
| DeploymentSafety.LegacyJournalIsCleared | ops/deployment_state.py:348-361 | A journal that an older receipt already committed is cleared by the exact resume, and nothing else changes. |
| DeploymentSafety.AuthorizedEventChains | ops/deployment_state.py:251-282 | After authorisation the event built passes event and chain validation if and only if a sequence number is left, and the extended ledger is valid. |
| DeploymentSafety.PrepareIsSafe | ops/deployment_state.py:299-403 | Every write of opening or resuming keeps the invariant and the ledger; the result is an open journal for exactly this identity and operation, or no journal. |
| DeploymentSafety.MarkIsSafe | ops/deployment_state.py:405-439 | The checkpoint changes only the journal's phase and keeps the attempt open. |
| DeploymentSafety.CommittedFinishes | ops/deployment_state.py:333-347 | Finishing a committed attempt takes one or two writes through good states that settle identically, so a crash in between changes nothing. |
| DeploymentSafety.CompleteIsSafe | ops/deployment_state.py:441-475 | An open attempt completes if and only if the ledger has room, in the order event, receipt, journal; the writes still missing after a crash are exactly those the resume performs. |
| DeploymentSafety.HeadDigestBindsLedger | ops/deployment_state.py:854-882 | Two valid ledgers with the same head digest are equal event for event, or exhibit a hash collision. |
| DeploymentSafety.ReceiptPinsLedger | ops/deployment_state.py:921-966 | Without a journal, two ledgers accepted beside the same receipt are equal, or exhibit a collision: truncation, edit, reordering and extension are rejected. |
| DeploymentSafety.ChainKeepsVersionsApart | ops/deployment_state.py:854-882 | If the first event's two versions differ, so do those of every event of a valid ledger. |
| DeploymentSafety.AcceptedVersionsDiffer | ops/deployment_state.py:921-966 | The receipt accepted beside such a ledger names two different versions, also before the last event is bound. |
| LedgerDirectory.ReadLedger | ops/deployment_state.py:626-662 | Reading succeeds on exactly the directories that hold one valid ledger, and returns its length, head and penultimate event. |
| LedgerDirectory.DirectoryDeterminesLedger | ops/deployment_state.py:626-662 | A directory holds at most one ledger. |
| LedgerDirectory.HeldNames | ops/deployment_state.py:626-662 | Sorted by name, the files of a ledger come in sequence order. |
| LedgerDirectory.NamesAreSorted | ops/deployment_state.py:1036-1089 | Twenty-digit padded names of later events sort after those of earlier ones. |
| LedgerDirectory.NameOfEvent | ops/deployment_state.py:626-662 | The name written for an event is parsed back to its sequence and digest. |
| LedgerDirectory.EventOfName | ops/deployment_state.py:626-662 | A name parsed to an event's sequence and digest is the name written for it. |
| LedgerDirectory.AppendIsAtomic | ops/deployment_state.py:1036-1089 | A crash anywhere inside the append leaves the old ledger, or the old ledger plus the event after the rename, whatever the temporary contains. |
| LockedState.LockedDeploymentState.PrepareAttempt | ops/deployment_state.py:299-403 | Result, new state and writes are those of the specification, up to the first write that fails; a refusal writes nothing; every write keeps the invariant. |
| LockedState.LockedDeploymentState.MarkInitialBootstrapVerified | ops/deployment_state.py:405-439 | Result, new state and writes are those of the specification, up to the write that fails; a refusal writes nothing. |
| LockedState.LockedDeploymentState.RecordSuccess | ops/deployment_state.py:216-297 | Event first, receipt second, up to the first write that fails, or a refusal that writes nothing. |
| LockedState.LockedDeploymentState.CompleteAttempt | ops/deployment_state.py:441-475 | An open attempt commits if and only if the ledger has room and none of the three writes fails; every write keeps the invariant; a refusal writes nothing. |
| LockedState.LockedDeploymentState.FinishAttempt | ops/deployment_state.py:336-341 | Binds the receipt to the head if it is not, then clears the journal, up to the first write that fails. |
| LockedState.CarryConcat | ops/deployment_state.py:284-297 | Writing in two goes is writing at once, unless the first go already failed; then the second does not begin. |
| LockedState.LockedDeploymentState.WriteReceipt | ops/deployment_state.py:1028-1029 | Replaces the receipt and nothing else, or fails: before the replacement, or after it when the directory cannot be flushed. |
| LockedState.LockedDeploymentState.WriteAttempt | ops/deployment_state.py:1032-1033 | Replaces the journal and nothing else, or fails before or after doing so. |
| LockedState.LockedDeploymentState.WriteLedgerEvent | ops/deployment_state.py:1036-1089 | Appends the event and changes nothing else, or fails before or after doing so. |
| LockedState.LockedDeploymentState.ClearAttempt | ops/deployment_state.py:477-484 | Removes the journal and nothing else, or fails before or after doing so. |
| RolloutDriver.RunCommand | ops/deploy_release.py:79-131 | One command and, after a passing fresh bootstrap only, its checkpoint; effects and state are those specified up to a write that fails, and a journal is never lost. |
| RolloutDriver.RunGuardedRollout | ops/deploy_release.py:79-131 | The effects are those of the command list, the smoke check and the commit, up to the first failing command, check or write; success is reported exactly when no write failed and the journal is gone. |
| RolloutDriver.VerifyAndDeploy | ops/deploy_release.py:134-227 | The effects and the new state are those of the specification up to the first write that fails; success is reported exactly when the gates passed, the attempt was opened or resumed, no write failed and no journal is left. |
| RolloutDriver.ReachedIsPrefix | ops/deployment_state.py:1092-1124 | What happens when a write fails is a prefix of what happens without failures, and all of it when none fails. |
| RolloutDriver.FailureStopsAt | ops/deployment_state.py:1036-1089 | The write that fails is the one that the given number of others precede; the effects end before it, or right after it when it had landed. |
| RolloutDriver.EveryWriteCanFail | ops/deployment_state.py:1036-1089 | Whichever write of an invocation it is, a failure exists that stops right before it and one that stops right after it. |
| RolloutDriver.FailuresAreExact | ops/deployment_state.py:1036-1089 | The cuts that failing writes leave are exactly the prefixes that end right before or right after a write. |
| Release.VersionOfTag | ops/deployment_state.py:1021-1025 | Printing a version triple as a tag and parsing it gives the triple back. |
| Release.TagOfVersion | ops/deployment_state.py:1021-1025 | Parsing a canonical tag and printing it gives the tag back: tags and triples are in bijection. |
| Release.NewerByFirstDifference | ops/deployment_state.py:486-518 | A larger major is newer whatever follows, then the minor decides, then the patch (section 11 of Semantic Versioning 2.0.0). |
| Release.NewerIsStrictTotalOrder | ops/deployment_state.py:486-518 | Precedence is asymmetric, transitive and total on different versions. |
| Release.NewerIsNumeric | ops/deployment_state.py:1021-1025 | In any base above minor and patch, newer means the triple read as one number is larger. |
| Release.IdentityIsExact | ops/deployment_state.py:1003-1019 | An identity is valid if and only if its tag is that of a triple, its commit forty and its digest sixty-four lower-case hex digits. |
| TracePreview.NormalizePreview | backend/adapters/tonapi.py:1279-1477 | Accepts a payload if and only if its recursive tree satisfies every bound, shape and uniqueness rule and contains the requested hash; the summary is the closed form over the preorder; the stack never exceeds 256 entries, so the early node-limit test is exact. |
| TracePreview.RepeatsExactly | backend/adapters/tonapi.py:1360-1386 | The duplicate tests of the loop fire exactly on a repeated transaction hash or a repeated account and logical time. |
| TracePreview.Advance | backend/adapters/tonapi.py:1313-1325 | One iteration of a traversal visits the next entry of the preorder, and what it leaves on the stack is the rest. |
| TracePreview.TooManyNodes | backend/adapters/tonapi.py:1437-1449 | When visited plus pending nodes exceed 256, no continuation makes the tree acceptable. |
| TraceModel.ReadNode | backend/adapters/tonapi.py:1327-1424 | A node is kept only when it is not emulated, its interfaces, messages and children are well-formed and its transaction is an object with canonical hash, time and account and a time stamp in range; the facts kept are those of the payload. |
| TracePayload.NodeIsReadExactly | backend/adapters/tonapi.py:1327-1449 | Conversely a node is kept if and only if each of its fields is in order. |
| TracePayload.AcceptanceIsExact | backend/adapters/tonapi.py:1279-1477 | A trace is accepted if and only if it has at most 256 nodes, depth 32 and 2048 outgoing messages, every node reads, no hash and no account and time occur twice, and the requested hash occurs. |
| TracePayload.SummaryMeans | backend/adapters/tonapi.py:1451-1477 | Each number of a preview is a count over the nodes of the tree, the depth is reached and never exceeded, and the anchor is the node with the requested hash. |
| TracePayload.PendingMeans | backend/adapters/tonapi.py:1456-1458 | A trace is pending if and only if some outgoing message of some node is internal. |
| TracePayload.MessageIsKeptExactly | backend/adapters/tonapi.py:1739-1859 | A message is kept if and only if its fields read and its endpoints fit its type. |
| TracePayload.KeptMessage | backend/adapters/tonapi.py:1739-1859 | Type, endpoints and hash kept are those of the payload. |
| TracePayload.KeyText | backend/adapters/tonapi.py:1837-1847 | The observation key, spelled out. |
| TracePayload.RowIsKeptExactly | backend/adapters/tonapi.py:1517-1625 | A node has a row if and only if its messages are kept, no outgoing one comes from outside, and it was reached as it should be: a child by an internal message from its parent's account to its own. |
| TracePayload.EdgesAreFollowed | backend/adapters/tonapi.py:1563-1574 | Every row but the first was reached by an internal message whose source is the account of its parent's row and whose destination is its own. |
| TracePayload.EvidenceIsExact | backend/adapters/tonapi.py:1479-1511 | A trace is kept if and only if it is accepted, on one of the two networks, and each of its nodes has a row. |
| TracePayload.TypeCountsMean | backend/adapters/tonapi.py:1600-1629 | Each type count is the number of stored messages of that type. |
| TraceModel.ParentsComeFirst | backend/adapters/tonapi.py:1513-1629 | In the preorder every entry but the first has a parent of smaller index, one level up, of which it is a child. |
| TraceModel.PopAndPush | backend/adapters/tonapi.py:1437-1449 | Popping the top and pushing its children in reverse moves exactly one visit from pending to done. |
| TracePersisted.NormalizeMessage | backend/adapters/tonapi.py:1739-1859 | An accepted message keeps hash, type, endpoints, amounts, time and flags of the payload, with the endpoints its type demands and its observation key. |
| TracePersisted.KeyIsInjective | backend/adapters/tonapi.py:1837-1847 | An observation key determines node index, role, ordinal and message hash. |
| TracePersisted.CollectOut | backend/adapters/tonapi.py:1575-1609 | Collects all outgoing messages if and only if each is sound and none is inbound; the duplicate-key test never fires. |
| TracePersisted.PersistNode | backend/adapters/tonapi.py:1517-1625 | Yields the specified row if and only if the node's messages are sound, and no key of a later node is ever taken. |
| TraceEvidence.CollectRows | backend/adapters/tonapi.py:1513-1629 | Collects one row per preorder entry, in order, with the counts of those rows, if and only if every row is sound. |
| TraceEvidence.NormalizePersisted | backend/adapters/tonapi.py:1479-1678 | Accepts if and only if the trace is previewable, the network supported and every row sound; the rows and counts are those of the recursive preorder. |
| TraceEvidence.GuardsNeverFire | backend/adapters/tonapi.py:1631-1655 | The message cap, the child count and the type sum hold by construction after the per-node checks. |
| TraceEvidence.RowShape | backend/adapters/tonapi.py:1517-1625 | Row i keeps index, parent, depth and facts of visit i, an internal incoming message on every child, and its outgoing messages in order and of outgoing type. |
| TraceBocs.NormalizeBocs | backend/adapters/tonapi.py:1680-1737 | Accepts if and only if the graph is accepted, each raw text is non-empty hex of whole bytes up to a mebibyte, and half their digits are at most eight mebibytes; row i carries the raw text of node i in lower case, half its length and the hash stored for the node. |
| TraceProperties.TreeIsRecoverable | backend/adapters/tonapi.py:1513-1629 | A rebuild function recovers the whole transaction tree from the stored rows. |
| TraceProperties.PreviewFitsSchema | backend/schemas.py:333-369 | Every accepted preview summary satisfies the response validator. |
| TraceProperties.GraphFitsSchema | backend/schemas.py:410-482 | Every accepted persisted summary satisfies the response validator. |
| TraceProperties.RowsAreUnique | backend/models.py:1381-1401 | The stored nodes satisfy the three node indexes, and the messages of each node the role and ordinal index (backend/models.py lines 1452 to 1459). |
| TraceProperties.FinalizedLeavesOnlyExternal | backend/adapters/tonapi.py:1479-1678 | In a finalized trace the external-out count equals the remaining-out count. |
| CursorPages.TransactionPagesAreSound | backend/adapters/tonapi.py:436-534 | An accepted transaction page comes from a valid cursor and limit, has only valid rows with their times in order, strictly descending below the cursor, and its last time, verbatim, as next cursor. |
| CursorPages.SoundPagesAreAccepted | backend/adapters/tonapi.py:480-534 | Conversely every response of valid rows that spell a sound page within the limit is accepted as that page. |
| CursorPages.EventPagesAreSound | backend/adapters/tonapi.py:780-912 | The same guarantee of account-event pages, where the provider states the next cursor itself: valid events, a valid date window, strictly descending times below the cursor, the last of them as next cursor. |
| CursorPages.SoundEventPagesAreAccepted | backend/adapters/tonapi.py:1909-1980 | Conversely, for a valid date window, every response of valid events that spell a sound page and name its next cursor is accepted as that page. |
| CursorPages.EventIsExact | backend/adapters/tonapi.py:1909-1960 | An event is valid if and only if its id, time, date, state and action types are in order. |
| CursorPages.EventsAreExact | backend/adapters/tonapi.py:847-870 | The events of a page are valid if and only if each is, no id occurs twice whatever its case, and dates never go up. |
| CursorPages.WindowIsExact | backend/adapters/tonapi.py:797-814 | A date window is refused if and only if a bound is there but no date, or it starts after it ends. |
| CursorPages.DateIsExact | backend/adapters/tonapi.py:2295-2311 | A date is a number of the range or its canonical decimal. |
| CursorPages.ChainDescends | backend/adapters/tonapi.py:480-534 | Concatenating any run of pages, each requested with the previous next cursor, gives strictly descending times below the first cursor: nothing repeats. |
| CursorPages.ChainIsFinite | backend/adapters/tonapi.py:1963-1974 | Such a run has fewer rows than its first cursor's value, and at most one page more than rows. |
| ProviderValues.StrictLogicalTime | backend/adapters/tonapi.py:2257-2270 | What is accepted is a canonical uint64 numeral without zero, equal to the text or the number given. |
| ProviderValues.StrictNonnegative | backend/adapters/tonapi.py:2272-2293 | What is accepted is a canonical uint64 numeral, equal to the text or the number given. |
| ProviderValues.StrictTextIsExact | backend/adapters/tonapi.py:2257-2293 | As text, exactly the canonical decimals of the range are accepted, despite the digit limit. |
| ProviderValues.LogicalTimeRoundTrip | backend/adapters/tonapi.py:2257-2270 | A cursor printed from a number is read back as the same number, as an integer or as text. |
| ProviderValues.StrictNumberIsExact | backend/adapters/tonapi.py:2257-2293 | As a number, exactly those of the uint64 range are accepted. |
| ProviderValues.AccountIsExact | backend/adapters/tonapi.py:2239-2255 | An account is the canonical form of the address text of an object, and nothing else. |
| ProviderValues.SpaceIsExact | backend/adapters/tonapi.py:1334-1346 | White space is what the strip of the language removes, character by character. |
| ProviderValues.HashIsExact | backend/adapters/tonapi.py:1352-1360 | A hash is sixty-four hex digits, kept in lower case. |
| AccountAddress.CanonicalIsIdempotent | backend/adapters/tonapi.py:2239-2255 | Canonicalising twice is canonicalising once. |
| AccountAddress.CanonicalIsExact | backend/adapters/tonapi.py:2239-2255 | The addresses accepted are exactly a decimal int32, a colon and sixty-four hex digits, of which only the digits are changed, to lower case. |
| AccountAddress.CanonicalMergesExactly | backend/adapters/tonapi.py:2239-2255 | Two addresses merge if and only if their workchains are the same number and their account ids the same hex, case aside. |
| AccountAddress.FrontendAcceptsFixedPoints | frontend/src/tonAddress.ts:1-11 | The frontend accepts a string if and only if the backend leaves it unchanged. |
| AccountAddress.Int32NumeralIsShort | frontend/src/tonAddress.ts:1-11 | No int32 workchain needs more than ten digits, so the frontend's digit limit loses nothing. |
| Restore.Site.RestoreWithoutOverwrite | ops/restore_sqlite.py:321-361 | Returns if and only if no call failed and no file stood in the way, with a verified copy at the destination; otherwise the destination is as found, or as another process left it. The temporary is left behind if and only if the paths were free and closing it failed twice. |
| Restore.Site.RestoreFromHeartbeat | ops/restore_sqlite.py:68-105 | Returns if and only if size, digest and revision match, the copy restores with that revision and the digest matches again afterwards. When it raises, the copy stays if and only if the restore succeeded and the backup could not be read again. |
| Restore.PrunedBackupLeavesCopy | ops/restore_sqlite.py:91-97 | An input for which the call raises and the copy stays. |
| Restore.FailedCloseBlocksLaterRestores | ops/restore_sqlite.py:333-359 | An input for which the temporary stays, and every later restore to that destination raises. |
| Restore.Drill.Run | ops/restore_sqlite.py:108-131 | The drill's copy is always removed; the success record changes if and only if restore and removal succeeded and the record was published; a file of the same name is lost with it; a temporary stays exactly when closing it failed twice. |
| RecoveryCreation.CreationIsSafe | ops/recovery_point.py:170-292 | At every crash point of a creation, whatever fails, an existing health record names a complete, matching point. |
| RecoveryCreation.CreationSucceeds | ops/recovery_point.py:170-292 | A creation succeeds if and only if the checks pass, the restore is usable and no write, flush or retention call fails; then exactly min(retention, previous count + 1) points remain, those deleted are exactly the ones preflight listed, and the record names the new point. |
| RecoveryCreation.CreationPublishes | ops/recovery_point.py:181-276 | A successful creation publishes under its name the restored database with the manifest file it was given, or else that of the point the record named before; manifest and record carry their digests and the tag and commit that file decodes to. |
| RecoveryCreation.ReadyIsExact | ops/recovery_point.py:170-203 | What has to hold before anything is written: retention in range, no foreign entry, complete points, a sound record, verified expiring points and a manifest file that decodes. |
| RecoveryCreation.NewPointVerifies | ops/recovery_point.py:383-442 | The point just built passes verification and matches the record written for it. |
| RecoveryCreation.ExpiredSparesProtected | ops/recovery_point.py:781-816 | Retention never selects the point it protects. |
| RecoveryPoint.ExpiredWereExpiring | ops/recovery_point.py:819-831 | The points retention removes are exactly those preflight verified, in the same order, wherever the new entry is listed. |
| RecoveryPoint.SortWithout | ops/recovery_point.py:781-816 | Dropping a name commutes with sorting newest first, ties kept in listing order. |
| RecoveryPoint.NewestIsStable | ops/recovery_point.py:781-816 | The order is by age, newest first, and points of the same age keep their listing order. |
| RecoveryPoint.RecordPinsPoint | ops/recovery_point.py:383-442 | Whatever stands under the record's name and passes is the same manifest, database and manifest file, or exhibits a collision, and it has the digests, size, revision, tag and commit recorded. |
| RecoveryPoint.RetentionIsSafe | ops/recovery_point.py:781-816 | No state of a retention pass, finished or not, loses the point the record names. |
| RecoveryPoint.RetentionCompletes | ops/recovery_point.py:781-816 | When every expired point verifies, retention finishes and removes exactly those. |
| RecoveryDirectory.Directory.PreflightRetention | ops/recovery_point.py:819-831 | Succeeds exactly when every point the next publication removes verifies. |
| RecoveryDirectory.Directory.RemovePoint | ops/recovery_point.py:806-815 | Removes one point file by file and its directory last, up to the first call that fails, touching nothing else. |
| RecoveryDirectory.Directory.ApplyRetention | ops/recovery_point.py:781-816 | Result, states and new directory are those of the specification, up to the unlink, rmdir or final flush that fails; an unknown protected name changes nothing. |
| RecoveryDirectory.Directory.WriteFiles | ops/recovery_point.py:215-266 | Writes the files of the point one by one up to the first failure, a failing restore leaving its copy or temporary. |
| RecoveryDirectory.Directory.RemoveStaging | ops/recovery_point.py:834-846 | Unlinks the three files and removes the directory, stopping silently at the first failure; the directory is gone if and only if all four calls succeed and no temporary was left in it. |
| RecoveryDirectory.Directory.StagePoint | ops/recovery_point.py:170-292 | Builds the point file by file; after a failure no staging directory is left if and only if none was made, or the clean-up succeeded and the restore left no temporary. |
| RecoveryDirectory.Directory.PublishPoint | ops/recovery_point.py:258-289 | Rename, flush, verification, record and retention pass through the states specified; the flush can fail after the rename, and after the record was replaced. |
| RecoveryDirectory.StrandedStagingRefuses | ops/recovery_point.py:710-727 | A staging directory left behind makes every later creation refuse before it writes anything, over any run. |
| RecoveryCreation.StagingIsCleared | ops/recovery_point.py:834-846 | The same condition, of the specified states. |
| RecoveryDirectory.Directory.CreateRecoveryPoint | ops/recovery_point.py:170-292 | Result and states are those of the specification, and every state keeps the pointer safe. |
| RecoveryDirectory.PointerStaysSafe | ops/recovery_point.py:477-503 | Over any run of creations, each cut anywhere, the record stays safe to follow. |
| CheckpointChain.ValidIffBuilt | backend/wallet_case_schemas.py:653-702 | The validator accepts a document if and only if it is the chain built from a bounded or incremental root by appending its resume revisions. |
| CheckpointChain.ShorterIsValid | backend/wallet_case_schemas.py:653-702 | Taking the last revision off a valid chain leaves a valid chain to which it can be appended again. |
| CheckpointChain.AppendIsValid | backend/wallet_case_schemas.py:614-626 | An append keeps validity and adds exactly the revision's pages to the aggregate. |
| CheckpointChain.PrefixesAreChains | backend/wallet_case_schemas.py:653-702 | Every non-empty prefix of a valid chain's revisions is a valid chain. |
| CheckpointChain.TipDecides | backend/wallet_case_schemas.py:614-626 | A next page is named exactly while the tip is ready, only the root is no resume, and every revision is rooted in the one before. |
| CheckpointChain.RevisionIsExact | backend/wallet_case_schemas.py:614-626 | A revision is valid if and only if it is one of the first hundred, its counts fit, its manifest is named by its hash and it names a next page exactly while ready. |
| Backfill.StatesCoverStreams | backend/wallet_case_schemas.py:843-888 | The three state counts of a progress document add up to its streams. |
| Backfill.RevisionsCount | backend/wallet_case_schemas.py:747-817 | Revisions are continuation revisions plus streams, at most a hundred each, and successful pages never exceed pages. |
| Backfill.OutcomeAccount | backend/wallet_case_schemas.py:2060-2187 | One accepted outcome adds one revision, keeps the stream count, and gains no more pages than its receipt's budget. |
| Backfill.AccountTelescopes | backend/wallet_case_schemas.py:1786-1828 | Over any chained run, pages gained equal last minus first total and stay within the sum of budgets, and the three state deltas sum to the change in streams, which is none. |
| Backfill.RunIsBounded | backend/wallet_case_schemas.py:2060-2187 | A chained run is no longer than the revisions its streams still have room for. |
| BackfillOutcomes.OutcomeMeans | backend/wallet_case_schemas.py:2072-2143 | An accepted outcome is about the stream selected, which was ready; its transition records that stream's states and tip and the change of every total; the verdict follows from the stream's state afterwards and the pages gained. |
| BackfillOutcomes.OutcomeIsExact | backend/wallet_case_schemas.py:2060-2187 | An outcome is accepted if and only if its documents are, belong together, and transition and verdict are those of the selected stream. |
| BackfillOutcomes.TotalsMean | backend/wallet_case_schemas.py:843-888 | Each number of an aggregate is a count or a sum over the streams. |
| BackfillOutcomes.ReceiptIsExact | backend/wallet_case_schemas.py:1786-1929 | A receipt is valid if and only if its output is its ready input moved on by some pages within the budget, to another checkpoint of the same stream. |
| BackfillOutcomes.ReceiptFixesTransition | backend/wallet_case_schemas.py:1786-1929 | With the same input and output there is only one transition. |
| BackfillOutcomes.StreamIsExact | backend/wallet_case_schemas.py:774-817 | A stream is valid if and only if its totals are root plus continuation, its tip fits and its frontiers are there as soon as a page succeeded. |
| BackfillOutcomes.ProgressIsExact | backend/wallet_case_schemas.py:843-888 | A progress document is valid if and only if its streams are, in strict order, with the totals they imply and a cut-off among their tips. |

## Left out

- Files: permissions, ownership, symbolic links, inode checks, fsync and the lock itself; writes are atomic under one held lock.
- Bytes: JSON encoding and SHA-256; the hash is an arbitrary function, a ledger file is the canonical encoding of an event or something else, and binding is stated up to an explicit collision.
- Times: timestamps are integers, and their time-zone and format checks are not modelled.
- Payload shapes: exact key sets, unknown keys and schema-version fields of JSON documents; fields are typed, except where the trace, page and address code inspects an untrusted value.
- Attempt ids and recovery-point names: drawn at random by the code; runs assume that a drawn value is not in use.
- Docker, release attestation, the Alertmanager directory, the HTTP smoke check and SQLite itself: each passes or fails.
- Exceptions: messages and classes are collapsed into one refusal per operation.
- Record size: the cap of 16384 bytes on a journal, receipt or event (ops/deployment_state.py:1053-1054, 1098-1099) is not computed, since records have no bytes here; a record over the cap is a write that fails before it reaches the disk. It can only be met by calling the state class directly: the driver takes its tag from asset file names (ops/verify_release_bundle.py:63-69), whose length the file system bounds.
- RolloutOutcomes.ResumeSettles: is about invocations in which no write fails.
- LockedState.LockedDeploymentState.WriteLedgerEvent: keeps the ledger as a sequence of events; the directory form, its crash points and the refusal of an existing name are in LedgerDirectory.
- RolloutHistory.CrashSafety: is about complete_attempt as the driver calls it; a bare record_success without a journal has a window that validation rejects by design.
- Restore.Site.RestoreWithoutOverwrite: the unlinks of its clean-up are taken to succeed; at most one of the other system calls fails, together with the second close and with at most one file placed at the destination by someone else.
- RecoveryDirectory.Directory.WriteFiles: a file is absent until it is complete; what a crash inside the restore leaves in the staging directory is not listed among the states.
- RecoveryDirectory.Directory.PublishPoint: reading a point or the record back fails only as a failed verification.
- TraceModel.ReadNode: the limit Python puts on the digits of an integer does not appear.
- Backfill.AccountTelescopes: receipts of the third version only; the plan after a receipt, the schedule validator and the content-address digests of case documents are not modelled.
- Monitoring of the deployment state and the audit report: they only restate fields of a consistent state.
- Network code, display normalisers, routes, configuration, migrations, the exporter loop and the rest of the frontend: input, output and field copying.
