# mXterm: verified models

mXterm is a desktop SSH client with a coding agent. This project models the parts of its Rust core
that keep several stores, tasks or texts consistent, and proves what they promise, over all inputs and
all runs. `dafny verify dfyconfig.toml` checks everything.

| files | what they model |
|---|---|
| `TransferData`, `TransferImport`, `CrashProtocol`, `TransferStore` | importing a bundle of connections into an SQLite database and an encrypted vault file, with a journal, a vault backup, a commit marker and an undo log; a crash may happen between any two steps, also inside recovery |
| `JsonStore` | writing a JSON document through a temporary file and a backup |
| `Workspace`, `WorkspaceUndo`, `WorkspaceState`, `ReplyUndo`, `WorkspaceRuns`, `WorkspaceOlder`, `AgentWorkspace` | the agent's file changes: versioned writes, applying, taking back one, many, or the changes of one reply; the record of changes and its checkpoints, over whole runs |
| `ExecPool`, `ExecPoolSafety`, `ExecPoolReuse`, `ExecPoolBound`, `ExecPoolRuns`, `ExecPoolProgress`, `ExecPoolCalls` | the cache of SSH exec sessions shared by concurrent tasks, every lock region one step |
| `Conversation` | the messages sent to the model, in two encodings: each tool call answered in place, across replay, injection and compaction |
| `Injection` | messages inserted into a running reply, and stopping it |
| `SseFraming`, `SimpleDiff`, `SearchLines`, `AttachmentBudget`, `Glob` | text algorithms: event framing, the one-hunk diff, lines to show for matches and pages of results, sharing a character budget, glob matching |

Code that changes state is modelled by classes and loops (`TransferStore.Store`, `JsonStore.Document`,
`AgentWorkspace.AgentWorkspace`, `Conversation.AgentConversation`, `Injection.AgentMessageInbox`), each
method proved against a function of the old state; the theorems are lemmas about those functions.
The exec pool and the injection protocol are interleavings of several tasks, so they are state machines
over runs.

## What does not hold of the code

Where a property one would expect is false, the code is kept as it is and the exact condition is proved.

- The glob loop tests a character for equality before it tests it for `*`: it agrees with the recursive
  matcher on all patterns exactly for values without a `*` (`Glob.AgreesIffNoStar`).
- Two imported groups can land on one local group: one keeps the id of a local group under a new name,
  the other has that group's old name (`TransferImport.SharedTargets`, `TransferImport.TwoGroupsOneRow`).
- Taking back a change restores the files exactly when line endings agree both ways, the new text can be
  read back and a rename had a free destination, which is not checked again when it is applied
  (`Workspace.UndoneIff`).
- The check made before the changes of a reply are undone does not see line endings, so it can pass and the
  undo then stop halfway (`WorkspaceUndo.CheckMissesLineEndings`). After a passed check the undo completes
  exactly when no change that restoring would write with other line endings comes after another change of its
  path in the reply (`WorkspaceUndo.CheckDecidesUndo`, `ReplyUndo.CheckedUndoCompletesIff`).
- Taking back one change alone refuses a change that changed nothing and a patch that made a file; taking
  back a checkpoint does not (`Workspace.RollbackOneIff`). It is not checked against later changes either:
  the other changes still explain the files exactly when no later change touches its path
  (`WorkspaceRuns.UndoneOneExplainedIff`, `WorkspaceRuns.UndoneFromUnderLater`).  Nor is a rollback of an older
  checkpoint or of named changes: when it finishes, the others explain the files exactly when, wherever one of
  them follows changes taken back of the same path, those had cancelled out
  (`WorkspaceOlder.RolledBackExplainedIff`).
- A checkpoint's status goes wrong in exactly two cases (`WorkspaceRuns.StatusesStayRightIff`): a new change
  joins a checkpoint that has been rolled back (`WorkspaceRuns.RejoinedCheckpointStaysRolledBack`), and a
  rollback of some named changes finishes while the checkpoint it was for still has others applied
  (`WorkspaceRuns.NamedRollbackMarksTooMuch`).
- Writing a JSON document copies a damaged file over a good backup: stopped before the rename, both are lost.
  Every stop loads the old document or the new one exactly when the file was not damaged or there was no
  good backup (`JsonStore.StopsLoadIff`, `JsonStore.WriteCanLoseBackup`).
- Compaction looks for the role `tool`, which the Anthropic encoding does not use: there it keeps results and
  calls together exactly when what is kept does not begin with results (`Conversation.CompactionKeepsResultsIff`).
  At every request of every run, results right behind the summary are the only ones without their calls
  (`Conversation.EveryRequestPairedIff`). They come about when a run goes on from stored tool calls
  (`Conversation.ResultsCanBeOrphaned`), and never when user and assistant take turns from the start
  (`Conversation.AlternatingRunsPaired`).
- A snapshot of the running reply is not serialized with stop: written after the reply was settled it
  leaves a streaming row behind (`Injection.SnapshotKeepsIff`, `Injection.SnapshotAfterStop`). A failed commit
  loses the messages taken (`Injection.AcceptedIsDeliveredThenPending`), and a stop or a failed run abandons
  the pending ones (`Injection.AbandonedOnlyByStopOrFailure`, `Injection.StopAbandons`).
- A reply that was stopped stays stopped exactly when the run had not yet decided on another status: it reads
  the stop flag and writes its status without a common lock (`Injection.StopHoldsIff`,
  `Injection.CompleteOverStopped`).
- Dropping a pool task, wherever it stands, loses exactly the sessions it owned (`ExecPoolSafety.DropLosesOwned`,
  `ExecPoolRuns.DroppedWhileClosing`).
- The size of the cache is not kept to its limit: it grows by one for each further connector between making
  room and storing (`ExecPoolBound.CacheSizeBound`), and for every number of connectors some run gets there
  (`ExecPoolRuns.SizeBoundIsReached`).
- An exec that waits for the lock of its session can run on it after it has been closed
  (`ExecPoolRuns.ExecOnClosedSession`), but only if the close came before it took the lock
  (`ExecPoolRuns.ClosedSinceItsLock`).
- Two texts that differ in one final newline have an empty diff (`SimpleDiff.SameLinesIff`).
- Stored attachments are counted to the end when the budget is shared, although they take nothing: one stored
  and one inline file leave the inline one half of the budget (`AttachmentBudget.StoredHalves`). Every inline
  file is allowed an equal share among the inline files, at any budget, exactly when none is stored
  (`AttachmentBudget.InlineShareIff`, `AttachmentBudget.InlineSharesPromisedIff`).

## Assumptions

Transaction ids, change ids, message ids and session identities are fresh. A returned file copy is
durable, and a rename puts a file in place whole or not at all. COMMIT that returns an error has not
committed. Nobody but the import and the recovery writes the vault while a journal stands. Files are
changed only by the modelled operations during one operation.

## Model

| member | source | states |
|---|---|---|
| TransferData.ValidateData | src-tauri/src/connection_transfer.rs:663-738 | accepts exactly the bundles within the size limits whose ids and group names are distinct and not blank and whose references resolve inside the bundle |
| TransferData.ValidateSecrets | src-tauri/src/connection_transfer.rs:740-793 | accepts exactly the secrets that fill the slots the records refer to, each once and of the kind referred to |
| TransferData.ValidSecretsIff | src-tauri/src/connection_transfer.rs:740-793 | secrets pass if and only if there are not too many, no slot comes twice, every connection with a slot says what it is for, every secret is referred to and of the kind of the last record that does, connections after credentials, and no slot referred to is missing |
| TransferImport.GroupsImported | src-tauri/src/connection_transfer.rs:289-340 | a failed group import has a group that clashes by id and by name; a finished one keeps ids and names unique and maps every imported group to a row |
| TransferImport.StatementsKeepKeys | src-tauri/src/connection_transfer.rs:300-340 | inserting a group fails if and only if its id or its name is taken, updating one if and only if another row has the name; what succeeds keeps the names unique |
| TransferImport.ApplyGroups | src-tauri/src/connection_transfer.rs:289-340 | the loop over groups computes that import |
| TransferImport.GroupKept | src-tauri/src/connection_transfer.rs:289-340 | a local group that no imported group targets is untouched |
| TransferImport.TargetRow | src-tauri/src/connection_transfer.rs:300-340 | a targeted row keeps its id and creation time |
| TransferImport.LastGroupWins | src-tauri/src/connection_transfer.rs:300-340 | of several imported groups on one row the last decides what it says |
| TransferImport.SharedTargets | src-tauri/src/connection_transfer.rs:274-305 | two imported groups share a row if and only if one keeps a local id under a name no local group has and the other bears that local group's name |
| TransferImport.TwoGroupsOneRow | src-tauri/src/connection_transfer.rs:274-305 | a bundle for which this happens |
| TransferImport.ApplyCredentials | src-tauri/src/connection_transfer.rs:341-387 | the loop over credentials merges them by the strategy, counts them, and collects the slots written |
| TransferImport.CredentialImported | src-tauri/src/connection_transfer.rs:341-387 | a credential of the bundle ends as the merge of the local row and the imported one |
| TransferImport.ApplyConnections | src-tauri/src/connection_transfer.rs:388-486 | the loop over connections merges them, with groups mapped, unless a foreign key fails |
| TransferImport.ConnectionImported | src-tauri/src/connection_transfer.rs:388-486 | a connection of the bundle ends as the merge of the local row and the imported one |
| TransferImport.ApplyRows | src-tauri/src/connection_transfer.rs:270-504 | the three loops together are the import of rows |
| TransferImport.CountsMatchPreview | src-tauri/src/connection_transfer.rs:636-660 | created is the preview's new and the rest is its conflicts |
| TransferImport.GroupCountsMatchPreview | src-tauri/src/connection_transfer.rs:622-660 | the same for groups, which match by id or name |
| TransferImport.RowsImported | src-tauri/src/connection_transfer.rs:270-504 | importing valid data fails in the database if and only if a group is ambiguous, and otherwise does and counts what the preview promised: created, updated and skipped add up to the total |
| TransferImport.ImportStores | src-tauri/src/connection_transfer.rs:341-486 | every connection written is stored with all columns of the bundle and the local creation time, in the local group with the name of its own group if there is one and in the imported group otherwise, in none if it has none; a credential likewise; skipped and unmentioned rows are as they were; the secrets to be written are those of the records not skipped |
| TransferImport.ImportKeepsIntact | src-tauri/src/connection_transfer.rs:341-486 | either strategy leaves every group, credential and jump reference resolvable, in imported and in local rows |
| TransferImport.SkipOnlyAdds | src-tauri/src/connection_transfer.rs:289-504 | under the strategy of skipping no row that was there changes |
| CrashProtocol.StepKeepsSafe | src-tauri/src/connection_transfer_recovery.rs:28-148 | no step, a crash and a torn copy included, leaves the safe states |
| CrashProtocol.RunKeepsSafe | src-tauri/src/connection_transfer_recovery.rs:28-148 | so every state of every run is safe |
| CrashProtocol.DiskAtAnyPoint | src-tauri/src/connection_transfer_recovery.rs:73-148 | at any point of any run: without a journal the disk is what was promised; with a journal of an uncommitted import the whole old vault is in its backup |
| CrashProtocol.PromiseOfOneImport | src-tauri/src/connection_transfer_recovery.rs:28-93 | while one journal stands the promise is the old pair until the commit and the new pair after it |
| CrashProtocol.ImportIsAtomic | src-tauri/src/connection_transfer_recovery.rs:28-148 | from journal to no journal, over any crashes, inside recovery too, the disk goes from (old, old) to (old, old) or (new, new) |
| TransferStore.UndoRestoresStart | src-tauri/src/connection_transfer.rs:548-559 | replaying the undo log newest first gives the starting vault, also when accounts repeat or the last write failed halfway |
| TransferStore.Store.constructor | src-tauri/src/connection_transfer_recovery.rs:73-93 | a new process over whatever a crash left |
| TransferStore.Store.Begin | src-tauri/src/connection_transfer_recovery.rs:28-57 | refuses if and only if a journal stands; otherwise backs up the vault before the journal appears |
| TransferStore.Store.RestoreVaultBackup | src-tauri/src/connection_transfer_recovery.rs:122-136 | puts the old vault back; a missing backup cannot happen while it is needed |
| TransferStore.Store.Cleanup | src-tauri/src/connection_transfer_recovery.rs:138-148 | removes the journal before the backup |
| TransferStore.Store.CommitRecovery | src-tauri/src/connection_transfer_recovery.rs:63-65 | after the commit only the recovery files go |
| TransferStore.Store.Abort | src-tauri/src/connection_transfer_recovery.rs:67-70 | before the commit the old vault comes back |
| TransferStore.Store.Recover | src-tauri/src/connection_transfer_recovery.rs:73-93 | when it returns normally the disk is the promised pair and nothing is pending; it fails only when a read or write fails, never for a missing backup |
| TransferStore.Store.Unlock | src-tauri/src/storage_vault.rs:234-257 | unlocking finishes a pending import first; the unlocked vault is then the promised one |
| TransferStore.Store.SetSecret | src-tauri/src/storage_vault.rs:521-530 | the secret changes in memory before it is written, and stays changed when the write fails |
| TransferStore.Store.RestoreSecretBackups | src-tauri/src/connection_transfer.rs:548-559 | the loop replays the log newest first |
| TransferStore.Store.WriteSecrets | src-tauri/src/connection_transfer.rs:512-537 | writes the secrets of the written records in order, and counts them; the log always holds what the accounts held at the start, also when a read or a write fails at any position |
| TransferStore.Store.GiveUp | src-tauri/src/connection_transfer.rs:523-545 | after such a failure, or a failed COMMIT, if the restoring calls succeed the unlocked vault is exactly the one the import started from, the disk is the old pair and no journal is left |
| TransferStore.Store.CommitImport | src-tauri/src/connection_transfer.rs:511-546 | the secrets and the COMMIT: everything is in place, or everything was undone, or a file operation failed and recovery will give the old pair or, after COMMIT, the new one |
| TransferStore.Store.ApplyTransferData | src-tauri/src/connection_transfer.rs:264-546 | the import of validated data over both stores |
| TransferStore.Store.ApplyBundle | src-tauri/src/connection_transfer.rs:252-262 | validation before anything is touched, then the import |
| TransferStore.SecretsInPlace | src-tauri/src/connection_transfer.rs:511-537 | after an import each slot of a written record holds the bundle's secret and every other account what it held |
| JsonStore.Document.Write | src-tauri/src/storage.rs:50-122 | a stopped or failed write leaves the disk at one of the described stops, in order; a normal return has put the new document in place and kept the old file as its backup |
| JsonStore.StopsLoadIff | src-tauri/src/storage.rs:97-122 | every stop loads the old document or the new one if and only if the old file was not damaged or had no good backup |
| JsonStore.WriteCanLoseBackup | src-tauri/src/storage.rs:110-122 | a stop that has lost both the damaged file's good backup and the new document |
| Workspace.ToCrlfGrows | src-tauri/src/ai_workspace.rs:659-666 | rewriting line ends changes and lengthens exactly the texts with an LF |
| Workspace.StoredIff | src-tauri/src/ai_workspace.rs:659-666 | a text is stored as given if and only if the line endings agree |
| Workspace.StoredKeepsLineEnds | src-tauri/src/ai_workspace.rs:659-666 | over a text with CR LF, a text without is stored so that every LF has its CR and reading each CR LF as LF gives the text; any other text is stored as given |
| Workspace.ReadsAre | src-tauri/src/ai_workspace.rs:125-150 | a file is refused as too large above the limit, and as binary if and only if a zero is among its first 8192 bytes |
| Workspace.PreviewsIff | src-tauri/src/ai_agent.rs:2785-2880 | a change can be previewed if and only if the file is as the agent last read it, a new file or the destination of a rename is free, and the text is not too large; what it plans |
| Workspace.AppliesIff | src-tauri/src/ai_agent.rs:2880-2963 | a change applies if and only if the file is as it was at the preview; then the file is written in its line ends, gone or moved, and no other has changed |
| Workspace.RollsBackIff | src-tauri/src/ai_agent/file_history.rs:702-799 | a rollback succeeds if and only if the file is as the change left it, or its place is still free; then the old text, or no file, or the file at its old place is there, and no other has changed |
| Workspace.UndoneIff | src-tauri/src/ai_agent/file_history.rs:702-799 | taking back a change just applied restores the files if and only if line endings agree, the text can be read back and a rename's destination was free |
| Workspace.RollbackOneIff | src-tauri/src/ai_agent.rs:3149-3313 | the single rollback does what the rollback of a checkpoint does, except that it refuses no-ops and patches that made a file |
| Workspace.PreviewedAppliesAndUndoes | src-tauri/src/ai_agent.rs:2785-2960 | a previewed change applies to unchanged files and can be taken back, a written text if and only if it is readable and the line endings agree |
| WorkspaceUndo.HistoryRestoredIff | src-tauri/src/ai_agent.rs:2419-2447 | taking back a whole history newest first restores the files it began with if and only if every change could be taken back where it was applied |
| WorkspaceUndo.RollbackFollows | src-tauri/src/ai_agent/file_history.rs:702-799 | a rollback that goes wrong at one change is not put right by an earlier one |
| WorkspaceUndo.NewestUndone | src-tauri/src/ai_agent.rs:2419-2447 | taking back the newest k leaves the files from before those k |
| WorkspaceUndo.Commute | src-tauri/src/ai_agent/file_history.rs:236-260 | making one change and taking back another commute when they touch different paths |
| WorkspaceUndo.UndoIsAsIfNeverMade | src-tauri/src/ai_agent/file_history.rs:214-352 | undoing one reply whose paths no later change touches gives the files that the other changes alone would have made |
| WorkspaceUndo.CheckDecidesUndo | src-tauri/src/ai_agent/file_history.rs:395-426 | when the check of file versions has passed, the undo completes if and only if no change that restoring would write with other line endings comes after another change of its path |
| WorkspaceUndo.CheckForetells | src-tauri/src/ai_agent/file_history.rs:395-426 | where no line ending is rewritten the check passes if and only if the undo completes; where both pass, the check foretells the contents if and only if none is rewritten |
| WorkspaceUndo.CheckMissesLineEndings | src-tauri/src/ai_agent/file_history.rs:395-426 | a history for which it passes and the undo fails |
| WorkspaceState.RegisterKeepsStatusIff | src-tauri/src/ai_agent/file_history.rs:97-140 | registering a change keeps every checkpoint status right if and only if it does not join a checkpoint that has been rolled back |
| WorkspaceState.UnregisterKeepsStatus | src-tauri/src/ai_agent.rs:2239-2259 | removing a change keeps every status right |
| WorkspaceState.BothCountsAgree | src-tauri/src/ai_agent/file_history.rs:341-353 | counting again for every checkpoint or only for those that hold the change comes to the same |
| WorkspaceState.RollbackListRemoves | src-tauri/src/ai_agent.rs:2419-2440 | a rollback that stops early removes from the record exactly the changes it has taken back |
| WorkspaceState.RegisterExplained | src-tauri/src/ai_agent/file_history.rs:97-140 | a change applied and registered extends the history that explains the files |
| WorkspaceState.OrderIsUnique | src-tauri/src/ai_agent.rs:2393-2404 | sequence numbers determine the order of the applied changes |
| WorkspaceRuns.NumbersNeverReused | src-tauri/src/ai_agent/file_history.rs:97-111 | in every run a change made later has the larger sequence number, whatever was taken back in between |
| WorkspaceState.RollbackExplained | src-tauri/src/ai_agent.rs:2374-2447 | taking back the newest changes meets no conflict; it stops only when the file system fails, with exactly the newest undone and unrecorded |
| WorkspaceState.RollbackKeepsStatusIff | src-tauri/src/ai_agent.rs:2405-2460 | a workspace rollback keeps every status right if and only if a file operation or a conflict will stop it, or its checkpoint has nothing left applied |
| WorkspaceState.DefaultRollbackKeepsStatus | src-tauri/src/ai_agent.rs:2374-2460 | which is always so when no changes are named |
| WorkspaceState.UndoneReplyLeavesTheOthers | src-tauri/src/ai_agent/file_history.rs:214-352 | after the undo of a reply, files and record are those of the other changes alone |
| WorkspaceState.CheckpointFollowsHistory | src-tauri/src/ai_agent/file_history.rs:228-238 | the list of a checkpoint names its changes in the order they were applied |
| WorkspaceRuns.KeepsStatusIff | src-tauri/src/ai_agent.rs:2239-2464 | each operation keeps every status right if and only if it is neither a change joining a checkpoint that has been rolled back nor a finished rollback of named changes that leaves others of its checkpoint |
| WorkspaceRuns.StatusesStayRightIff | src-tauri/src/ai_agent.rs:2239-2464 | over runs of all operations, the undo of a reply included, each checkpoint is at all times active, partial or rolled back as all, some or none of its changes are applied, if and only if the run has no operation of these two kinds |
| WorkspaceRuns.RejoinedCheckpointStaysRolledBack | src-tauri/src/ai_agent/file_history.rs:97-140 | a run in which a checkpoint stays marked as rolled back with a change applied |
| WorkspaceRuns.NamedRollbackMarksTooMuch | src-tauri/src/ai_agent.rs:2405-2460 | a run in which a rollback by name marks a checkpoint that still has a change applied |
| WorkspaceRuns.RecordStaysOk | src-tauri/src/ai_agent.rs:2239-2464 | after every run the record in the order of its sequence numbers explains the files, every change of it can be taken back, and every checkpoint lists its changes in that order |
| WorkspaceRuns.UndoAfterAnyRun | src-tauri/src/ai_agent/file_history.rs:214-353 | after every such run the undo of a reply that its plan lets through passes the check, completes, and leaves what the other changes alone would have made |
| WorkspaceRuns.UndoneOneExplainedIff | src-tauri/src/ai_agent.rs:3081-3313 | after one change has been taken back alone the others explain the files if and only if no later change touches its paths |
| WorkspaceRuns.UndoneFromUnderLater | src-tauri/src/ai_agent.rs:3081-3313 | a record from which one is taken back that later ones touch |
| WorkspaceOlder.RolledBackExplainedIff | src-tauri/src/ai_agent.rs:2405-2460 | after a finished rollback of an older checkpoint or of named changes the others explain the files if and only if, on every path, the changes taken back had cancelled out wherever one that stays follows them |
| WorkspaceOlder.NoLaterTouchCancels | src-tauri/src/ai_agent.rs:2405-2460 | which is so where no change that stays is later and touches a path |
| ReplyUndo.PlanPassesIff | src-tauri/src/ai_agent/file_history.rs:241-258 | comparing sequence numbers, the plan refuses if and only if a change that stays comes after one to undo and touches a path of it |
| ReplyUndo.UndoIsRollback | src-tauri/src/ai_agent/file_history.rs:333-353 | while the record can be saved, undoing a reply leaves the same files, record and statuses as rolling its changes back |
| ReplyUndo.ReplyUndone | src-tauri/src/ai_agent/file_history.rs:290-393 | if its plan passes and nothing fails, all changes of the reply are undone, and files and record are what the other changes alone would have made |
| ReplyUndo.CheckedUndoCompletesIff | src-tauri/src/ai_agent/file_history.rs:307-353 | while files can be written and the record saved, an undo that has passed the check completes if and only if no change that restoring would write with other line endings comes after another change of its path |
| AgentWorkspace.AgentWorkspace.UndoReply | src-tauri/src/ai_agent/file_history.rs:290-393 | refuses, before anything has changed, exactly an unknown or undone reply, a later change of a file, a file that cannot be read, or a file that has changed; otherwise undoes newest first until something fails |
| AgentWorkspace.ReverseVersions | src-tauri/src/ai_agent/file_history.rs:395-426 | the loop over the versions read passes if and only if they lead back through all the changes |
| AgentWorkspace.AgentWorkspace.WriteVersion | src-tauri/src/ai_workspace.rs:620-709 | writes if the file is as expected, with the line ends of the old text on every line, and otherwise changes nothing |
| AgentWorkspace.AgentWorkspace.ApplyChange | src-tauri/src/ai_agent.rs:2880-2963 | applies a previewed change, or changes nothing |
| AgentWorkspace.AgentWorkspace.RollbackLocal | src-tauri/src/ai_agent/file_history.rs:702-799 | takes back one change of a checkpoint, or changes nothing |
| AgentWorkspace.AgentWorkspace.RegisterApplied | src-tauri/src/ai_agent/file_history.rs:97-140 | records the change under a sequence number above all others and in the checkpoint of its message |
| AgentWorkspace.AgentWorkspace.CreateCheckpoint | src-tauri/src/ai_agent.rs:2293-2345 | a checkpoint of all the changes applied, unless there are none |
| AgentWorkspace.AgentWorkspace.MarkCheckpointChangeRemoved | src-tauri/src/ai_agent.rs:2239-2259 | counts again for the checkpoints that hold the change |
| AgentWorkspace.AgentWorkspace.RollbackPatch | src-tauri/src/ai_agent.rs:3081-3313 | the single rollback, with its removal from the record |
| AgentWorkspace.AgentWorkspace.RollbackWorkspace | src-tauri/src/ai_agent.rs:2374-2464 | the loop over the changes still applied, newest first |
| ExecPoolSafety.RunKeeps | src-tauri/src/remote_exec_pool.rs:120-454 | the invariant of map, ownership, locks and guards holds in every state of every interleaving, also when tasks are dropped between any two steps |
| ExecPoolSafety.EverySessionAccounted | src-tauri/src/remote_exec_pool.rs:248-433 | without dropped tasks each connected session is at every moment in exactly one of: one map entry, one owning task, closed once |
| ExecPoolSafety.DropLosesOwned | src-tauri/src/remote_exec_pool.rs:167-443 | dropping a task, at whatever step, loses exactly the sessions it owned |
| ExecPoolRuns.DroppedWhileClosing | src-tauri/src/remote_exec_pool.rs:222-246 | a run in which a task is dropped while it closes the session of a failed exec: the session is in no map, with no task, and never closed |
| ExecPoolSafety.CloseExcludesExec | src-tauri/src/remote_exec_pool.rs:403-443 | a session is never closed while an exec runs on it, nor twice |
| ExecPoolSafety.CounterCountsGuards | src-tauri/src/remote_exec_pool.rs:433-454 | the counter of a session is the number of live guards on it |
| ExecPoolReuse.ExecRunsOnItsOwn | src-tauri/src/remote_exec_pool.rs:248-321 | in every interleaving an exec runs on a session of its own connection and signature |
| ExecPoolReuse.OnlyIdleSessionsGo | src-tauri/src/remote_exec_pool.rs:248-463 | in every step of every run: a call looks at every cached session, passes over those in use, and takes out exactly those last used longer ago than the timeout; it takes the session of its connection if and only if it was used within the timeout before the clock reading and has the settings asked for; a timer judges its session the same way |
| ExecPoolReuse.UseLeavesTimer | src-tauri/src/remote_exec_pool.rs:408-431 | a new timer, for the session used, if and only if a call has used one and sessions can become idle |
| ExecPoolReuse.SessionLeavesOnlyFor | src-tauri/src/remote_exec_pool.rs:287-402 | in every step of every run a cached session leaves only if a task holds a stale handle of that very session, drops its connection, replaces it under another signature, or makes room for another connection |
| ExecPoolBound.CacheSizeBound | src-tauri/src/remote_exec_pool.rs:287-382 | the cache holds at most its limit less one plus the most connectors ever between making room and storing, so its limit with one connector |
| ExecPoolProgress.RoomIsMade | src-tauri/src/remote_exec_pool.rs:352-382 | whenever a call makes room, in any run: nothing leaves below the limit; otherwise sessions of other connections leave, those with the first ids in byte order, until one place is free or no other is left, and no more |
| ExecPoolRuns.SizeBoundIsReached | src-tauri/src/remote_exec_pool.rs:287-382 | for every limit and every number of connectors a run from the empty cache reaches that size, above the limit from two connectors on |
| ExecPoolProgress.OnlyLocksBlock | src-tauri/src/remote_exec_pool.rs:248-454 | in every state of every run a task that is not done can go on, or waits for one that runs on, or closes, the session it wants |
| ExecPoolProgress.SomeTaskMoves | src-tauri/src/remote_exec_pool.rs:403-443 | and while one is not done some task can go on: they never block each other for good |
| ExecPoolCalls.CallsTryAgainOnce | src-tauri/src/remote_exec_pool.rs:211-246 | at every point of every run a call, whose job never changes, runs its exec again only after it has failed, once, if it was asked to and does not stream; it gives up only when it has failed as often as that |
| ExecPoolCalls.CallsKeepTo | src-tauri/src/remote_exec_pool.rs:222-333 | in every run a call that has stored its session goes on with the one cached then, one whose exec failed drops the session it ran on, a call ends only unconnected, warmed up, with success or on its last attempt, and the time of use changes only for a session just connected or used |
| ExecPoolRuns.ExecOnClosedSession | src-tauri/src/remote_exec_pool.rs:384-443 | a run in which an exec that waited for the lock runs on a session closed before |
| ExecPoolRuns.ClosedSinceItsLock | src-tauri/src/remote_exec_pool.rs:403-443 | how often a session has been closed does not change while an exec runs on it, in any run |
| Conversation.ResultHasCall | src-tauri/src/ai_agent.rs:4317-4400 | in a well-paired list every result answers the call at its own place in the assistant message before it |
| Conversation.PairedAt | src-tauri/src/ai_agent.rs:4317-4400 | and every assistant message is followed by exactly its results, in order |
| Conversation.Replay | src-tauri/src/ai_assistant.rs:3435-3537 | the loop rebuilds the conversation from stored messages |
| Conversation.ReplayPaired | src-tauri/src/ai_assistant.rs:3435-3537 | what is rebuilt is well paired |
| Conversation.ReplayedMessage | src-tauri/src/ai_assistant.rs:3435-3537 | a stored user message is replayed as it is, a reply as its text with the calls that are kept and exactly their results behind it, and not at all if nothing is left of it |
| Conversation.ReplyTells | src-tauri/src/ai_assistant.rs:3435-3537 | the text of a replayed reply is its own, then a heading and a line for each call lost |
| Conversation.LinesOfJoined | src-tauri/src/ai_assistant.rs:3435-3537 | these lines can be told apart again |
| Conversation.CompactedShape | src-tauri/src/ai_agent.rs:4259-4315 | a compaction keeps an unmodified tail behind one summary of exactly the messages before it, never grows the list, leaves at most nine messages, and at most five after a second cut |
| Conversation.WantedMeans | src-tauri/src/ai_agent.rs:4259-4280 | a compaction happens if and only if it is forced or four fifths of the window are reached, and there are more than eight messages, or more than four with results first |
| Conversation.CompactedEnough | src-tauri/src/ai_agent.rs:4281-4315 | after it the estimate is within three fifths of the window or at most five messages are left, and there is no second cut where the first was enough or left four messages |
| Conversation.CompactedPaired | src-tauri/src/ai_agent.rs:4259-4315 | and keeps it well paired, in the OpenAI-compatible encoding |
| Conversation.RunsAnswer | src-tauri/src/ai_agent.rs:4182-4191 | in a well-paired list of the Anthropic encoding the messages with results right behind any other message carry exactly the results of its calls, in order, and none if it has no calls |
| Conversation.EncodingKeepsPairing | src-tauri/src/ai_agent.rs:4172-4237 | a conversation is well paired in the OpenAI-compatible encoding if and only if it is in the Anthropic one, each result a user message of its own |
| Conversation.ReplayBlockPaired | src-tauri/src/ai_agent.rs:4172-4237 | so what is rebuilt from stored messages is well paired there too |
| Conversation.CompactionKeepsResultsIff | src-tauri/src/ai_agent.rs:4259-4315 | in the Anthropic encoding the cuts fall eight or four messages before the end, and a compaction keeps the pairing if and only if the first message kept carries no results |
| Conversation.ResultsCanBeOrphaned | src-tauri/src/ai_agent.rs:719-735 | a run that goes on from stored tool calls and compacts: its first request has results without their calls |
| Conversation.EveryRequestPaired | src-tauri/src/ai_agent.rs:719-809 | at every request of every run, through turns, preemption, injection and any number of compactions, each tool call is answered in place, in the OpenAI-compatible encoding |
| Conversation.EveryRequestFromHistoryPaired | src-tauri/src/ai_agent.rs:719-809 | the same, from stored history on |
| Conversation.EveryRequestPairedIff | src-tauri/src/ai_agent.rs:719-809 | in the Anthropic encoding, user messages merged, a request of any run is well paired if and only if no results stand right behind its summary |
| Conversation.AlternatingRunsPaired | src-tauri/src/ai_agent.rs:4140-4170 | and always, through any number of compactions, in a run that begins with alternating turns |
| Conversation.ItemsAllPushed | src-tauri/src/ai_agent.rs:4140-4170 | whether merged or not, what users say comes after all that was said, replied and told before, in order |
| Conversation.ItemsEncoded | src-tauri/src/ai_agent.rs:4172-4237 | the encoding changes nothing of what is said, replied and told |
| Conversation.EveryRequestCarries | src-tauri/src/ai_agent.rs:719-809 | every request of every run, in either encoding, carries in order everything said, replied and told up to it, or behind a summary the last of it |
| Conversation.RequestSentIff | src-tauri/src/ai_agent.rs:719-809 | a round has a request if and only if no earlier one ended the run and none up to it was stopped first |
| Conversation.AgentConversation.CompactIfNeeded | src-tauri/src/ai_agent.rs:4259-4315 | the two cuts in place compute that compaction |
| Conversation.AgentConversation.RunAgent | src-tauri/src/ai_agent.rs:719-809 | the loop sends exactly the requests of the run |
| Injection.AgentMessageInbox.Enqueue | src-tauri/src/ai_assistant.rs:1540-1609 | accepts a new id while open, behind those that wait, answers a repeated one without adding it, refuses when closed |
| Injection.AgentMessageInbox.Take | src-tauri/src/ai_assistant.rs:540-546 | takes everything pending, lowers the signal, and closes an empty inbox if asked to |
| Injection.AgentMessageInbox.RecordCommit | src-tauri/src/ai_assistant.rs:548-553 | remembers every committed id |
| Injection.AcceptedIsDeliveredThenPending | src-tauri/src/ai_agent.rs:823-892 | over every run the accepted messages are the committed, then those a failed commit lost, then the pending, in order and no id twice; messages are lost if and only if a commit failed; the history has exactly the committed ones |
| Injection.ClosedAbandonsNothing | src-tauri/src/ai_assistant.rs:524-546 | the signal is up exactly while something is pending; a closed inbox has delivered all it accepted, unless a commit failed |
| Injection.ClosedStaysClosed | src-tauri/src/ai_assistant.rs:524-546 | and nothing is accepted or pending ever after |
| Injection.AbandonedOnlyByStopOrFailure | src-tauri/src/ai_agent.rs:719-809 | an accepted message is not delivered if and only if some are pending or a commit failed; once the reply has ended, only after a stop or a failed run |
| Injection.StopAbandons | src-tauri/src/ai_assistant.rs:1162-1201 | a stop, or a failed run, that abandons what is pending |
| Injection.OneStreamingReply | src-tauri/src/ai_assistant.rs:3183-3247 | until it ends the history has exactly one streaming reply, the last row and the current one; then none |
| Injection.NeverAMixture | src-tauri/src/ai_agent.rs:829-881 | a reply holds the text it had itself received when it was settled, never text of another |
| Injection.ReceivedIsHeard | src-tauri/src/ai_agent.rs:829-881 | the text received for a reply is, at every point of every run, the deltas that came in while it was the current one and the run had not decided on its end |
| Injection.TakingDelivers | src-tauri/src/ai_agent.rs:823-892 | taking, in any run: the waiting messages become rows of the history behind the settled reply, before a new empty one, or all are lost with the commit; after a stop, a failure or the end nothing changes |
| Injection.StopSettlesWholeReply | src-tauri/src/ai_assistant.rs:1162-1201 | stop settles the whole reply current at that moment and touches no other row |
| Injection.StopHoldsIff | src-tauri/src/ai_assistant.rs:921-962 | whatever follows, a reply settled by a stop stays stopped if and only if the run had not already decided on another status |
| Injection.CompleteOverStopped | src-tauri/src/ai_assistant.rs:921-962 | a run that stores as complete a reply that was stopped |
| Injection.SnapshotKeepsIff | src-tauri/src/ai_agent.rs:1014-1033 | a snapshot keeps the rows well formed if and only if the reply has not been settled |
| Injection.SnapshotAfterStop | src-tauri/src/ai_agent.rs:1014-1033 | a stop and then a snapshot: the ended history has a streaming row |
| SseFraming.FirstStartIsFirstEnd | src-tauri/src/ai_assistant.rs:4001-4014 | of the two kinds of blank line the one that starts first ends first |
| SseFraming.NextEventIsFirstEnd | src-tauri/src/ai_assistant.rs:4001-4023 | the event found ends at the first end of any event |
| SseFraming.NextEventOfMore | src-tauri/src/ai_assistant.rs:4001-4023 | an event found in what has arrived is found in whatever arrives in the end |
| SseFraming.DrainInTwo | src-tauri/src/ai_assistant.rs:3985-3992 | draining a beginning and then the rest is draining it all |
| SseFraming.ReadEvents | src-tauri/src/ai_assistant.rs:3971-3999 | the events delivered, and where reading stops, depend on the bytes and not on their chunks: they are the frames up to the first at which the handler stops, and, if it never does, the rest if it is not blank; reading fails if and only if the handler fails an event delivered |
| SseFraming.DrainIsFraming | src-tauri/src/ai_assistant.rs:3971-4014 | the events are those of the one cutting into shortest frames, to the end or to the event at which the handler stops, and no byte is lost, repeated or moved |
| SseFraming.FramingExists | src-tauri/src/ai_assistant.rs:4001-4014 | every byte string has such a cutting |
| SimpleDiff.SameLinesIff | src-tauri/src/ai_workspace.rs:512-521 | texts have the same lines if and only if they are the same but for one final newline and alike in being empty |
| SimpleDiff.Diff | src-tauri/src/ai_workspace.rs:439-490 | the two loops find the longest common ends that do not overlap; the hunk has context, the removed lines, the added ones and context, each with its mark, leads from the old lines to the new ones and back, and its marks are the counts shown |
| SimpleDiff.HunkOfParts | src-tauri/src/ai_workspace.rs:455-489 | the line numbers of the hunk are those of its parts with three lines of context |
| SimpleDiff.DiffRoundTrip | src-tauri/src/ai_workspace.rs:439-490 | applying the hunk gives the new lines, applying it reversed the old ones, and its header counts its sides |
| SimpleDiff.CountsAreMarks | src-tauri/src/ai_workspace.rs:492-510 | the counts found from both ends are the numbers of added and removed lines of the diff |
| SearchLines.LineTable | src-tauri/src/ai_search.rs:335-340 | the table holds the start of every line |
| SearchLines.LineAtIs | src-tauri/src/ai_search.rs:346-353 | the lookup finds the last line that starts at or before an offset |
| SearchLines.MarkedLinesOverlap | src-tauri/src/ai_search.rs:346-361 | the lines from first to last are exactly those the match overlaps |
| SearchLines.MarkLines | src-tauri/src/ai_search.rs:341-362 | the map holds, for exactly the lines with a match, the column of the first one |
| SearchLines.AppendTextMatches | src-tauri/src/ai_search.rs:319-402 | the loops emit the entries described next |
| SearchLines.EmittedMeans | src-tauri/src/ai_search.rs:378-401 | entries ascend, once each; a line is among them if and only if it is within the context of a line a match overlaps, and has a column if and only if a match overlaps it, that of the first one |
| SearchLines.PagesShowEverything | src-tauri/src/ai_search.rs:150-176 | following the next offset ends and shows everything once, in order; limit 0 gives the whole tail |
| SearchLines.PageHolds | src-tauri/src/ai_search.rs:150-176 | a page has as many entries as asked for or all there are from the offset on, and a next offset if and only if there are more |
| AttachmentBudget.ExcerptIsDisjoint | src-tauri/src/ai_assistant.rs:4515-4529 | what is kept is a beginning and an end that do not overlap, of exactly the length allowed |
| AttachmentBudget.Share | src-tauri/src/ai_assistant.rs:4417-4466 | the loop gives each inline file its share of what is left among the files not yet served, stored ones counted |
| AttachmentBudget.FairKeepsBudget | src-tauri/src/ai_assistant.rs:4426-4466 | together the excerpts keep at most the budget, or one character a file |
| AttachmentBudget.KeptWithinInline | src-tauri/src/ai_assistant.rs:4426-4466 | or one character an inline file, the stored ones not counted |
| AttachmentBudget.FairSharesGrow | src-tauri/src/ai_assistant.rs:4426-4466 | each file is allowed at least an equal share of the budget among all files, stored ones counted, and no less than the one before |
| AttachmentBudget.InlineShareIff | src-tauri/src/ai_assistant.rs:4426-4466 | at one budget every inline file is allowed an equal share among the inline files if and only if the share among all files is no smaller |
| AttachmentBudget.InlineSharesPromisedIff | src-tauri/src/ai_assistant.rs:4426-4466 | at every budget if and only if no attachment is stored |
| AttachmentBudget.StoredHalves | src-tauri/src/ai_assistant.rs:4426-4466 | one stored and one inline file: the inline one is allowed 50 of 100 |
| Glob.GlobMatch | src-tauri/src/ai_workspace.rs:556-579 | the loop ends and computes the search on the same variables |
| Glob.MatchesIff | src-tauri/src/ai_workspace.rs:581-592 | a text matches if and only if it can be cut into a piece for each character of the pattern: any for a `*`, one character for a `?`, that character for another |
| Glob.LeftmostFitSuffices | src-tauri/src/ai_workspace.rs:566-573 | committing to the leftmost fit between two stars loses no match |
| Glob.DecidesMatches | src-tauri/src/ai_workspace.rs:556-579 | the loop accepts only what the relation accepts, and all of it for values without a `*` |
| Glob.AgreesIffNoStar | src-tauri/src/ai_workspace.rs:560-566 | it agrees with the relation on every pattern if and only if the value has no `*` |
| Glob.FoldedIsLowered | src-tauri/src/ai_workspace.rs:581-592 | ignoring case is matching lowered texts |
| Glob.LowerIsCaseless | src-tauri/src/ai_workspace.rs:581-592 | two characters become the same if and only if they are the same or the two forms of an ASCII letter |
| Glob.LoopAgreesWithRecursion | src-tauri/src/ai_workspace.rs:556-592 | how the two matchers of the code compare on lowered texts |

## Left out

- SSH, SFTP, HTTP, process spawning, windows, events and the user interface: input and output only.
- Encryption, key derivation, hashing and base64: a bundle is modelled after it has been decrypted, and vault files by their contents.
- The backup of the whole database made before an import, and the version and parse checks of the journal file.
- JSON and SQL text, and columns of the database that the import only copies.
- File operations over SSH, their checks and their backups: the workspace is the local one.
- Files that are not UTF-8, directories, links and permissions in the workspace; paths are canonical already.
- Scrolled, partial and cached reads of files, and searching old text in a patch: a patch is modelled by its two versions.
- The table that the record of changes is saved to: saving either works or stops the undo.
- WorkspaceState.RollbackExplained: covers a rollback of the newest changes; for the changes of an older reply WorkspaceState.UndoneReplyLeavesTheOthers says what happens when no later change touches their paths, and otherwise the rollback may meet a conflict.
- The sort of applied changes by sequence number is library code: the methods take its result, which WorkspaceState.OrderIsUnique determines.
- ExecPoolSafety.RunKeeps: the timers may be dropped in the model, where the code leaves them running; this only adds runs. The pool is a machine over values, one step for each lock region or single access, and not a class: its methods interleave at every await, which a Dafny method cannot.
- What an exec returns, its output limits and its streaming.
- The stop flag polled while events are read: reading then ends early with the events so far.
- The Responses encoding, whose results do not carry the role `tool` either.
- Conversation.AlternatingRunsPaired: asks that a preempted turn is followed by injected messages; a turn is preempted only while the signal is up, which Injection.ClosedAbandonsNothing ties to pending messages.
- How a summary is worded and tokens are estimated (any way is allowed), the system prompt, thinking text and tool call records of a reply.
- Injection.AcceptedIsDeliveredThenPending: the machine still takes insertions after the reply has ended, where the code refuses them once the stream is gone; this only adds runs.
- Searching line by line instead of over the whole text, binary files, and the order of files in a result.
- The notes that the excerpts carry, and the formatting around them.
- WorkspaceRuns.RecordStaysOk: the code takes back a single change, or the changes of an older checkpoint, without looking at later changes of the same files, and named changes in the order given; the runs are those in which no later change touches their paths, named changes come in order, and every change applied can be taken back. WorkspaceRuns.UndoneOneExplainedIff and WorkspaceOlder.RolledBackExplainedIff say what becomes of the others.
- Unicode: texts are sequences of characters or bytes, white space apart, and one character of a glob is one byte.
- Command risk levels, redaction, settings, the command library, downloads and provider retries: constant tables or single branches.
