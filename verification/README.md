# Localink verification model

Localink is a local tool runtime: it starts coding agents, guards risky capabilities
behind confirmation tickets, restarts its own services, switches releases, and moves
files. This project models the parts whose correctness spans many steps, and proves
what those steps keep. Every statement below is a Dafny contract.

| files | part of the system |
|---|---|
| `AgentLifecycle`, `AgentInvariants`, `AgentFinality`, `AgentRecovery`, `AgentRecords`, `AgentManager` | agent tasks, App Server sessions, the writer lock per repository, crashes, restart recovery, resume |
| `CanonicalJson`, `CanonicalInjective`, `CanonicalUtf8`, `CanonicalGraph`, `JsonReader` | the canonical JSON text that inputs are hashed through, and a reader for it |
| `ConfirmationTickets`, `PolicyTable`, `CapabilityRegistry` | policy decisions and single-use confirmation tickets |
| `RecoveryPolicy`, `RecoveryBounds`, `RecoveryTable`, `RecoveryExecutor` | restart decisions, backoff, cooldown, and the persisted history |
| `ReleaseSwitch`, `ReleaseSafety`, `ReleaseServices`, `ReleaseManager` | the two release pointers, installs and rollbacks |
| `Transfers`, `TransferSafety`, `TransferTable`, `FilesService` | file copies and moves, alone and in batches |
| `PreciseEdits` | edits by an expected text |
| `LineFraming`, `AppServerClient` | JSON-RPC line framing with a byte limit |
| `Plist`, `PlistReader` | the launch agent property list, and a reader for it |
| `ImageGate` | base64 image blocks and the transport buffer they need |
| `DependencyClosure` | the packages a release ships |
| `BoundedResult`, `ResultReader` | tool results cut to a byte limit, and what a client reads of them |
| `Options`, `Text`, `Utf8` | shared: optional values, UTF-16 text with its sort order, UTF-8 sizes and bytes |

Where the program updates an object step by step, the model is a class with the same
fields (`AgentManager`, `CapabilityRegistry`, `RecoveryExecutor`, `ReleaseManager`,
`FilesService`, `AppServerClient`). Each of its methods is proved equal to a function of
the old state, and keeps the invariant proved of that function; round trips and
whole-run results are proved about those functions.

The functions are in turn held against statements that do not use them: literal statuses,
numbers and answers (`AgentRecords`, `PolicyTable`, `RecoveryTable`, `TransferTable`), the
hooks themselves (`ReleaseServices`), and readers of the texts the program writes
(`JsonReader`, `ResultReader`, `PlistReader`).

What the program cannot decide is a parameter: how each inventory write ends, what a hook
does, what the clock reads, which file operation fails, when the process dies.

Three properties one might expect are false of the code. Each has a family of
counterexamples and, for all inputs and however writes end, the exact condition under
which it holds:

- the writer lock, under reconciling and revoking (`ReconcileKeepsExactly`,
  `RevokeKeepsExactly`); one way to two writers is a run from the start with two lost
  writes (`LostWritesAdmitSecondWriter`);
- distinct release pointers, when a pointer write fails (`HealthIsKeptExactly`);
- an edit leaving the rest of a file alone, when the file begins with a byte order mark
  (`MarkIsLostExactly`).

Two smaller ones: an array of one hole prints like the empty array (`LoneHoleCollides`;
`Meaning` is stated up to it), and a move whose source removal takes effect but reports an
error loses the content (`SourceSurvivesExactly`).

## Model

| member | source | states |
|---|---|---|
| AgentInvariants.EveryRunIsSound | packages/codex-agent/src/agent-manager.ts:1074-1099 | In every state reachable from a fresh inventory, under any mix of inventory writes that fail, are reported wrongly or are cut off by the process dying: at most one non-archived task per repository holds the writer lock, live sessions hold their lock, and the derived flags agree, on disk and in memory. Runs in which a revoke breaks or a listing exposes a lock holder are guarded, by the exact conditions below. |
| AgentInvariants.RunKeeps | packages/codex-agent/src/agent-manager.ts:1026-2004 | From any sound world, every guarded run keeps the invariant. |
| AgentInvariants.ApplyKeeps | packages/codex-agent/src/agent-manager.ts:624-2004 | Each handler, alone, keeps the invariant; only revoking, reconciling and resuming have a guard. |
| AgentFinality.RecoveryFailureStays | packages/codex-agent/src/agent-manager.ts:1616-1634 | In every run from any world, with nothing assumed of writes, listings or revokes: a recovery failure on disk and in memory without a session stays one, terminal, and never gets a session again; one without lock and process never gets those back either. |
| AgentFinality.EveryFailureIsFinal | packages/codex-agent/src/agent-manager.ts:421-489 | Whatever an inventory holds and whatever happened since a manager started on it: each recovery failure it shows is on disk too, and stays in every later run. |
| AgentFinality.RunStays | packages/codex-agent/src/agent-manager.ts:624-2004 | Every run, restarts included, loses no recovery failure and shows no new one that is not on disk, terminal and without a session. |
| AgentFinality.SendStays | packages/codex-agent/src/agent-manager.ts:1608-1756 | Resuming never changes a recovery failure. |
| AgentFinality.RestartStays | packages/codex-agent/src/agent-manager.ts:421-489 | A restart reads back every recovery failure as one, whatever became of recorded processes. |
| AgentInvariants.StartKeeps | packages/codex-agent/src/agent-manager.ts:1074-1168 | Starting takes the lock only when no other task holds it, and every failure on the way to the first turn keeps the invariant. |
| AgentInvariants.SendKeeps | packages/codex-agent/src/agent-manager.ts:1608-1756 | Resuming keeps the invariant even when the write that takes the lock fails and the table in memory is not rolled back, unless the listing exposes the task. |
| AgentInvariants.ReleaseKeeps | packages/codex-agent/src/agent-manager.ts:682-742 | Teardown keeps the invariant; when it does not confirm the release, the lock stays held. |
| AgentInvariants.HandleCrashKeeps | packages/codex-agent/src/agent-manager.ts:624-659 | A session crash keeps the invariant, whether or not the process tree exits. |
| AgentInvariants.FinalizeKeeps | packages/codex-agent/src/agent-manager.ts:1205-1334 | Finalizing released tasks never frees a held lock. |
| AgentInvariants.RestartKeeps | packages/codex-agent/src/agent-manager.ts:421-489 | A restart on whatever the file holds keeps the invariant, whichever recorded processes survive. |
| AgentInvariants.RevokeAllKeeps | packages/codex-agent/src/agent-manager.ts:1965-2004 | Revoking a workspace keeps the invariant when no task breaks at its turn, the condition of `RevokeKeepsExactly`. |
| AgentInvariants.ShutdownKeeps | packages/codex-agent/src/agent-manager.ts:340-359 | Closing the manager keeps the invariant; sessions that do not close keep their lock. |
| AgentRecovery.StartupConverges | packages/codex-agent/src/agent-manager.ts:421-489 | Startup on any inventory leaves each task terminal, or `release_pending` with its lock kept; a task that was not terminal and whose process is gone ends as its matching official turn ended, else as `recovery_failed`; with writes that succeed, startup completes. |
| AgentRecovery.CrashConvergesExactly | packages/codex-agent/src/agent-manager.ts:643-658 | A crash leaves its task terminal and released without a session if and only if the process exits and the three writes that free it and one that records an ending land. |
| AgentRecovery.RevokedCrashFreesExactly | packages/codex-agent/src/agent-manager.ts:631-635 | The crash of a revoked task's session gives the lock back if and only if the process exits and both writes land; the task ends as it was, not made terminal. |
| AgentRecovery.StartupFailureIsFinal | packages/codex-agent/src/agent-manager.ts:476-489 | A task that startup could not resolve ends as a recovery failure without lock, process and session, and keeps none of them in any later run. |
| AgentRecovery.SendWithoutSessionBlocks | packages/codex-agent/src/agent-manager.ts:1672-1753 | When resuming has passed its checks but gets no session, the lock stays held without a session and no new task can start on that repository, whatever the listing and however the writes end. |
| AgentRecovery.ReconcileKeepsExactly | packages/codex-agent/src/agent-manager.ts:1470-1500 | Reconciling one task keeps the invariant if and only if it does not store a lock holder as archived, however the write ends. |
| AgentRecovery.ArchivedHolderAdmitsSecondWriter | packages/codex-agent/src/agent-manager.ts:1485-1486 | From any sound world with a lock holder without a session: archive it, start another task, unarchive it, and two writers hold one repository. |
| AgentRecovery.RevokeKeepsExactly | packages/codex-agent/src/agent-manager.ts:1969-2001 | Revoking one task keeps the invariant if and only if it does not break: no stored write frees a task with a recorded process but no session, and no released, non-terminal task takes its lock back without the next write giving it up again. However the writes end. |
| AgentRecovery.RevokedTaskIsSecondWriter | packages/codex-agent/src/agent-manager.ts:1984-2001 | If another task holds the lock of the repository by then, such a revoke leaves two writers, in memory or on disk. |
| AgentRecovery.LostWritesAdmitSecondWriter | packages/codex-agent/src/agent-manager.ts:1984-2001 | A run from the start with two lost writes reaches that: start, crash with its ending lost, a second start, revoke with its last write lost; the invariant holds up to the revoke, and then two writers hold one repository. |
| AgentRecovery.ForgottenProcessAdmitsSecondWriter | packages/codex-agent/src/agent-manager.ts:1995-2001 | From any sound world with a recorded process but no session: revoke, start another task, restart while neither process exits, and two writers hold one repository. |
| AgentRecords.StartupRecordsEndings | packages/codex-agent/src/agent-manager.ts:1216-1248 | After startup, a reopened task whose process is gone and that ended with confirmed integrity is completed, failed or cancelled exactly as its official turn completed, failed or was interrupted. |
| AgentRecords.StartupFindsEndings | packages/codex-agent/src/agent-manager.ts:1250-1334 | With writes that land, each such task that has an official ending is recorded with it. |
| AgentRecords.StartupLeaves | packages/codex-agent/src/agent-manager.ts:421-474 | What startup leaves of every other task: the fields it keeps, the flags it derives from older records, the lock of a surviving process. |
| AgentRecords.FinalizeRecords | packages/codex-agent/src/agent-manager.ts:1250-1334 | A released task is finalized with confirmed integrity and the status of its official turn, or as a failure. |
| AgentRecords.RefreshRecordsEnding | packages/codex-agent/src/agent-manager.ts:1369-1394 | A turn that the live thread shows as ended is recorded completed, failed or cancelled as it ended, and its session is let go. |
| AgentRecords.RefreshRecordsOther | packages/codex-agent/src/agent-manager.ts:1336-1368 | Every other reading of the live thread: unknown and uncertain without the turn or with a strange status, running again where it was unknown, untouched otherwise. |
| AgentRecords.TurnRecordsEnding | packages/codex-agent/src/agent-manager.ts:2006-2033 | A notification that the recorded turn is over ends the task as the turn ended, an unknown status as unknown. |
| AgentRecords.CrashRecordsEnding | packages/codex-agent/src/agent-manager.ts:624-659 | A task that a crash ends with confirmed integrity has the status of its official turn. |
| AgentRecords.CrashFindsEnding | packages/codex-agent/src/agent-manager.ts:643-658 | If every write lands, a crash records the official ending where there is one. |
| AgentRecords.CancelRecordsEnding | packages/codex-agent/src/agent-manager.ts:1915-1936 | Cancelling a live task records what the thread then shows, an interrupted turn as cancelled. |
| AgentRecords.CancelFinalizes | packages/codex-agent/src/agent-manager.ts:1915-1936 | Cancelling a released task that has not ended ends it. |
| AgentRecords.InspectRecords | packages/codex-agent/src/agent-manager.ts:1545-1606 | `show` and `wait` read the live thread, and are uncertain where it cannot be read. |
| AgentRecords.StartRecords | packages/codex-agent/src/agent-manager.ts:1026-1168 | A start that goes through leaves a live session and a running task with the thread and turn of the answers, holding the lock; nothing else changes. |
| AgentRecords.StartRecordsFailure | packages/codex-agent/src/agent-manager.ts:1113-1168 | A start that finds no model fails for good and lets its session go. |
| AgentRecords.StartRecordsUncertainty | packages/codex-agent/src/agent-manager.ts:1113-1168 | A start whose turn is not answered for is unknown and uncertain, and keeps session and lock. |
| AgentRecords.StartRefuses | packages/codex-agent/src/agent-manager.ts:1074-1099 | A task that is not archived and holds the lock of the repository refuses the start. |
| AgentRecords.SendRecords | packages/codex-agent/src/agent-manager.ts:1608-1756 | A released task that is resumed runs the turn of the answer in a live session and holds the lock again; nothing else changes. |
| AgentRecords.ReleaseRecords | packages/codex-agent/src/agent-manager.ts:682-742 | With writes that land, a release stops the task and lets session and lock go when the process tree exits; otherwise both stay and the release is pending. |
| AgentRecords.ReleaseAgainRecords | packages/codex-agent/src/agent-manager.ts:682-742 | Releasing a task without a session only records that it is released. |
| AgentRecords.InteractRecords | packages/codex-agent/src/agent-manager.ts:1820-1913 | Requests for approval or interaction, and their answers, show in the status. |
| AgentRecords.AuthorizeRecords | packages/codex-agent/src/agent-manager.ts:974-1024 | A resolved workspace authorizes the task, an unresolved one revokes it, and revoked is final. |
| AgentRecords.ReconcileRecords | packages/codex-agent/src/agent-manager.ts:1470-1500 | Reconciling records what the listing says of a thread without a session. |
| AgentRecords.ArchiveRecords | packages/codex-agent/src/agent-manager.ts:1938-1963 | Exactly a terminal, released task is archived. |
| AgentRecords.RevokeRecords | packages/codex-agent/src/agent-manager.ts:1969-2001 | Revoking a live task cancels it, unless it had ended, and lets its session go. |
| AgentRecords.RevokeRecordsReleased | packages/codex-agent/src/agent-manager.ts:1984-2001 | Revoking a task without a session cancels and frees it. |
| AgentRecords.ShutdownRecords | packages/codex-agent/src/agent-manager.ts:340-359 | At shutdown a live task becomes unknown and uncertain, and its session is let go. |
| AgentController.AgentManager.ReleaseSession | packages/codex-agent/src/agent-manager.ts:682-742 | The world after a teardown, on every path; the invariant is kept. |
| AgentController.AgentManager.OpenSession | packages/codex-agent/src/agent-manager.ts:574-622 | The world after creating, or failing to create, a session; the invariant is kept for a task that holds its lock. |
| AgentController.AgentManager.SettleOfficial | packages/codex-agent/src/agent-manager.ts:1263-1309 | The loop over candidates records each official ending it can and returns exactly the others. |
| AgentController.AgentManager.FailTasks | packages/codex-agent/src/agent-manager.ts:1311-1333 | The loop over unresolved candidates makes each a recovery failure, and stops at a write that fails. |
| AgentController.AgentManager.OnCrash | packages/codex-agent/src/agent-manager.ts:624-659 | The world after a session crash; the invariant is kept. |
| AgentController.AgentManager.OnTerminal | packages/codex-agent/src/agent-manager.ts:1171-1203 | The world after an official terminal turn; the invariant is kept for a live session. |
| AgentController.AgentManager.OnTurnCompleted | packages/codex-agent/src/agent-manager.ts:2006-2033 | The world after a `turn/completed` notification; the invariant is kept for a live session. |
| AgentController.AgentManager.RefreshActive | packages/codex-agent/src/agent-manager.ts:1336-1395 | The world after reading the live thread, for each answer; the invariant is kept for a live session. |
| AgentController.AgentManager.Show | packages/codex-agent/src/agent-manager.ts:1545-1606 | The world after `show` or `wait` on a running task, including a read that fails; the invariant is kept. |
| AgentController.AgentManager.CancelTask | packages/codex-agent/src/agent-manager.ts:1915-1936 | The world after `cancel`, with and without a session; the invariant is kept. |
| AgentController.AgentManager.ArchiveTask | packages/codex-agent/src/agent-manager.ts:1938-1963 | The world after `archive`; only terminal, released tasks are archived, and the invariant is kept. |
| AgentController.AgentManager.StartTask | packages/codex-agent/src/agent-manager.ts:1026-1168 | The world after `start`, on every failure path; the invariant is kept. |
| AgentController.AgentManager.AuthorizeTask | packages/codex-agent/src/agent-manager.ts:974-1024 | The world after resolving the workspace of a task; the invariant is kept. |
| AgentController.AgentManager.ReconcileTasks | packages/codex-agent/src/agent-manager.ts:1462-1516 | The world after the listing loop, and after the loop that follows a failure; the invariant is kept when nothing is exposed. |
| AgentController.AgentManager.SendMessage | packages/codex-agent/src/agent-manager.ts:1608-1756 | The world after `send`, on every failure path; the invariant is kept when nothing is exposed. |
| AgentController.AgentManager.TakeLock | packages/codex-agent/src/agent-manager.ts:1654-1671 | Taking the lock in `send` keeps the new table in memory even when the write fails; without a conflict the invariant is kept. |
| AgentController.AgentManager.Revoke | packages/codex-agent/src/agent-manager.ts:1965-2004 | The world after the revoking loop, which stops at the first write that fails; the invariant is kept when no task breaks. |
| AgentController.AgentManager.RevokeOne | packages/codex-agent/src/agent-manager.ts:1969-2001 | One revoked task; the invariant holds afterwards if and only if the revoke does not break. |
| AgentController.AgentManager.Close | packages/codex-agent/src/agent-manager.ts:340-359 | The world after the loop over sessions at shutdown; the invariant is kept. |
| AgentController.AgentManager.Load | packages/codex-agent/src/agent-manager.ts:421-479 | The table after the process check of every persisted record. |
| AgentController.AgentManager.Boot | packages/codex-agent/src/agent-manager.ts:421-489 | The world after startup, or its failure; the invariant is kept. |
| CanonicalInjective.CanonicalTextIdentifies | packages/core/src/capabilities/capability-registry.ts:36-91 | Two values print alike if and only if they are equal up to key order, -0 counting as 0 and a lone hole as no element. |
| CanonicalInjective.QuoteCancel | packages/core/src/capabilities/capability-registry.ts:48-49 | A quoted string is told apart from what follows it, lone surrogates and control characters included. |
| CanonicalInjective.SameMeaningSameText | packages/core/src/capabilities/capability-registry.ts:69-80 | Key order never shows in the text. |
| CanonicalInjective.LoneHoleCollides | packages/core/src/capabilities/capability-registry.ts:58-60 | The one collision: `[hole]` prints as `[]`. |
| CanonicalUtf8.PrintIsWellFormed | packages/core/src/capabilities/capability-registry.ts:36-95 | Canonical text never holds a lone surrogate, whatever strings and keys the value holds, so hashing its UTF-8 bytes loses nothing. |
| CanonicalGraph.AcceptsFiniteTrees | packages/core/src/capabilities/capability-registry.ts:36-91 | An object graph is accepted if and only if it unfolds to a finite tree of JSON values; shared objects are fine, cycles are not. |
| CanonicalGraph.HashIdentifiesInput | packages/core/src/capabilities/capability-registry.ts:93-95 | With a digest of byte sequences that has no collisions, two inputs hash alike if and only if they mean the same value, whatever heap they live in. |
| JsonReader.CanonicalTextIsJson | packages/core/src/capabilities/capability-registry.ts:36-91 | Canonical text of a value without holes is JSON: a reader for RFC 8259 (sections 2 to 7, no insignificant whitespace), defined without the printer, finds the value in it, with the keys of every object strictly ascending at the first code unit where two differ. |
| JsonReader.AcceptedInputIsJson | packages/core/src/capabilities/capability-registry.ts:36-91 | So is the text of every accepted object graph without holes. |
| JsonReader.EscapesAre | packages/core/src/capabilities/capability-registry.ts:48-49 | No more is escaped than has to be: short escapes where there are any, otherwise four hexadecimal digits in lower case. |
| Utf8.EncodedLength | packages/core/src/capabilities/capability-registry.ts:94-94 | The byte count is the length of the UTF-8 encoding (section 3 of RFC 3629), a lone surrogate being written as U+FFFD. |
| Utf8.SurvivesExactly | packages/core/src/files/files-service.ts:68-92 | A text comes back from its bytes if and only if its surrogates stand in pairs. |
| Utf8.EncodeDecode | packages/core/src/files/files-service.ts:68-92 | Bytes that decode are the bytes of their text, which is well formed. |
| ConfirmationTickets.EveryConfirmedCallHadItsTicket | packages/core/src/capabilities/capability-registry.ts:257-336 | In every run, for any clock, ticket factory and hash: Tier 2 handler calls under the balanced profile without override map one-to-one into earlier issuances of the same capability and input hash, each with a clock reading below issue time plus TTL; at most 256 tickets live. |
| ConfirmationTickets.PresentedTicketIsSpent | packages/core/src/capabilities/capability-registry.ts:283-292 | A presented ticket is gone, whatever else was wrong with the call; presenting it again changes nothing and reaches no handler. |
| ConfirmationTickets.IssuedTicketWorks | packages/core/src/capabilities/capability-registry.ts:388-428 | A ticket presented in time, for the same capability and an input of the same hash, reaches the handler. |
| ConfirmationTickets.TierThreeIsProtected | packages/core/src/policy/policy-engine.ts:48-85 | No profile and no override lets Tier 3 through. |
| PolicyTable.EveryCallIsPermitted | packages/core/src/capabilities/capability-registry.ts:195-336 | In every run each handler call is of a tier below 3, as registered, and is allowed by an override that speaks of its tier, or is of Tier 0, or under open, or of Tier 1 under balanced, or of Tier 2 under balanced without override and with a ticket. |
| PolicyTable.InvokeByProfile | packages/core/src/capabilities/capability-registry.ts:195-255 | Without override: Tier 0, Tiers 1 and 2 under open and Tier 1 under balanced reach the handler when available; Tier 1 under strict asks for confirmation, Tier 2 under strict and balanced offers a ticket or is refused, and neither reaches a handler; Tier 3 is denied. |
| PolicyTable.InvokeByOverride | packages/core/src/policy/policy-engine.ts:48-85 | An override that speaks of the tier decides below Tier 3, and is refused when it is no action. |
| PolicyTable.InvokeBesideOverride | packages/core/src/policy/policy-engine.ts:38-45 | An override that does not speak of the tier does not change the answer. |
| PolicyTable.InvokeUnregistered | packages/core/src/capabilities/capability-registry.ts:195-200 | What is not registered is refused, and nothing changes. |
| PolicyTable.ConfirmedNeedsBalanced | packages/core/src/capabilities/capability-registry.ts:263-281 | A ticket is not even looked at outside the balanced profile, under an override, or when it has not 32 to 128 units. |
| PolicyTable.IssuedTicketIsBound | packages/core/src/capabilities/capability-registry.ts:388-428 | An issued ticket has 32 to 128 units, is new, is bound to capability and input hash, and expires a lifetime after the clock reading. |
| PolicyTable.RoomIsMade | packages/core/src/capabilities/capability-registry.ts:388-400 | When no ticket has expired, the oldest one goes if and only if 256 live. |
| Capabilities.CapabilityRegistry.RegisterCapability | packages/core/src/capabilities/capability-registry.ts:125-146 | An id is registered once; a second registration changes nothing. The accounts stay valid. |
| Capabilities.CapabilityRegistry.Sweep | packages/core/src/capabilities/capability-registry.ts:392-395 | The walk that deletes while iterating leaves exactly the unexpired tickets, in order. |
| Capabilities.CapabilityRegistry.DrawTicket | packages/core/src/capabilities/capability-registry.ts:401-419 | At most four draws, the first usable unused one taken. |
| Capabilities.IssueTable | packages/core/src/capabilities/capability-registry.ts:388-428 | Issuing keeps the table free of duplicates and within 256 tickets. |
| Capabilities.CapabilityRegistry.InvokeCapability | packages/core/src/capabilities/capability-registry.ts:195-255 | Registry and reply of `invoke`, for each policy action. Every confirmed call so far still has a ticket of its own. |
| Capabilities.CapabilityRegistry.InvokeWithTicket | packages/core/src/capabilities/capability-registry.ts:257-336 | Registry and reply of `invokeConfirmed`; the ticket is spent before the checks. Every confirmed call so far still has a ticket of its own. |
| RecoveryBounds.EveryRunIsBounded | packages/service/src/recovery-executor.ts:112-171 | In every run with a clock that never goes back and state writes that succeed whenever a restart was made or a storm found (mutate may fail): any window holds at most five restarts of a service, each waited out its backoff after the last in its window, and none falls into a storm's cooldown. |
| RecoveryBounds.PruningIsInvisible | packages/service/src/recovery-executor.ts:137-148 | Deciding on the pruned, cut history is deciding on everything that ever happened, and never throws. |
| RecoveryBounds.EveryWindowIsBounded | packages/service/src/recovery.ts:102-115 | Checking each restart against the window before it bounds every window, wherever it begins. |
| RecoveryBounds.DecisionIsDisciplined | packages/service/src/recovery.ts:171-247 | A decision to act respects attempts, backoff and cooldown, for every observation. |
| RecoveryBounds.StateRoundTrip | packages/service/src/recovery-executor.ts:36-87 | The state file reads back as written. |
| RecoveryBounds.RecordedState | packages/service/src/recovery-executor.ts:161-168 | What a pass writes is what the next one reads: the cut to 64 events drops none. |
| RecoveryBounds.LostWriteForgetsRestart | packages/service/src/recovery-executor.ts:161-168 | The write hypothesis is needed: after a lost write the next pass restarts again with no pause. |
| RecoveryTable.EveryRunInNumbers | packages/service/src/recovery-executor.ts:112-171 | In every such run: each restart comes after fewer than five others of its service in the ten minutes before it, and 5, 10, 20 or 40 seconds after every one of them for 1, 2, 3 or 4; at most five lie in any ten minutes; none comes within a quarter of an hour after a storm. |
| RecoveryTable.NextPassRestarts | packages/service/src/recovery-executor.ts:112-171 | After every such run, judged by everything that ever happened, the next pass restarts the core, or the tunnel, if and only if it is due (stopped or failing, nothing for a person to settle, no cooldown, fewer than five restarts, the pause over) and `mutate` succeeds. |
| RecoveryTable.ActsExactly | packages/service/src/recovery.ts:84-131 | Under any policy, with pauses that double: a service is acted on if and only if it is not cooling down, has fewer restarts in the window than allowed, and each lies the pause of their number, capped, back. |
| RecoveryTable.BoundedActionIs | packages/service/src/recovery.ts:84-131 | The four answers for a service to start or restart, with their delays and the end of the cooldown. |
| RecoveryTable.ActionsAre | packages/service/src/recovery.ts:186-240 | When each service is started and when restarted, as an if and only if over the observation; nothing is ever stopped automatically. |
| RecoveryTable.AnswersAre | packages/service/src/recovery.ts:133-247 | When a person is asked and for what, when all services are ready, and when the tunnel is left alone. |
| RecoveryTable.OperatorIsHeard | packages/service/src/recovery.ts:173-184 | An operator is obeyed unless something needs a person first; stopping always is. |
| RecoveryTable.RefusedExactly | packages/service/src/recovery.ts:29-56 | Refused exactly for a policy out of range or a history from the future. |
| RecoveryTable.StormIsStored | packages/service/src/recovery-executor.ts:158-168 | A storm that is found is stored: the service rests for a quarter of an hour. |
| RecoveryTable.CleanHolds | packages/service/src/recovery-executor.ts:36-59 | The readable events of the state file are kept, and nothing else is. |
| RecoveryExecution.RecoveryExecutor.ExecuteOnce | packages/service/src/recovery-executor.ts:112-171 | State file, restarts made and decision after one pass, on every path; the limits stay kept. |
| RecoveryExecution.RecoveryExecutor.Prune | packages/service/src/recovery-executor.ts:137-141 | The events of the window, in order. |
| ReleaseSafety.ReceiptsAreTruthful | packages/release/src/manager.ts:326-491 | Whatever hooks do to the disk and whichever writes fail: a success receipt names exactly the pointers on disk, `failed_rolled_back` means the pointers of the start, `failed_before_switch` means the manager wrote none. |
| ReleaseSafety.WritesAreCareful | packages/release/src/manager.ts:139-150 | Under any hooks and faults, every write puts the release asked for, or what was there at the start, and touches nothing else. |
| ReleaseSafety.CurrentNeverDangles | packages/release/src/manager.ts:377-490 | Before and after each write, so wherever the process dies, `current` leads to the old release or the new one, when hooks leave pointers and releases alone. |
| ReleaseSafety.CurrentWritesResolve | packages/release/src/manager.ts:139-150 | Even when hooks move the pointers, as long as they remove no release: every write of `current` leads to the old release or the new one. |
| ReleaseSafety.PointersAreTheLastTwoSwitches | packages/release/src/manager.ts:326-491 | After every run, however hooks throw, `current` and `previous` are the last two releases a receipt reported as switched to; both validate and they differ. Guarded by the exact condition of `OperationTellsExactly` at each operation. |
| ReleaseSafety.TwoRollbacksAreIdentity | packages/release/src/manager.ts:429-491 | Two rollbacks that report success put both pointers back. |
| ReleaseSafety.QuietOperation | packages/release/src/manager.ts:326-491 | Under hooks that leave the files alone and any faults, the final pointers and the verdict are those of the ending, and no installed release is lost. |
| ReleaseSafety.OperationTellsExactly | packages/release/src/manager.ts:326-491 | However its writes fail, one operation keeps that relation if and only if it leaves no half-written switch and no switch whose old pointers could not be written back. |
| ReleaseSafety.HealthIsKeptExactly | packages/release/src/manager.ts:378-379 | Both pointers end on one release if and only if a `current` existed, the switch was reached, and the write of `current`, or the restoring of `previous` after the new services did not start, fails between the two writes of the pair. |
| ReleaseSafety.HalfWrittenInstall | packages/release/src/manager.ts:377-379 | Such an installation: `current` and `previous` both name the old release, and there is no receipt. |
| ReleaseServices.EverySwitchIsReported | packages/release/src/manager.ts:377-490 | For any hooks, disks and failing writes: success means that `activate` ran on the switched disk without throwing, `failed_rolled_back` that the hook restoring the old services ran on the restored disk without throwing, and otherwise the services were stopped and nothing is claimed; each time, the disk is what that hook left. |
| ReleaseServices.VerifiedServicesRan | packages/release/src/manager.ts:290-306 | A receipt that promises running services was never given without them: the hook that starts them ran on a disk with the right pointers, leading to a release that validates. |
| ReleaseServices.StoppedExactly | packages/release/src/manager.ts:402-424 | Under hooks that leave the files alone, once the new services do not start and the old pointers are written back: services are stopped, and not verified, if and only if restoring the old ones throws. |
| ReleaseServices.NoReceiptExactly | packages/release/src/manager.ts:326-379 | An operation throws if and only if the start cannot be read, there is nothing to switch to, or a write of the switch fails. |
| ReleaseServices.AlreadyThere | packages/release/src/manager.ts:360-366 | Installing what is installed calls nothing and moves nothing. |
| ReleaseServices.StoppedBeforeSwitch | packages/release/src/manager.ts:367-376 | Stopped before the switch if and only if that hook throws, and then nothing is written. |
| Releases.ReleaseManager.InstallRelease | packages/release/src/manager.ts:326-427 | Disk, writes and receipt of an installation, on every path; the receipt is truthful, also about the services, and the pointers stay healthy exactly unless the switch is half written. |
| Releases.ReleaseManager.RollbackRelease | packages/release/src/manager.ts:429-491 | Disk, writes and receipt of a rollback, on every path; the receipt is truthful, and the pointers stay healthy exactly unless the switch is half written. |
| TransferSafety.BatchIsSimultaneous | packages/core/src/files/files-service.ts:586-661 | With nothing failing, a batch is accepted if and only if it has 1 to 100 compatible items; then every item completes and the files are all copies and moves applied at once to the initial ones; a refused batch changes nothing. |
| TransferSafety.BatchOrderIsIrrelevant | packages/core/src/files/files-service.ts:586-661 | The order of the items changes neither the verdict nor the files. |
| TransferSafety.PartialBatch | packages/core/src/files/files-service.ts:639-653 | A batch that fails at item k reports k completed, one failed, the rest not executed, and when the failure leaves no traces leaves exactly the effects of the first k. |
| TransferSafety.ChecksAreExact | packages/core/src/files/files-service.ts:595-622 | The preflight and conflict checks accept exactly the compatible batches. |
| TransferSafety.TurnHonoursPreflight | packages/core/src/files/files-service.ts:626-633 | Whatever happened to the files meanwhile, an item completes only if its source still has the digest of the first preflight and its destination is free; nothing else is touched. |
| TransferSafety.EveryMomentKeepsOthers | packages/core/src/files/files-service.ts:701-745 | At every moment of a transfer, whatever fails, nothing but the source is changed or removed and nothing but the destination appears; a file already there stays. |
| TransferSafety.CopyKeepsSource | packages/core/src/files/files-service.ts:714-717 | A copy never changes its source. |
| TransferSafety.SourceSurvivesExactly | packages/core/src/files/files-service.ts:701-745 | The content is at the source or at the destination at every moment, if and only if no move removes the source while the destination holds other content that passed the checks, or is cleaned up because the removal reported an error. |
| TransferSafety.ChecksCatchGarbled | packages/core/src/files/files-service.ts:718-729 | Other content passes the checks only if a digest is misread or shared. |
| TransferSafety.AllOrNothing | packages/core/src/files/files-service.ts:701-745 | A transfer that returns made its effect if and only if the copy was not garbled; one that throws made none if and only if it left no stranded copy, no copy that was not cleaned up and no missing source. |
| TransferTable.DoneExactly | packages/core/src/files/files-service.ts:701-745 | A transfer completes if and only if the file arrives at a free destination, what arrived has the recorded digest and length, the source still has that digest, and a move removes its source. |
| TransferTable.DoneLeaves | packages/core/src/files/files-service.ts:701-745 | What a completed transfer leaves. |
| TransferTable.FailureLeaves | packages/core/src/files/files-service.ts:701-745 | What a failing transfer leaves: the files as they were, unless the destination stays behind or the source was removed before the failure was reported. |
| TransferTable.PreflightReports | packages/core/src/files/files-service.ts:663-699 | The plan, or which error, by what is at the source, the destination and its directory. |
| TransferTable.TurnReports | packages/core/src/files/files-service.ts:624-653 | The answers of one turn of a batch: the repeated preflight, a changed digest, the outcome of the transfer. |
| TransferTable.BatchReports | packages/core/src/files/files-service.ts:586-622 | Why a batch is refused: its size, its first item that cannot be planned, or items in each other's way. |
| Files.FilesService.ExecuteTransfer | packages/core/src/files/files-service.ts:701-745 | Files, the states passed through and the outcome, on every path, a copy that fails half-way included; nothing but source and destination changes, and it is all or nothing unless it leaves traces. |
| Files.FilesService.PreflightTransfer | packages/core/src/files/files-service.ts:663-699 | The plan, or the error the program gives for the first check that fails. |
| Files.FilesService.Transfer | packages/core/src/files/files-service.ts:581-584 | Preflight, then execution; nothing but source and destination changes. |
| Files.FilesService.PlanBatch | packages/core/src/files/files-service.ts:595-610 | The plans of a batch, or the first error, in item order. |
| Files.FilesService.BatchTransfer | packages/core/src/files/files-service.ts:586-661 | Files and receipt of a batch, on every path. |
| PreciseEdits.CountOccurrences | packages/core/src/files/files-service.ts:131-145 | The counting loop gives the number of pieces of `split` minus one. |
| PreciseEdits.JoinSplit | packages/core/src/files/files-service.ts:520-522 | Joining the pieces with the expected text gives the text back. |
| PreciseEdits.SplitJoinIsRewrite | packages/core/src/files/files-service.ts:520-522 | Splitting and joining is the left-to-right replacement of occurrences that do not overlap. |
| PreciseEdits.EditedLength | packages/core/src/files/files-service.ts:520-522 | The edited text has length \|text\| + n * (\|replacement\| - \|expected\|). |
| PreciseEdits.CountedAreLeftmost | packages/core/src/files/files-service.ts:138-144 | The counted occurrences are real, do not overlap, and every occurrence begins inside one of them. |
| PreciseEdits.CountIsMaximal | packages/core/src/files/files-service.ts:138-144 | No other choice of occurrences that do not overlap is larger. |
| PreciseEdits.PreciseEdit | packages/core/src/files/files-service.ts:492-530 | An edit goes through exactly when both reads, hash, count, UTF-8 form and sizes allow it, and then the file is the rewritten text. |
| PreciseEdits.MarkIsLostExactly | packages/core/src/files/files-service.ts:68-92 | For an expected text that does not begin with a byte order mark, the edit of the decoded text is the edit of the whole file if and only if the file does not begin with one. |
| PreciseEdits.MarkIsNeverFound | packages/core/src/files/files-service.ts:82-82 | An expected text that begins with a byte order mark is not found at the file's own: it counts zero where the file holds no other. |
| LineFraming.ChunksDoNotMatter | packages/codex-agent/src/app-server-client.ts:289-322 | Two ways of cutting one text into chunks dispatch the same lines, close or not for the same reason, and leave the same buffer when open, even if dispatching depends on all lines so far. |
| LineFraming.EveryChunkingFrames | packages/codex-agent/src/app-server-client.ts:289-322 | However the text is cut, every line is dispatched up to the first oversized, invalid or closing one. |
| LineFraming.FramedOnce | packages/codex-agent/src/app-server-client.ts:289-322 | That description leaves no choice. |
| LineFraming.PiecesAreTheText | packages/codex-agent/src/app-server-client.ts:300-303 | The pieces hold no newline and, joined by newlines, are the text. |
| Utf8.BytesGrow | packages/codex-agent/src/app-server-client.ts:292-298 | More text never takes fewer bytes, not even when it completes a surrogate pair, so failing early on a partial line is safe. |
| AppServer.AppServerClient.ReceiveChunk | packages/codex-agent/src/app-server-client.ts:289-322 | Buffer, dispatched lines and closing state after one chunk; all text received so far stays framed. |
| AppServer.AppServerClient.ProtocolFailure | packages/codex-agent/src/app-server-client.ts:390-400 | Only the first failure counts. |
| PlistInjective.TextIdentifiesDefinition | packages/service/src/plist.ts:33-94 | Two accepted definitions have the same text if and only if they agree in every field but `serviceId`. |
| PlistReader.RenderedTextIsRead | packages/service/src/plist.ts:33-94 | A reader of property lists, defined without the renderer, finds in the text a dictionary with every field of the definition under its own key, with its own value. |
| PlistInjective.PassesAreOneMap | packages/service/src/plist.ts:11-18 | The five passes are one map over characters: no pass touches what an earlier one wrote. |
| PlistInjective.DecodeUndoesEscape | packages/service/src/plist.ts:11-18 | Decoding the predefined entities (section 4.6 of XML 1.0) gives the text back. |
| PlistInjective.EscapedIsPlain | packages/service/src/plist.ts:20-22 | Escaped text holds no markup. |
| ImageGate.AcceptedExactly | packages/sdk/src/rich-image.ts:7-66 | A block is accepted, and returned as it was, if and only if its data is the canonical encoding of 1 to max bytes of an allowed type with the right magic bytes, for any decoder that decodes what was encoded. |
| ImageGate.StrictDecoderDecodes | packages/sdk/src/rich-image.ts:36-36 | Decoders that decode what was encoded exist: the strict one is one. |
| ImageGate.BufferHoldsAcceptedBlocks | packages/runtime/src/external-mcp.ts:297-318 | For every legal policy the buffer holds any accepted block and the full headroom; the 8 MiB cap never cuts in. |
| ImageGate.LongestBlockFits | packages/runtime/src/external-mcp.ts:311-317 | Full-size data takes exactly what is set aside for it. |
| ImageGate.RefusedExactly | packages/sdk/src/rich-image.ts:12-58 | Which error: the size limit speaks for data that is not canonical, empty or too long once decoded; everything else is a broken contract. |
| ImageGate.AcceptedBegins | packages/sdk/src/rich-image.ts:46-59 | The signatures of accepted images, byte by byte. |
| Base64.GroupIs | packages/sdk/src/rich-image.ts:36-42 | Three bytes are four sextets (section 4 of RFC 4648), and what follows is encoded by itself. |
| Base64.TwoBytesAre | packages/sdk/src/rich-image.ts:36-42 | Two bytes left are three sextets. |
| Base64.OneByteIs | packages/sdk/src/rich-image.ts:36-42 | One byte left is two sextets. |
| Base64.SymbolsAre | packages/sdk/src/rich-image.ts:36-42 | The symbols are those of Table 1 of RFC 4648. |
| Base64.DecodeEncode | packages/sdk/src/rich-image.ts:36-42 | Encoding (sections 3.5 and 4 of RFC 4648) gives canonical text that decodes to the bytes. |
| Base64.EncodeDecode | packages/sdk/src/rich-image.ts:36-42 | Canonical text is the encoding of what it decodes to. |
| Base64.EncodedLength | packages/sdk/src/rich-image.ts:31-32 | The encoding of n bytes has ceil(n/3)*4 characters. |
| DependencyClosure.CollectProductionDependencies | packages/release/src/artifact.ts:116-149 | The worklist ends; it returns the least set holding what the workspaces ask for and closed under manifests, in order, or names a needed package that cannot be read. |
| DependencyClosure.DependencyNames | packages/release/src/artifact.ts:106-114 | The names asked for under any of the three keys, once each, without the workspace's own. |
| DependencyClosure.OneAnswer | packages/release/src/artifact.ts:116-149 | The answer depends on nothing but the set of roots and the manifests. |
| DependencyClosure.OutcomesExclude | packages/release/src/artifact.ts:143-148 | When a collection exists, no needed package is unreadable. |
| BoundedResult.Bound | packages/mcp-server/src/bounded-result.ts:38-76 | The serialised result takes at most limit - 256 bytes, the unmeasured null fallback included; not truncated means unchanged. |
| BoundedResult.NullFits | packages/mcp-server/src/bounded-result.ts:75 | The fallback fits every legal limit. |
| BoundedResult.ReducedIsWidest | packages/mcp-server/src/bounded-result.ts:71-74 | What is returned is the preview at the greatest width tried that fits, if any fits. |
| BoundedResult.PreviewTwice | packages/mcp-server/src/bounded-result.ts:11-26 | A preview of a preview at a smaller width is the preview at that width alone. |
| BoundedResult.PreviewShows | packages/mcp-server/src/bounded-result.ts:11-26 | A preview has scalars as they are, strings cut to whole characters, the first members of arrays and objects up to the width, and null eight levels down. |
| ResultReader.StringifyIsJson | packages/mcp-server/src/bounded-result.ts:46-48 | The text of a value reads as that value, members in their order, holes as null. |
| ResultReader.ResultIsJson | packages/mcp-server/src/bounded-result.ts:50-66 | The serialised result is JSON; its text content is JSON again and is the same envelope as the structured content, with data, flag and byte counts. |

## Left out

- EveryRunIsSound: guarded by `SafeRun`. Handlers are atomic steps, so two handlers interleaving on one task are not covered. The other guards are the exact conditions of `ReconcileKeepsExactly` and `RevokeKeepsExactly`, checked at each turn; the code does not check them.
- ReleaseKeeps: teardown of the task's own session; releasing a client that is no longer the task's session is excluded, as a handler is atomic.
- EveryRunIsBounded: only restarts whose `mutate` succeeds are in the log, since the program records no others.
- CurrentNeverDangles: for hooks that leave the pointers, the releases and the launcher's kind alone; a hook that moves a pointer decides itself where it leads until the next write (`CurrentWritesResolve`, `WritesAreCareful`).
- PointersAreTheLastTwoSwitches: for such hooks too; runs with a write that leaves something unreported stop at the exact condition of `OperationTellsExactly`.
- TwoRollbacksAreIdentity: about the two pointers; the launcher is not rewritten by a rollback.
- BatchIsSimultaneous: paths are canonical and free of aliases, so resolving relative paths and symbolic links is not part of this model.
- PartialBatch: nobody else touches the files meanwhile, and a garbled copy does not share the digest of its source and is not misread; `TurnHonoursPreflight` covers files that change.
- MarkIsLostExactly: an expected text that begins with a byte order mark is looked for in the text without the file's own mark.
- HashIdentifiesInput: SHA-256 is, by hypothesis, a function of byte sequences without collisions.
- TextIdentifiesDefinition: numbers are texts, one per number; strings are sequences of characters, so a lone surrogate has no special treatment.
- Bound: the data is what `JSON.parse` of its text gives; its byte count is a safe integer, which bounds the digits of `originalBytes`. "Truncated if and only if the data changed" is not claimed: the flag's own length decides at the boundary.
- Reading errors of the release directory other than an unsafe or dangling pointer, and the contents of the launcher script.
- Process spawning, signals, launchctl, HTTP and stdio transports, zod schemas: only their outcomes appear, as parameters.
- Texts, timestamps, diagnostics, the desktop mirror's own state, thread names, the load state of threads and the contents of approvals in the agent manager.
- Identity, scope and module checks of `availability`: one flag.
- Git subprocesses, the archive and search operations of the files service, `createText` and `mkdir`.
- Error detail codes on release receipts; receipts hold status, releases and flags.
- Cooldown times in a collected status that do not parse: the decision would throw.
