# Verification of the run executor and its file transactions

This project models, in Dafny, the parts of the repository whose correctness spans many steps, and proves what those steps guarantee together. It is checked with

    dafny verify dfyconfig.toml

## What is modelled

**The executor** (`RunState`, `Attempts`, `Graph`, `ExecutorSteps`, `Executor`). A run is a node table with attempt histories and counters. `Run` is a class with the fields the source updates in place, and each of its methods is one operation of the executor: the skip pass, reservation, batches, checker feedback, the global limit, preflight, whole invocations, resume and close. Worker outcomes, live gate results and cancellation are inputs (`Workers`, `Surroundings`), completion order is arbitrary. A ghost log of reservations and routings says in which order attempts were given out. `Persistable` is the store's own validation of a run; a save is possible only where it holds, so each proof also says that the store accepts what the executor writes, or exactly when it does not. The graph parser's guarantees are taken as given: topological order, positive attempt limits, feedback to a direct dependency.

**The manager transaction** (`Journal`, `ManagerSteps`, `Manager`). A volume maps names to inodes and inodes to contents; `link` fails on a taken name. A step counter makes the process die before any link, unlink, file creation, or either of the two names of a journal revision. Hashing is taken as injective, so a hash is the content itself. Each stage of the commit is a predicate, each stage is shown `Safe`, and recovery from any safe state is proved once. `Transact` composes one commit with any number of dying recoveries. Steps are counted (`Spent`), so the step at which a commit dies decides its ending: `EndingAt` is that function. `CommitOrAbort` is the commit whose step throws instead.

**The in-process compare-and-swap** (`FileCas`). The same idea with hooks instead of crashes. A hook may throw, and may replace the whole disk by any other. Every unlink is logged with the state it happened in, and `Justified` says what makes one legitimate. The disk after the last hook is remembered, because what a failure leaves depends on it.

**The lease mutex** (`Mutex`). A state machine with one step for each file operation of acquire, renew and release, any number of handles and processes, deaths at any step and a monotone clock. The liveness oracle never calls a running process dead.

**Smaller algorithms** (`ContextBudget`, `OwnedContext`, `PluginList`, `RunProgress`), each against a specification of its own: a conservation law, the foreign items of a shared array, the remaining entries of a list, a snapshot format.

## Where the code falls short of what one would expect

Each of these is a theorem with the exact condition, and most have a concrete instance.

- A step of the manager's commit that throws while the old receipt is being taken from its path keeps the journal although everything could be put back; any other move is undone by the commit itself (`CommitOrAbort`).
- Closing a run right after a checker rejection was routed writes a node as skipped although none of its dependencies failed; the store refuses that save. It accepts a closed run exactly when no reopened node had passed before and waits for nothing (`ClosePersistable`, `RoutedRunCannotBeClosed`).
- A live run with a recorded gate failure cannot be continued dry: the first save is refused, and only then (`DrySwitchAccepted`, `DrySwitchCanBeRefused`).
- When an earlier process left a node running behind the target of a rejection, the save after routing is refused, and only then (`ReopeningAcceptedIff`); `StaleRunningNodeBlocksRouting` is an invocation to which this happens.
- Recovery refuses a published transaction once its cleanup has removed a prepared link, and any transaction whose newest journal revision has only one of its two names. In both cases it changes nothing (`Recover`). `DiesTorn` and `LinksKept` are the steps of a commit at which its death leads there.
- Stale takeover of the mutex's claim is two steps. With another process acting in between, two running processes can hold the mutex (`SplitTakeoverBreaksExclusion`). The invariant holds over a run exactly when no rename hits the claim of a running process (`RunKeepsInvIff`), and exclusion holds on all such runs; those with atomic takeovers and those without a death inside the claim are among them (`CarefulRunsAreHarmless`). A harmful rename by itself need not break exclusion (`HarmfulRenameAlone`).
- The compare-and-swap drops its claims without looking at the originals when it fails before the first replacement. An original then survives exactly when the last hook left it a name beside the transaction's own (`Commit`, `SurvivesIff`); a run that loses one is `UnusedClaimMayBeLast`. After the first replacement only a verified publication lets an original's last name go (`LastNameGoesVerified`).
- Planning the plugin list again is a no-op exactly when the desired spec is one of the known specs (`ReplanningIsNoOpIff`).
- The sum of context allowances is bounded only for reports in priority order (`MixedConservation`, `Conservation`, `OrderMatters`).
- Two shown rows with one id blank the whole table of a progress snapshot (`Build`). The builder can cause this itself by replacing an unusable id (`ReplacedIdBlanksTable`); for graphs that the store accepts it never happens (`AcceptedIdsAreShown`).

## Model

| member | source | states |
|---|---|---|
| `Graph.DescendantsOf` | src/graph.ts:71-79 | The collected set is exactly the set of nodes joined to the target by a chain of dependency edges, in both directions. |
| `Graph.ReadyNodes` | src/graph.ts:35-41 | The result is, in graph order and without repetition, exactly the open nodes all of whose dependencies are done. |
| `Graph.SecondPassChangesNothing` | src/graph.ts:54-69 | A second skip pass over the result of a first one is the identity. |
| `Graph.ReadyOrTerminal` | src/graph.ts:35-69 | Deadlock freedom: after a skip pass and with no node running, some node is ready or every node is terminal. |
| `Graph.SkippedBehindFailure` | src/graph.ts:54-69 | A skipped node always has a failed node behind it, however long the chain of skipped ones. |
| `Graph.TerminalWithoutFailureIsDone` | src/executor.ts:756-757 | When every node is terminal, some node failed exactly if not every node is done. |
| `Graph.SkipPassKeepsConsistency` | src/graph.ts:54-69 | Skipping keeps every persisted-state rule, the done-closure, the justification of skips and the attempt sum. |
| `Attempts.ClassificationMeaning` | src/executor.ts:444-482 | Exactly when an attempt is classified as passed, as a routable rejection or as a gate failure, in terms of what the worker delivered. |
| `Attempts.ConclusionAccepted` | src/schemas.ts:1095-1220 | Every record the classification can produce satisfies the store's rules for one attempt. |
| `Attempts.SettlementMeaning` | src/executor.ts:444-509 | A settled node is done exactly when the worker succeeded, failed exactly when it did not and its attempts are used up or it is a rejection to be routed, and pending otherwise; an executor error leaves it pending exactly while attempts are left; the record of the attempt says what was delivered and no other record changes. |
| `Attempts.SettlementAccepted` | src/executor.ts:444-508 | However a worker settles, the node satisfies the store's rules, keeps its counter, keeps local capacity if it is open, and stays running only when its own save was lost before its outcome was recorded. |
| `Attempts.ReservationAccepted` | src/executor.ts:222-252 | A reservation request, granted or not, leaves a node the store accepts. |
| `Attempts.ResumptionAccepted` | src/executor.ts:573-610 | Resuming a node never touches a done node or a counter and leaves it neither running nor skipped, nor failed with capacity left. |
| `Attempts.ResumeIdempotent` | src/executor.ts:573-610 | Resuming a node twice is resuming it once. |
| `ExecutorSteps.MidwayConsistent` | src/executor.ts:713-741 | At every moment of a running batch, whatever subset of workers has settled, the run is consistent. |
| `ExecutorSteps.BatchClosedForm` | src/executor.ts:699-744 | Once the granted workers have settled, each batch member is a function of its own outcome alone. |
| `ExecutorSteps.BatchEndsRightly` | src/executor.ts:699-744 | Each member of a finished batch is done, waiting for its next attempt or failed according to its own report and counter alone; one that got no attempt was stopped by the global limit. |
| `ExecutorSteps.LaterBatchIsReady` | src/executor.ts:699-713 | The later batches of a wave are still ready with capacity when their turn comes. |
| `ExecutorSteps.ReopeningKeepsConsistency` | src/executor.ts:514-556 | Reopening a target with everything reachable from it keeps done-closure and justified skips when nothing reopened was running. |
| `ExecutorSteps.ReopeningAcceptedIff` | src/executor.ts:514-556 | The store accepts the state after routing if and only if neither the target nor a descendant of it is running. |
| `ExecutorSteps.AffordableMeans` | src/executor.ts:514-545 | Routing is affordable exactly when the checker, its target and everything behind the target have a local attempt left and the run has one attempt for each node that reopens. |
| `ExecutorSteps.FreshRejectionAwaits` | src/executor.ts:482-530 | A node that just settled waits for routing exactly when it is a checker with a target that rejected and nothing else went wrong, and never once it is marked. |
| `ExecutorSteps.AdmittedAncestors` | src/executor.ts:167-182 | No failed or exhausted unfinished node stands before a node that preflight admits. |
| `ExecutorSteps.NothingReady` | src/executor.ts:686-697 | A wave finds nothing ready although something is unfinished only if a node was left running by an earlier process. |
| `ExecutorSteps.ExhaustionKeepsConsistency` | src/executor.ts:558-571 | Ending or reopening the ready nodes at the global cap keeps the run consistent. |
| `ExecutorSteps.LimitEndsReadyNodes` | src/executor.ts:558-571 | At the global cap an open node with all dependencies done fails, or stays pending if its last attempt had passed; any other node changes only by being skipped. |
| `ExecutorSteps.ResumeKeepsConsistency` | src/executor.ts:573-615 | Resuming a whole run keeps it consistent, leaves no running or skipped node and changes no done node and no counter. |
| `ExecutorSteps.ResumeAllIdempotent` | src/executor.ts:573-615 | Resuming a run twice is resuming it once, and the second time reopens nothing. |
| `ExecutorSteps.ClosePersistable` | src/executor.ts:617-637 | The store accepts a closed run if and only if no reopened node had passed before and was waiting for nothing. |
| `ExecutorSteps.RoutedRunCannotBeClosed` | src/executor.ts:617-637 | A concrete run, right after a rejection was routed, whose closing yields a state the store refuses. |
| `ExecutorSteps.DrySwitchAccepted` | src/executor.ts:675-678 | A run may be switched to dry mode if and only if no attempt in its history is a gate failure. |
| `ExecutorSteps.DrySwitchCanBeRefused` | src/executor.ts:675-678 | A concrete live run whose switch to dry mode the store refuses. |
| `Executor.Run.SkipFailedDescendants` | src/graph.ts:54-69 | The in-place pass skips exactly the open nodes with a failed or skipped dependency in the result, and reports whether anything changed. |
| `Executor.Run.SkipToFixpoint` | src/executor.ts:690-692 | Repeating the pass until nothing changes yields what the first pass yields. |
| `Executor.Run.ReserveAttempt` | src/executor.ts:222-252 | A reservation is granted exactly when local and global budgets allow; the new node and counter in every case. |
| `Executor.Run.ReserveBatch` | src/executor.ts:713-716 | The first batch members in graph order get what is left of the global budget, and the attempt sum stays equal to the global counter. |
| `Executor.Run.RecordOutcome` | src/executor.ts:444-508 | One outcome is recorded: the batch stays midway, and criteria change only when empty and a passing researcher supplies them. |
| `Executor.Run.CollectReports` | src/executor.ts:486-508 | Workers reporting in any order leave the same settled set, those whose own save is lost included when a later save carries them; every save made is one the store accepts; criteria that were empty become those of a passing researcher among the reporters exactly when there is one. |
| `Executor.Run.CollectErrors` | src/executor.ts:717-741 | Executor errors are recorded after all workers settled; the invocation ends early exactly when some worker lost its own save. |
| `Executor.Run.ExecuteBatch` | src/executor.ts:699-744 | Batch confluence: statuses, records and counters after the batch are a closed form of each node's own outcome, whatever the completion order; a failed report or an executor error is tried again exactly while attempts are left and no routing is due; empty criteria become those of one passing researcher that got an attempt, and stay empty exactly when none supplied any; the batch ends early exactly when some worker lost its own save. |
| `Executor.Run.RoutingBudget` | src/executor.ts:514-545 | Routing is affordable exactly when checker, target and every descendant have local capacity and the global budget covers one plus the descendants. |
| `Executor.Run.Reopen` | src/executor.ts:546-554 | The target and all its descendants become pending, nothing else changes; acceptance by the store is decided by running nodes alone. |
| `Executor.Run.ExamineChecker` | src/executor.ts:514-556 | A waiting rejection is marked in every case and routed exactly when affordable; the save is refused exactly when a running node was reopened. |
| `Executor.Run.ApplyCheckerFeedback` | src/executor.ts:514-556 | The first affordable waiting rejection in graph order is routed; unaffordable ones before it are only marked; the store refuses the result exactly when a running node was reopened. |
| `Executor.Run.FinishGlobalLimit` | src/executor.ts:558-571 | Below the cap nothing changes; at the cap exactly the nodes that could still have started fail, or stay pending if they had passed before, and the rest follows by one skip pass. |
| `Executor.Run.PreflightExecutableNodes` | src/executor.ts:167-182 | The candidates are exactly the open nodes with capacity all of whose dependencies are admitted or done, and none at the global cap. |
| `Executor.Run.ExecuteWave` | src/executor.ts:699-744 | A wave below the cap that is not cancelled takes at least one attempt and reaches every ready node, each of which ends as its own outcome says; only ready nodes are touched; it stops early only by a cancellation, the rejected gates of a batch or an attempt that lost its save; every outcome of the wave leaves a loadable store. |
| `Executor.Run.StepWave` | src/executor.ts:686-751 | One iteration of the wave loop: the wave, then the routing of the first affordable rejection or the marking of all, then the global limit; it is interrupted only when an attempt of this wave lost its save or a gate of this wave rejected. |
| `Executor.Run.ExecuteRun` | src/executor.ts:639-770 | The whole invocation: done exactly when every node is done, failed exactly when all ended and one failed, blocked only for a listed reason; waves bounded by the remaining budget plus one; exactly when the first save is refused. It ends early only if an attempt it granted lost its save or a gate rejected a batch; left alone, with waves and attempts to spare and no stale running node, it ends done or failed. However it ends, its events account for every attempt of every node, and each node reserved before the first routing is one that preflight admitted. |
| `Executor.Run.PrepareForResume` | src/executor.ts:573-615 | Interrupted attempts become failures and what has capacity reopens; the reopened flag and the run status are exact. |
| `Executor.Run.CloseRun` | src/executor.ts:617-637 | On success every node is terminal, one failed, done nodes and counters are unchanged; success is exactly that some node failed; and exactly when the store accepts the result. |
| `Executor.Run.Lifecycle` | src/executor.ts:573-770 | Over any sequence of run, resume and close in processes of their own, the store always holds a run that can be loaded and executed. |
| `Executor.StaleRunningNodeBlocksRouting` | src/executor.ts:514-757 | An invocation on what a dead process left: its one ready node is executed, however the worker fares, the affordable rejection is routed over the node left running, and the store refuses the save. |
| `Journal.ReadChain` | scripts/manager-core.ts:3005-3051 | The reader accepts exactly the chains in which every revision extends the one before it, and returns the last revision. |
| `Journal.ChainKeepsRecords` | scripts/manager-core.ts:3020-3047 | Along an accepted chain the transaction's decisions are fixed and a recorded claim identity is never changed or dropped. |
| `Journal.ChainKeepsDecisions` | scripts/manager-core.ts:3020-3047 | Written out by fields: between any two revisions of an accepted chain the receipt and every file keep contents and identities, and an identity once recorded for a claim stays. |
| `Journal.ChainDeterminedByHead` | scripts/manager-core.ts:3020-3047 | Two accepted chains with the same newest revision are the same chain. |
| `Journal.VerdictIsUnique` | scripts/manager-core.ts:3121-3157 | A receipt that can still be put back is never the published one. |
| `Journal.ClassifyRestorable` | scripts/manager-core.ts:1978-2006 | In every restorable state no auxiliary is ambiguous and the classification names the true state of the file. |
| `ManagerSteps.UnrecordedClaimIsSafe` | scripts/manager-core.ts:2248-2258 | A crash between linking a claim and recording it leaves a recoverable volume. |
| `ManagerSteps.ReplacingIsSafe` | scripts/manager-core.ts:2263-2292 | Every state of the replacement loop, a file unlinked but not yet published included, is recoverable and not yet published. |
| `ManagerSteps.SwappingIsSafe` | scripts/manager-core.ts:2303-2342 | Every state of the receipt exchange is recoverable; it counts as published exactly once the prepared receipt is linked. |
| `ManagerSteps.JudgeSafe` | scripts/manager-core.ts:3121-3157 | In every safe state recovery's reading of the receipt is clear, and it is the after-verdict exactly when the prepared receipt was linked into place. |
| `ManagerSteps.EqualReceiptsAreUnclear` | scripts/manager-core.ts:3121-3157 | Why before and after receipts must differ: with equal bytes a published receipt is refused. |
| `ManagerSteps.CurrentIff` | scripts/manager-core.ts:2085-2095 | The read set is refused exactly when two plans share a path, or the receipt or some planned file is not the expected file with the expected content, unexpected presence and absence included. |
| `ManagerSteps.RestoreAllowedIff` | scripts/manager-core.ts:2012-2024 | The restore's preflight accepts a file exactly when its original is in place or can be put back. |
| `ManagerSteps.CommittedSeen` | scripts/manager-core.ts:2052-2059 | The check on published files passes exactly while all their prepared links exist. |
| `ManagerSteps.ForeignFileStopsRecovery` | scripts/manager-core.ts:1978-2059 | On any volume, a planned path or an auxiliary name that carries a file other than the recorded ones makes both the restore's preflight and the check on published files fail. |
| `ManagerSteps.ForeignReceiptIsUnclear` | scripts/manager-core.ts:3121-3157 | With a foreign receipt, or a foreign file at one of the receipt's auxiliary names, recovery draws no conclusion. |
| `ManagerSteps.OlderHeadIsSafe` | scripts/manager-core.ts:1952-1974 | Once no auxiliary is left, every older revision describes the outcome as well, so the journal can be dropped revision by revision. |
| `ManagerSteps.OutcomeOfPlans` | scripts/manager-core.ts:2103-2120 | All-before and all-after of the journal mean all-before and all-after for every plan, unchanged ones included. |
| `ManagerSteps.RestorableLosesNothing` | scripts/manager-core.ts:2008-2050 | In every restorable state each plan and the receipt have their original in place, or its claim holds it and the path is free or carries the intended content. |
| `Manager.Volume.Publish` | scripts/manager-core.ts:1919-1937 | A revision is appended to an accepted chain; a crash leaves the old chain, or the new one torn, which is what a death after exactly one step does. |
| `Manager.Volume.ClaimFiles` | scripts/manager-core.ts:2243-2261 | Every original is claimed and recorded, three steps each; a crash leaves a recoverable journal, nothing published, all prepared links there, and a torn revision exactly at every third step. |
| `Manager.Volume.ReplaceFiles` | scripts/manager-core.ts:2263-2292 | Every file carries its prepared content, one step for every original and every new content; a crash leaves a complete recoverable journal, nothing published and all prepared links there. |
| `Manager.Volume.SwapReceipt` | scripts/manager-core.ts:2303-2342 | The prepared receipt is in place of the old one; a crash leaves a recoverable journal with all prepared links, and its step decides whether a revision is torn, whether the receipt is published and what the commit knows of the claim. |
| `Manager.Volume.Exchange` | scripts/manager-core.ts:2238-2342 | From the first revision to the last: at whatever step it stops, the prepared links are all there, the receipt is published exactly from the fourth last step on, and a revision is torn exactly at the second step of each. |
| `Manager.Volume.PreflightRestore` | scripts/manager-core.ts:2008-2025 | The preflight succeeds exactly when every file can be put back, and touches nothing. |
| `Manager.Volume.RestoreFiles` | scripts/manager-core.ts:2008-2050 | Refused exactly when some file cannot be put back, with nothing touched; stopped at any link or unlink it can be run again; finished, every original inode is back. |
| `Manager.Volume.CheckFilesAfter` | scripts/manager-core.ts:2052-2059 | The check is exactly that every file is recognized as published. |
| `Manager.Volume.ClearFileAuxiliaries` | scripts/manager-core.ts:2061-2069 | Only auxiliary names are removed, and no claim or prepared link of a file remains; stopped at any step, the published files are still recognized exactly while no prepared link has gone. |
| `Manager.Volume.DropJournal` | scripts/manager-core.ts:1952-1974 | Revisions go newest first, two steps each; stopped anywhere, what is left is an accepted chain that describes the same outcome, torn exactly at odd steps. |
| `Manager.Volume.CleanUp` | scripts/manager-core.ts:2343-2349 | All auxiliaries and then the journal are removed; the step at which it stops decides exactly whether the journal is torn and whether the published files are still recognized. |
| `Manager.Volume.Recover` | scripts/manager-core.ts:3115-3180 | Refusal exactly when a journal pair is incomplete, or the receipt is published and a prepared link is gone, and then nothing changes; otherwise all-after exactly when the prepared receipt was linked, all-before with the same inodes otherwise; dying on the way keeps the verdict. |
| `Manager.Volume.RecoverRepeatedly` | scripts/manager-core.ts:3115-3180 | The same over any number of recoveries that die at any step; a volume that the first one refuses is left as it is by all of them, and a single recovery that is left alone refuses no other. |
| `Manager.Volume.Abort` | scripts/manager-core.ts:2350-2416 | The failing commit's own rollback goes back to all-before even after the receipt was published, and refuses exactly when the receipt's claim is linked but not verified. |
| `Manager.Volume.CommitOrAbort` | scripts/manager-core.ts:2238-2416 | A commit one of whose steps throws: its handler puts every plan and the receipt back and leaves nothing behind, for every step that is no part of a revision except the one that takes the old receipt from its path; for those the journal is kept and describes a recoverable volume. |
| `Manager.Volume.Commit` | scripts/manager-core.ts:2071-2349 | Refused exactly when a path is planned twice or the receipt or a planned file deviates from what the plans were derived from; otherwise it completes exactly when it has enough steps, or nothing public changed, or a journal is left from which the volume is recoverable, with the step deciding whether it is torn, published and recognizable; no other name is touched. |
| `Manager.Volume.Transact` | scripts/manager-core.ts:2071-3180 | All or nothing for every plan and the receipt over a commit that dies at any step and any number of dying recoveries. Rejected exactly when a path is planned twice or something deviates from the plans. The step of the death decides the ending: undone before the new receipt is linked, applied after it, and stuck exactly between the two names of a revision or once the cleanup has removed a prepared link; only a recovery that dies itself can make it stuck otherwise. When stuck, everything is applied, or the journal is torn and each original is in place or held by its claim with its path free or carrying the intended content. |
| `Manager.FirstInstall` | scripts/manager-core.ts:2071-2349 | With no receipt and every planned path free, a commit that does not die applies every plan and the receipt. |
| `Manager.Update` | scripts/manager-core.ts:2071-2349 | With the receipt and every planned file as the plans say, a commit that does not die applies every plan and the new receipt. |
| `FileCas.Disk.CreatePrepared` | src/config-editor.ts:580-593 | Prepared files exist for exactly the changing plans with new content, and nothing public changed. |
| `FileCas.Disk.ClaimFile` | src/config-editor.ts:693-705 | On an undisturbed disk the claim of one file is linked, verified and recorded with the original's identity, and only the hook can fail. |
| `FileCas.Disk.ClaimFiles` | src/config-editor.ts:693-705 | Originals that will change are claimed; without interference the disk is the initial one plus the claims recorded; when the first hook throws, exactly the first changing file is claimed and the disk is what that hook left. |
| `FileCas.Disk.MutateFile` | src/config-editor.ts:711-733 | One file is replaced; its public name is unlinked only while a verified claim holds the same inode, and linked only where nothing is. |
| `FileCas.Disk.MutateFiles` | src/config-editor.ts:707-735 | Success means every public path was verified after the last hook; calm hooks cannot make it fail. |
| `FileCas.Disk.RestoreOriginals` | src/config-editor.ts:749-760 | After an accepted preflight the rollback cannot fail: every original is back, whatever the hooks had done. |
| `FileCas.Disk.Rollback` | src/config-editor.ts:742-763 | It runs exactly when its hook does not throw and, on the disk the hook leaves, every claim, prepared file and public path is what the records say; then every original is back, and otherwise nothing is touched. On an undisturbed disk it runs exactly when the hook does not throw. |
| `FileCas.RollbackRefusedIff` | src/config-editor.ts:620-636 | The rollback's preflight refuses exactly when some prepared file, claim or public path, written out as names and contents, is not what the record of its plan says. |
| `FileCas.Disk.CleanUp` | src/config-editor.ts:737-773 | Only the transaction's own auxiliaries are removed, none remains when it reports success, and it succeeds exactly when every auxiliary present is still the transaction's own. |
| `FileCas.Disk.Commit` | src/config-editor.ts:644-778 | All or nothing: with hooks that only throw, the hooks decide between the three outcomes exactly, success publishes everything, failure restores names and contents exactly, and one throw never leads to the aggregate error; with hooks that do anything to the disk, every unlink is justified, success means every path verified, and plain failure after a replacement means every original verified in place. A failure before any replacement takes exactly the transaction's own names from the disk, is plain exactly when those are still its own, and leaves an inode a name exactly when the last hook left it one beside them. |
| `FileCas.OneThrowIsUndone` | src/config-editor.ts:644-778 | Of hooks that leave the disk alone it takes one throw to keep a transaction from committing and two to leave it incomplete. |
| `FileCas.AcceptedIff` | src/config-editor.ts:655-686 | A transaction starts exactly when no path is planned twice and every path carries the expected file with the expected content, or is free when none is expected. |
| `FileCas.LastNameGoesVerified` | src/config-editor.ts:735-773 | No unlink of the transaction takes the last name of an original except that of a claim, and after a replacement only when every publication is verified in place. |
| `FileCas.SurvivesIff` | src/config-editor.ts:764-773 | After a plain failure before any replacement an inode has a name if and only if the last hook left it one that is not the transaction's own. |
| `FileCas.UnusedClaimMayBeLast` | src/config-editor.ts:693-773 | A run of the commit: while it is about to delete a file, another one is renamed over the original and the hook throws; the commit fails plainly and the original has no name left. |
| `Mutex.RenameKeepsInvIff` | src/filesystem-mutex.ts:244-265 | Renaming a claim away keeps the invariant if and only if the claim at the path is not that of a running process. |
| `Mutex.RunKeepsInvIff` | src/filesystem-mutex.ts:225-475 | Every state of a run satisfies the invariant if and only if no stale-claim rename in it hits the claim of a running process. |
| `Mutex.CarefulRunsAreHarmless` | src/filesystem-mutex.ts:225-475 | No rename hits such a claim in runs with one-step takeovers, nor in runs where no process dies while holding the claim. |
| `Mutex.QuietDeathsKeepInv` | src/filesystem-mutex.ts:225-475 | In a run in which no process dies while holding the claim, takeovers in two steps allowed, no stale claim ever arises. |
| `Mutex.MutualExclusion` | src/filesystem-mutex.ts:299-475 | In every state of every run with harmless renames at most one running process holds the mutex, expired or not; the lock file carries its token; nobody else passes assertHeld. |
| `Mutex.HarmfulRenameAlone` | src/filesystem-mutex.ts:244-265 | The converse fails for single runs: a run with a harmful rename in all of whose states exclusion holds. |
| `Mutex.HolderIsNotDisplaced` | src/filesystem-mutex.ts:299-475 | In such runs no step of others, no passing of time and no death changes the lock file of a running holder. |
| `Mutex.HolderCanRenew` | src/filesystem-mutex.ts:382-413 | A holder, expired or not, has steps of its own, starting with the renewal, that end with its token in the lock, the lease counted from now, and its claim gone. |
| `Mutex.HolderCanRelease` | src/filesystem-mutex.ts:432-455 | A holder has steps of its own, starting with the release, that end with lock and claim gone and everything else as before. |
| `Mutex.ReleasedMutexCanBeTaken` | src/filesystem-mutex.ts:299-455 | After the holder's own release any handle that wants the mutex has steps of its own that end with it held. |
| `Mutex.OnlyAbandonedLocksGo` | src/filesystem-mutex.ts:299-362 | Only an expired lock of a dead process of the same host is ever renamed away. |
| `Mutex.LiveLockIsLeft` | src/filesystem-mutex.ts:299-362 | An acquisition that meets a lock not expired, or of a process not dead or on another host, changes nothing and goes away. |
| `Mutex.OnlyOwnFilesAreTouched` | src/filesystem-mutex.ts:268-274 | Without any assumption on the state, a handle goes on to remove a claim, or to rewrite or remove a lock, exactly when it has just found its own token there. |
| `Mutex.NoLongerHeld` | src/filesystem-mutex.ts:376-475 | A handle that starts its release, or loses its lock, fails assertHeld and cannot start a renewal any more. |
| `Mutex.AbandonedMutexCanBeTaken` | src/filesystem-mutex.ts:299-362 | A dead owner never blocks: where lock and claim are free or abandoned on this host, there is a sequence of steps of the handle alone, starting with its acquisition and each enabled in turn, that ends with the mutex held, the claim released and assertHeld passing. |
| `Mutex.SplitTakeoverBreaksExclusion` | src/filesystem-mutex.ts:256-264 | A concrete run: with another process between confirming and renaming a stale claim, two running processes hold the mutex at once. |
| `ContextBudget.OrdinaryIsTheLesser` | src/context-budget.ts:115-129 | The ordinary allowance is the lesser of the configured share and the permitted part of the free window. |
| `ContextBudget.WhatFits` | src/context-budget.ts:114-137 | Which whole numbers of bytes are within each limit: the ordinary allowance, the ceiling with its recovery floor, and the normal target, each by the option that belongs to the kind of call. |
| `ContextBudget.ReplyReserve` | src/context-budget.ts:119-121 | The reply reserves what the model may write, never more than half of the window, and nothing when that is unknown. |
| `ContextBudget.TotalWithinWindow` | src/context-budget.ts:115-137 | The ceiling stays within the configured share and the physically free window, is zero in a full window, and grants the recovery floor wherever it fits; the normal target never exceeds it. |
| `ContextBudget.FractionsAddUp` | src/context-budget.ts:140-143 | The parts' fractions add up to one, with all weights zero included. |
| `ContextBudget.FractionsFollowOptions` | src/context-budget.ts:139-142 | Each part in use gets its own configured number over the sum of the numbers of the parts in use, and an equal part when that sum is zero. |
| `ContextBudget.BaseSharesWithinNormal` | src/context-budget.ts:140-143 | The floored base shares never add up to more than the normal allowance. |
| `ContextBudget.Plan.Allow` | src/context-budget.ts:143-156 | The loop's result is the share plus the balance of the reported parts before it, so unused share is carried exactly once and overspending is repaid. |
| `ContextBudget.Plan.AllowRequired` | src/context-budget.ts:161 | Spending a required allowance in full brings total spending exactly to the ceiling. |
| `ContextBudget.Plan.Spend` | src/context-budget.ts:162 | Spending adds to one part and to the total, never subtracts, and keeps the plan valid. |
| `ContextBudget.OrdinaryRepays` | src/context-budget.ts:143-156 | An ordinary report that gets anything brings total spending back within the base shares, however much required content took before. |
| `ContextBudget.MixedConservation` | src/context-budget.ts:126-163 | Any mix of ordinary and required reports in priority order, each within its allowance, stays within the ceiling, and is back within the normal allowance after every ordinary report that gets anything. |
| `ContextBudget.Conservation` | src/context-budget.ts:126-163 | Any sequence of ordinary reports in priority order, each within its allowance, stays within the normal allowance. |
| `ContextBudget.OrderMatters` | src/context-budget.ts:143-156 | A concrete plan where reports out of priority order exceed it. |
| `OwnedContext.OwnedContext.Replace` | src/owned-context.ts:6-33 | Delivers exactly when no delivery is under way, the recorded slots are untouched, the renderer only appended and the array was only appended to; the array is then all foreign items in their order followed by the new chunks; otherwise nothing is written. |
| `OwnedContext.Serve` | src/owned-context.ts:1-34 | Over any sequence of foreign appends and hook runs, failing ones included, all foreign items are there in order and of this plugin exactly the last delivered chunks. |
| `PluginList.RemoveAll` | src/config-editor.ts:287-302 | Removing indices from the back removes exactly the entries that stood there at the start. |
| `PluginList.KnownUpToNormalization` | src/config-editor.ts:281-284 | Specs with the same normal form are known alike, and every known name is known under all its spellings. |
| `PluginList.FindKeeper` | src/config-editor.ts:298 | The keeper is the first match with options, or the first match. |
| `PluginList.KeepOne` | src/config-editor.ts:295-308 | All matches but the keeper are gone, the keeper has the desired spec, and a change is reported exactly when there is one. |
| `PluginList.PlanList` | src/config-editor.ts:280-313 | The whole edit for absent, empty and matching lists, installing and uninstalling, and exactly when the file changes. |
| `PluginList.InstalledMeaning` | src/config-editor.ts:290-309 | Other entries keep order and values, one entry names the desired spec with the options of the first match that had any, and it is the only known one if the desired spec is known. |
| `PluginList.ReplanningIsNoOpIff` | src/config-editor.ts:280-309 | Planning again changes nothing if and only if the desired spec is one of the known specs. |
| `PluginList.UninstalledMeaning` | src/config-editor.ts:285-288 | Uninstalling leaves no known entry, adds nothing, and is idempotent. |
| `RunProgress.ParseNodeExact` | src/run-progress.ts:161-180 | A node row is accepted exactly in the encoding of a well-formed row, and read back as that row. |
| `RunProgress.Parse` | src/run-progress.ts:140-195 | The strict parser accepts for an owner exactly the encodings of well-formed snapshots of that owner. |
| `RunProgress.EncodeInjective` | src/run-progress.ts:140-195 | Different well-formed snapshots have different encodings. |
| `RunProgress.CountStatuses` | src/run-progress.ts:111-112 | The counting loop counts each status exactly, and the counts add up to the number of rows. |
| `RunProgress.RankRanks` | src/run-progress.ts:113-116 | The display order is a permutation of all rows sorted by priority and then by graph order. |
| `RunProgress.RankIsUnique` | src/run-progress.ts:113-116 | There is only one such order, so any stable sort by priority yields it. |
| `RunProgress.NothingOmittedPrecedes` | src/run-progress.ts:113-116 | No omitted row ranks before a shown one. |
| `RunProgress.LivelyRowsComeFirst` | src/run-progress.ts:71-78 | Running rows rank before ready ones, these before pending ones and these before the rest, in graph order within one status. |
| `RunProgress.RowStatus` | src/run-progress.ts:88-94 | A row shows the stored status, pending when there is none, and ready exactly when that is stored or a pending node has all dependencies stored as done. |
| `RunProgress.RowCells` | src/run-progress.ts:83-108 | The other cells come from the counter and the latest attempt exactly where these are usable. |
| `RunProgress.HeaderCells` | src/run-progress.ts:118-131 | Each header cell is the stored value where it is usable and a fixed replacement otherwise. |
| `RunProgress.FallbackId` | src/run-progress.ts:85-86 | The replacement for an unusable node id is always a usable one. |
| `RunProgress.Build` | src/run-progress.ts:81-137 | The builder's snapshot is well formed for every run, its counts are those of all rows, and it shows the first 32 rows in rank, or none exactly when two of them share an id. |
| `RunProgress.AcceptedIdsAreShown` | src/run-progress.ts:81-137 | With usable and distinct ids, as the graph schema demands them, no table is blank. |
| `RunProgress.FittingRowsAreShownIff` | src/run-progress.ts:113-137 | A run with at most 32 nodes has its table shown if and only if no two of its rows share an id. |
| `RunProgress.ReplacedIdBlanksTable` | src/run-progress.ts:85-137 | A concrete run of two nodes with different ids, one of them unusable, whose table the builder blanks. |
| `RunProgress.BuildAndParse` | src/run-progress.ts:81-195 | The parser accepts every built snapshot under its own owner and returns an equal value. |

## Left out

- Executor: failure texts, `last_failures`, outputs, summaries, timestamps, progress messages and session plumbing; they do not influence any status or counter.
- Executor: archived attempt histories, run locks, ownership and filesystem-root authorization; a run is its full history in memory.
- Executor: a rejected gate at the start of an invocation is not a step; it throws before anything is changed.
- Executor: exceptions after an outcome was recorded, other than a worker's lost save.
- Executor.Run.Lifecycle: a process that dies between two saves is covered only in that every accepted save is loadable; an attempt that lost a save before its outcome was known stays running in the store until a resume, and an outcome that lost its own save reaches the store with a sibling's later save or not at all.
- Manager: third parties. The repeated assertions on the read set, the journal artifacts, the live claim and the receipt can fail only through them and are not repeated; the refusals they cause are not part of the model.
- Manager: the identity and path checks the reader makes on auxiliaries before recovery; they always pass on the volumes considered.
- Manager: backups of live files, the probes of the link primitive, the temporary name of a journal revision, directory creation and the limits on revisions and files.
- Manager.Volume.CommitOrAbort: failures before the first revision, which have a handler of their own, and hooks that throw between two steps; `Abort` covers the states they leave, the published receipt included.
- Manager.Volume.Commit: the transaction's auxiliary names are free at the start, as its random identifier makes them, and the new receipt differs from the old one, as its timestamp makes it.
- FileCas: backups, parent directory identities, file modes, and input or output errors other than a taken or missing name.
- Mutex: unreadable and half-written files, which fail closed; retry timers and heartbeats, whose tries are steps that may happen at any time; two handles reusing one token.
- Mutex: the look at the lock before contending for the claim, which can only end an attempt earlier, and the hooks that re-read the lock before a renewal or release.
- Mutex.AbandonedMutexCanBeTaken: says nothing about an acquisition that others interrupt, because waiting is bounded and may simply fail.
- ContextBudget: floating-point rounding, values that are not finite, the estimate of used tokens and the table of sessions.
- PluginList: the text edits that carry out the list edit, comments and layout; normalization of file specs is an arbitrary function.
- RunProgress: prototypes and property order of objects, dates outside the years 0 to 9999, and graphs of 2 to the 32 nodes or more.
- The data-science, Excel, release, benchmark and smoke programs, and the command line: fixed sequences of external commands.
