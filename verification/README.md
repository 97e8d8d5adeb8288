# Verified models of the iii workers

This project models the workers whose contracts are about what survives races, retries and
crashes, and proves what those contracts promise over every run. Where the code does not keep a
promise, the model follows the code: a lemma shows a concrete run that breaks it, and another
says exactly when it is kept.

Each worker has its own module. Protocols are state machines over their atomic steps, with a
restart or crash modelled as "no further step of that process". Loops and objects that the
workers update in place are methods and classes proved against those state machines.

| module | worker | what it is about |
|---|---|---|
| `AgentFeed` | acp | the sequencer that reorders agent events |
| `KitApply`, `KitOwnership`, `Profiles` | iii-directory | carrying out kit plans, who owns a path, `extends` chains |
| `KanbanModel`, `KanbanLanes`, `KanbanNames`, `KanbanLabels`, `KanbanPlan`, `KanbanConvert`, `KanbanBoard`, `KanbanEffects`, `KanbanStore` | kanban | the board: parents, columns, names, labels, shipping, label conversion, every write and exactly what it changes, the store |
| `RowObservers`, `NativeCapture`, `TxEvents` | database | the observer index, native capture across reloads, events of interactive transactions |
| `SessionTree` | harness | deleting a session and everything below it |
| `JobEvents` | ide | completions of background jobs, live and replayed |
| `ChatRelay` | llm-router | relaying a stream with retries |
| `CursorClaims` | cursor | who may dispatch a prompt |
| `SessionAnalysis` | eval | one Jev call and one investigation per analysis |
| `PendingInbox` | approval-gate | the inbox entry of a held call |
| `ContextAssembly`, `ContextWorker`, `ContextSelection`, `ResultReference`, `Summarizer`, `TailSelection` | context-manager | fitting a request into a window, with the worker's own texts and tail, the references it writes, fragmented summaries, where a compaction cuts |
| `Tournament` | judge-laya | wide choices |
| `Options`, `Text` | shared | an optional value; blank and trimmed text |

Findings, each with a run that shows it and its exact condition:

- A kit apply cannot always be retried: files are written before the journal is saved, the
  journal is saved after every tenth file only, and a save that fails is passed over. A crash can
  strand the plan, and so can an I/O error whose last save fails too
  (`KitApply.CrashCanStrand`, `KitApply.FailedSaveCanStrand`). It stays retriable exactly if no
  attempt carried out a file that makes a difference beyond what had been saved
  (`KitApply.AttemptRetriable`, `KitApply.RetriableExactly`).
- A retry may decide otherwise than the attempt before it, and then a file that was overwritten and
  is now to be kept stays overwritten (`KitApply.KeepAfterOverwrite`; exactly when:
  `KitApply.RetryDecides`).
- A path can end up with two owning kits: identical or missing files are no collision, and
  overwriting a file kept earlier carries no owner (`KitOwnership.IdenticalProfileTwoOwners`;
  exactly when: `KitOwnership.UniqueHistory`).
- `updated_at` is a ticket's version except for its number in its column, which a move of
  another ticket changes unstamped (`KanbanBoard.MoveRenumbersUnstamped`; exactly which tickets:
  `KanbanBoard.UnstampedExactly`).
- A statement that looked a transaction up before it was finalised can run after the rollback,
  commit by itself and never be announced (`TxEvents.LateWriteSurvivesRollback`; exactly when:
  `TxEvents.CompleteUnlessLate`, `TxEvents.RollbackClean`).
- With a reused job id a completion can be delivered twice in one addition; an observer id added
  again without a job can receive a replay meant for its earlier registration
  (`JobEvents.ReuseDeliversTwice`, `JobEvents.ReplayReachesEveryJobObserver`; exactly when:
  `JobEvents.RepeatsExactly`, `JobEvents.ReplayExactly`).
- Pings of an attempt that is then retried reach the caller (`ChatRelay.PingsOfTwoAttempts`;
  exactly when: `ChatRelay.TwoAttemptsExactly`).
- A failing call can mark a finished Cursor session `recovery-required`
  (`CursorClaims.FinishedYetRecovery`; exactly when: `CursorClaims.NeedlessRecovery`).
- An inbox entry can come or go without a word: a call held between the two halves of a removal, a
  plain approval replaced by a follow-up, a filesystem request cleared for another root, and a
  process that stops between a swap or a write and its announcement
  (`PendingInbox.HeldBetweenIsLost`, `PendingInbox.FollowUpIsSilent`, `PendingInbox.StaleIsSilent`,
  `PendingInbox.StopIsUnsaid`, `PendingInbox.LateStopIsUnsaid`, `PendingInbox.StopIsMissed`; exactly
  when: `PendingInbox.AnnouncedExactly`).
- An assembled request can be above the window: the last check is against a budget that a
  recount may have raised above it. It happens with the references the worker writes, because a
  reference to a result of control characters is larger than the reference to that
  (`ContextWorker.AcceptedAboveWindow`, `ResultReference.WideShrinks`; exactly which requests:
  `ContextAssembly.WindowExactly`; exactly which runs: `ContextAssembly.WithinExactly`).
- A compaction can separate a call from its result when another assistant message stands between
  them (`TailSelection.AssistantBetweenSplits`; exactly when: `TailSelection.SplitsExactly`,
  `TailSelection.PairsKeptExactly`).

## Model

| member | source | states |
|---|---|---|
| `AgentFeed.RunKeepsOrder` | acp/src/agent_feed.rs:226-322 | after any deliveries and ticks the frames released are strictly increasing in `seq`, so none twice, and the buffer holds at most 256 |
| `AgentFeed.ReleasedWasOffered` | acp/src/agent_feed.rs:233-322 | every frame released or buffered is one that was delivered |
| `AgentFeed.ExactlySent` | acp/README.md:289-292 | when every frame arrives, in any order and with repeats, the output is exactly the sent sequence if and only if no gap outlasted the window or overflowed the buffer |
| `AgentFeed.OutOfWindowSkips` | acp/src/agent_feed.rs:243-262 | otherwise some sent frame is passed over for good |
| `AgentFeed.GivesUpExactly` | acp/src/agent_feed.rs:243-322 | after any run a gap is passed over if and only if a tick is forced, comes 250 ms or more after the stream began to wait, or a frame beyond the gap comes while 256 are held; then all that is held goes out |
| `AgentFeed.DrainContiguous` | acp/src/agent_feed.rs:233-241 | the loop pops the contiguous run from the next number on |
| `AgentFeed.Sequencer.OfferFrame` | acp/src/agent_feed.rs:275-303 | one delivery changes its own stream as specified and no other |
| `AgentFeed.Sequencer.FlushSession` | acp/src/agent_feed.rs:309-322 | a tick flushes each stream of the session, releases each one's frames in order, and touches no other session |
| `KitApply.LockLast` | iii-directory/src/kits/apply.rs:529-637 | whatever the cuts and retries, the lock names the new version only when every planned write and delete is in place, and then the files are those of an uninterrupted apply |
| `KitApply.LockedFiles` | iii-directory/src/kits/apply.rs:533-637 | whatever the cuts and retries, once the lock names the new version every body planned is written with exactly that content, every file to delete is gone, and every file left alone and every unplanned path is as before the first attempt |
| `KitApply.HalfwayFiles` | iii-directory/src/kits/apply.rs:533-590 | until then each planned path is as it was or as its action leaves it, and every unplanned path is as it was |
| `KitApply.JournalNotes` | iii-directory/src/kits/apply.rs:529-590 | over any attempts the saved journal has entries only of files the plan writes or deletes: the content of a written one, the absence of a deleted one |
| `KitApply.SavedNotes` | iii-directory/src/kits/apply.rs:586-597 | an accepted attempt whose saves reach a written or deleted file has noted its content, or its absence, in the journal |
| `KitApply.EveryTenth` | iii-directory/src/kits/apply.rs:586-588 | for every plan and every crash, with no save failing: how many files are carried out, and that the saved journal covers all of them or exactly the last full ten |
| `KitApply.AttemptRetriable` | iii-directory/src/kits/apply.rs:158-215 | an attempt, ended by a crash or an error and with any saves failing, is accepted again if and only if the lock was not reached and each file carried out that makes a difference is in the journal it began with or in what it saved; a matter of the budget, the number of files, the failing saves and the ending |
| `KitApply.RetriableExactly` | iii-directory/src/kits/apply.rs:529-597 | after any run of attempts the plan is finished or still retriable if and only if no attempt stranded it, a condition on the plan and the cuts alone |
| `KitApply.ErrorRetriable` | iii-directory/src/kits/apply.rs:538-572 | an attempt ended by an I/O error whose last save succeeds is accepted again if and only if the lock was not reached |
| `KitApply.ErrorsOnlyRetriable` | iii-directory/README.md:578-597 | any number of attempts ended by errors whose last save succeeds leaves the plan finished or retriable, whatever other saves fail |
| `KitApply.RetryCompletes` | iii-directory/README.md:578-597 | one accepted attempt that is not cut ends with the new lock and the files of an uninterrupted apply, whatever came before |
| `KitApply.RetryDecides` | iii-directory/src/kits/apply.rs:529-597 | with decisions that change from attempt to attempt, an accepted attempt that is not cut writes the lock, and leaves the files of an uninterrupted apply with its own decisions if and only if every file it leaves alone is still as the plan found it |
| `KitApply.KeepAfterOverwrite` | iii-directory/src/kits/apply.rs:533-572 | a file overwritten and journaled by a cut attempt and kept by the retry stays overwritten under the new lock |
| `KitApply.StaleForever` | iii-directory/src/kits/apply.rs:191-213 | a plan refused once is never carried out any further |
| `KitApply.CrashCanStrand` | iii-directory/src/kits/apply.rs:586-588 | one file and a crash before its journal save: every later attempt is refused |
| `KitApply.FailedSaveCanStrand` | iii-directory/src/kits/apply.rs:738-749 | the second of two writes fails and so does the save on the way out: every later attempt is refused |
| `KitApply.CarryOut` | iii-directory/src/kits/apply.rs:529-597 | the loop over the files leaves disk, journal and record of what was written as an attempt with that cut says, or gets through all of them |
| `KitApply.Project.Apply` | iii-directory/src/kits/apply.rs:350-640 | the apply does to files, journal and lock what the model of an attempt says, for every cut and every failing save |
| `KitOwnership.UniqueStep` | iii-directory/src/kits/apply.rs:599-630 | a step keeps every path with at most one owner if and only if it is no clash, a condition on the lock, the files and the caller's choices before it |
| `KitOwnership.UniqueHistory` | iii-directory/README.md:502-519 | over every history of installs, updates, removals, downloads and edits, all locks so far have had unique owners if and only if no step so far was a clash |
| `KitOwnership.ClashIsDoubleOwner` | iii-directory/src/kits/plan.rs:469-546 | the kit ends up owning a path beside another owner exactly when the step clashes there |
| `KitOwnership.OwnersAfterPut` | iii-directory/src/kits/apply.rs:752-781 | who owns each path after an install or update |
| `KitOwnership.TakeOver` | iii-directory/src/kits/apply.rs:603-630 | the lock step marks exactly the paths taken over as skipped in the other kits |
| `KitOwnership.DownloadSparesKits` | iii-directory/src/sources/registry.rs:253-281 | a worker download changes no profile a kit owns and writes every other one |
| `KitOwnership.IdenticalProfileTwoOwners` | iii-directory/src/kits/plan.rs:477-480 | two kits shipping the same profile both own it, and removing one deletes the file the other owns |
| `KitOwnership.DefaultsResolve` | iii-directory/src/kits/plan.rs:1070-1145 | an install or update goes through without choices if and only if every file the user edited and the kit changed merges cleanly |
| `KitOwnership.DefaultFiles` | iii-directory/src/kits/plan.rs:1000-1200 | without choices such edits are merged, every other new or changed file is written unless the kit skips it, every file no longer shipped is removed unless the user edited it, and the rest is left alone |
| `KitOwnership.DefaultEntry` | iii-directory/src/kits/apply.rs:752-781 | the kit's lock entry then lists exactly what it ships and skips only what it skipped before |
| `KitOwnership.ChoicesExactly` | iii-directory/src/kits/plan.rs:630-641 | which choices a file's place in the plan accepts, if and only if |
| `KitOwnership.ChosenFiles` | iii-directory/src/kits/apply.rs:529-590 | what becomes of a file for each choice |
| `KitOwnership.CollisionExactly` | iii-directory/src/kits/plan.rs:467-560 | who is in the way of an added file, if and only if anybody is |
| `KitOwnership.UninstallExactly` | iii-directory/src/kits/plan.rs:1270-1330 | removing a kit takes away the files it holds that nobody edited, its lock entry, and nothing else |
| `Profiles.ResolveChain` | iii-directory/src/functions/agents.rs:605-630 | the walk ends with the chain up to a root at most eight hops away, if and only if there is one, and otherwise with the problem that stopped it |
| `Profiles.LoopNeverEnds` | iii-directory/src/functions/agents.rs:617-618 | a chain that comes back to a profile has no root at any depth |
| `Profiles.DistinctIs` | iii-directory/src/functions/agents.rs:658-669 | the union keeps what occurs in the lists, once each, in order of first occurrence |
| `Profiles.UnionRootFirst` | iii-directory/src/functions/agents.rs:662-669 | the pass with a seen-set computes that union |
| `Profiles.ChildExtendsParent` | iii-directory/README.md:384-396 | a child's resolved list begins with its parent's resolved list: it adds and never removes |
| `Profiles.ResolvedExactly` | iii-directory/src/functions/agents.rs:648-669 | a function is in a profile's resolved list if and only if the profile or one it extends lists it, and then once |
| `Profiles.ComposePrompt` | iii-directory/src/functions/agents.rs:708-721 | the loop over the chain yields the parent's resolved prompt followed by the profile's own body |
| `Profiles.PromptJoins` | iii-directory/src/functions/agents.rs:708-721 | the prompt is the bodies of the chain that are not blank, the root's first, as paragraphs: trailing newlines of all but the last give way to one blank line |
| `Profiles.OwnBodyLast` | iii-directory/README.md:384-396 | a profile's own body comes last and unchanged, and there is a prompt if and only if some profile of the chain has a body |
| `KanbanBoard.ParentsSound` | kanban/README.md:208-217 | after any run every parent, project and release exists, a live subtask's parent is no subtask, and no ticket, deleted ones included, is its own ancestor |
| `KanbanBoard.StepKeeps` | kanban/src/board.rs:933-1323 | every write keeps references, the one-level live hierarchy, acyclicity and unambiguous names |
| `KanbanModel.AttachKeeps` | kanban/src/board.rs:735-767 | an accepted attach keeps the live hierarchy one level deep and the whole relation acyclic |
| `KanbanBoard.RestoreKeeps` | kanban/src/board.rs:1278-1323 | restoring keeps all of it, detaching a subtask whose parent cannot hold it |
| `KanbanEffects.RestoreExactly` | kanban/src/board.rs:1278-1323 | restoring a deleted ticket makes it live, leaves its parent if and only if that is in the board, live and a root and clears it otherwise, puts its number just above every other live ticket of its column, leaves its other fields alone, and touches no other ticket but to stamp the parent it was detached from |
| `KanbanEffects.DeleteExactly` | kanban/src/board.rs:1264-1276 | deleting marks and stamps one ticket and changes nothing else |
| `KanbanEffects.CommentExactly` | kanban/src/board.rs:1339-1390 | a comment stamps one live ticket and changes nothing else |
| `KanbanEffects.IdleWrites` | kanban/src/board.rs:1264-1323 | deleting what is deleted and restoring what is live change nothing |
| `KanbanEffects.ParentAccepted` | kanban/src/board.rs:735-767 | a parent is accepted if and only if it is another live ticket without a parent and the child has no live children |
| `KanbanEffects.ParentRefused` | kanban/src/board.rs:735-767 | and what it is refused for otherwise, if and only if |
| `KanbanEffects.CreateAccepted` | kanban/src/board.rs:933-1010 | a create succeeds if and only if its title is not blank, its column is known and its parent, project and release are |
| `KanbanEffects.CreateRefused` | kanban/src/board.rs:933-1010 | what a create is refused for otherwise: the first of title, column, parent, project and release that is wrong |
| `KanbanEffects.CreateExactly` | kanban/src/board.rs:933-1044 | a create adds one live ticket with the title, labels, column, parent, project and release asked for, at the bottom of its column, and stamps only its parent beside it |
| `KanbanEffects.UpdateAccepted` | kanban/src/board.rs:1046-1135 | an update succeeds if and only if the ticket is there, the title is not blank, the column known and the parent, project and release can be taken |
| `KanbanEffects.UpdateRefused` | kanban/src/board.rs:1046-1135 | what an update is refused for otherwise: its relations first, then its title, then its column |
| `KanbanEffects.MoveRefused` | kanban/src/board.rs:1197-1222 | a move is refused for an unknown column, an unknown ticket or a deleted one, if and only if |
| `KanbanEffects.UpdateExactly` | kanban/src/board.rs:1046-1191 | each field of the updated ticket is the one asked for, or the old one where none was; a new column puts it at the bottom; no other ticket changes but to stamp the parents it left and joined |
| `KanbanEffects.NewProjectExactly` | kanban/src/plan.rs:342-383 | a new project is written if and only if its name is free, and nothing else changes |
| `KanbanEffects.NewReleaseExactly` | kanban/src/plan.rs:475-512 | the same of a release |
| `KanbanEffects.RenameProjectExactly` | kanban/src/plan.rs:389-446 | renaming a project needs a name no other one has, and changes nothing else |
| `KanbanEffects.RenameReleaseExactly` | kanban/src/plan.rs:518-571 | the same of a release |
| `KanbanEffects.ArchiveExactly` | kanban/src/plan.rs:448-473 | archiving and bringing back set one project's mark |
| `KanbanEffects.ReopenExactly` | kanban/src/plan.rs:645-659 | reopening a shipped release clears its mark alone |
| `KanbanEffects.DeleteReleaseExactly` | kanban/src/plan.rs:661-680 | a release goes if and only if no ticket, live or deleted, names it |
| `KanbanBoard.ChainsGrow` | kanban/src/board.rs:735-767 | boards with a parent chain of any length through deleted tickets are reached |
| `KanbanBoard.StepStamps` | kanban/src/board.rs:22-38 | each write leaves a ticket as it was or stamps it later, except that a move gives other tickets a new number |
| `KanbanBoard.UnstampedExactly` | kanban/src/board.rs:1197-1262 | a write changes a ticket without a later time if and only if it is a move of another ticket and this one is live in the target column or the one left and its place there comes to differ from its number |
| `KanbanLanes.MoveRenumbersExactly` | kanban/src/board.rs:1219-1244 | a move changes another ticket exactly if that ticket's place in the resulting column differs from its number |
| `KanbanBoard.TicketsTidy` | kanban/src/board.rs:330-341 | after any run every title is trimmed and not empty, and every ticket's labels are trimmed, not blank and none twice in any case |
| `KanbanLabels.CleanIs` | kanban/src/board.rs:330-341 | cleaned labels are tidy, and a label is among them exactly if it was given |
| `KanbanLabels.EditIs` | kanban/src/board.rs:1110-1128 | after an edit a label is there exactly if it was added, or kept or given anew and not removed, and the labels are tidy again |
| `KanbanLabels.CleanLabels` | kanban/src/board.rs:331-341 | the loop computes the cleaned labels |
| `Text.TrimKeeps` | kanban/src/board.rs:331-342 | what trimming takes off either end is blank, and the rest is unchanged |
| `KanbanBoard.VersionsTell` | kanban/src/board.rs:22-38 | over a run `updated_at` never falls, and while it stays the ticket is the same but for its number |
| `KanbanBoard.MoveRenumbersUnstamped` | kanban/src/board.rs:1235-1239 | moving the second of two tickets first renumbers the other under its old version |
| `KanbanLanes.MoveShows` | kanban/src/board.rs:1219-1244 | after a move the column shows the ticket at the place asked for and the others in their order |
| `KanbanLanes.MoveLeaves` | kanban/src/board.rs:708-721 | the column left behind shows the rest in its order, numbered from one |
| `KanbanLanes.ColumnIs` | kanban/src/board.rs:402-406 | a column lists exactly its live tickets, once each, in display order |
| `KanbanLanes.ShownInOrder` | kanban/src/board.rs:402-406 | a column is shown by number, tickets of one number by age |
| `KanbanNames.FindIs` | kanban/src/board.rs:369-392 | with unambiguous names a reference finds an entity exactly when it matches its id or its name |
| `KanbanNames.FoldExactly` | kanban/src/plan.rs:282-304 | two names are the same if and only if they are letter by letter, ASCII case aside |
| `KanbanNames.AddName` | kanban/src/plan.rs:279-304 | taking a name keeps references unambiguous if and only if it is nobody's name and nobody's id |
| `KanbanNames.Rename` | kanban/src/plan.rs:279-304 | the same for renaming, leaving out the entity itself |
| `KanbanNames.FindEntity` | kanban/src/board.rs:371-392 | the scan computes the lookup |
| `KanbanPlan.ShipCloses` | kanban/src/plan.rs:573-641 | a successful ship leaves no open ticket, puts each open one in the chosen unreleased other release or in none, changes no other ticket and no other release, and conserves the tickets |
| `KanbanPlan.ShipMovesExactly` | kanban/src/plan.rs:589-636 | a ship moves exactly the tickets that are live, in the release, not done and not canceled |
| `KanbanPlan.ShipRefusals` | kanban/src/plan.rs:580-615 | exactly when a ship succeeds and when it asks where the open tickets go |
| `KanbanPlan.MoveOpen` | kanban/src/plan.rs:616-636 | the loop moves exactly the listed tickets |
| `KanbanConvert.PlanRows` | kanban/src/plan.rs:844-861 | the four buckets hold exactly the tickets carrying the label, each in one of them |
| `KanbanConvert.ConvertEffects` | kanban/src/plan.rs:937-996 | what a run does to a ticket of each bucket, to its label and to nothing else |
| `KanbanConvert.ConvertedExactly` | kanban/src/plan.rs:937-996 | on the fields: a ticket is put into the project or release if and only if it carries the label, is live and has none or another one to be replaced; it loses the label if and only if that is asked for and it is there in the end; it is stamped if and only if something changed |
| `KanbanConvert.BucketExactly` | kanban/src/plan.rs:844-861 | the bucket a ticket is reported in, if and only if |
| `KanbanConvert.MarkedExactly` | kanban/src/plan.rs:998-1020 | the release is marked if and only if that is asked for, it is not released, one of its live tickets is done and none is still to be done |
| `KanbanConvert.FinishedExactly` | kanban/src/plan.rs:998-1020 | and with the latest time one of its tickets was written before the conversion |
| `KanbanConvert.ConvertIdempotent` | kanban/README.md:251-260 | a second run changes nothing at all and plans nothing to add, for every combination of options |
| `KanbanStore.NextAt` | kanban/src/board.rs:27-38 | the next write's time is later than every ticket's, and the clock's unless the clock is behind |
| `KanbanStore.Store.Create` | kanban/src/board.rs:933-1010 | creating a ticket in place is the specified write, refusals included |
| `KanbanStore.Store.Update` | kanban/src/board.rs:1046-1191 | updating a ticket in place is the specified write, refusals included |
| `KanbanStore.Store.Move` | kanban/src/board.rs:1197-1262 | moving a ticket in place is the specified write, refusals included |
| `KanbanStore.Store.Restore` | kanban/src/board.rs:1278-1323 | restoring a ticket in place is the specified write |
| `KanbanStore.Store.Ship` | kanban/src/plan.rs:573-641 | shipping in place is the specified write, refusals included |
| `KanbanStore.Store.ConvertLabel` | kanban/src/functions.rs:1344-1385 | a dry run reports the buckets the real run works on and writes nothing |
| `RowObservers.SharedKey` | database/src/row_changes/capture.rs:103-137 | an observer and an event share a key exactly when the args accept the event, unknown tables included |
| `RowObservers.OneSharedKey` | database/src/row_changes/capture.rs:103-137 | and then it is one key, events without an operation included, so no observer is found twice |
| `RowObservers.Index.Lookup` | database/README.md:456-460 | the index returns exactly the observers whose args accept the event |
| `NativeCapture.ReplaceKeeps` | database/src/row_changes/capture.rs:344-433 | taking, replacing and releasing holds keeps each table's count equal to its holders |
| `NativeCapture.AdmitExactly` | database/src/row_changes/capture.rs:306-400 | a new observer is turned away if and only if its database is not configured, needs a table it does not name, or cannot be captured; it holds its table exactly if that is captured natively |
| `NativeCapture.RefusalExactly` | database/src/row_changes/capture.rs:530-571 | a reload refuses what an addition would be refused, and with the same code, except that a database without a pool is waited for |
| `NativeCapture.Revalidate` | database/src/row_changes/capture.rs:482-571 | a reload removes exactly the observers the new configuration cannot serve, serves the others as it says, and keeps the counts |
| `NativeCapture.Capture.Added` | database/src/row_changes/capture.rs:306-459 | a new observer is served or rejected, and no other observer changes |
| `NativeCapture.Feed.Added` | database/src/row_changes/capture.rs:439-459 | an accepted observer is filed under its new args, a rejected one changes nothing |
| `NativeCapture.Feed.Removed` | database/src/row_changes/capture.rs:461-466 | a removed observer is forgotten and no longer filed |
| `NativeCapture.Feed.Reload` | database/src/row_changes/capture.rs:468-571 | after a reload exactly the observers the new configuration serves are accepted and filed |
| `NativeCapture.Feed.Lookup` | database/README.md:456-460 | an event finds exactly the observers accepted, and not rejected or removed since, whose args accept it |
| `NativeCapture.Feed.ReloadThenLookup` | database/src/row_changes/capture.rs:468-571 | right after a reload an event finds exactly the observers that were there, that the new configuration serves and whose args accept it |
| `TxEvents.AnnouncedAreDurable` | database/README.md:512-521 | for every race a transaction is finalised at most once, the announced events are a prefix of durable writes in order, and a rolled-back transaction announces nothing |
| `TxEvents.RunIsTold` | database/src/transaction.rs:111-247 | the whole state of every run follows from its steps: the first take decides who finishes, the first finish after it whether the writes are durable or undone, and the first drain after that which events are announced, in order |
| `TxEvents.OnlyCommitCommits` | database/src/handlers/commit_transaction.rs:26-104 | a transaction is committed, and its events announced, if and only if a commit call took the entry while it was open and its COMMIT succeeded |
| `TxEvents.OtherwiseUndone` | database/src/transaction.rs:187-247 | where a rollback or the timeout took the entry, or the COMMIT failed, everything written until then is undone and nothing is ever announced |
| `TxEvents.RolledBackStays` | database/src/transaction.rs:187-247 | once rolled back, no later step announces anything |
| `TxEvents.CompleteUnlessLate` | database/src/transaction.rs:111-137 | at the end every durable write was announced if and only if no statement ran after the events were drained or dropped |
| `TxEvents.RollbackClean` | database/src/handlers/rollback_transaction.rs:25-71 | a rollback left nothing durable under the same condition |
| `TxEvents.QuietTakeIsComplete` | database/src/transaction.rs:139-158 | a transaction finalised while no statement waits meets it |
| `TxEvents.LateWriteSurvivesRollback` | database/src/transaction.rs:121-130 | a statement that found the connection before the rollback commits after it, unannounced |
| `TxEvents.Transaction.Commit` | database/src/handlers/commit_transaction.rs:26-104 | a commit announces the transaction's writes and those of statements that ran before the drain, in order; what runs after the drain is durable and never announced; a failed commit announces nothing |
| `TxEvents.Transaction.CommitTransaction` | database/src/handlers/commit_transaction.rs:26-104 | a whole commit call: nothing happens if the entry was taken before; else the transaction is finalised once and announces what was written before the drain |
| `SessionTree.CompletedMeansGone` | harness/README.md:500-516 | completed means no session ever created at or below the root exists, whatever was spawned meanwhile |
| `SessionTree.ChildrenFirst` | harness/src/functions/delete_session_tree.rs:618-672 | no surviving session ever has an erased parent |
| `SessionTree.EraseIsSafe` | harness/src/functions/delete_session_tree.rs:605-672 | a step erases at most one session, below the root of a deletion under way, without a running turn and without children |
| `SessionTree.DeletionsDisjoint` | harness/src/functions/delete_session_tree.rs:369-413 | over every run all tombstones at or above an existing session are of one deletion, and only that one erases it |
| `SessionTree.ConflictExactly` | harness/src/functions/delete_session_tree.rs:373-413 | a reservation is refused if and only if another deletion has a tombstone at or above the root, on an existing session below it or on a planned member |
| `SessionTree.AdmittedExactly` | harness/src/functions/delete_session_tree.rs:148-203 | a turn starts, and a session is spawned, if and only if there is no tombstone at or above the session or the parent; nothing else starts or makes one |
| `SessionTree.DeletionMoves` | harness/src/functions/delete_session_tree.rs:220-290 | which steps move a deletion to deleting, failed, completed and planned, if and only if |
| `SessionTree.NotedExactly` | harness/src/functions/delete_session_tree.rs:618-672 | a member is noted as deleted if and only if its erase runs, idle and after all later members |
| `SessionTree.TombSetExactly` | harness/src/functions/delete_session_tree.rs:294-312 | which steps set a tombstone, if and only if |
| `SessionTree.TombGoneExactly` | harness/src/functions/delete_session_tree.rs:316-413 | which steps take one away, if and only if |
| `SessionTree.AdmissionClosed` | harness/src/functions/delete_session_tree.rs:163-203 | once planned, no turn starts and nothing is spawned below the root |
| `SessionTree.AttemptsCountRetries` | harness/src/functions/delete_session_tree.rs:236-273 | over every run a deletion is on record exactly if it was requested, and its attempt is one plus the number of requests made while it had failed |
| `SessionTree.CompletedStays` | harness/src/functions/delete_session_tree.rs:236-273 | a completed deletion stays completed, however often it is requested again |
| `SessionTree.Collect` | harness/src/functions/session_tree.rs:60-145 | the walk lists the root and every live session below it, parents before children |
| `SessionTree.EraseMembers` | harness/src/functions/delete_session_tree.rs:620-672 | the erase loop removes only members, never a running one, and all of them unless it is cut short |
| `JobEvents.OncePerAddition` | ide/README.md:464-483 | an observer of a job whose id is not reused receives at most one completion per addition whatever is lost, and exactly one once nothing is in flight, if nothing was lost and the record is kept |
| `JobEvents.DeliveredExactly` | ide/src/job_events.rs:184-195 | an observer of a job has a completion exactly if a call carrying it reached the observer since it was added |
| `JobEvents.GotIs` | ide/src/job_events.rs:138-195 | what an observer received is what it takes of the calls that reached it: all of them without a job, else its job's, leaving out repeats in a row |
| `JobEvents.LiveOnce` | ide/src/job_events.rs:203-245 | over every run a completion goes out in one live call at most, however often ids are reused |
| `JobEvents.LiveExactly` | ide/src/job_events.rs:203-218 | a live call is put in flight if and only if a run finishes |
| `JobEvents.DueExactly` | ide/src/job_events.rs:283-305 | a replay is due once for each addition of an observer of one job |
| `JobEvents.CallsExactly` | ide/src/job_events.rs:251-280 | a replay is called if and only if the look-up finds the job finished and the observer without this run of it |
| `JobEvents.RecordMoves` | ide/src/jobs.rs:207-244 | a job's record is made under a free id, finished once and pruned only when finished |
| `JobEvents.RepeatsExactly` | ide/src/job_events.rs:151-159 | an observer of a job receives a completion twice in one addition if and only if calls that reached it carried that completion, then another run's, then the first again |
| `JobEvents.ReplayExactly` | ide/src/job_events.rs:184-195 | a registration without a job receives a replay if and only if a replay call for its id runs while it stands |
| `JobEvents.NoReplayWithoutJob` | ide/src/job_events.rs:282-305 | an observer id never added with a job never receives a replay |
| `JobEvents.ReuseDeliversTwice` | ide/src/job_events.rs:151-159 | with a reused id a late replay call delivers the first completion again |
| `JobEvents.ReplayReachesEveryJobObserver` | ide/src/job_events.rs:184-195 | an id added again without a job receives the replay still in flight |
| `JobEvents.ReuseNeedsPrune` | ide/src/jobs.rs:207-244 | between two runs of one id its record was pruned |
| `JobEvents.CallObservers` | ide/src/job_events.rs:184-195 | asking the observers one by one delivers and claims as specified |
| `ChatRelay.OneTerminal` | llm-router/README.md:46-57 | every stream ends with exactly one terminal frame unless the caller is gone, frames other than pings come from one attempt, a made-up terminal carries exactly the content received, and dispatches stay within the limit |
| `ChatRelay.TurnEnds` | llm-router/src/chat/chat.rs:586-985 | a turn ends in the first attempt that is not due again (only pings forwarded, a retryable error or an end that is not idle, attempts left); the frame added to what was relayed is a Done of the router if and only if the turn was aborted before, in or after that attempt, an Error of the router if and only if the stream broke off otherwise, and else the provider's held-back error |
| `ChatRelay.AttemptEnds` | llm-router/src/chat/relay.rs:106-254 | an attempt stops at its first abort, end, silence, terminal frame or frame without room, and that event alone says how it ended and what was forwarded |
| `ChatRelay.RelayShape` | llm-router/src/chat/relay.rs:106-254 | what an attempt hands on, by how it ended |
| `ChatRelay.ForwardsPrefix` | llm-router/src/chat/relay.rs:157-251 | what is forwarded are the readable frames of a prefix of the provider's stream, in order |
| `ChatRelay.RelayFrames` | llm-router/src/chat/relay.rs:106-254 | the relay loop computes the specified relay |
| `ChatRelay.RunTurn` | llm-router/src/chat/chat.rs:586-985 | the attempt loop computes the specified turn |
| `ChatRelay.TwoAttemptsExactly` | llm-router/src/chat/chat.rs:586-985 | the caller sees frames of two provider attempts if and only if an attempt that is retried forwarded a ping and a later attempt sends a frame, be it a held-back error |
| `ChatRelay.PingsOfTwoAttempts` | llm-router/src/chat/relay.rs:216-237 | pings of a retried attempt reach the caller beside the next attempt's frames |
| `CursorClaims.DispatchedOnce` | cursor/README.md:122 | however processes race and stop, no turn's prompt is dispatched twice |
| `CursorClaims.DispatchedStays` | cursor/README.md:122 | a turn whose prompt went out is on the record, through crashes, shutdowns, failures and other workers' claims, if and only if its owner has not finished it |
| `CursorClaims.RunLeavesExactly` | cursor/src/run.ts:875-990 | a run leaves the record if and only if the process that holds the claim finishes or cancels the turn it started |
| `CursorClaims.RunComesExactly` | cursor/src/run.ts:838-866 | a run comes on the record if and only if the owner of the claim marks its pending turn started |
| `CursorClaims.ClaimTakenExactly` | cursor/src/run.ts:643-776 | a claim is taken if and only if a free process asks for a session without a started turn that needs no recovery, and gives it the pending key or a new one |
| `CursorClaims.PendingLeavesExactly` | cursor/src/run.ts:1349-1385 | the four ways in which a turn that was never started leaves the record, if and only if |
| `CursorClaims.RecoveryEnteredExactly` | cursor/src/run.ts:652-730 | the four ways in which a session comes to need recovery, if and only if; it keeps key and run and loses its owner |
| `CursorClaims.ShutdownLeavesTurn` | cursor/src/run.ts:358-396 | a worker that shuts down with its turn started leaves the session recovery-required with the same key and run and no claim; one not started is cleared |
| `CursorClaims.NeverReplayed` | cursor/src/run.ts:643-697 | once a started turn has lost its owner the session keeps it for ever and sends only what was marked started before |
| `CursorClaims.LostBecomesRecovery` | cursor/src/run.ts:652-682 | over every run without a step of the process that owns a started turn, the record keeps the turn, no prompt goes out or is begun that was not begun before, and the session is recovery-required if and only if somebody has come upon the stale claim to claim the turn or to stop the session |
| `CursorClaims.NeedlessRecovery` | cursor/src/run.ts:1757-1783 | exactly when a session enters recovery with nothing outstanding |
| `CursorClaims.FinishedYetRecovery` | cursor/src/run.ts:1757-1783 | a call failing while a turn runs marks the session after the turn has finished |
| `SessionAnalysis.OnceEach` | eval/README.md:390-399 | over all deliveries, sweeps and restarts there is at most one Jev call, at most one turn started however often the investigation is sent, and one is sent only for a saved needs_investigation answer |
| `SessionAnalysis.CompletedMeans` | eval/src/runtime.rs:2428-2525 | over all runs an analysis that completed has an answer that needs no investigation and none saved, or one that does and the investigation of the one turn started |
| `SessionAnalysis.StatusMoves` | eval/src/runtime.rs:2428-2525 | which delivery moves an analysis to judging and to investigating, if and only if; each change counts one step |
| `SessionAnalysis.StatusEnds` | eval/src/runtime.rs:2428-2525 | which delivery completes, fails or cancels an analysis, if and only if |
| `SessionAnalysis.JudgeCalledExactly` | eval/src/runtime.rs:2466-2486 | Jev is called if and only if the judging step has evidence and no call was made |
| `SessionAnalysis.SentExactly` | eval/src/runtime.rs:3110-3175 | the investigation is sent if and only if its step finds nothing saved, no turn, no send under way and either a send made before or no cap, and evidence |
| `SessionAnalysis.AssetsExactly` | eval/src/runtime.rs:2487-2510 | what each delivery saves |
| `SessionAnalysis.AnsweredRun` | eval/README.md:390-399 | from the start, an answer that needs no investigation completes the analysis |
| `SessionAnalysis.InvestigatedRun` | eval/README.md:390-399 | and one that does completes it once the investigation is saved |
| `SessionAnalysis.OneTurn` | eval/src/runtime.rs:3030-3036 | all sends carrying the analysis's own key, the Harness starts at most one turn |
| `SessionAnalysis.AnswersStay` | eval/src/runtime.rs:2428-2525 | a recorded model answer never changes, nor does the turn of a key |
| `SessionAnalysis.LostForGood` | eval/src/runtime.rs:2451-2465 | an analysis whose answer was lost to a restart never completes, never investigates and never calls Jev again |
| `SessionAnalysis.LostFailsAsUnknown` | eval/src/runtime.rs:2451-2465 | an analysis whose answer was lost, once its judging step is delivered however much later, has failed with the unknown outcome and stays so whatever is delivered after |
| `SessionAnalysis.TerminalStays` | eval/src/runtime.rs:2428-2525 | a record in a terminal status never changes again |
| `PendingInbox.OneFate` | approval-gate/src/pending.rs:64-90 | every record written has exactly one fate: its removal announced once, on its way to be, or left unsaid by a process that stopped; replaced by a follow-up, cleared as stale, lost to a late delete, or pending; and its creation is announced once, on its way to be, or missed |
| `PendingInbox.Conserved` | approval-gate/README.md:27-31 | the numbers of these fates add up to the records written, for removals and for creations |
| `PendingInbox.EntryExactly` | approval-gate/src/pending.rs:52-90 | the entry after each step, its record number and its content |
| `PendingInbox.TasksExactly` | approval-gate/src/functions/filesystem_access_watch.rs:119-230 | what each step leaves to be done, from the entry it sees |
| `PendingInbox.AnnouncedExactly` | approval-gate/src/functions/resolve.rs:76-122 | every record is announced as created, and as resolved unless it is pending, by an event that came or is on its way, if and only if no delete came late, no follow-up was written over a plain approval, no stale request was cleared and nobody stopped who still had an event to send |
| `PendingInbox.SilentExactly` | approval-gate/src/pending.rs:81-90 | an event went missing in one of these five ways if and only if a step of that kind occurred |
| `PendingInbox.QuietHoldsLoseNothing` | approval-gate/src/functions/gate.rs:92-158 | no entry written while a delete is still to come: nothing is lost to a late delete |
| `PendingInbox.HeldBetweenIsLost` | approval-gate/src/pending.rs:81-90 | a call held between swap and delete disappears unannounced |
| `PendingInbox.FollowUpIsSilent` | approval-gate/src/functions/filesystem_access_watch.rs:199-230 | the approved call asks for filesystem access next, and the plain approval is never announced as resolved |
| `PendingInbox.StaleIsSilent` | approval-gate/src/functions/filesystem_access_watch.rs:119-133 | the same call fails on another root, and the first request is cleared without a word |
| `PendingInbox.StopIsUnsaid` | approval-gate/src/pending.rs:76-90 | a process that stops between the swap and the delete leaves the record gone and unannounced |
| `PendingInbox.LateStopIsUnsaid` | approval-gate/src/functions/purge.rs:24-39 | and so does one that stops between the delete and the announcement |
| `PendingInbox.StopIsMissed` | approval-gate/src/functions/gate.rs:140-158 | a process that stops between the write and the announcement leaves a call pending that was never announced |
| `Summarizer.FittingPrefix` | context-manager/src/functions/summarize.rs:178-200 | the binary search finds the longest prefix on a character boundary that fits, or nothing |
| `Summarizer.Summarize` | context-manager/src/functions/summarize.rs:55-124 | at most 32 calls, each within budget, cut between characters and anchored in the answer before; a summary only when they consumed the whole history in order; a refusal for want of room only where no piece of what remains fits beside the last summary |
| `Summarizer.EarlyRefusalIsRight` | context-manager/src/functions/summarize.rs:126-161 | a history refused before the first call could not have been summarised by any sound sequence of 32 calls |
| `Summarizer.BoundaryExactly` | context-manager/src/functions/summarize.rs:178-200 | of every text in UTF-8, the places it may be cut are exactly those between two characters |
| `Summarizer.FitsExactly` | context-manager/src/functions/summarize.rs:163-176 | a request fits by its bytes: those of the system prompt and of the message as JSON writes it, four to a token, and sixty-four tokens more |
| `Summarizer.EscapedExactly` | context-manager/src/functions/summarize.rs:163-176 | the size counted for a text is the length of its JSON form |
| `Summarizer.JsonRoundTrip` | context-manager/src/functions/summarize.rs:163-176 | that form reads back as the text, for every text |
| `TailSelection.Select` | context-manager/src/core/selection.rs:89-163 | the tail begins at the oldest place within budget among the safe recent turns and the safe cuts of the first turn that does not fit, else at the newest safe turn, else at the newest cut; it is never empty and splits no call from its result in an uninterrupted history |
| `TailSelection.FitTail` | context-manager/src/core/selection.rs:165-191 | the earliest deeper cut whose tail fits, or the smallest tail that can be cut |
| `TailSelection.CutExactly` | context-manager/src/core/selection.rs:48-58 | the places to cut are exactly those behind the first message at an assistant message or at a user message without a result |
| `TailSelection.CutKeepsPairs` | context-manager/src/core/selection.rs:48-58 | where no call is awaited at any place to cut, a cut leaves every call on the side of its result |
| `TailSelection.SplitsExactly` | context-manager/src/core/selection.rs:48-58 | a cut separates a call from its result if and only if a call is awaited there and answered after |
| `TailSelection.PairsKeptExactly` | context-manager/src/core/selection.rs:1-9 | of the histories whose calls are all answered, every cut keeps calls with their results exactly in those where no call is awaited at a place to cut |
| `TailSelection.AssistantBetweenSplits` | context-manager/src/core/selection.rs:52-58 | an assistant message between a call and its result is a safe cut and separates them |
| `ContextAssembly.WithinExactly` | context-manager/src/functions/assemble.rs:280-636 | run by run: a call that is no preview answers a request above the window if and only if, after a relief, the provider counts it over the window and then stops answering just after a pass that took off what the count asked for and less than the estimate was above the window |
| `ContextAssembly.WindowExactly` | context-manager/src/functions/assemble.rs:464-531 | request by request: some answers of the provider to the recounts let a request through above the window if and only if it is counted again and a pass asked for one token more makes it smaller and leaves it above the window |
| `ContextAssembly.SlipNeeds` | context-manager/src/functions/assemble.rs:464-531 | a request that slips could be reduced again and is above the window when reduced by the least, whatever saturates |
| `ContextWorker.AcceptedAboveWindow` | context-manager/src/functions/assemble.rs:464-531 | with the texts the worker writes, for all ids, times and hashes: a request of one result of control characters is answered above the window |
| `ResultReference.ReferenceSizes` | context-manager/src/core/prune.rs:442-483 | the estimates of a reference and of a reference to it, from the widths of their previews and the digits of the sizes they quote: the second is smaller exactly where that arithmetic says so |
| `ResultReference.WideShrinks` | context-manager/src/core/prune.rs:442-483 | a result whose preview is wide once escaped twice shrinks again, whatever its ids are |
| `ResultReference.PlainStays` | context-manager/src/core/prune.rs:442-483 | a result of plain characters does not, unless its sizes are written nine digits longer |
| `ResultReference.WorkerFormatProper` | context-manager/src/core/prune.rs:458-476 | the worker's line is longer than a preview before it comes to its own and varies in length with the sizes and the preview only |
| `ResultReference.TwiceIs` | context-manager/src/core/estimate.rs:50-68 | escaping a text twice and counting its bytes comes to the widths of its characters |
| `ResultReference.PreviewExactly` | context-manager/src/core/prune.rs:528-540 | a preview is the whole text up to 160 characters, and else the first 160 and a mark |
| `ResultReference.EscapeExactly` | context-manager/src/core/estimate.rs:50-68 | each character is written as JSON writes its bytes |
| `ResultReference.DigitsExactly` | context-manager/src/core/prune.rs:458-476 | the sizes written in a reference read back as the numbers they are |
| `ContextSelection.AssembleSelecting` | context-manager/src/functions/assemble.rs:645-717 | a call that selects its own tail cuts at the place selected, and in an uninterrupted history no summarised call has its result in the answer |
| `ContextSelection.PreserveExactly` | context-manager/src/core/budget.rs:111-122 | the tail's budget is a quarter of the request's, between two and eight thousand tokens |
| `ContextSelection.AnswerIsTail` | context-manager/src/functions/assemble.rs:416-453 | the answer is the selected tail: roles, calls and results as the selection saw them |
| `ContextAssembly.WithinIfAnswered` | context-manager/README.md:87-93 | a provider that goes on answering recounts never lets a request above the window through |
| `ContextAssembly.WithinIfSpent` | context-manager/src/functions/assemble.rs:455-531 | a history that a pass asked for one token leaves as it is, is answered within the window |
| `ContextAssembly.AnswersTail` | context-manager/src/functions/assemble.rs:295-453 | what is answered is the view's suffix behind the summarised head, in order, each message keeping all but its results' content; it is not empty unless the view is, the tail's start is its place in the request, the count is the estimate of what is answered, and the tail is verbatim where no emergency pass is needed |
| `ContextAssembly.AnswersExactly` | context-manager/src/functions/assemble.rs:455-561 | a request is counted again if and only if the budget is below the window and the steps took something off, and refused if and only if it is over its last budget; one that fits as it is goes out as it is |
| `ContextAssembly.GateExactly` | context-manager/src/functions/assemble.rs:590-636 | the budget is the window, or where the provider counts more than the estimate the largest estimate it would count within the window at that rate; it is asked from a third of the window on |
| `ContextAssembly.PrunedExactly` | context-manager/src/functions/assemble.rs:393-414 | aged results are pruned if and only if the request is over the budget |
| `ContextAssembly.CompactedExactly` | context-manager/src/functions/assemble.rs:416-453 | a head is summarised away if and only if the request is still over it and the compaction comes to something |
| `ContextAssembly.RelievedExactly` | context-manager/src/functions/assemble.rs:455-462 | results are replaced by references if and only if it is over it even then, by as much as it is over |
| `ContextAssembly.SettleExactly` | context-manager/src/functions/assemble.rs:464-531 | the recounts go on while the provider counts over the window and each pass takes something off, for three passes at most, and with what budget they end |
| `ContextAssembly.LeftExactly` | context-manager/src/functions/assemble.rs:464-512 | each pass is asked for what the count is over the window |
| `ContextAssembly.ReducedFrees` | context-manager/src/core/prune.rs:338-440 | the emergency pass frees what it is asked for, or as much as it could have freed if asked for more |
| `ContextAssembly.LargestFirstIs` | context-manager/src/core/prune.rs:344-384 | it takes all the results, largest first |
| `ContextAssembly.PassOrder` | context-manager/src/core/prune.rs:344-384 | and of equally large ones the earlier first |
| `ContextAssembly.ReduceResults` | context-manager/src/core/prune.rs:389-440 | the loop computes that pass and keeps the memo of sizes equal to a recount |
| `ContextAssembly.Recount` | context-manager/src/functions/assemble.rs:464-512 | the recount loop computes the specified rounds and budget |
| `ContextAssembly.AssembleRequest` | context-manager/src/functions/assemble.rs:280-561 | the whole call computes the specified outcome |
| `Tournament.GroupsPartition` | judge-laya/src/client.rs:776-785 | the groups are the options in order, as few as can be, each of 1 to 16, sizes at most one apart |
| `Tournament.OneRound` | judge-laya/README.md:186-207 | up to 256 options one round is enough: one finalist and one row per group, the fewest groups that hold them |
| `Tournament.WinnersAre` | judge-laya/src/client.rs:726-735 | each group sends the option with the highest score of its row, the first of equals |
| `Tournament.FavouriteStays` | judge-laya/src/client.rs:662-697 | an option that scores highest in every row it is asked in reaches the final, however many rounds there are |
| `Tournament.PlayEnds` | judge-laya/src/client.rs:662-697 | a tournament of any size ends with 1 to 16 different finalists |
| `Tournament.AnswerIsDistribution` | judge-laya/src/client.rs:699-746 | the answer adds up to one, is zero on every eliminated option, nowhere negative, and on a finalist is its weight over the sum of the weights |
| `Tournament.TournamentAnswer` | judge-laya/src/client.rs:662-746 | whatever the rounds preferred, the tournament's answer is such a distribution over all its options |

## Left out

- Transport, SDK registration, timers and file formats: the engine is a scheduler that delivers, drops and repeats; clocks are numbers that arrive with each step.
- kanban: descriptions, assignees, priorities, pills, comments' contents, activity lines, ticket keys and search; references and statuses are given trimmed, ids stand for keys.
- KanbanPlan.ShipCloses: the order of the moved tickets in the answer is not modelled.
- kits: worker steps through Compose, downloads, integrity checks, expiry of plans and three-way merges; a merge result is a body the caller supplies.
- KitApply.RetryCompletes: every attempt makes the same decisions; `KitApply.RetryDecides` says what other decisions come to.
- KitOwnership.UniqueStep: applies are whole; how a crash in the middle of one loses a collision is not modelled.
- KitOwnership.DefaultsResolve: which contents merge cleanly, and to what, is given; the three-way merge itself is not modelled.
- database: SQL classification, native producers and the drivers; a transaction's writes are names, and each statement that runs changes rows.
- TxEvents.AnnouncedAreDurable: one transaction and its connection; transactions do not share either.
- NativeCapture.Revalidate: whether a table's install fails is fixed for the length of a reload.
- harness: cancellation of turns, notifying the parent, cleanup of a session's other records and the deadline; a busy session stops the erase loop.
- SessionTree.CompletedMeansGone: sessions are numbered in the order they are created, and ids are not reused.
- ide: processes, output capture and the limit on concurrent jobs; a live call asks all observers in one step.
- llm-router: prices, argument previews, idle budgets and the response envelope; whether a read times out is part of the input.
- cursor: session creation, the Bridge and cloud backends, and usage.
- CursorClaims.DispatchedOnce: modelled on values; each compare-and-set is one atomic step, and a process that is lost takes no further step.
- eval: admission, collection, validation of suggestions and costs.
- SessionAnalysis.OneTurn: the Harness's own record of the keys it has seen is taken to be kept.
- approval-gate: the permission decision and the payloads; one inbox key.
- PendingInbox.OneFate: an entry of the same kind written over by a racing put keeps its record number.
- context-manager: what capping, pruning and inline references write, and the lease; `ContextAssembly` takes estimates and references as arbitrary, `ContextWorker` as the worker computes them for results that carry one text.
- ContextAssembly.WindowExactly: the estimate is below the counters' limit and the request's overhead at most one above the window; `ContextAssembly.WithinExactly` has neither assumption.
- ContextAssembly.AnswersTail: the images media normalisation replaces are part of the view.
- Tournament.OneRound: the model's scores of a row are arbitrary; logits, temperatures and confidence are not modelled.
- JobEvents, SessionTree, SessionAnalysis, PendingInbox, CursorClaims and TxEvents keep their state as values stepped by functions, so aliasing between the worker's shared structures is not captured there.
- acp: dropping the state of a session the connection no longer owns.
