# JARVIS background coding work, verified

This project models the parts of JARVIS where a mistake is hardest to see in one function: the background coding-task
protocol of the daemon, how an agent run becomes a delivery verdict, and the loops of the command-line client that
render a run, decide approvals, export contacts, stop runs and fold evaluation attempts. Every statement is for all
inputs, all interleavings or all reachable states of the model. `dafny verify dfyconfig.toml` checks the whole project.

## The protocol

`Protocol.dfy` is a state machine. Its state holds the durable rows, the workers with their program counters and
histories, every manager's `cancellations` map, launches and stops in flight, the one-permit slot, the admission gate
with the operations it counts, the agents that workers own and the agents whose exit was never confirmed. A run is any
sequence of enabled steps: creations and replays of a launch call on any manager, launches that happen or are lost,
stops and their signals, stops of a whole run family, interrupts, restarts, shutdown reservations (gentle or forced),
abandoned and committed ones, polls that read or cannot read a row, and 36 moves of a worker. Each step is one SQL
statement or immediate transaction, one lock region, or one poll of a biased select in the source; a creation takes its
admission in one step and inserts its row in a later one, so a row may appear after the gate has shut.

`ProtocolInvariant.dfy` proves what each step keeps; `ProtocolTheorems.dfy`, `ProtocolStops.dfy`, `ProtocolProgress.dfy`,
`ProtocolShutdown.dfy`, `ProtocolProcesses.dfy` and `ProtocolNotes.dfy` derive the promises over whole runs, and where a
promise fails, exactly when. `ProtocolStories.dfy` writes out every way a worker's run can end, with what it did and
what it reports, and proves that every reachable report has such a story. `ProtocolRuns.dfy` builds the runs that this needs; `ProtocolChecks.dfy` ties the worker's
verification moves to the verification loop of `Delivery.dfy`.

Assumptions about what lies below: SQL statements and immediate transactions are atomic; an unopened connection that
is dropped by a stop takes its process tree with it, while one that is closed after a failed handshake or after a prompt
may fail to confirm the exit; a prompt ends as cancelled only by consuming the stop permit; task ids are fresh.

## What turned out not to hold

Each entry names the lemma with the failing input and the lemma with the exact condition.

- A shutdown does not stop a worker that is already admitted. The running mark looks at the row and not at the gate, so
  an agent can be spawned after the gate has shut: `ProtocolShutdown.AgentAfterShutdown`. For a coding task that was
  never marked running this is possible if and only if its row can still be marked and its worker is admitted with no
  stop waiting: `ProtocolShutdown.ShutdownWindow`. A shutdown reserved without force finds no such worker:
  `ProtocolTheorems.GentleShutdownIsIdle`.
- The slot bounds the agents that workers own, not agent processes. After one close that cannot confirm the exit, or one
  failed handshake whose cleanup fails, two processes can exist: `ProtocolProcesses.UnconfirmedExitBreaksTheBound`,
  `ProtocolProcesses.FailedHandshakeBreaksTheBound`. From any reachable state, confirmed exits can still lead there if and
  only if two earlier exits were not confirmed, or one was not and an agent can still be had, because the gate is not
  shut or a worker is near its agent: `ProtocolProcesses.ProcessBoundExactly`.
- The note that no coding agent or worktree was started can be wrong (`apps/jarvisd/src/code_delegate.rs:535`):
  `ProtocolNotes.NoteCanBeWrong`. A note of a stopped set-up is true if and only if the stop was not taken at the
  handshake of a run that works in place: `ProtocolNotes.NoteTruth`.
- Attending a run can end with `Ok` although its completion was not seen: `Attend.OkBeforeTheEnd`. The replayed stream
  skips only the approval just decided, so an older one earlier in the log stops the follower again. Over any number of
  rounds, attending sees the run complete if and only if the first decided log ends with the completion and names no
  other approval before it: `Attend.OkMeansCompletedExactly`.
- A confined path can lead outside the root when its first missing name is a link with a missing target:
  `Confinement.ConfinedCanLeadElsewhere`. The place that a confined path names is below the root if and only if that name
  is not a link to a place outside: `Confinement.ConfinedMeansInside`.
- A confined path can open something outside the root when a `..` in it goes back from a link:
  `Confinement.ConfinedOpensElsewhere`. The normalised form names what the system opens, at every prefix, if and only if
  every `..` goes back from a plain name, from a link to a neighbour, or where nothing exists anyway:
  `Confinement.LexicalParentsExactly`. For such paths confined means inside, `Confinement.ConfinedOpensInside`, and for
  new files under the condition above, `Confinement.ConfinedWritesInside`.
- Fenced pieces do not hold all accepted text, because isolation trims, drops characters and replaces the fence token:
  `Fence.AcceptedTextIsCut`. When every chunk is accepted, they hold the whole text if and only if every chunk is clean:
  `Fence.AcceptedKeptExactlyWhenClean`. Without the token, everything that is seen survives: `Fence.SeenTextSurvives`.
- Isolation replaces the fence token by a space, which is itself allowed inside a token, so a body can hold a token
  again: `Isolation.TokenCanReappear`. A token in a body always runs over such a space:
  `Isolation.TokenRunsOverReplaced`. A text without the token has a body without it: `Isolation.TokenFreeBody`.
- The count printed with a failed evaluation check is not always a number of attempts:
  `Evaluation.CountCanExceedAttempts`. It is if and only if no attempt has that failure twice:
  `Evaluation.CountIsAttemptsExactly`.
- The activity flag can be off with text missing: `StatusReport.UnlimitedViewCanLoseText`. With the flag off the whole
  text is shown if and only if isolation changes no summary: `StatusReport.UnlimitedViewShowsAll`.
- Shrinking keeps a verdict exactly when there are at most 16 checks and the labels have at most 80 characters, or
  nothing needs shrinking: `StatusReport.BoundedKeepsVerdict`, `StatusReport.CompactKeepsVerdict`. Results of this daemon
  meet that, but a recorded stop rewrites the stored outcome, so a result can say both `cancelled` and `checks_passed`:
  `StatusReport.StoppedButChecksPassed`. `StatusReport.StoreAndShow` has the exact condition.
- Defusing formulas in the CSV export is not injective: `Csv.DefusingIsNotInjective`, and exactly how much is lost:
  `Csv.EqualPrintsAreNearlyEqual`.

## Model

| member | source | states |
|---|---|---|
| ProtocolInvariant.InvKept | apps/jarvisd/src/code_delegate_async.rs:158-554 | every step of the whole system keeps the invariant: histories in order, evidence behind reports, one slot holder, exact gate count, one row per call, stops on every stopped family |
| ProtocolTheorems.ReachableInv | apps/jarvisd/src/code_delegate_async.rs:158-554 | the invariant holds in every state reachable from an empty daemon |
| ProtocolTheorems.ExactlyOnceDispatch | apps/jarvisd/src/code_delegate_async.rs:158-206 | over any concurrent or replayed launches with one call id: a reply names an existing row of that call, one row, one id in all replies, at most one worker ever launched |
| ProtocolTheorems.CreationRecords | crates/jarvis-storage/src/delegated_task_repository.rs:204-213 | a creation adds one row, queued and unstopped, with the given request, call and parent, and changes no other |
| ProtocolTheorems.DispatchAnswers | apps/jarvisd/src/code_delegate_async.rs:195-206 | a launch answers its call with the task id, and so does every replay with the same request |
| ProtocolTheorems.SpawnIsGuarded | apps/jarvisd/src/code_delegate_async.rs:515-543 | an agent is spawned only by a worker that itself moved the row to running, for the first time, holding slot and admission |
| ProtocolTheorems.MarkIsGuarded | crates/jarvis-storage/src/delegated_task_repository.rs:369-382 | a row moves to running only while queued and unstopped, by the only worker of that row, which holds slot and admission |
| ProtocolTheorems.MutualExclusion | apps/jarvisd/src/code_delegate.rs:382-388 | in every reachable state at most one agent is owned, by the admitted slot holder; an agent owned by nobody comes from a close or failed handshake without a confirmed exit, or from a lost daemon |
| ProtocolTheorems.GentleShutdownIsIdle | crates/jarvis-core/src/work_admission.rs:96-113 | once a shutdown was reserved without force, no agent is live and no worker can spawn or be admitted |
| ProtocolTheorems.StoppedBeforeRunningNeverSpawns | apps/jarvisd/src/code_delegate_async.rs:491-554 | from every reachable state in which a row is barred, no continuation spawns an agent for it, and it never becomes running or completed |
| ProtocolTheorems.StopBeforeRunningWins | apps/jarvisd/src/code_delegate_async.rs:491-554 | a stop, family stop, interrupt or restart before the running mark rules out every agent in every continuation |
| ProtocolTheorems.ParentStopBars | crates/jarvis-storage/src/delegated_task_repository.rs:242-249 | after a parent stop no new coding task joins the family, and an agent of the family exists later only if its row was marked before |
| ProtocolShutdown.ShutdownWindow | apps/jarvisd/src/code_delegate_async.rs:504-535 | after the gate shuts, an agent can still be spawned for a never-marked coding task if and only if its row can be marked and its worker is admitted with no stop waiting |
| ProtocolShutdown.AgentAfterShutdown | apps/jarvisd/src/code_delegate_async.rs:504-543 | a reachable state with the gate shut before its agent was spawned |
| ProtocolShutdown.ShutdownFreezes | crates/jarvis-core/src/work_admission.rs:78-113 | from a reserved or committed shutdown on, no run admits anything, and once other operations have drained no coding task is created |
| ProtocolShutdown.GatePhases | crates/jarvis-core/src/work_admission.rs:96-161 | when a shutdown can be reserved or abandoned, and the gate after each, a commit included |
| ProtocolStops.CheckpointTakesStop | apps/jarvisd/src/code_delegate.rs:701-710 | with a permit waiting at the queue, either setup check, the handshake or before a check, the only enabled branch consumes it and answers `cancelled` |
| ProtocolStops.MutedRun | apps/jarvisd/src/code_delegate.rs:467-562 | from a permit on, over every run: no checkpoint passed, moves bounded by the distance to the end, no spawn unless the second setup check was behind |
| ProtocolStops.NoLostCancellation | apps/jarvisd/src/code_delegate_async.rs:460-489 | one poll after a recorded stop or an unreadable row, in every continuation: no checkpoint passed, at most nine more moves, no spawn unless already cleared |
| ProtocolStops.ConsumedMeansReturning | apps/jarvisd/src/code_delegate.rs:467-535 | in every reachable state a worker that consumed its permit is closing, releasing or recording |
| ProtocolStops.NoSpuriousCancellation | apps/jarvisd/src/code_delegate_async.rs:477-535 | a permit has a durable request or unreadable row behind it; a cancelled result or stored `cancelled` has one of those or the shutdown gate |
| ProtocolStops.QuietRunsNeverCancel | apps/jarvisd/src/code_delegate_async.rs:338-362 | a whole run without stops, shutdown or unreadable rows stores no `cancelled`, reports none and consumes no permit |
| ProtocolStops.HonestCompletion | apps/jarvisd/src/code_delegate.rs:549-562 | a stored `completed` implies that its own worker marked, spawned, saw the turn end, closed cleanly, chose the checks and saw each of them pass, and met no missing script and no stop |
| ProtocolStops.ChecksPassedIsEarned | apps/jarvisd/src/code_delegate.rs:712-761 | a result that says `checks_passed` implies all of that, and that every chosen check, at least one, ran and passed |
| ProtocolStops.StoredStopsLast | crates/jarvis-storage/src/delegated_task_repository.rs:394-422 | over every run a recorded stop stays, never ends as completed or interrupted, and a finished row never changes |
| ProtocolStories.EveryWorkerOnPath | apps/jarvisd/src/code_delegate_async.rs:491-554 | in every reachable state each worker has done exactly the moves that lie before its place, all of them and no other |
| ProtocolStories.EveryReportHasAStory | apps/jarvisd/src/code_delegate.rs:461-620 | every reachable report has one of eighteen stories: the worker did exactly what the story tells and reports exactly what it says |
| ProtocolStories.StoredExactly | apps/jarvisd/src/code_delegate_async.rs:219-238 | a final write on a row that nothing else ended stores `completed` if and only if the whole of a checked run was done and no stop is recorded, `cancelled` if and only if nothing went wrong and it was stopped or a stop is recorded, `failed` otherwise |
| ProtocolStories.FallbackStoresFailed | apps/jarvisd/src/code_delegate_async.rs:242-261 | the fallback for a result that could not be saved stores `failed` |
| ProtocolStories.CompletedIsStored | apps/jarvisd/src/code_delegate_async.rs:219-238 | with and without a worktree and for any number of checks, some run stores `completed` |
| ProtocolProgress.SignalledStopIsNotLost | apps/jarvisd/src/code_delegate_async.rs:338-362 | a stop signalled by the launching manager works without a poll: no checkpoint passed afterwards, at most nine more moves |
| ProtocolProgress.StopIsRecorded | apps/jarvisd/src/code_delegate_async.rs:338-355 | a stop is taken exactly on an unfinished coding task, is on record at once, changes nothing else, and can then be signalled |
| ProtocolProgress.RegisteredWorker | apps/jarvisd/src/code_delegate_async.rs:207-212 | until a worker ends, the launching manager's entry and no other leads to it |
| ProtocolProgress.UnregisteredWorker | apps/jarvisd/src/code_delegate_async.rs:239-241 | a worker that removed its entry, or whose daemon is gone, is in no manager's map |
| ProtocolProgress.OnlyTheSlotBlocks | apps/jarvisd/src/code_delegate.rs:701-710 | a worker has no move exactly when it has ended or waits, unstopped, for a slot that is taken |
| ProtocolProgress.NoDeadlock | apps/jarvisd/src/code_delegate_async.rs:491-554 | while a worker is unfinished some worker can move, and a stopped worker can always move itself |
| ProtocolProcesses.AtMostOneProcess | apps/jarvisd/src/code_delegate.rs:382-388 | from a reachable state with every exit confirmed, clean continuations have at most one agent process, the slot holder's |
| ProtocolProcesses.ProcessesExactly | apps/jarvisd/src/code_delegate.rs:498-549 | in every reachable state, also after restarts, the agent processes are exactly those of the workers that spawned one and know of no exit |
| ProtocolProcesses.ProcessBoundExactly | apps/jarvisd/src/code_delegate.rs:498-562 | from every reachable state, a clean continuation reaches two processes if and only if two exits were left unconfirmed, or one was and the gate is not shut or a worker is near its agent |
| ProtocolProcesses.UnconfirmedExitBreaksTheBound | apps/jarvisd/src/code_delegate.rs:554-556 | a reachable state with two agent processes after a close without a confirmed exit |
| ProtocolProcesses.FailedHandshakeBreaksTheBound | crates/jarvis-runtimes/src/acp.rs:457-477 | the same after a failed handshake whose cleanup fails |
| ProtocolNotes.NoteTruth | apps/jarvisd/src/code_delegate.rs:606-620 | in every reachable state the note of a stopped set-up is true if and only if the stop was not taken at an in-place handshake |
| ProtocolNotes.NoteCanBeWrong | apps/jarvisd/src/code_delegate.rs:527-536 | a reachable state whose note says that nothing was started although an agent was |
| ProtocolChecks.MovesRefineVerify | apps/jarvisd/src/code_delegate.rs:730-760 | over all runs of the whole system, the results that a worker can report after choosing its checks are exactly those that the verification loop computes from some events for that many checks |
| ProtocolChecks.FinishedTurnReports | apps/jarvisd/src/code_delegate.rs:549-559 | from the end of a finished turn, the reports that can follow are exactly those of the loop on some events and the three of a run that never got to its checks |
| ProtocolChecks.FinishedTurnIsVerified | apps/jarvisd/src/code_delegate.rs:557-559 | from every finished turn, every sequence of check events is one that can follow and be reported |
| TaskTable.RowHistory | crates/jarvis-storage/src/delegated_task_repository.rs:217-431 | over any sequence of writes: finished rows are fixed, recorded stops stay, and lineage and request never change |
| TaskTable.StoredStatus | crates/jarvis-storage/src/delegated_task_repository.rs:394-422 | exactly when a finished run is stored as completed or cancelled, and with which outcome: a stop beats success, an error or failed cleanup beats a stop |
| Delivery.ParseChecks | apps/jarvisd/src/code_delegate.rs:152-177 | a list of checks is let through, unchanged, exactly when it is missing or has at most 16 checks that all parse, and none without commands |
| Delivery.Verify | apps/jarvisd/src/code_delegate.rs:712-761 | the check loop refuses, fails, is cancelled or passes exactly by what the first non-passing check met; each check that ran is reported with its own body, and as passed exactly for exit code 0, a completed run, no reported failure and a complete capture |
| Delivery.FinishRun | apps/jarvisd/src/code_delegate.rs:549-580 | every outcome and delivery status as an equivalence with the ending, the cleanup, the scripts and the checks; `checks_passed` means that every command asked for ran in order and passed, or, when none was asked for, each of the three known scripts of the project once |
| StatusReport.BoundedKeepsVerdict | apps/jarvisd/src/code_delegate_async.rs:448-458 | shrinking for storage keeps outcome, delivery, verification and every passed flag if and only if the result fits or has at most 16 checks; browser verification never becomes true |
| StatusReport.BoundedKeepsPlace | apps/jarvisd/src/code_delegate_async.rs:448-458 | an oversized result keeps directory, mode, branch, worktree, and each kept check's command, and declares the rest omitted |
| StatusReport.CompactKeepsVerdict | apps/jarvisd/src/code_delegate_async.rs:662-675 | compacting keeps the verdict if and only if the labels are short and there are at most 16 checks |
| StatusReport.CompactedChecks | apps/jarvisd/src/code_delegate_async.rs:662-675 | each compacted check says its index, verdict, number of reported failures and exit code, and the number of issues is kept |
| StatusReport.CompactStatus | apps/jarvisd/src/code_delegate_async.rs:658-685 | a fitting view is untouched; otherwise identity and status stay, details are declared omitted, and the verdict is kept exactly under that condition |
| StatusReport.StoreAndShow | apps/jarvisd/src/code_delegate_async.rs:433-458 | for results of accepted requests, storing and showing keeps delivery, verification and check verdicts, and the outcome if and only if no stop was recorded or it was already `cancelled` or `cleanup_failed` |
| StatusReport.StoppedButChecksPassed | crates/jarvis-storage/src/delegated_task_repository.rs:408-416 | a stop recorded on a run whose checks passed stores `cancelled` beside `checks_passed` |
| StatusReport.Words | apps/jarvisd/src/code_delegate.rs:565-575 | the words for each outcome, delivery status and verification status |
| StatusReport.ActivityFlagIsExact | apps/jarvisd/src/code_delegate_async.rs:603-622 | with numbering from 1, the flag is off exactly for entries 1..n, n at least the reported count, and no dropped note |
| StatusReport.RenderActivity | apps/jarvisd/src/code_delegate_async.rs:629-653 | the model sees the last four entries, each isolated from its first 600 characters, and the flag rises exactly when the record was incomplete or an entry or text was cut |
| StatusReport.UnlimitedViewShowsAll | apps/jarvisd/src/code_delegate_async.rs:637-653 | with the flag off no entry is left out, and the whole text is shown if and only if isolation changes no summary |
| StatusReport.UnlimitedViewCanLoseText | apps/jarvisd/src/code_delegate_async.rs:643-651 | a record with the flag off whose text is not all shown |
| Isolation.UnchangedExactlyWhenClean | crates/jarvis-core/src/isolation.rs:125-176 | isolation leaves a text unchanged if and only if it is not empty or too long, has only characters that stay, no white space at its ends and no fence token |
| Isolation.IsolatedExactly | crates/jarvis-core/src/isolation.rs:125-176 | the body is the trimmed text that stays with every token, found from left to right, replaced by a space; refused exactly when that is longer than 4096 characters or shows nothing |
| Isolation.TokenLengthExactly | crates/jarvis-core/src/isolation.rs:297-324 | a token of that length starts a text if and only if those characters spell it, separators aside and in any case |
| Isolation.TokenRunsOverReplaced | crates/jarvis-core/src/isolation.rs:267-291 | a token in a body always runs over a space that replaced another token |
| Isolation.BodyCharacters | crates/jarvis-core/src/isolation.rs:128-145 | no control or format character but newline and tab is left in a body |
| Isolation.NothingSeenIsLost | crates/jarvis-core/src/isolation.rs:125-176 | of a text of bounded length without the token, isolation keeps every character that is seen and refuses only what shows nothing |
| Isolation.TokenMeansContained | crates/jarvis-core/src/isolation.rs:258-332 | a token that the replacing scan would match is always found by the comparison that guards the scan |
| Isolation.TokenFreeBody | crates/jarvis-core/src/isolation.rs:153-161 | a text without the token, in any spelling, has a body without it |
| Isolation.TokenCanReappear | crates/jarvis-core/src/isolation.rs:267-291 | texts whose body holds a token again |
| Fence.FencedPieces | apps/jarvisd/src/code_delegate.rs:765-787 | the chunking and shrinking loops end for every text and every fence and yield the bodies of the accepted slices in order |
| Fence.TextConserved | apps/jarvisd/src/code_delegate.rs:765-787 | for every fence, kept and skipped slices in order are the input; a skipped slice was refused and has at most 200 characters |
| Fence.LostExactlyWhenUnclean | apps/jarvisd/src/code_delegate.rs:775-783 | for every text, the pieces concatenate to it if and only if no slice was skipped and isolation changes none |
| Fence.AcceptedKeptExactlyWhenClean | apps/jarvisd/src/code_delegate.rs:768-783 | when every chunk is accepted, the pieces concatenate to the text if and only if every chunk is clean |
| Fence.NothingLost | apps/jarvisd/src/code_delegate.rs:768-780 | when every chunk is clean nothing is lost |
| Fence.AcceptedTextIsCut | apps/jarvisd/src/code_delegate.rs:775-780 | texts that are accepted whole and still lose characters |
| Fence.SeenTextSurvives | apps/jarvisd/src/code_delegate.rs:765-787 | of any text without the fence token, the pieces hold every character that is seen, in order |
| Confinement.Normalise | apps/jarvisd/src/code_delegate.rs:258-269 | a written path is refused exactly when some prefix of it climbs above the top; otherwise the result is as deep as the components say |
| Confinement.Confined | apps/jarvisd/src/code_delegate.rs:253-281 | true exactly for an absolute, normalisable path whose longest existing ancestor really lies at or below the root; a link with a missing target does not exist |
| Confinement.ConfinedMeansInside | apps/jarvisd/src/code_delegate.rs:251-281 | the place that a confined path names in its normalised form is below the root if and only if its first missing name is not a link to a place outside; for a form that exists, confined means inside |
| Confinement.ConfinedCanLeadElsewhere | apps/jarvisd/src/code_delegate.rs:270-275 | a file system and a confined path that leads outside |
| Confinement.LexicalParentsExactly | apps/jarvisd/src/code_delegate.rs:258-269 | the normalised form names what the system opens, at every prefix, if and only if every `..` goes back from a plain name, from a link to a neighbour, or where nothing exists |
| Confinement.ConfinedOpensInside | apps/jarvisd/src/code_delegate.rs:253-281 | for such absolute paths that can be opened, confined means that what is opened is below the root |
| Confinement.ConfinedWritesInside | apps/jarvisd/src/code_delegate.rs:253-281 | for such absolute paths whose last name may be new, a confined one opens or creates below the root if and only if its first missing name is not a link to a place outside |
| Confinement.ConfinedOpensElsewhere | apps/jarvisd/src/code_delegate.rs:258-274 | a confined path with `..` behind a link that opens something outside the root |
| Confinement.Verdict | apps/jarvisd/src/code_delegate.rs:210-249 | thinking is allowed, a change exactly when it names a path and all are confined, reads when all are confined; commands and network follow the settings; unknown kinds are refused |
| RunStream.ConsumeTurn | apps/jarvis-cli/src/chat.rs:260-432 | the loop stops at the first stopping frame, prints exactly the deltas before it, and each status is tied to its frame: completed, failed, cancelled, parked, or the error that was met |
| RunStream.ErrorStatusExactly | apps/jarvis-cli/src/output.rs:48-63 | which error codes give which status, both ways |
| RunStream.FollowStopsAtOthers | apps/jarvis-cli/src/chat.rs:357-374 | following never stops at the decided approval and stops no later than the first other named one or other stopping frame |
| RunStream.FollowReachesTheEnd | apps/jarvis-cli/src/chat.rs:239-253 | following reaches the frame that ends the stream anyway if and only if no other approval is named before it |
| RunStream.FollowAfterEarliest | apps/jarvis-cli/src/approvals.rs:192-218 | when the decided approval is the earliest, following stops at the next held action or at the end |
| Attend.OnlyYesIsYes | apps/jarvis-cli/src/approvals.rs:269-277 | an answer is yes if and only if it is `y` or `yes`, in any capitalisation, between white space |
| Text.WhiteListed | apps/jarvis-cli/src/approvals.rs:276 | the white space that is trimmed, by its code points |
| Attend.FollowRun | apps/jarvis-cli/src/chat.rs:239-253 | parked exactly when the replay's first stop names another approval, `Ok` exactly when it is the completion |
| Attend.AttendRun | apps/jarvis-cli/src/approvals.rs:228-266 | each decision is on the first listed approval whose run is the attended one and which is pending, approves exactly if its arguments were held and the answer was yes, and the final status is characterised for every sequence of replies and errors |
| Attend.NothingDecidedTwice | apps/jarvis-cli/src/approvals.rs:228-266 | if the daemon stops listing decided approvals as pending, no approval is decided twice |
| Attend.FollowedByLog | apps/jarvis-cli/src/approvals.rs:192-218 | following settles or parks exactly as the log says: by what it names before its end and by how it ends |
| Attend.LaterFollowsNeverSettle | apps/jarvis-cli/src/approvals.rs:228-266 | from the second distinct decision on, a log that names the earlier ones is never followed to the end of the run |
| Attend.GrowingLogsAnnounce | apps/jarvis-cli/src/chat.rs:239-253 | append-only logs that name an approval before it is decided name all decided ones |
| Attend.OkMeansCompletedExactly | apps/jarvis-cli/src/approvals.rs:228-266 | over any number of rounds, attending sees the completion if and only if the first decided log ends with it and names no other approval before; after a second decision `Ok` means only that nothing waits |
| Attend.OkBeforeTheEnd | apps/jarvis-cli/src/approvals.rs:228-266 | three rounds that end with `Ok` although no follow reached the logged completion |
| Csv.FieldRoundTrip | apps/jarvis-cli/src/contacts.rs:193-204 | a reader after section 2 of RFC 4180 recovers each printed field, up to the defusing mark |
| Csv.RoundTrip | apps/jarvis-cli/src/contacts.rs:207-227 | and the header and one nine-field row per contact |
| Csv.DefusedRowAt | apps/jarvis-cli/src/contacts.rs:193-204 | each recovered field is the original, or the original behind one quote mark when it began a formula; none begins a formula |
| Csv.QuotedExactly | apps/jarvis-cli/src/contacts.rs:193-204 | a field is quoted exactly when it holds a comma, a quote or a line end, and printed as it stands otherwise |
| Csv.ColumnsMatch | apps/jarvis-cli/src/contacts.rs:207-221 | each contact field stands in the column of its name |
| Csv.DefusingIsNotInjective | apps/jarvis-cli/src/contacts.rs:193-204 | two different texts print alike |
| Csv.EqualPrintsAreNearlyEqual | apps/jarvis-cli/src/contacts.rs:193-204 | that is the only way in which two texts print alike |
| Csv.ToCsv | apps/jarvis-cli/src/contacts.rs:207-227 | the appending loop writes a text that the reader reads back as the expected table |
| CancelAll.CancelAllCoversOnce | apps/jarvis-cli/src/cancel.rs:25-43 | with unique ids and acyclic parents every unfinished run reaches exactly one chosen run, no chosen run has an unfinished listed parent, and none is asked twice |
| CancelAll.PrefixMustBeUnambiguous | apps/jarvis-cli/src/cancel.rs:44-60 | a typed prefix chooses a run if and only if exactly one listed run starts with it |
| CancelAll.OneNameOneRun | apps/jarvis-cli/src/cancel.rs:44-60 | without `--all` a choice is made if and only if a text was typed and exactly one listed run starts with it, and it is that one run; a bare cancel chooses nothing |
| Paging.ReadPage | crates/jarvis-storage/src/memory_browse_repository.rs:66-99 | reading in batches of 128 yields the first `limit` eligible rows after the cursor |
| Paging.Browse | apps/jarvisd/src/memory_discovery.rs:29-44 | a page holds at most the limit, its cursor exists exactly when rows remain, and the next view is exactly those rows; bad limits and unknown cursors are refused |
| Paging.BrowseAll | apps/jarvisd/src/memory_discovery.rs:29-44 | repeating with each cursor ends, all pages but the last are full, and the pages concatenate to the filtered list |
| Paging.ViewIsTheFilteredList | crates/jarvis-storage/src/memory_browse_repository.rs:67-98 | that list is the selected, eligible rows, each once, in listing order |
| Evaluation.RecordCase | apps/jarvis-cli/src/eval.rs:328-383 | a case passes exactly when there was an attempt and no check failed; failures are tallied exactly and printed once each, tools collected once, means taken, and the answer shown is that of the first failed attempt or the last |
| Evaluation.PrintedApart | apps/jarvis-cli/src/eval.rs:369-378 | different failures stay different in print |
| Evaluation.PrintedReads | apps/jarvis-cli/src/eval.rs:369-378 | a printed failure is its text, and over several attempts its count and their number in decimals that read back |
| Evaluation.FlatWord | apps/jarvis-cli/src/eval.rs:590-593 | word by word, the answer head keeps each word and turns the white space behind it into one space |
| Evaluation.CountIsAttemptsExactly | apps/jarvis-cli/src/eval.rs:343-353 | the count of a failure is the number of attempts that had it if and only if no attempt had it twice |
| Evaluation.CountCanExceedAttempts | apps/jarvis-cli/src/eval.rs:369-378 | two attempts with a count of four |
| Evaluation.Compare | apps/jarvis-cli/src/eval.rs:415-430 | the three lists are the cases with that verdict against the first earlier record, in order |
| Evaluation.VerdictByFlags | apps/jarvis-cli/src/eval.rs:417-427 | new, regressed and fixed, by the two `passed` flags of a case and of the first earlier case with its id |
| Evaluation.ComparisonPartitions | apps/jarvis-cli/src/eval.rs:415-430 | the four groups account for every current case |
| Evaluation.OneGroupEach | apps/jarvis-cli/src/eval.rs:415-430 | with unique ids a case is listed in its own group and in no other |
| Capture.ReadBounded | apps/jarvisd/src/code_run.rs:355-374 | exactly the first 65,536 bytes are kept and a cut is reported exactly when more arrived |
| Capture.ChunkingDoesNotMatter | apps/jarvisd/src/code_run.rs:355-374 | splitting a read changes nothing that is captured |

## Left out

- The HTTP client, the routes, SQLite, the agent connection and process trees: they appear only as replies, atomic row writes and the contracts named above.
- `CodeDelegateTool::execute` called directly: it does not take the slot, so mutual exclusion covers coding tasks that a manager launched.
- Resuming a stored coding task: it dispatches like a start, and only its wording of the brief differs.
- Timers, poll intervals and fairness: a stop is stated as effective after a poll or a signal, and progress as the existence of a move.
- The protocol's verification moves omit a check command that does not parse, which argument parsing already excludes; `Delivery.Verify` includes it. A closed semaphore and a poisoned map lock at removal are omitted too.
- File systems: a link carries the place that it finally leads to, so chains and loops of links are not modelled; neither are Windows path prefixes and case-insensitive comparison.
- Isolation: the fence token is any text of at least two characters that the comparison does not skip, of which the daemon's is one; the two fixed markers around a body are left out.
- Refusal wording, hints, summaries, display of states and other text.
- JSON sizes: the stored size and the fit for the model are parameters.
- Paging: parsing of the type and entity filters and of cursor ids; the SQL filter and the eligibility rule are two flags on a row.
- Evaluation: building the checks of one observation, event summaries and rendering, and 32-bit and 64-bit overflow of counts and sums.
- Identifiers of coding tasks, calls and runs are numbers in the protocol; a restart is modelled as one step that also settles unfinished rows.
- Flag parsers, set-up, service installation, settings, agent presets and tool definitions: wording and many easy members.
