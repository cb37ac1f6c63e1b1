# anti_subagent, modelled and proved in Dafny

A model of the logic at the core of the anti_subagent daemon and its libraries, with
machine-checked proofs of what that logic guarantees and, where it does not deliver what
its comments say, of exactly when it does.

| file | models |
|---|---|
| `dag.dfy`, `schedule.dfy` | the task graph, its cycle check, and wave scheduling (`scheduler.rs`) |
| `work.dfy` | work-item states, the transition table and the item object (`work.rs`) |
| `daemon.dfy` | the stored rows and the submit, review, verify and report handlers (`store.rs`, `main.rs`, `report.rs`) |
| `recovery.dfy` | restart recovery (`recovery.rs`) |
| `protocol.dfy` | whole runs of handlers, restarts and agent changes, and the theorems about them |
| `eventlog.dfy` | `append_event` and `open` as micro-steps under failures and crashes (`store.rs`) |
| `timeline.dfy` | the two timeline projection passes (`timeline_projection.rs`) |
| `lease.dfy` | the authority lease and its clients against a clock (`authority.rs`) |
| `loopprev.dfy` | the reject window and the escalation trigger (`loopprev.rs`) |
| `signtest.dfy` | the exact sign test of the benchmark (`anti-bench/src/main.rs`) |
| `sidechain.dfy` | provider-native subagent tracking (`subagent_tracker.rs`) |
| `eventbus.dfy` | agent-keyed event delivery (`event_bus.rs`) |
| `options.dfy`, `sequences.dfy` | the shared optional value, and lists without duplicates |

Objects the source updates in place are classes here (`DagGraph`, `Scheduler`, `WorkItem`,
`Store`, `EventStore`, `AuthorityLease`, `LoopPrevention`, `SidechainTracker`, `Bus`); each
method is proved against a function or predicate on values, and the theorems are about
those. Hash maps are iterated in an arbitrary order everywhere, so nothing proved depends
on one. What the outside world decides is a parameter: whether a write is accepted, how a
command exits, whether a commit exists, which processes run, what time it is. One handler
call is one step because every handler runs while the daemon holds its one store lock
(`crates/anti-daemon/src/main.rs:535-539`), the cargo commands of a verify request included,
although the comment beside them says that no lock is held.

## What the proofs found

- **Scheduling is Graham scheduling.** With cap m the waves number at most floor(s/m) + L for
  s scheduled tasks and longest dependency chain L, and at most 2 - 1/m times those of any
  feasible schedule of the same tasks. What is left over is exactly what depends on a cycle
  or on an unregistered task, whatever the iteration order.
- **Accepted means verified, but not of the accepted evidence.** An accepted item went from
  Submitted through one passing verify and stayed Verified until it was accepted. A completed
  report may replace its evidence at any time after the verify, though; the evidence accepted
  is the evidence verified exactly when the last such report brought the same one. A `named:`
  profile has no commands and always passes.
- **Reports need an agent called cli.** The daemon files every item it creates under the peer
  "cli", and ids of agents are chosen by whoever spawns them. So in a store that started empty
  a completed report can be stored exactly while an agent of that very id has a workspace. The
  runs given for what reports can do wrong all start there. A report may also claim a state
  that is not the stored one; exactly when is proved.
- **Failed does not survive a read.** It reads back as Pending, and a completed report then
  stores Pending. It is a dead end all the same: an item can still be accepted exactly while it
  is unknown, InProgress, Submitted, Verified or NeedsRevision.
- **Rework cannot be reported.** `report.rs:107` announces NeedsRevision to Submitted, which
  is not in the transition table: the call stores the new evidence, then answers an error.
  Recovery announces InProgress to NeedsRevision, which is not in the table either: only
  Submitted items of dead peers move.
- **An acknowledged review may be lost.** A failed write is ignored and Ok is answered.
- **A failed liveness query is read backwards.** The fallback negates the pid check, so such
  an agent is marked Crashed exactly when its process exists. And recovery does not come back
  to an item whose own write was lost once its peer is marked Crashed.
- **Events.** Acknowledged numbers strictly increase through any crash, and every SQL row has
  its object and newline in the file first. The numbers in the file may repeat: they stay
  unique exactly when each reopening finds no number in the file above those in SQL. An object
  is alone on its line exactly when no line was torn since the newline before it; over any run
  at most as many objects, and as many SQL rows, are affected as lines were torn.
- **Leases.** Exclusion holds from any point on, for as long as checks are not ahead of the
  clock and the clock does not go back, exactly when every live grant then belongs to the owner
  of a lease that is not stale. Only an early check or a clock set back can end that, and both
  do so in exactly known cases.
- **The loop window moves on rejects only.** The documented reset as the window slides is not
  there: silence never changes the count, and after a firing the trigger fires again from 600
  seconds on without any further reject. Firings are 600 s apart even if the clock jumps.
- **The sign test** reports the exact two-sided p-value exactly when the counts differ; on a
  draw it reports more than 1. Fewer than six decisive pairs are never significant.
- **Subagents.** A failed call under Codex or OpenCode does not end its subagent: it stays
  active, unreported, unless the same id is completed later.

## Model

| member | source | states |
|---|---|---|
| Dag.DagGraph.AddTask | crates/anti-daemon/src/scheduler.rs:26-34 | registration replaces the task's dependencies and adds one reverse edge per dependency; the reverse map never misses an edge, and stays exact just when a re-registration drops none |
| Dag.DagGraph.ReadyTasks | crates/anti-daemon/src/scheduler.rs:37-46 | returns, without repetition and in any order, exactly the registered tasks not completed whose dependencies all are |
| Dag.Dfs | crates/anti-daemon/src/scheduler.rs:53-76 | the search answers true only for a cyclic graph; answering false it restores the stack and leaves a dependency-closed set of cycle-free nodes that holds its node; it terminates over the unvisited nodes |
| Dag.DagGraph.HasCycle | crates/anti-daemon/src/scheduler.rs:49-84 | true if and only if some registered task has a non-empty dependency path to itself, for any key order |
| Scheduling.Scheduler.BuildSchedule | crates/anti-daemon/src/scheduler.rs:146-188 | terminates for every graph and cap with greedy waves, each min(cap, ready) of the ready tasks, run until nothing is ready; unscheduled lists the rest once each |
| Scheduling.ScheduleIsSafe | crates/anti-daemon/src/scheduler.rs:146-188 | every registered task is in exactly one wave or in unscheduled; waves are non-empty and within the cap; dependencies run in strictly earlier waves |
| Scheduling.StuckNeverRuns | crates/anti-daemon/src/scheduler.rs:36-46 | no feasible schedule of any kind runs a task that depends on a cycle or on an unregistered task |
| Scheduling.UnscheduledIsStuck | crates/anti-daemon/src/scheduler.rs:174-179 | with cap at least 1, unscheduled is exactly the registered tasks that depend on a cycle or on an unregistered task |
| Scheduling.AllScheduledIff | crates/anti-daemon/src/scheduler.rs:49-188 | with cap at least 1, everything is scheduled if and only if the graph is acyclic and all dependencies are registered |
| Scheduling.GreedyIsMaximal | crates/anti-daemon/src/scheduler.rs:146-188 | no feasible schedule under any cap runs a task the greedy one leaves out |
| Scheduling.ZeroCap | crates/anti-daemon/src/scheduler.rs:157-165 | a cap of zero schedules nothing and reports every task as unscheduled |
| Scheduling.ChainBehind | crates/anti-daemon/src/scheduler.rs:151-172 | behind every scheduled task stands a dependency chain with one node for each earlier wave that left slots unused |
| Scheduling.GrahamBound | crates/anti-daemon/src/scheduler.rs:146-172 | m times the number of waves is at most s + (m - 1) L, and the number of waves at most floor(s/m) + L |
| Scheduling.LowerBound | crates/anti-daemon/src/scheduler.rs:146-172 | every feasible schedule of the same tasks has at least L waves and at least s/m |
| Scheduling.GreedyBetweenBounds | crates/anti-daemon/src/scheduler.rs:146-172 | a longest chain L exists, and the greedy schedule lies between the lower bound that binds all schedules and floor(s/m) + L |
| Scheduling.WithinFactorTwo | crates/anti-daemon/src/scheduler.rs:146-172 | the greedy schedule has at most 2 - 1/m times the waves of any feasible schedule of the same tasks |
| Work.WorkItem.Transition | crates/anti-core/src/work.rs:189-200 | moves the item exactly when the table allows it and otherwise names the refused pair and changes nothing |
| Work.WorkItem.Reject | crates/anti-core/src/work.rs:204-224 | only from Submitted or Verified; bumps the revision, records verdict and lead, and ends in Rejected once the limit is exceeded |
| Work.WorkItem.Submit | crates/anti-core/src/work.rs:228-251 | only from InProgress or NeedsRevision; stores the evidence and moves to Submitted |
| Work.EnteredFrom | crates/anti-core/src/work.rs:367-406 | the transition table read by target: from which states each state can be entered |
| Work.TerminalIff | crates/anti-core/src/work.rs:367-406 | a state is terminal exactly when it leads nowhere but to itself or to Exhausted |
| Daemon.Store.GetWorkItem | crates/anti-daemon/src/store.rs:609-648 | finds the row and reads its state back lossily: every state outside the first seven becomes Pending |
| Daemon.ReadBackIff | crates/anti-daemon/src/store.rs:964-975 | exactly seven states survive being stored and read, and all others read back as Pending |
| Daemon.Store.InsertWorkItem | crates/anti-daemon/src/store.rs:582-607 | replaces the whole row if the write is accepted and changes nothing if not |
| Daemon.Store.UpdateWorkState | crates/anti-daemon/src/store.rs:651-674 | succeeds exactly when the table allows the move and the raw state is still the expected one; changes only the state |
| Daemon.RunProfile | crates/anti-core/src/work.rs:320-338 | for each profile, in terms of how fmt, clippy, test and build exit: whether it passes, the diagnostics in order, and the test and build codes kept |
| Daemon.HandleSubmitWork | crates/anti-daemon/src/main.rs:914-957 | rows, events and answer after a submission, auto-creation and failed write included |
| Daemon.HandleReviewWork | crates/anti-daemon/src/main.rs:959-1002 | rows, events and answer after accept, reject and unknown verdicts, with ignored write failures |
| Daemon.HandleVerifyWork | crates/anti-daemon/src/main.rs:1004-1129 | rows, events and answer after a verify request, from the exits of the profile's commands |
| Daemon.HandleCompleted | crates/anti-daemon/src/report.rs:71-134 | rows, events and answer, the claimed state included, after a completed report: no commit, no workspace, git that cannot be started, unknown commit, and two writes that may fail separately |
| Daemon.HandleFailed | crates/anti-daemon/src/report.rs:137-182 | rows, events and answer after a failed report |
| Daemon.CanFailIff | crates/anti-daemon/src/report.rs:290-299 | a failed report tries to move an item exactly where the table knows a way to Failed, and from InProgress and Verifying, where it knows none |
| Daemon.HandleReport | crates/anti-daemon/src/report.rs:33-68 | the checks of a report in their order, and its dispatch by status |
| Recovery.FindDeadAgents | crates/anti-daemon/src/recovery.rs:71-94 | the attached agents that do not seem alive, each once, in the order listed |
| Recovery.DeadIff | crates/anti-daemon/src/recovery.rs:71-94 | who is found dead, in terms of status, pid, start time and query: Running, Blocked or Starting without the recorded process, or with an existing pid if the query failed |
| Recovery.DeadListAt | crates/anti-daemon/src/recovery.rs:71-94 | a dead agent stands in the list where it stands in the listing |
| Recovery.RecoverWorkItems | crates/anti-daemon/src/recovery.rs:97-139 | the rows after recovery and the very events appended, for any order in which the rows are listed; the attempts on InProgress items change nothing |
| Recovery.MarkExit | crates/anti-daemon/src/store.rs:517-546 | an exit moves a Running, Blocked or Starting agent to Completed or Crashed and reports it; any other agent is left alone; an unknown agent or a failed write is an error |
| Recovery.RecoverOnRestart | crates/anti-daemon/src/recovery.rs:22-67 | rows, agents and the exact events after restart recovery, for any listing orders and any lost writes |
| Recovery.MoveEventCount | crates/anti-daemon/src/recovery.rs:124-133 | whatever the listing order, each moved item is reported by exactly one event |
| Recovery.MoveEventsAt | crates/anti-daemon/src/recovery.rs:124-133 | and the event of an item stands where the item stands in the listing |
| Recovery.CrashEventsAt | crates/anti-daemon/src/recovery.rs:49-62 | each dead agent is reported in its place, as AgentCrashed if its mark is stored, and as PeerCrashed right after that in any case |
| Recovery.CrashOutcome | crates/anti-daemon/src/recovery.rs:49-50 | exactly the agents found dead whose mark is stored become Crashed, and nothing of an agent but its status ever changes |
| Recovery.AttachedAfterRecovery | crates/anti-daemon/src/recovery.rs:71-94 | an agent is attached after recovery exactly when it was and its process looked alive, or its crash mark was lost |
| Recovery.NoDeadAttached | crates/anti-daemon/src/recovery.rs:85-92 | no agent stays Running, Blocked or Starting without its process if and only if no such agent has its crash mark lost, or a failed liveness query while its pid is gone |
| Recovery.LiveStayAttached | crates/anti-daemon/src/recovery.rs:85-92 | every live attached agent stays attached if and only if none of them had a failed liveness query, save for lost crash marks |
| Recovery.FailedQueryInverts | crates/anti-daemon/src/recovery.rs:89-91 | concrete input on which the failed-query fallback crashes the live agent and keeps the dead one |
| Recovery.SecondDead | crates/anti-daemon/src/recovery.rs:71-94 | a second recovery under the same processes finds exactly the agents whose crash mark was lost |
| Recovery.SecondMoves | crates/anti-daemon/src/recovery.rs:97-139 | it moves exactly the items whose write was lost together with the mark of their peer, so an item whose write alone was lost is stranded |
| Recovery.SecondRecovery | crates/anti-daemon/src/recovery.rs:22-67 | with no mark lost a second recovery changes no row and no agent and appends no event, whatever the listing orders |
| Protocol.RunsAreSound | crates/anti-core/src/work.rs:204-252 | in every run: revision at most the limit outside Rejected and one more in it (under the largest 32-bit limit no item is ever Rejected), evidence on everything Submitted, Verified or Accepted, Failed only with the revisions used up |
| Protocol.StepEvolves | crates/anti-daemon/src/store.rs:582-674 | every step keeps all rows sound and present with their limit, and only a stored reject moves a revision number, by one |
| Protocol.RejectsCounted | crates/anti-core/src/work.rs:204-224 | in every run the revision of an item is one more than its stored rejects, modulo 2^32 under the largest limit and exactly below it |
| Protocol.RejectsAreRevisions | crates/anti-core/src/work.rs:204-224 | so below the largest limit the stored rejects number exactly revision - 1 and never more than the limit, through resubmissions, reports and restarts |
| Protocol.StepOnState | crates/anti-daemon/src/main.rs:914-1129 | every handler call and restart does to the state of any one item exactly what a small state machine on its own says |
| Protocol.StepOnFields | crates/anti-daemon/src/store.rs:582-674 | every other field of a row: peer and limit stay, only a stored reject bumps the revision and records lead and verdict, only stored submissions and completed reports replace the evidence |
| Protocol.NewRow | crates/anti-daemon/src/main.rs:921-932 | a row appears by a stored submission of an unknown item only, as revision 1 of 3 of the peer "cli" |
| Protocol.VerifiedIff | crates/anti-daemon/src/main.rs:1034-1111 | what a stored verify makes of a submitted item, in terms of how fmt, clippy, test and build exit |
| Protocol.StepIntoVerified | crates/anti-daemon/src/main.rs:1100-1111 | one step: Verified is entered by a passing stored verify of a Submitted item only, and left by stored accepts and rejects only |
| Protocol.StepIntoAccepted | crates/anti-daemon/src/main.rs:966-978 | one step: Accepted is entered by a stored accept of a Verified item only, and never left |
| Protocol.AcceptedWasVerified | crates/anti-daemon/src/main.rs:914-1129 | an accepted item has evidence; a passing verify took it from Submitted to Verified, and it was never anything else until an accept took it on, and Accepted ever since |
| Protocol.NothingReopened | crates/anti-daemon/src/main.rs:914-1002 | from that verify on, no reject of the item is stored and every submission of it is refused |
| Protocol.EvidenceSince | crates/anti-daemon/src/report.rs:97-116 | while an item is Verified or Accepted its evidence is the last one a completed report stored, or else what it was |
| Protocol.AcceptedEvidence | crates/anti-daemon/src/report.rs:97-116 | the accepted evidence equals the verified evidence if and only if the last completed report since the verify, if any, brought the same |
| Protocol.EvidenceReplaced | crates/anti-daemon/src/report.rs:97-133 | concrete run from an empty store: submitted and verified with one evidence, accepted with another; the report in between claims Submitted of the item that stays Verified |
| Protocol.Absorption | crates/anti-daemon/src/store.rs:582-674 | from any state and over any run, Accepted, Rejected and Pending rows keep their state and Failed ones stay Failed or become Pending |
| Protocol.AcceptableIff | crates/anti-daemon/src/store.rs:964-975 | from any state, some run ends with the item Accepted if and only if it is unknown or neither Rejected, Pending nor in a state that does not survive the read-back |
| Protocol.TerminalChanges | crates/anti-daemon/src/store.rs:964-975 | a stored terminal state changes if and only if it is neither Accepted nor Rejected and a completed report is stored on the item |
| Protocol.FailedBecomesPending | crates/anti-daemon/src/store.rs:964-975 | concrete run from an empty store that ends with a Failed item written back as Pending |
| Protocol.EmptyStoreRuns | crates/anti-daemon/src/main.rs:921-932 | started empty, the daemon never stores an item InProgress, and all items belong to "cli" with three revisions |
| Protocol.ReportableIff | crates/anti-daemon/src/report.rs:219-232 | started empty, some completed report on an item can be stored if and only if an agent registered under the id "cli" has a workspace |
| Protocol.AcknowledgedReview | crates/anti-daemon/src/main.rs:976-995 | a review answered Ok had its effect if and only if the write was accepted, and then its state is the one the verdict and the limit demand |
| Protocol.LostAccept | crates/anti-daemon/src/main.rs:976-995 | concrete run from an empty store after which an accept is answered Ok and leaves the item Verified |
| Protocol.RequestAnswers | crates/anti-daemon/src/main.rs:914-1129 | exactly when a submission, a review and a verify get each of their answers |
| Protocol.ReportAnswers | crates/anti-daemon/src/report.rs:33-182 | exactly when a report gets each of its answers |
| Protocol.EventsFollowAnswers | crates/anti-daemon/src/main.rs:914-1129 | an error appends no event, any other answer exactly one, about the item or the peer; its kind follows the request whether or not the write was stored |
| Protocol.ErrorsAreAtomicExcept | crates/anti-daemon/src/report.rs:97-116 | an error answer means unchanged rows, except exactly for a completed report that stored new evidence before its transition failed |
| Protocol.ErrorStoresEvidence | crates/anti-daemon/src/report.rs:97-116 | concrete run from an empty store after which a completed report answers an error and its evidence is stored |
| Protocol.ReworkNeedsSubmitWork | crates/anti-daemon/src/report.rs:107-116 | a NeedsRevision item is resubmitted by a stored SubmitWork and by nothing else |
| EventLog.EventStore.Open | crates/anti-daemon/src/store.rs:112-127 | reopening restarts the counter from the largest stored number and re-establishes the invariant |
| EventLog.MaxSeqIs | crates/anti-daemon/src/store.rs:113-115 | the number reopening starts from is 0 on an empty table and otherwise that of some row, with no row above it |
| EventLog.EventStore.WriteLine | crates/anti-daemon/src/store.rs:558-562 | what each point of failure leaves in the file, and when the writing succeeds |
| EventLog.WrittenIs | crates/anti-daemon/src/store.rs:558-562 | piece by piece what each point of failure adds to the file: nothing, the torn part, the object, or the object and its newline |
| EventLog.EventStore.AppendEvent | crates/anti-daemon/src/store.rs:550-574 | what an append leaves in counter, file, table and acknowledgements for each point of failure; an acknowledged number is new and above all before |
| EventLog.AppendIsARun | crates/anti-daemon/src/store.rs:550-574 | every append, faulty or not, is a run of the micro-steps |
| EventLog.AcknowledgedEvents | crates/anti-daemon/src/store.rs:113-126 | over any run of appends, failures, crashes and reopenings: acknowledged numbers strictly increase, each acknowledged event is a row, every row's object and newline are in the file, and no due insert meets a used key |
| EventLog.LogPrecedesRow | crates/anti-daemon/src/store.rs:560-572 | when a row appears its line was already complete in the file |
| EventLog.RunsExtend | crates/anti-daemon/src/store.rs:117-126 | file, table and acknowledgements only ever grow, through crashes too |
| EventLog.OwnLineIff | crates/anti-daemon/src/store.rs:558-562 | over any run, torn lines included, a terminated object has a line of its own if and only if the file ended a line when it was written, which is if and only if no line had been torn since the newline before |
| EventLog.SpoiledAtMostTorn | crates/anti-daemon/src/store.rs:558-562 | over any run no more objects share a line with something torn than lines were torn |
| EventLog.RowsWithoutLineBound | crates/anti-daemon/src/store.rs:558-572 | over any run at most as many SQL rows lack a line of their own as lines were torn; none while none is |
| EventLog.TornLineSpoilsNext | crates/anti-daemon/src/store.rs:558-572 | concrete run: a crash inside the first object, after which the next event is stored and acknowledged without a line of its own |
| EventLog.UniqueIfCaughtUp | crates/anti-daemon/src/store.rs:113-126 | over any run, the numbers in the file are unique if every reopening finds no number in the file above those in SQL |
| EventLog.StaysUniqueIff | crates/anti-daemon/src/store.rs:113-126 | after any run that leaves the process down, the numbers stay unique over all continuations without another crash if and only if they are unique and none is above those in SQL |
| EventLog.NumbersRepeat | crates/anti-daemon/src/store.rs:113-126 | concrete run in which a crash between line and row makes the file hold one number twice |
| Timeline.MembersAre | crates/anti-adapters/src/timeline_projection.rs:39-58 | the rows of an entry start at its head, increase, and are exactly the later rows of the same call |
| Timeline.HeadsIff | crates/anti-adapters/src/timeline_projection.rs:46-66 | a row opens an entry exactly when it is no tool row or the first of its call |
| Timeline.HeadsDiffer | crates/anti-adapters/src/timeline_projection.rs:46-58 | no call has two entries |
| Timeline.CollapseToolLifecycle | crates/anti-adapters/src/timeline_projection.rs:35-69 | the index-driven loop computes one entry per head in row order, with all its rows' numbers, the largest as end, and the mark exactly for more than one row |
| Timeline.OpensEntryIff | crates/anti-adapters/src/timeline_projection.rs:46-66 | a row opens an entry exactly when no earlier row is a tool row of the same call id |
| Timeline.CollapsedEntry | crates/anti-adapters/src/timeline_projection.rs:46-66 | each entry stands for its opening row and all later rows of that call: item and start are those of the first, the end is the largest number, the sources are all numbers in order, the mark is there exactly for more than one |
| Timeline.RunsAreMaximal | crates/anti-adapters/src/timeline_projection.rs:76-99 | the merge cuts the entries into runs of contiguous assistant chunks that cannot be extended |
| Timeline.MaximalRunsUnique | crates/anti-adapters/src/timeline_projection.rs:76-99 | there is only one such cut, so this determines the merge |
| Timeline.MergeAssistantChunks | crates/anti-adapters/src/timeline_projection.rs:71-102 | the loop that edits its last output entry computes one combined entry per maximal run |
| Timeline.Project | crates/anti-adapters/src/timeline_projection.rs:105-108 | the projection is the merge of the collapse |
| Timeline.MergeIdempotent | crates/anti-adapters/src/timeline_projection.rs:71-102 | merging again changes nothing, and a list is left alone if and only if no two neighbours are mergeable |
| Timeline.MergeConserves | crates/anti-adapters/src/timeline_projection.rs:82-95 | merging keeps all text, all source numbers and all other entries, in order |
| Timeline.ProjectionConserves | crates/anti-adapters/src/timeline_projection.rs:105-108 | source numbers are those of the rows with multiplicity, all assistant text is there in row order, tool and system entries are those of the collapse, nothing is left mergeable |
| Timeline.ToolEntry | crates/anti-adapters/src/timeline_projection.rs:35-102 | the same of every tool and system entry of the finished projection |
| Timeline.AssistantEntry | crates/anti-adapters/src/timeline_projection.rs:77-98 | an assistant entry stands for assistant rows numbered exactly start to end, its sources are those numbers, its text theirs joined, its mark there exactly for more than one |
| Lease.AuthorityLease.Acquire | crates/anti-core/src/authority.rs:52-90 | granted to the owner, on an unheld and on a stale lease only; a grant clears staleness, a refusal names the holder and changes nothing |
| Lease.AuthorityLease.Renew | crates/anti-core/src/authority.rs:93-114 | granted to the owner of a lease that is not stale only, with the exact error otherwise |
| Lease.AuthorityLease.Release | crates/anti-core/src/authority.rs:117-133 | granted to the owner only, stale or not, and leaves an unheld lease |
| Lease.AuthorityLease.CheckStaleness | crates/anti-core/src/authority.rs:137-146 | marks the lease stale exactly when its time has passed, and never clears the mark |
| Lease.AuthorityLease.IsAvailable | crates/anti-core/src/authority.rs:149-151 | true exactly when anybody's acquire would be granted |
| Lease.LedgerRuns | crates/anti-core/src/authority.rs:52-146 | in every run, timely or not, the lease records the latest grant of its owner and is stale only with one |
| Lease.StepBreaksIff | crates/anti-core/src/authority.rs:137-146 | a step leaves a live grant unguarded if and only if it is a check with a time past the lease while the clock is not, or sets the clock back to where a displaced or stale grant is live again |
| Lease.MutualExclusion | crates/anti-core/src/authority.rs:52-150 | over any timely run no two clients both hold an unreleased, unexpired grant |
| Lease.DisplacedAfterExpiry | crates/anti-core/src/authority.rs:67-79 | an owner is displaced only after the time of its latest grant has passed and was seen to have |
| Lease.GrantIsProtected | crates/anti-core/src/authority.rs:67-79 | while a grant is live, acquire, renew and release are refused to everyone else |
| Lease.AcquireBreaksIff | crates/anti-core/src/authority.rs:52-90 | in any state, some acquire yields two live grants if and only if a live grant is not that of the owner of a lease that is not stale |
| Lease.ExclusionIff | crates/anti-core/src/authority.rs:52-150 | after any run, timely or not, every timely continuation keeps exclusion if and only if every live grant is guarded |
| Lease.FutureCheckBreaksExclusion | crates/anti-core/src/authority.rs:137-146 | concrete run in which one check with a future time gives two clients live grants |
| Lease.ClockBackBreaksExclusion | crates/anti-core/src/authority.rs:67-79 | concrete run in which every check is made at the time it is and a clock set back gives two clients live grants |
| LoopPrev.LoopPrevention.RecordReject | crates/anti-core/src/loopprev.rs:20-30 | appends the time under its key and prunes that key's list only; an unparsable timestamp counts as now |
| LoopPrev.LoopPrevention.ShouldEscalate | crates/anti-core/src/loopprev.rs:41-55 | fires exactly with more than three kept rejects and a cooldown since the last firing, and records the firing |
| LoopPrev.WindowIsHistory | crates/anti-core/src/loopprev.rs:20-30 | in every run, even out of time order, the list kept for a key is exactly the recorded times no later record on that key outran by more than the window |
| LoopPrev.InOrderWindow | crates/anti-core/src/loopprev.rs:20-30 | for records in time order the window is the last hour of records |
| LoopPrev.FiringsAreSpaced | crates/anti-core/src/loopprev.rs:47-54 | any two firings on a key are at least 600 seconds apart, whatever the clock does |
| LoopPrev.RateBound | crates/anti-core/src/loopprev.rs:20-55 | any span of time holds at most span / 600 + 1 firings of a key |
| LoopPrev.FiresIff | crates/anti-core/src/loopprev.rs:41-55 | after any operations the trigger fires if and only if more than three records are alive and the last firing, if any, is at least 600 seconds back |
| LoopPrev.AfterSilenceIff | crates/anti-core/src/loopprev.rs:39-55 | silence on a key, however long, leaves that condition as it was before |
| LoopPrev.SilenceReArmsIff | crates/anti-core/src/loopprev.rs:39-55 | after a firing and silence on the key, the trigger fires again if and only if 600 seconds have passed, with no new reject |
| LoopPrev.AgesByTheClockIff | crates/anti-core/src/loopprev.rs:1-3 | the code agrees with a count that ages with the clock except exactly when the cooldown is over and its surplus over three consists of records gone out of the window since the last reject |
| LoopPrev.QuietDoesNotReset | crates/anti-core/src/loopprev.rs:39-55 | four rejects at one time fire at every later time: silence never resets the count |
| SignTest.FallingIsChoose | crates/anti-bench/src/main.rs:211-214 | the falling factorial is Pascal's C(n, i) times i! |
| SignTest.BinomialCoefficient | crates/anti-bench/src/main.rs:211-214 | the product loop of ratios computes Pascal's C(total, i) exactly |
| SignTest.BinomialTail | crates/anti-bench/src/main.rs:208-218 | the double loop computes the sum of C(n, i) / 2^n for i up to k |
| SignTest.RowSum | crates/anti-bench/src/main.rs:208-218 | a row of the triangle sums to 2^n |
| SignTest.FullTail | crates/anti-bench/src/main.rs:208-218 | the full tail is 1 |
| SignTest.CompareArms | crates/anti-bench/src/main.rs:108-139 | the counts as numbers of pairs won by one arm alone, p-value, winner and verdict of a pair of arms, which is skipped without a common run; the extra demand of a non-zero effect never matters |
| SignTest.TallyCounts | crates/anti-bench/src/main.rs:114-120 | plus is the number of pairs the left arm alone won, minus of those the right arm alone won, ties of those on which they agree |
| SignTest.TallyBalanced | crates/anti-bench/src/main.rs:114-120 | every compared pair is counted once, and swapping the arms swaps the counts |
| SignTest.UnequalIsTwoSided | crates/anti-bench/src/main.rs:126-128 | for unequal counts the p-value is P(X <= k) + P(X >= n - k), at most 1 |
| SignTest.EvenSplit | crates/anti-bench/src/main.rs:126-128 | for equal counts it is 1 + C(2k, k) / 4^k, more than 1 |
| SignTest.ReportedIsExactIff | crates/anti-bench/src/main.rs:126-128 | it is the exact two-sided p-value if and only if the counts differ |
| SignTest.SmallestP | crates/anti-bench/src/main.rs:126-128 | no outcome of n decisive pairs gives less than 2 / 2^n |
| SignTest.SixPairsNeeded | crates/anti-bench/src/main.rs:131-136 | a significant result has at least six decisive pairs and is no draw |
| SignTest.UnanimousSignificantIff | crates/anti-bench/src/main.rs:131-136 | a unanimous result is significant if and only if it has at least six pairs |
| Sidechain.NormalizeKeepsContained | crates/anti-core/src/subagent_tracker.rs:63-67 | normalising a name keeps its substrings |
| Sidechain.NormalizeOne | crates/anti-core/src/subagent_tracker.rs:63-67 | digits and small letters stay, capitals become small, everything else goes |
| Sidechain.ShapedIff | crates/anti-core/src/subagent_tracker.rs:46-73 | a name is delegation-shaped exactly when it lacks the mcp__ prefix and its normal form contains one of thirteen stems; the fourteenth, "subagent", adds nothing |
| Sidechain.StartersAreShaped | crates/anti-core/src/subagent_tracker.rs:46-73 | whatever name starts a subagent is delegation-shaped if and only if it lacks the mcp__ prefix, and only Codex starts one under that prefix |
| Sidechain.SidechainTracker.HandleEvent | crates/anti-core/src/subagent_tracker.rs:90-222 | the new active set and the emitted events for each provider and event |
| Sidechain.EmittedIff | crates/anti-core/src/subagent_tracker.rs:95-205 | which calls are reported as the start of a subagent, name by name for each provider, and that every shaped call, and no other, is reported as a violation |
| Sidechain.ActiveIsOpen | crates/anti-core/src/subagent_tracker.rs:107-219 | after any stream, active is exactly the ids started and not closed since |
| Sidechain.CompletionsAreOfActive | crates/anti-core/src/subagent_tracker.rs:132-150 | a completion is reported if and only if an open id is closed, as failed exactly for a failed call |
| Sidechain.StartedAfterViolation | crates/anti-core/src/subagent_tracker.rs:95-129 | in the output of any stream every start directly follows a guard violation for the same call, unless Codex started it under an mcp__ name |
| Sidechain.CompletionsAreMatched | crates/anti-core/src/subagent_tracker.rs:107-219 | completions of an id never outnumber its starts, and an active id has a start unanswered |
| Sidechain.FailureLeaks | crates/anti-core/src/subagent_tracker.rs:143-217 | a failed call ends and reports its subagent if and only if the provider is Claude |
| EventBus.Bus.Subscribe | crates/anti-daemon/src/event_bus.rs:131-137 | a new empty queue, added behind the agent's earlier subscribers |
| EventBus.RoutedIff | crates/anti-daemon/src/event_bus.rs:104-117 | an agent is sent the events it is the subject of and those of its subagents as their parent, never as the child; handoff requests go to nobody |
| EventBus.Bus.Emit | crates/anti-daemon/src/event_bus.rs:99-128 | one copy on each queue subscribed to the agent the event is routed to, and on no other |
| EventBus.ReceiverHoldsItsEvents | crates/anti-daemon/src/event_bus.rs:99-137 | in every run a receiver holds exactly the events emitted after its subscription and routed to its agent, in order and once each |

## Corollaries

Read off single specification functions, and true by unfolding them: a named profile takes
any submitted item to Verified (`NamedProfilePasses`), a handler call changes no other row
(`OtherRowsUntouched`), which submissions are taken (`SubmissionTaken`), which failed reports
move an item and which answer an error (`FailedReport`), where the 32-bit revision wraps
(`RevisionWrapsIff`), when the state an accepted report claims is not the state stored
(`ReportedStateIff`), how recovery moves a single row (`RecoveryOutcome`), and that no SQL row
shares its line in a run without a torn one (`RowsHaveOwnLines`).

## Left out

- Process spawning and signals, PTY and stdio, IPC, HTTP, provider clients, worktree pools, git and cargo: their outcomes are parameters.
- Failing SQL reads: every read succeeds except the liveness query, whose failure is modelled; failing writes are modelled wherever the handlers go on after them.
- Event appends inside the work handlers and recovery always succeed: their failures are ignored by the handlers and are modelled in `eventlog.dfy` on their own.
- Row identities, task node ids, timestamps and review deadlines of work items: no handler decides by them; the overdue-review watchdog only reads.
- Protocol.RejectsCounted: the revision wraps as an optimised build computes it; a checked build panics at that point, which is not modelled.
- Events in SQLite are durable across process crashes; power loss, after which WAL with synchronous=NORMAL may drop the last commits, is not modelled.
- 64-bit wrap-around of sequence numbers, timeline numbers and times: they are unbounded here.
- Timeline.CollapseToolLifecycle: the two mark strings are an enumeration, because only their presence matters; row timestamps are dropped, as the projection drops them.
- RFC 3339 timestamps are points on a time line: string comparison of different offsets is not modelled.
- Floating-point rounding in the benchmark: its arithmetic is over exact reals.
- Sidechain names, titles and timelines: the tracker keeps a set of ids, because nothing else of its state is ever read; the 14 deny stems are kept.
- EventBus: dropped receivers and the global broadcast, whose receiving end is dropped at creation.
- Agent status tables: the daemon sets statuses unconditionally, so runs here may change agents arbitrarily between steps.
- JSON parsing, configuration, routing and disposition tables, capsules, CAS files and path sanitising: plumbing, finite tables, or foreign file operations.
