# Verification of the daemon's orchestration core

A Dafny model of the parts of the daemon that must stay right at every crash point
and under every interleaving, with proofs.  `dafny verify dfyconfig.toml` checks all of it.

## What is modelled

**A/B candidate race** (`ab_protocol.dfy`, `ab_safety.dfy`, `ab_runs.dfy`, `ab_merged.dfy`,
`ab_convergence.dfy`, `ab_repairs.dfy`, `ab_decisions.dfy`, `ab_timeouts.dfy`,
`ab_orchestrator.dfy`).  Two workers solve the same task and one result is merged.  A scan is the list
of disk states it leaves after each durable write (command state, queue, git commit, git merge,
reward), so a crash or a failed state write is any prefix of that list.  The outcomes of commit,
merge, selection and repair are arbitrary.  The orchestrator class is proved to perform exactly these
writes in this order, and what they decide, mark and leave alone is proved without reference to them.
The reconciler that queues a repair after a failed queue write is part of every run.

**Phase dependency machine** (`phase_model.dfy`, `phase_safety.dfy`, `phase_failures.dfy`,
`phase_outcomes.dfy`, `phase_convergence.dfy`, `phase_resolver.dfy`).  The three passes with their
mutable lookup map, the sort, the deduplication, the merge gate and the two writes per transition;
what a scan makes of every phase, soundness of one scan at every crash point and with failing writes,
and convergence of repeated scans.

**Pane session fencing** (`pane_model.dfy`, `pane_fencing.dfy`, `pane_directories.dfy`,
`pane_outcomes.dfy`, `pane_executor.dfy`).  One worker pane with its tmux variables and the truth they
stand for; every probe, wait, /clear and delivery
may fail, and the pane may crash, come up late or be respawned between any two steps.

**Cancel protocol** (`cancel_model.dfy`, `cancel_safety.dfy`, `cancel_crashes.dfy`, `cancel_handler.dfy`).
Collect, interrupt, apply, with worker results, lease releases, redispatches and dead-letters in
between, and crashes between the writes of the queue and result files of each worker.

**Debounce controller** (`debounce.dfy`, `debounce_timer.dfy`).  A timed system of atomic steps with punctual timers.

**Monitors and tables**: the /clear poller, `clearAndConfirm` and the submit probe
(`delivery_confirm.dfy`), the bounded FIFO table with lazy deletion (`bloom_table.dfy`), the
process-tree sum (`process_tree.dfy`), continuous mode (`continuous_mode.dfy`), the bandit warm-up
(`bandit_warmup.dfy`) and the worker freeze (`worker_freeze.dfy`).

## Assumptions

- A/B race: a commit or merge that succeeded once succeeds again; a failed merge leaves the branch
  unchanged; state reads inside one scan succeed; new repair ids are fresh; terminal task states are
  stable; while a group is unresolved nobody else writes it or retries its candidates.  Convergence
  also needs that state writes and repair creation succeed.  Whatever else changes the disk does so
  between two scans, cut or complete.  `ABMerged.DegradedMeansUnmerged` also assumes that rows of an
  unresolved group with a merged branch keep their tag and their completed status.  Only the degrade
  path and the reconciler queue a group's repair for the first time, and the reconciler does not run
  during a scan of the group; it is part of the same periodic scan
  (internal/daemon/queue_scan_phase_c.go:633-638).  A removed row of the canonical may be restored
  (internal/daemon/reconcile/run_queue_ops.go:347-393).
- Phases: phase ids are unique; a cascade reason names a dependency of its phase.  The lineage-aware
  task status is an input.
- Panes: tmux variable writes succeed, process ids are not reused, agents are launched only by the
  daemon, a final check and the paste it guards are one step, and so are the two stamps after a
  delivery.  A process id that was read stays valid until the next pause.
- Debounce: no shutdown, and timers and callbacks are punctual.  Times are whole milliseconds.
- Cancellation: task ids are unique; nothing but a crash keeps a queue or result file from being
  written.
- Process tree: cpu times are reals; the code sums them as float64.
- Worker freeze: over runs, tagged rows stay queued until their race is over, what is over stays
  over, and a readable command state shows a race as finished only if it is.  The freeze that a
  dispatch goes by is exact for the queues at that moment; the daemon computes it once per scan.
  Command ids have their generated form, which has no slash (internal/model/id.go:41).
- Bandit: a restored snapshot is one that the daemon saved.
- Integers are unbounded; the counters of the code are 64 bits wide.

## Where the code falls short of its documentation

Each item names the input that shows it and the exact condition under which the code does keep
the promise.

- `RetryTaskAtomically` is two durable writes, not one.  When the queue write fails and the rollback
  too, a third write marks the repair, and the reconciler queues it later, also after the group is
  degraded.  A crash behind the first write leaves it unmarked, and then it is lost
  (`ABRepairs.OnlyWiringLoses`, `ABRepairs.WiringCutIsFinal`, `ABRepairs.LossHappens`).  A wired and
  unqueued repair is lost for good if and only if it has no mark with an attempt left
  (`ABRepairs.RepairLostExactly`); a degrade names a lost repair if and only if it met one
  (`ABRepairs.RepairQueuedExactly`).
- A phase's status and its cascade reason are two writes.  After a crash between them the phase is
  never recovered, unless a stale reason from an earlier cascade names a live dependency
  (`PhaseConvergence.CascadeLostBetweenWrites`, with both cases as an equivalence).
- A delivered first dispatch without a task id leaves the previous task's resume marker in place
  (`PaneFencing.UntaggedThenWrongNudge`; exact condition in `PaneFencing.FenceNeedsTask`).
- After an unconfirmed first dispatch, or a /clear that is not confirmed, the next dispatch skips the
  /clear and follows the previous task in the same conversation (`PaneFencing.UnconfirmedThenMixed`,
  `PaneFencing.FailedClearThenMixed`).  Exactly these two lose track of a conversation
  (`PaneFencing.DispatchTracks`), and an envelope is fresh if and only if track was not lost
  (`PaneFencing.UndisturbedFreshExactly`, `PaneFencing.RunFreshExactly`,
  `PaneFencing.KnownThroughoutExactly`).
- A pane that the daemon evicts while a dispatch is about to relaunch the agent gets its envelope in the
  project root (`PaneDirectories.EvictedThenElsewhere`); where an envelope lands in general says
  `PaneDirectories.EnvelopesLand`, over runs `PaneDirectories.RunInPlaceExactly`.
- A trigger that locks while a scan is running may get no scan after the lock
  (`Debounce.LockedAfterTheScanStarted`); it gets one for certain if and only if no scan is running
  then (`Debounce.ScanAfterLockExactly`).  Counted from the look the guarantee always holds.
- A scan goes on after a failed phase status write.  A phase can then be activated or cancelled
  although the transition that it relies on is not on disk (`PhaseFailures.ActivatedAhead`); exactly
  when a write made is still justified says `PhaseFailures.WritesJustifiedExactly`.
- Queue and result files are separate writes, results first for pending tasks and queues first for
  interrupted ones.  A crash in between makes the next scan write results twice
  (`CancelCrashes.WrittenAgain`) or leaves a cancelled task without a result for good
  (`CancelCrashes.MissingForever`; inputs in `CancelCrashes.CrashInputs`).  The results end exact if
  and only if nothing fell into a cut (`CancelCrashes.RunExactly`).

## Model

| member | source | states |
|---|---|---|
| ABRuns.SingleIntake | internal/daemon/ab_selection.go:719-779 | Over every run with crashes after any durable write, at most one branch is ever merged; a resolved group's winner has its branch merged; a merge before resolution is of the recorded decision |
| ABRuns.NeverIntakeAndRepair | internal/daemon/ab_selection.go:569-607 | Over every such run, with the reconciler queueing marked repairs at any time, a group never has both a merged branch and a wired repair, at most one repair is ever wired, only that one is queued, and a repair that is in a queue is on record as queued |
| ABRuns.DecisionIsFinal | internal/daemon/ab_selection.go:755-779 | Once a pending winner is recorded no run changes it, and only that candidate can become the winner |
| ABRuns.TerminalIsFrozen | internal/daemon/ab_selection.go:879-995 | A resolved or degraded group never changes again, whatever runs afterwards |
| ABRuns.TerminalOutcome | internal/daemon/ab_selection.go:879-995 | After Resolved every other candidate is cancelled, a shadow winner is completed with lineage to the canonical, and the rewards are a prefix of one label per candidate with exactly one win; after Degraded every shadow is cancelled; no reward without resolution |
| ABRuns.RunKeepsInvariant | internal/daemon/ab_selection.go:268-360 | The group invariant, and the order racing, selecting, terminal, hold in every state of every run |
| ABRuns.EventSafe | internal/daemon/ab_selection.go:268-360 | A scan cut after any number of its durable writes keeps the invariant and moves the group forward only |
| ABRuns.RecoveryCompletes | internal/daemon/ab_selection.go:585-607 | After a crash between merge and resolution one uninterrupted scan resolves the group for exactly the merged candidate, whatever the external operations answer |
| ABRepairs.RepairLostExactly | internal/daemon/task_retry_handler.go:417-453 | A wired repair that has not been queued is never in a queue in any run if and only if it carries no mark of the reconciler with an attempt left |
| ABRepairs.RunStaysLost | internal/daemon/task_retry_handler.go:417-453 | Over every run a repair that is wired, not queued and not marked with an attempt left stays so, and no queue ever holds it |
| ABRepairs.CanBeQueued | internal/daemon/reconcile/r1_result_queue_retry.go:98-128 | A mark with an attempt left can always lead to the repair being queued, also after the group is finished |
| ABRepairs.ReconcilerSettles | internal/daemon/reconcile/r1_result_queue_retry.go:98-210 | Once there were more complete reconciliations than attempts left the mark is gone; the repair is queued if and only if the canonical's row is still there and one of the remaining attempts succeeded; without the row its task has failed, without a success it is dead-lettered |
| ABRepairs.ScanShape | internal/daemon/ab_selection.go:268-360 | Every scan leaves wired, queued and marked repairs alone, except that it may end with one degrade |
| ABRepairs.WiredScanCalm | internal/daemon/ab_selection.go:569-583 | While a repair is wired no scan wires, queues or marks anything |
| ABRepairs.OnlyWiringLoses | internal/daemon/task_retry_handler.go:417-453 | Of all the cuts of a scan, whatever makes it degrade, exactly the one behind the wiring leaves a repair that is neither queued nor marked |
| ABRepairs.OneCutLoses | internal/daemon/task_retry_handler.go:417-453 | No scan has two such cuts |
| ABRepairs.WiringCutIsFinal | internal/daemon/task_retry_handler.go:417-453 | After that cut no run ever has the repair in a queue, and the next complete scan of the finished race degrades the group as superseded by it |
| ABRepairs.RepairQueuedExactly | internal/daemon/ab_selection.go:788-837 | The retry that a degrade names is wired; it is queued if and only if the degrade did not meet it wired and unqueued, and lost for good if and only if it was before |
| ABRepairs.DegradeTable | internal/daemon/ab_selection.go:818-834 | What a degrade leaves of a new repair: nothing when it cannot be created or wired, exactly the old disk after a rollback, a mark with no attempts when the rollback fails, and a pending row that supersedes the canonical when it is queued |
| ABRepairs.RepairMeans | internal/daemon/ab_selection.go:576-583 | A successor of the canonical proves a repair if and only if it is no candidate |
| ABRepairs.RowlessDegrade | internal/daemon/ab_selection.go:806-817 | Without a row of the canonical a degrade ends the group in one write without a repair |
| ABRepairs.QueuedIsUnmarked | internal/daemon/reconcile/r1_result_queue_retry.go:99-104 | A mark whose repair is in the queue is cleared, and nothing else happens |
| ABRepairs.FinishedRaceSupersedes | internal/daemon/ab_selection.go:792-804 | A finished race with a wired repair is degraded as superseded by exactly that repair, and nothing becomes of the repair |
| ABRepairs.LossHappens | internal/daemon/task_retry_handler.go:417-453 | A concrete input: the canonical fails verification, and a crash after the third write of the first scan loses the repair |
| ABSafety.ScanSound | internal/daemon/ab_selection.go:268-360 | Every durable write of one scan, in its order, keeps the invariant, moves the group legally, and leaves exactly the right marks on tasks, reasons and lineage when it ends the group |
| ABSafety.ScanPairSound | internal/daemon/ab_selection.go:295-360 | The same for a group with both candidates: stripped tag, half fan-out, both terminal, and race timeout |
| ABSafety.AllTerminalSound | internal/daemon/ab_selection.go:550-711 | The branches for two terminal candidates (none completed, repair already wired, decision replay, new decision) make only safe writes |
| ABSafety.ReplaySound | internal/daemon/ab_selection.go:585-607 | Replaying a recorded decision makes only safe writes, ends in that winner when its branch was merged, and leaves the group waiting only within the budget |
| ABSafety.DecideSound | internal/daemon/ab_selection.go:609-711 | Entering selection, committing, selecting and finalizing make only safe writes, and leave the group unresolved only within the budget, with at most the decision recorded |
| ABSafety.FinalizeSound | internal/daemon/ab_selection.go:719-750 | Every write of recording, committing, merging and resolving is safe; a group that stays unresolved has this winner recorded, the commit failed, and the clock was restarted only by a new decision; a branch merged before makes this candidate the winner |
| ABSafety.IntakeSound | internal/daemon/ab_selection.go:727-743 | From a recorded decision a failed commit writes nothing; otherwise commit, merge and resolution, or the degrade after a failed merge, are safe at every cut and finish the group; a branch merged before makes this candidate the winner |
| ABSafety.DegradeSound | internal/daemon/ab_selection.go:788-837 | While nothing is merged every write of degrading is safe for each outcome of repair creation, and the group ends degraded when a repair can be queued |
| ABSafety.EnqueueSound | internal/daemon/ab_selection.go:818-834 | Wiring, queueing and degrading, in this order, are safe at each of the cuts and end degraded |
| ABSafety.QueueFailsSound | internal/daemon/task_retry_handler.go:424-448 | When the queue write fails, the wiring and then its rollback or the mark are safe at each cut |
| ABSafety.ReconcileSound | internal/daemon/reconcile/r1_result_queue_retry.go:98-210 | Queueing a marked repair, clearing its mark, counting an attempt and giving it up are safe at each cut, in every status of the group |
| ABSafety.WonSound | internal/daemon/ab_selection.go:879-995 | Resolution for the recorded, merged winner makes only safe writes and ends resolved for it |
| ABSafety.WonMarks | internal/daemon/ab_selection.go:927-951 | A win completes a winning shadow in the canonical's place, cancels the canonical as superseded by it and every other candidate not cancelled before as loser, and touches nobody else |
| ABSafety.LostMarks | internal/daemon/ab_selection.go:907-926 | A degrade cancels every other candidate as degraded; the canonical stands or is cancelled as superseded by one retry; nobody else is touched |
| ABSafety.LostSound | internal/daemon/ab_selection.go:879-995 | Degrading an unresolved group makes only safe writes and ends degraded |
| ABSafety.TimeoutSound | internal/daemon/ab_selection.go:334-358 | The cancellations of the race timeout are safe writes that leave the group as it is |
| ABConvergence.Converges | internal/daemon/ab_selection.go:1096-1103 | With complete scans, a group whose candidates are terminal is resolved or degraded by the first scan after two selection windows, whatever commit, selection and merge return |
| ABConvergence.ScanKeepsDeadline | internal/daemon/ab_selection.go:1056-1103 | A complete scan never moves the deadline back, and finishes the group once the deadline has passed |
| ABConvergence.RunKeepsDeadline | internal/daemon/ab_selection.go:550-750 | The deadline survives every complete run: recording the decision restarts the clock at most once |
| ABConvergence.ScanProgress | internal/daemon/ab_selection.go:268-360 | A complete scan that leaves the group unresolved did so within the budget and has at most recorded the decision |
| ABMerged.ScanWins | internal/daemon/ab_selection.go:719-750 | Whatever its outcomes, one scan merges nothing or ends resolved |
| ABMerged.DegradedMeansUnmerged | internal/daemon/ab_selection.go:788-837 | Over every crash-cut run whose scans still see the finished race, a degraded group has no merged branch |
| ABDecisions.ChosenWins | internal/daemon/ab_selection.go:697-711 | For a finished, undecided race within its budget whose finished work can be committed: the candidate that the engine chose is recorded and nobody else ever is; if it can be committed and merged the group ends resolved for it, with its branch alone merged and each candidate rewarded by its own outcome |
| ABDecisions.FirstFinisherWins | internal/daemon/ab_selection.go:671-711 | Without a signal, on an engine error or for an unknown answer the same holds for the canonical if it completed, else for the shadow |
| ABDecisions.BusyWaits | internal/daemon/ab_selection.go:660-676 | A busy engine decides nothing: the group stays unresolved and unmerged, its finished work committed |
| ABDecisions.RejectedIsNotTaken | internal/daemon/ab_selection.go:682-689 | A sole candidate that failed verification is neither recorded nor merged |
| ABDecisions.OverdueTakesFirst | internal/daemon/ab_selection.go:619-638 | Past the selection budget the first finisher wins if its work can be committed, and otherwise nothing is decided or merged |
| ABDecisions.RecordedWins | internal/daemon/ab_selection.go:585-607 | A recorded decision whose work can be committed and merged ends the group for exactly that candidate |
| ABTimeouts.TimeoutExactly | internal/daemon/ab_selection.go:334-360 | An unfinished race is left alone within its time; past it exactly the candidate that no worker executes and whose rival completed is cancelled, in its pending queue row and then in the state; the limit is the race timeout, else the wall-clock limit, else 1800 s |
| ABTimeouts.StrippedIsDegraded | internal/daemon/ab_selection.go:295-307 | A group whose canonical row lost its tag is degraded in one write, and the canonical stands |
| ABTimeouts.HalfEnqueuedIsCancelled | internal/daemon/ab_selection.go:308-316 | A shadow registered but never enqueued is cancelled in one state write that touches nothing else |
| ABTimeouts.NoneCompletedIsDegraded | internal/daemon/ab_selection.go:550-569 | When both candidates ended and none completed the group is degraded in one write, and the canonical stands |
| ABOrchestrator.CandidateFor | internal/model/ab.go:82-92 | The loop finds the first candidate with the task id, or none exists |
| ABOrchestrator.OtherCandidate | internal/model/ab.go:96-106 | The loop finds the first candidate with another task id, or none exists |
| ABOrchestrator.FindRepairSuccessor | internal/daemon/ab_selection.go:576-583 | Finds a non-candidate successor of the canonical whenever the lineage has one |
| ABOrchestrator.CancelLosers | internal/daemon/ab_selection.go:942-947 | The loop over the candidates cancels exactly the superseded tasks and records the reason of each |
| ABOrchestrator.Terminate | internal/daemon/ab_selection.go:879-995 | The mutation of the loaded state equals the one-write resolution: group fields, tasks, reasons, lineage |
| ABOrchestrator.Orchestrator.MarkPendingWinner | internal/daemon/ab_selection.go:755-779 | Compare-and-swap: refuses a finished group or another decision, and writes at most once |
| ABOrchestrator.Orchestrator.ResolveGroup | internal/daemon/ab_selection.go:879-995 | Performs exactly the writes of the resolution trace: one state write, then one reward at a time |
| ABOrchestrator.Orchestrator.DegradeWithRepair | internal/daemon/ab_selection.go:788-837 | Performs exactly the writes of the degrade trace for every outcome of repair creation |
| ABOrchestrator.Orchestrator.FinalizeWinner | internal/daemon/ab_selection.go:719-750 | Performs exactly the writes of the finalize trace, in that order |
| ABOrchestrator.Orchestrator.CommitAll | internal/daemon/ab_selection.go:638-646 | Commits the finished candidates in order and stops at the first failure |
| ABOrchestrator.Orchestrator.SelectAndResolve | internal/daemon/ab_selection.go:550-711 | Performs exactly the writes of the selection trace on every branch |
| ABOrchestrator.Orchestrator.Decide | internal/daemon/ab_selection.go:609-711 | Enters selection, or applies the selection timeout, exactly as the trace says |
| ABOrchestrator.Orchestrator.CancelTimedOut | internal/daemon/ab_selection.go:342-355 | Performs exactly the writes of the timeout trace: nothing for a terminal candidate, the state alone without a queue row, else the pending row and then the state |
| ABOrchestrator.Orchestrator.CancelPendingRow | internal/daemon/ab_selection.go:507-546 | Compare-and-swap: a row that is no longer pending causes no write; a pending one is cancelled in the queue first and in the state second; no other row status is overwritten |
| ABOrchestrator.Orchestrator.CancelInState | internal/daemon/ab_selection.go:365-387 | Compare-and-swap: afterwards the candidate is terminal, no terminal status or its reason was overwritten, and a terminal entry causes no write at all |
| ABOrchestrator.Orchestrator.ConsumeRetryEnqueueFailed | internal/daemon/reconcile/r1_result_queue_retry.go:98-210 | Performs exactly the writes of the reconcile trace: clear, dead-letter after three attempts, fail without the canonical's row, count, or queue and clear |
| ABOrchestrator.Orchestrator.ProcessGroup | internal/daemon/ab_selection.go:268-360 | One scan performs exactly the durable writes of the scan trace, so every cut of it is a cut of a safe trace |
| PhaseSafety.ScanIsStepAll | internal/daemon/dependency_resolver.go:237-340 | Check, sort, deduplicate, gate and write, one after the other, equal one simultaneous step of every phase against one view |
| PhaseSafety.EmittedExactly | internal/daemon/dependency_resolver.go:257-340 | Exactly the due transitions are emitted, at most one per phase |
| PhaseSafety.MovesAreLegal | internal/model/status.go:558-587 | A scan changes a phase by at most one move, always one the validator accepts, and nothing else about a phase that keeps its status |
| PhaseOutcomes.ActiveExactly | internal/daemon/dependency_resolver.go:357-463 | An active phase fails if and only if some required task failed, is cancelled if and only if none failed and some was cancelled, completes if and only if neither and every task is readable and ended and its merge is recorded, and stays active otherwise |
| PhaseOutcomes.CascadeExactly | internal/daemon/dependency_resolver.go:505-535 | A pending phase is cancelled with the first dependency as reason that had ended badly, or that its own tasks end badly in this scan |
| PhaseOutcomes.ActivationExactly | internal/daemon/dependency_resolver.go:467-501 | Without such a dependency a pending phase is activated, with a new fill deadline, if and only if every dependency was complete or is completed by this scan |
| PhaseOutcomes.RecoveryExactly | internal/daemon/dependency_resolver.go:549-587 | A cancelled phase returns to pending without its reason if and only if a cascade cancelled it and that dependency was live and is not ended badly by this scan |
| PhaseOutcomes.OthersExactly | internal/daemon/dependency_resolver.go:259-301 | A phase waiting to be filled times out if and only if its deadline has passed; completed, failed, timed-out and filling phases rest |
| PhaseOutcomes.PlanOrder | internal/daemon/queue_scan_phase_a_phase.go:16-39 | Failures are written first, then cancellations by tasks, cascades, timeouts, completions, activations and recoveries |
| PhaseOutcomes.LegalMovesAre | internal/model/status.go:319-342 | The validator accepts exactly these fourteen moves |
| PhaseSafety.ActivatedExactly | internal/daemon/dependency_resolver.go:467-501 | A pending phase is activated if and only if every dependency exists and is complete, or completes in this scan with its merge recorded |
| PhaseSafety.CascadedExactly | internal/daemon/dependency_resolver.go:505-535 | A pending phase is cancelled if and only if some dependency is dead or is failed or cancelled by its required tasks in this scan |
| PhaseSafety.RecoveredExactly | internal/daemon/dependency_resolver.go:549-587 | A cancelled phase recovers if and only if a cascade cancelled it and the dependency named then is live again as this scan sees it |
| PhaseSafety.SeenExactly | internal/daemon/dependency_resolver.go:259-301 | A gated completion is invisible to passes 2 and 3; failures and cancellations of active phases are visible at once |
| PhaseSafety.ListOrderIrrelevant | internal/daemon/dependency_resolver.go:237-340 | Listing the phases in another order emits the same transitions and yields the same phases |
| PhaseSafety.WritesJustified | internal/daemon/queue_scan_phase_a_phase.go:57-140 | Wherever a crash cuts a scan, each write made was justified by what was on disk just before it: activation by completed dependencies, cascade by a dead one, recovery by a live one or one timed out in this scan, completion by the recorded merge |
| PhaseFailures.WritesJustifiedExactly | internal/daemon/queue_scan_phase_a_phase.go:93-97 | When status writes fail and the scan goes on, a write made is justified by the disk at that moment if and only if no failed write is one that it relies on: no dependency of an activated phase was about to complete, and the dependency named by a cascade was dead before |
| PhaseFailures.ActivatedAhead | internal/daemon/queue_scan_phase_a_phase.go:93-97 | Whenever a phase is activated because a dependency completes in the same scan, a failed write of that dependency makes the activation premature |
| PhaseSafety.SortedSound | internal/daemon/queue_scan_phase_a_phase.go:16-39 | The stable sort keeps the transitions and puts every cause before the cascade it triggers |
| PhaseSafety.FirstOfEachKeepsAll | internal/daemon/queue_scan_phase_a_phase.go:43-54 | Deduplication removes nothing, since no phase has two transitions |
| PhaseOutcomes.FirstOfEachExactly | internal/daemon/queue_scan_phase_a_phase.go:43-54 | Of every phase that is named, exactly the first transition is kept |
| PhaseSafety.PlanExactly | internal/daemon/queue_scan_phase_a_phase.go:57-98 | What is applied is exactly what is due and passes the merge gate, in sorting order |
| PhaseSafety.DependencyOnDisk | internal/daemon/queue_scan_phase_a_phase.go:57-125 | When a transition is written, every transition with a smaller key has been written and none with a larger one |
| PhaseConvergence.ReachesFixpoint | internal/daemon/dependency_resolver.go:237-340 | For an acyclic graph with tasks, merges and clock frozen, four scans per level of the graph reach a state that no scan changes |
| PhaseConvergence.RanksSettle | internal/daemon/dependency_resolver.go:237-340 | After four scans per level everything below that level has settled |
| PhaseConvergence.ScanSpendsEnergy | internal/daemon/dependency_resolver.go:505-587 | Once its dependencies have settled, each move of a phase uses up one of at most four: cascade and recovery cannot alternate |
| PhaseConvergence.EnergyDrops | internal/daemon/dependency_resolver.go:549-587 | Every move of a phase against a fixed view lowers its bound on remaining moves |
| PhaseConvergence.StepIsLocal | internal/daemon/dependency_resolver.go:467-587 | A phase's step depends on other phases only through its own dependencies |
| PhaseConvergence.PendingWaitsForWork | internal/daemon/dependency_resolver.go:467-535 | No deadlock: in a fixpoint a pending phase waits, along pending dependencies, for a phase being worked on or for a dependency that does not exist |
| PhaseConvergence.CascadeLostBetweenWrites | internal/daemon/queue_scan_phase_a_phase.go:100-125 | Status and cascade reason are two writes: cut between them the cancelled phase moves again if and only if a stale reason names a live dependency, and without one never; with both writes it recovers exactly when the dependency that caused it is seen live |
| PhaseResolver.ActivePhaseCompletion | internal/daemon/dependency_resolver.go:357-463 | The loop over the observed tasks yields failed, cancelled or completed by required failures, required cancellations and settled tasks, in that precedence; an unreadable task blocks completion only |
| PhaseResolver.PendingPhaseCascade | internal/daemon/dependency_resolver.go:505-535 | Names the first dead dependency in list order, if there is one |
| PhaseResolver.PendingPhaseActivation | internal/daemon/dependency_resolver.go:467-501 | Activates exactly when all dependencies are known and completed |
| PhaseResolver.PassOne | internal/daemon/dependency_resolver.go:259-301 | Emits the active and expired phases in order and leaves the lookup map showing what later passes may see |
| PhaseResolver.PassTwo | internal/daemon/dependency_resolver.go:303-319 | Emits cascades before activations for the pending phases in order |
| PhaseResolver.PassThree | internal/daemon/dependency_resolver.go:321-337 | Emits recoveries of cascade-cancelled phases in order |
| PhaseResolver.CheckPhaseTransitions | internal/daemon/dependency_resolver.go:237-340 | The three loops emit exactly the specified list |
| PhaseResolver.Deduplicate | internal/daemon/queue_scan_phase_a_phase.go:43-54 | The loop with its seen set keeps the first transition of each phase |
| PhaseResolver.NextIsAccepted | internal/plan/state_reader.go:309-327 | Every transition of the plan is accepted by the validator when its turn comes |
| PhaseResolver.CommandPhases.ApplyPhaseTransition | internal/plan/state_reader.go:309-364 | Refuses exactly unknown phases and illegal moves; otherwise changes status and, on entering awaiting_fill, the deadline of that phase alone |
| PhaseResolver.CommandPhases.SetPhaseCancelledReason | internal/plan/state_reader.go:411-439 | Sets or clears the cascade reason of that phase alone |
| PhaseResolver.CommandPhases.StepPhaseTransitions | internal/daemon/queue_scan_phase_a_phase.go:57-140 | One scan leaves exactly the phases of the scan function |
| PaneFencing.RunFenced | internal/agent/executor_core.go:566-763 | Over every run of dispatches that name their task, with crashes, late launches, respawns and failures anywhere: every nudge reaches an agent whose last envelope was that task's with no confirmed /clear since, in the right directory, and every paste finds @run_on_main equal to the request |
| PaneFencing.DispatchFenced | internal/agent/executor_core.go:566-633 | One dispatch keeps the fence and pastes nothing unsafe, whatever fails and whenever the agent dies |
| PaneFencing.NudgeFenced | internal/agent/executor_core.go:728-763 | The nudge path keeps the fence and pastes only into the matching conversation |
| PaneFencing.FirstDispatchFenced | internal/agent/executor_core.go:810-826 | Stamping after a first delivery keeps the fence even when the agent died since |
| PaneFencing.ClearAndDeliverFenced | internal/agent/executor_core.go:829-868 | Clearing, delivering and stamping keep the fence, and a failed /clear closes it |
| PaneFencing.WorkingDirFenced | internal/agent/process_manager.go:115-205 | Respawning into another directory keeps the fence at every failure exit |
| PaneDirectories.EnvelopesLand | internal/agent/process_manager.go:115-205 | Whatever fails and whatever happens to the pane, an envelope lands exactly in the requested directory, or where the last respawn while settling or before the launch moved the pane; a pane kept in place lands where it really was |
| PaneDirectories.RunInPlaceExactly | internal/agent/executor_core.go:566-633 | Over every run all envelopes are in the directory that their request names if and only if every pasting dispatch lands there |
| PaneDirectories.RunTracked | internal/agent/process_manager.go:115-205 | Over every run without foreign respawns the tracked directory stays the real one |
| PaneDirectories.RunInPlace | internal/agent/process_manager.go:115-205 | In such runs, with no eviction between settling and launch either, every envelope lands in the requested directory |
| PaneDirectories.DriftTracksExactly | internal/agent/process_manager.go:233-256 | Disturbances leave the tracked directory true if and only if the pane was evicted, was not tracked, or ended up there |
| PaneDirectories.EvictedThenElsewhere | internal/agent/process_manager.go:57-98 | A pane evicted before the agent is relaunched gets its envelope in the project root |
| PaneFencing.DriftEffect | internal/agent/process_manager.go:233-256 | Crashes, late launches, respawns and evictions keep the fence, and an undisturbed agent is the same agent |
| PaneFencing.FenceNeedsTask | internal/agent/executor_core.go:771-826 | A delivered first dispatch keeps the fence if and only if it names its task or finds the marker empty |
| PaneFencing.UntaggedThenWrongNudge | internal/agent/executor_core.go:771-778 | Without a task id on a pane whose marker names t, a later nudge for t enters the wrong conversation |
| PaneFencing.DeliveredIsResumable | internal/agent/executor_core.go:653-706 | After a successful delivery the same task can be resumed as long as the agent lives on in the task's directory |
| PaneOutcomes.DispatchTable | internal/agent/executor_core.go:566-633 | An undisturbed dispatch that resumes nothing pastes exactly one envelope if and only if every operation it needs goes well; cleared exactly when the agent is known to be ready; in the right directory and routing mode; and after success the pane is ready, marked and tracked for this task |
| PaneOutcomes.ResumeTable | internal/agent/executor_core.go:728-763 | A resumable undisturbed dispatch nudges the task's agent exactly once if and only if the pane still shows the task when the nudge is due, and changes only the routing mode |
| PaneOutcomes.NothingPasted | internal/agent/executor_core.go:566-868 | A dispatch that pastes nothing claims no conversation, no task and no readiness that was not there before |
| PaneOutcomes.RestartForgotten | internal/agent/executor_core.go:653-706 | A restart that the preflight detects clears the readiness, however the dispatch ends |
| PaneOutcomes.InterruptedIsNotResumed | internal/agent/message_deliverer.go:716-818 | After a confirmed /clear no request resumes in the pane until a task is delivered again |
| PaneOutcomes.LateLaunchIsFresh | internal/agent/process_manager.go:57-98 | An agent that comes up after its launch was given up has an empty conversation and is not known to be ready |
| PaneFencing.DispatchTracks | internal/agent/executor_core.go:566-633 | Whatever fails: an envelope lands in an empty conversation if and only if the variables know the conversation when clear_ready is read; and a dispatch loses track exactly by an unconfirmed first paste or an unconfirmed /clear while the agent keeps its conversation |
| PaneFencing.UndisturbedFreshExactly | internal/agent/executor_core.go:829-868 | An undisturbed dispatch that pastes reaches an empty conversation if and only if the conversation was known before the call |
| PaneFencing.RunFreshExactly | internal/agent/executor_core.go:566-763 | Over every run, all envelopes land in empty conversations if and only if each meets a pane whose conversation the variables know |
| PaneFencing.KnownThroughoutExactly | internal/agent/executor_core.go:810-868 | A run that starts known stays known throughout if and only if no dispatch loses track, and then every envelope is fresh |
| PaneFencing.RunFresh | internal/agent/executor_core.go:829-868 | In particular, in runs without an unconfirmed paste or /clear every envelope lands in an empty conversation |
| PaneFencing.UnconfirmedThenMixed | internal/agent/executor_core.go:810-826 | An unconfirmed first dispatch leaves clear_ready unset, so the next task is pasted behind it without a /clear |
| PaneFencing.FailedClearThenMixed | internal/agent/executor_core.go:829-868 | A /clear that is not confirmed resets clear_ready and leaves the conversation, so the next task is pasted behind it without a /clear |
| PaneExecutor.Executor.ProbeResume | internal/agent/executor_core.go:653-706 | The probe in its order of checks decides resumability and resets the variables exactly on a detected restart |
| PaneExecutor.Executor.EnsureClaudeRunning | internal/agent/process_manager.go:57-98 | Resets clear_ready before every relaunch |
| PaneExecutor.Executor.EnsureDir | internal/agent/process_manager.go:115-205 | Keeps, respawns or gives up exactly as specified, forgetting the tracked directory on failure |
| PaneExecutor.Executor.SendAndConfirm | internal/agent/message_deliverer.go:136-222 | Pastes only to a running agent, records the envelope, and succeeds only when the submission was confirmed |
| PaneExecutor.Executor.ExecResumeNudge | internal/agent/executor_core.go:728-763 | Stamps, waits, probes again, and only then pastes |
| PaneExecutor.Executor.ExecFirstDispatch | internal/agent/executor_core.go:810-826 | Sets clear_ready with the process id and stamps the task only after a confirmed delivery |
| PaneExecutor.Executor.ExecClearAndDeliver | internal/agent/executor_core.go:829-868 | Delivers only after a confirmed /clear, and resets clear_ready after a failed one |
| PaneExecutor.Executor.ExecWithClear | internal/agent/executor_core.go:566-633 | The whole dispatch does to the pane exactly what the specification says |
| PaneExecutor.Executor.ExecFullDispatch | internal/agent/executor_core.go:599-633 | Stamps @run_on_main before the agent is ensured, and chooses first dispatch or /clear by clear_ready after the restart check |
| PaneExecutor.Executor.Serve | internal/agent/executor_core.go:566-763 | Serving any sequence of named requests keeps the fence and makes only safe pastes |
| BloomTable.PhaseCManager.RecordTaskBloom | internal/daemon/phase_c_bandit.go:41-79 | The live contents change exactly as a bounded FIFO map records: refresh in place, else evict the oldest at 4096 and append; order list at most 8192 |
| BloomTable.PhaseCManager.ConsumeTaskBloom | internal/daemon/phase_c_bandit.go:85-97 | Returns the recorded level or 0 and removes exactly that record |
| BloomTable.PhaseCManager.Evict | internal/daemon/phase_c_bandit.go:57-63 | Skips stale entries and removes exactly the oldest live record when the table is full |
| BloomTable.PhaseCManager.Compact | internal/daemon/phase_c_bandit.go:64-75 | In-place compaction, write index behind read index, loses no live entry |
| BloomTable.Locate | internal/daemon/phase_c_bandit.go:18-30 | A live generation occurs once in the order list, and nothing else in the list concerns its task |
| BloomTable.Compacted | internal/daemon/phase_c_bandit.go:64-75 | Filtering the order list keeps the live records, their order and the generation order |
| BloomTable.OldestDropped | internal/daemon/phase_c_bandit.go:57-63 | Dropping a current head drops the oldest live record and nothing else |
| BloomTable.Refreshed | internal/daemon/phase_c_bandit.go:50-56 | Re-recording a live task keeps its place |
| BloomTable.Retained | internal/daemon/phase_c_bandit.go:41-97 | A recorded level survives operations on other tasks until 4096 places have been used up |
| BloomTable.PutExactly | internal/daemon/phase_c_bandit.go:41-79 | Recording sets the level of its task; no other level changes, except that a new task in a full table drops the oldest |
| BloomTable.TakeExactly | internal/daemon/phase_c_bandit.go:85-97 | Taking removes the level of its task and of no other |
| BloomTable.LevelExplained | internal/daemon/phase_c_bandit.go:32-97 | Over every run a level that is there is the one recorded last for the task and not taken since |
| BloomTable.RecordThenConsume | internal/daemon/phase_c_bandit.go:32-97 | Round trip: a newly recorded level is returned after any 4095 operations on other tasks |
| BloomTable.ApplyKeepsWellFormed | internal/daemon/phase_c_bandit.go:11-16 | At most 4096 records, one per task, each with a bucket |
| ProcessTree.SumDescendantCpuSeconds | internal/agent/process_sampler.go:134-158 | Terminates on every table and returns the sum, over the processes reachable from the root, of each one's last row |
| ProcessTree.BuildIndexes | internal/agent/process_sampler.go:135-140 | The child index lists every row of a parent; the pid index keeps the last row |
| ProcessTree.CpuOfOneMore | internal/agent/process_sampler.go:142-154 | Visiting one more process adds the cpu time of its last row, or nothing when it has none |
| ProcessTree.FrontierVisit | internal/agent/process_sampler.go:145-156 | Visiting a process queues only tree members and all its children |
| ProcessTree.FrontierDone | internal/agent/process_sampler.go:145-157 | When the queue is empty the visited set is exactly the reachable tree, cycles included |
| ProcessTree.LastRowExactly | internal/agent/process_sampler.go:135-140 | Of several rows of one process the last one counts |
| Debounce.NoStarvation | internal/daemon/debounce_controller.go:70-104 | In every interleaving with punctual timers, a call that took the lock is followed within the 5 s cap plus one delay by the start of a scan no earlier than the moment the call looked |
| Debounce.OneScan | internal/daemon/debounce_controller.go:126-131 | At most one scan runs at a time in every reachable state |
| Debounce.StepKeepsInv | internal/daemon/debounce_controller.go:70-173 | Every atomic step keeps the deadline of every unserved call |
| Debounce.RejectedWhileScanning | internal/daemon/debounce_controller.go:71-74 | A call is turned away exactly while a scan is running |
| Debounce.TimeCanPass | internal/daemon/debounce_controller.go:101-103 | Punctual timers never stop time: a callback can run, a timer can fire, or time can pass |
| Debounce.ScanAfterLockExactly | internal/daemon/debounce_controller.go:70-104 | Every continuation past the limit has a scan start after the lock if and only if no scan is running when the lock is taken |
| Debounce.IdleLockIsFollowed | internal/daemon/debounce_controller.go:76-104 | A call that locks while no scan runs is followed by a start between its lock and the limit, in every continuation |
| Debounce.RunningLockIsNotFollowed | internal/daemon/debounce_controller.go:126-131 | From every state of the invariant with a scan running there is a continuation in which a scan that outlasts the limit has every callback skipped: it ends with no start after the lock and nothing pending |
| Debounce.LockedAfterTheScanStarted | internal/daemon/debounce_controller.go:71-104 | Such a lock is reachable from the initial state: a call looks, another call's scan starts, and the first call locks with no scan owed to it |
| DebounceTimer.LockArms | internal/daemon/debounce_controller.go:86-103 | In every interleaving a call that locks arms the timer for one delay later, or for at once if some call of the window, counted since the last reset, locked 5 s ago or earlier |
| DebounceTimer.WindowExactly | internal/daemon/debounce_controller.go:80-98 | The recorded first trigger is the earliest call since the last reset |
| DebounceTimer.FiresExactly | internal/daemon/debounce_controller.go:101-103 | The timer fires exactly at the moment for which the last call armed it |
| DebounceTimer.NeverEarly | internal/daemon/debounce_controller.go:86-103 | The timer never fires less than the delay after a call, unless the window was at the cap when the last call locked |
| DebounceTimer.SecondCallDefers | internal/daemon/debounce_controller.go:86-103 | A second call shortly after the first puts the scan off by a whole delay |
| Debounce.DebounceController.LookForScan | internal/daemon/debounce_controller.go:71-74 | Accepts exactly when no scan is running |
| Debounce.DebounceController.ArmTimer | internal/daemon/debounce_controller.go:76-103 | Opens the window if it is closed and arms the timer with no delay once the window is 5 s old |
| Debounce.DebounceController.ClaimScan | internal/daemon/debounce_controller.go:126-131 | Wins exactly when no scan is running, and then serves every accepted call |
| Debounce.DebounceController.ResetWindow | internal/daemon/debounce_controller.go:139-153 | Closes the debounce window while the scan is marked running |
| DeliveryConfirm.ClearConfirmationPoller.Poll | internal/agent/message_deliverer.go:923-988 | After any history of captures the answer is: give up after three failed captures in a row; confirm exactly on two equal clean captures with a change or an empty pane, or on three without a reference |
| DeliveryConfirm.TracksDecides | internal/agent/message_deliverer.go:975-980 | The poller's fields decide exactly what the whole history says |
| DeliveryConfirm.CleanTracked | internal/agent/message_deliverer.go:940-965 | stableCount stays the length of the longest run of clean captures with equal text at the end |
| DeliveryConfirm.VisibleTracked | internal/agent/message_deliverer.go:940-950 | A visible /clear ends the stable run and keeps a recorded change |
| DeliveryConfirm.FailedTracked | internal/agent/message_deliverer.go:925-933 | A failed capture forgets stability and change |
| DeliveryConfirm.PollUntilTimeout | internal/agent/message_deliverer.go:901-919 | Confirms, gives up, is interrupted or runs out of its window exactly as the first decisive prefix of the captures says |
| DeliveryConfirm.OneAnswer | internal/agent/message_deliverer.go:901-919 | A decisive capture leaves exactly one answer |
| DeliveryConfirm.SteadyTextProves | internal/agent/message_deliverer.go:940-988 | The same clean text over and over proves the /clear at the second capture if it differs from before or is empty, at the third without a reference, and else never |
| DeliveryConfirm.FailuresGiveUp | internal/agent/message_deliverer.go:923-933 | Exactly three failed captures in a row make the poller give up |
| DeliveryConfirm.ClearAndConfirm | internal/agent/message_deliverer.go:716-818 | The first attempt that does not make way for the next one decides the end: confirmed if and only if its captures prove the /clear, given up, or cancelled before it or in its window; with none, send failed or not confirmed by the last attempt; and the number of sends is exact in each case |
| DeliveryConfirm.OneWay | internal/agent/message_deliverer.go:716-818 | Every attempt ends the loop in exactly one way or makes way for the next one |
| DeliveryConfirm.ConfirmSubmitted | internal/agent/message_deliverer.go:320-426 | The probe reports submitted or resubmitted only for a sample without placeholder and error banner that shows activity or growth over the baseline; resubmitted exactly when an Enter was resent; one resend per placeholder |
| DeliveryConfirm.BaselineOrigin | internal/agent/message_deliverer.go:320-426 | The baseline is the first sample after the last Enter, or without one the capture before the paste, or else the first sample |
| CancelSafety.NeverOverwrites | internal/daemon/cancel_handler.go:319-351 | Whatever moves happen between collecting and applying, a terminal status, another epoch or another command's task is never overwritten |
| CancelSafety.SurvivorsAreNewer | internal/daemon/cancel_handler.go:269-351 | A task of the command outlives a scan only under a lease newer than the one collected |
| CancelSafety.OneScanSettles | internal/daemon/queue_scan_phase_a.go:167-211 | With dispatch blocked one scan makes every task of the command terminal, and the command has a task afterwards if and only if it had one |
| CancelSafety.ScanConserved | internal/daemon/cancel_handler.go:127-164 | A complete scan writes exactly the results of the rows that it cancels, whatever happens in between |
| CancelSafety.ShownExactly | internal/daemon/cancel_handler.go:366-406 | The rows call for one result for each cancelled task of a worker, and for none else |
| CancelCrashes.RunExactly | internal/daemon/queue_scan_phase_c.go:146-157 | Over every run with scans cut between their queue and result writes, the results at the end are exactly those the queues call for if and only if nothing fell into a cut: no pending task with its result written and its queue not, no interrupted task with its queue written and its result not |
| CancelCrashes.Account | internal/daemon/queue_scan_phase_c.go:146-157 | Over every such run results and queues balance up to exactly what the cuts left extra and missing |
| CancelCrashes.RunApart | internal/daemon/queue_scan_phase_a.go:167-184 | What the cuts left extra never coincides with what they left missing, so neither makes up for the other |
| CancelCrashes.HarmlessExactly | internal/daemon/queue_scan_phase_a.go:167-184 | A cut leaves nothing extra and nothing missing if and only if no task is due in a file on one side of it only |
| CancelCrashes.MissingForever | internal/daemon/queue_scan_phase_c.go:146-157 | A result left out by a crash after the queue flush is never written, although its task stays cancelled |
| CancelCrashes.ExtraForever | internal/daemon/queue_scan_phase_a.go:167-184 | A result written before a crash stays: once more than its task calls for |
| CancelCrashes.WrittenAgain | internal/daemon/cancel_handler.go:366-406 | After a crash between results and queue flush the next scan writes every such result a second time |
| CancelCrashes.CrashInputs | internal/daemon/queue_scan_phase_a.go:167-184 | Concrete inputs of both: one pending task, and one running task |
| CancelCrashes.CompleteCuts | internal/daemon/queue_scan_phase_c.go:75-158 | A phase cut behind its last write has done what the complete phase does |
| CancelCrashes.RunExact | internal/daemon/cancel_handler.go:127-164 | Over every run of complete scans, synthetic results are exactly those of the cancelled tasks in worker queues, once each |
| CancelCrashes.ReportedNeverSynthetic | internal/daemon/cancel_handler.go:319-351 | After every harmless run no task has both its worker's result and a synthetic one, and every cancelled task of a worker has exactly one |
| CancelSafety.ScanRow | internal/daemon/queue_scan_phase_c.go:75-158 | What becomes of one row: cancelled if and only if it was collected, is not terminal by now, and has the collected epoch |
| CancelSafety.MarksExactly | internal/daemon/cancel_handler.go:269-310 | A mark is collected for exactly the running tasks of the command, with their epoch |
| CancelSafety.InterruptsExactly | internal/daemon/cancel_handler.go:269-310 | Exactly the workers that hold a lease on a running task of the command are interrupted |
| CancelSafety.MovedRow | internal/daemon/cancel_handler.go:319-351 | Reports, releases, redispatches and dead-letters never lower an epoch or leave a terminal status |
| CancelHandler.Handler.CancelPendingTasks | internal/daemon/cancel_handler.go:127-164 | Blocks dispatch, cancels exactly the pending tasks of the command and makes one result due for each |
| CancelHandler.Handler.CollectCancelInterruptItems | internal/daemon/cancel_handler.go:269-310 | Collects marks and interrupts without changing a task |
| CancelHandler.Handler.ApplyCancelMark | internal/daemon/cancel_handler.go:319-351 | Applies exactly when the row is still the collected dispatch, running or released |
| CancelHandler.Handler.ApplyCancelMarks | internal/daemon/queue_scan_phase_c.go:98-125 | Applies the marks in order to the queue as it is by now |
| CancelHandler.Handler.AutoCompleteCancelledCommand | internal/daemon/cancel_handler.go:179-222 | Cancels the command if and only if it is not terminal, has a task, and all its tasks are terminal |
| CancelHandler.Handler.CancelCommand | internal/daemon/queue_scan_phase_a.go:366-424 | With dispatch blocked, the cancellation of a command ends in a cancelled command if and only if it has a task |
| ContinuousMode.RunExplained | internal/daemon/continuous_handler.go:59-210 | Over every sequence of results state and notifications are exactly what the counted results say: iteration their number, failures the trailing failed run, status and reason by the precedence failure stop, pause, iteration cap, and one notification if and only if the loop ended and it could be queued |
| ContinuousMode.Bounds | internal/daemon/continuous_handler.go:127-157 | Running means below both caps, and without failures under pause-on-failure; the iteration never passes a positive maximum; at most one notification |
| ContinuousMode.StatusExactly | internal/daemon/continuous_handler.go:95-157 | The loop is paused if and only if the last counted result failed under pause-on-failure below the failure cap, and stopped if and only if the failure cap is reached, or the iteration cap without a pause |
| ContinuousMode.Absorbing | internal/daemon/continuous_handler.go:101-104 | A paused or stopped loop ignores everything |
| ContinuousMode.ContinuousHandler.CheckAndAdvance | internal/daemon/continuous_handler.go:59-210 | One call advances the world exactly as specified, and not at all when it is not running, repeats the last command, or cannot be saved |
| BanditWarmup.BucketWarmImpliesGlobalWarm | internal/daemon/model_selector.go:126-146 | Over every run of rewards, saves and restarts with changed model sets, a warmed-up bucket implies a warmed-up global selector |
| BanditWarmup.RunDominated | internal/daemon/model_selector.go:203-276 | Per arm, the pulls of all buckets together never exceed the global pulls |
| BanditWarmup.LoadDominated | internal/daemon/model_selector.go:203-232 | Restoring a snapshot into freshly configured selectors keeps that bound |
| BanditWarmup.RewardExactly | internal/daemon/model_selector.go:268-276 | A reward adds one pull of its registered arm to the global selector and to the bucket of its level, and nothing else |
| BanditWarmup.RestartRestores | internal/daemon/model_selector.go:203-232 | After a save, any rewards and a restart every configured model has exactly the saved pulls, globally and in each bucket, and a new model none |
| BanditWarmup.RecordDominated | internal/daemon/model_selector.go:268-276 | Every reward keeps that bound |
| BanditWarmup.BanditModelSelector.CheckWarmedUp | internal/daemon/model_selector.go:131-146 | The two loops decide exactly: enough pulls in all and enough of every arm |
| BanditWarmup.BanditModelSelector.RecordResult | internal/daemon/model_selector.go:268-276 | Feeds the global selector and the bucket of a known difficulty, and nothing for an unknown model |
| BanditWarmup.BanditModelSelector.LoadState | internal/daemon/bandit/ucb1.go:144-161 | Overwrites exactly the registered arms that the snapshot has, selector by selector |
| WorkerFreeze.ComputeFreeze | internal/daemon/ab_freeze.go:23-82 | Freezes exactly the workers that hold a tagged row whose race is not known to be over, and admits exactly those rows' tasks |
| WorkerFreeze.NoForeignDispatch | internal/daemon/queue_scan_collect.go:138-147 | In one scan, a racing worker is dispatched a task if and only if it is a task of a race it takes part in |
| WorkerFreeze.FinishedIsFree | internal/daemon/ab_freeze.go:48-82 | A worker whose tagged rows all belong to races that are readably over may receive anything |
| WorkerFreeze.UnknownIsFrozen | internal/daemon/ab_freeze.go:48-82 | One tagged row of an unreadable or unresolved race keeps foreign tasks away and lets its own task through |
| WorkerFreeze.NeverForeignDispatch | internal/daemon/queue_scan_collect.go:138-147 | Over every run: from the tagging of a candidate row until its race is over, only tasks of races it takes part in are dispatched to its worker |
| WorkerFreeze.StaysRacing | internal/daemon/ab_freeze.go:23-82 | Over every run a tagged row keeps its worker racing as long as its race is not over |
| WorkerFreeze.ResolvedKeys | internal/daemon/ab_freeze.go:48-66 | A row's composite key is in the resolved set exactly when its command state is readable and its group is finished |
| WorkerFreeze.KeyDetermines | internal/daemon/ab_freeze.go:60-71 | The concatenated key determines command and group, because command ids contain no slash |
| WorkerFreeze.CollectRows | internal/daemon/ab_freeze.go:24-46 | Collects exactly the tagged rows with their workers |

## Left out

- Files, YAML, tmux, git, sockets and logging: durable writes are atomic updates, external operations are arbitrary outcomes.
- `repairOrphanABRows` (internal/daemon/ab_selection.go:393-439): rows without a durable group; it may merge several branches, so the single-merge claim does not cover it.
- The selection evidence, the audit record and the weak-verifier signal of a resolution.
- The other effects of wiring a retry: phase membership, required-task lists and rewritten dependencies.
- ABRepairs.RepairLostExactly: `tryClearPhantomTasks` (internal/daemon/queue_scan_phase_a_worktree_cleanup.go:254-361) and the rebuild of a plan end the state entry of a repair that no queue holds; they queue nothing and clear no mark, and are steps of the surroundings here.
- The dead-letter archive of the reconciler, and its marks for other retries than the group's repair.
- How the lineage-aware task status is computed, and the escalation of a merge gate that stays shut.
- Planner steps on phases (fill, reopen, stall cleanup) and the signals a transition emits.
- `IsTaskBlocked` and `CheckDependencyFailure`: single loops over one task's dependencies.
- Pane: the planner and orchestrator delivery modes, busy detection and prompt readiness, which are arbitrary outcomes; the refusal of directories with control characters; symbolic links in directories.
- PaneFencing.RunFenced: speaks of confirmed /clears only; an interrupt whose /clear is not confirmed leaves the marker, although the /clear may have been executed.
- Normalization and hashing of captures, and the generic-runtime submit probe.
- DeliveryConfirm.ClearAndConfirm: the backoff delays between attempts are not modelled, and a cancellation during one counts as one before the next attempt.
- Debounce: `Stop`, panics as such (they end the scan like a return) and shutdown checks.
- Cancel: the task-state entry and the plan status written beside the queue row, and choosing between state and queue as the source of the request.
- CancelCrashes.RunExactly: what the readers of the result files make of a second result for the same task.
- CancelSafety.OneScanSettles: tasks enqueued for the command after the scan has collected its marks are met by the next scan.
- Continuous mode: the reconciliation of a result with the plan status, and the stall watchdog.
- Bandit: the average rewards and the UCB1 score, which are floating point, and selectors without buckets.
- The dead-letter, backoff, path-overlap and env-list helpers: computations on one value that no protocol above depends on.
