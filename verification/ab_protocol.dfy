/**
 A/B candidate race: the durable state of one candidate group and the exact
 sequence of durable writes one daemon scan performs on it.

 A scan is described by its *trace*: the list of disk states, one per durable
 write (command-state write, queue write, git commit, git intake).  A daemon
 crash, or a failed state write (after which the code always returns), leaves
 the disk in the state of some prefix of the trace, so a property proved for
 every element of every trace holds at every crash point.
 */
module ABProtocol {
  import opened Common

  type TaskId = string
  type Branch = string

  datatype Status =
    | Unset  // no entry in the state map
    | Pending
    | InProgress
    | Extended(name: string)  // planned, ready, dispatched, ...: neither terminal nor pending
    | Completed
    | Failed
    | Cancelled
    | DeadLetter
    | Aborted

  predicate IsTerminal(s: Status) {
    s.Completed? || s.Failed? || s.Cancelled? || s.DeadLetter? || s.Aborted?
  }

  datatype GroupStatus = Racing | Selecting | Resolved | Degraded

  datatype Candidate = Candidate(taskId: TaskId, workerId: string, branch: Branch, model: string, bloom: int)

  datatype Group = Group(
    status: GroupStatus,
    canonical: TaskId,
    candidates: seq<Candidate>,
    pending: Option<TaskId>,
    winner: Option<TaskId>,
    createdAt: Option<int>,  // None: unparseable timestamp
    updatedAt: Option<int>)

  datatype Reason =
    | SupersededByWinner(winner: TaskId)
    | SupersededByRetry(retry: TaskId)
    | AbLoser
    | AbDegraded
    | AbTimeout
    | AbFanoutIncomplete

  datatype Reward = Reward(model: string, bloom: int, win: bool)

  /** Everything that survives a crash, for one command and one group. */
  datatype Disk = Disk(
    group: Group,
    tasks: map<TaskId, Status>,      // CommandState.TaskStates
    reasons: map<TaskId, Reason>,    // CommandState.CancelledReasons
    lineage: map<TaskId, TaskId>,    // CommandState.RetryLineage: successor -> predecessor
    queue: map<TaskId, Status>,      // worker queue rows
    committed: set<TaskId>,          // candidate worktrees whose work is committed
    intaken: set<Branch>,            // candidate branches merged into a worker branch
    wired: set<TaskId>,              // repair tasks that the degrade path has wired and not rolled back
    repairs: set<TaskId>,            // those of them that have been put into a queue
    marked: map<TaskId, nat>,        // CommandState.RetryEnqueueFailed of those, with the attempts of R1 so far
    rewards: seq<Reward>)            // bandit outcomes emitted

  datatype Selection =
    | Busy                   // integration busy, or interrupted by shutdown
    | SelectionError
    | SoleCandidateFailed
    | NoSignal               // degraded selection: default win of the first finisher
    | Chosen(id: TaskId)

  datatype Repair =
    | CreateFails
    | WireFails
    | QueueFails(id: TaskId, rolledBack: bool)
    | Enqueued(id: TaskId)

  /** What one scan observes: the Phase A queue snapshot and the outcome of every external action. */
  datatype Scan = Scan(
    now: int,
    rows: map<TaskId, Status>,  // queue snapshot of the candidates
    tagged: map<TaskId, bool>,  // whether the snapshotted row carries the group tag
    wallClock: int,
    raceTimeout: int,
    selectionTimeout: int,
    commitOk: set<TaskId>,      // commits that succeed in this scan
    intakeOk: bool,
    selection: Selection,
    repair: Repair)

  const DEFAULT_RACE_TIMEOUT := 1800

  // ---------- lookups ----------

  predicate Unresolved(d: Disk) {
    d.group.status.Racing? || d.group.status.Selecting?
  }

  function Find(cs: seq<Candidate>, id: TaskId): (r: Option<Candidate>)
    ensures r.Some? ==> r.value in cs && r.value.taskId == id
    ensures r.None? ==> forall c | c in cs :: c.taskId != id
  {
    if cs == [] then None
    else if cs[0].taskId == id then Some(cs[0])
    else Find(cs[1..], id)
  }

  function FindOther(cs: seq<Candidate>, id: TaskId): (r: Option<Candidate>)
    ensures r.Some? ==> r.value in cs && r.value.taskId != id
    ensures r.None? ==> forall c | c in cs :: c.taskId == id
  {
    if cs == [] then None
    else if cs[0].taskId != id then Some(cs[0])
    else FindOther(cs[1..], id)
  }

  function CandidateByTask(g: Group, id: TaskId): Option<Candidate> {
    Find(g.candidates, id)
  }

  function CandidateIds(g: Group): set<TaskId> {
    set c | c in g.candidates :: c.taskId
  }

  function StatusOf(m: map<TaskId, Status>, id: TaskId): Status {
    if id in m then m[id] else Unset
  }

  /** The queue row when one exists, else the durable state entry. */
  function Effective(d: Disk, sc: Scan, id: TaskId): Status {
    if id in sc.rows then sc.rows[id] else StatusOf(d.tasks, id)
  }

  predicate Finished(d: Disk, sc: Scan, id: TaskId) {
    Effective(d, sc, id) == Completed
  }

  /** Non-candidate successors of the canonical: each proves that a repair was wired. */
  function RepairSuccessors(d: Disk): set<TaskId> {
    set s | s in d.lineage && d.lineage[s] == d.group.canonical && s !in CandidateIds(d.group)
  }

  predicate HasRepair(d: Disk) {
    RepairSuccessors(d) != {}
  }

  /** The successor the code finds; RepairSuccessors has at most one element in every reachable state. */
  ghost function WiredRepair(d: Disk): (s: TaskId)
    requires HasRepair(d)
    ensures s in RepairSuccessors(d)
  {
    var s :| s in RepairSuccessors(d); s
  }

  predicate RaceTimedOut(g: Group, sc: Scan) {
    var limit := if sc.raceTimeout > 0 then sc.raceTimeout
                 else if sc.wallClock > 0 then sc.wallClock
                 else DEFAULT_RACE_TIMEOUT;
    g.createdAt.Some? && sc.now - g.createdAt.value > limit
  }

  predicate SelectionTimedOut(g: Group, sc: Scan) {
    g.updatedAt.Some? && sc.now - g.updatedAt.value > sc.selectionTimeout
  }

  /** Commit and intake are idempotent: what succeeded once succeeds again. */
  predicate CommitOk(d: Disk, id: TaskId, sc: Scan) {
    id in d.committed || id in sc.commitOk
  }

  predicate IntakeOk(d: Disk, b: Branch, sc: Scan) {
    b in d.intaken || sc.intakeOk
  }

  // ---------- single durable writes ----------

  function WithSelecting(d: Disk, now: int): Disk {
    d.(group := d.group.(status := Selecting, updatedAt := Some(now)))
  }

  function WithPending(d: Disk, id: TaskId, now: int): Disk {
    d.(group := d.group.(pending := Some(id), updatedAt := Some(now)))
  }

  function WithCommit(d: Disk, id: TaskId): Disk {
    d.(committed := d.committed + {id})
  }

  function WithIntake(d: Disk, b: Branch): Disk {
    d.(intaken := d.intaken + {b})
  }

  function WithWiredRepair(d: Disk, id: TaskId): Disk {
    d.(lineage := d.lineage[id := d.group.canonical], tasks := d.tasks[id := Extended("planned")], wired := d.wired + {id})
  }

  function WithoutWiredRepair(d: Disk, id: TaskId): Disk {
    d.(lineage := d.lineage - {id}, tasks := d.tasks - {id}, wired := d.wired - {id})
  }

  function WithMark(d: Disk, id: TaskId, attempts: nat): Disk {
    d.(marked := d.marked[id := attempts])
  }

  function WithoutMark(d: Disk, id: TaskId): Disk {
    d.(marked := d.marked - {id})
  }

  function WithAbandoned(d: Disk, id: TaskId, end: Status): Disk {
    d.(tasks := d.tasks[id := end], marked := d.marked - {id})
  }

  function WithQueuedRepair(d: Disk, id: TaskId): Disk {
    d.(queue := d.queue[id := Pending], repairs := d.repairs + {id})
  }

  function WithStateCancelled(d: Disk, id: TaskId, why: Reason): Disk {
    d.(tasks := d.tasks[id := Cancelled], reasons := d.reasons[id := why])
  }

  datatype Resolution = Won(winner: TaskId) | Lost(supersededBy: Option<TaskId>)

  /** Candidates whose task the resolution cancels. */
  function Superseded(g: Group, r: Resolution): set<TaskId> {
    match r
    case Won(w) => CandidateIds(g) + {g.canonical} - {w}
    case Lost(retry) =>
      CandidateIds(g) - {g.canonical} + (if retry.Some? then CandidateIds(g) * {g.canonical} else {})
  }

  function AllCancelled(s: set<TaskId>): map<TaskId, Status> {
    map t | t in s :: Cancelled
  }

  /** The cancellation reasons the resolution records. */
  function ResolutionReasons(d: Disk, r: Resolution): map<TaskId, Reason> {
    var g := d.group;
    match r
    case Won(w) =>
      map t | t in Superseded(g, r) && (t == g.canonical || StatusOf(d.tasks, t) != Cancelled) ::
        if t == g.canonical then SupersededByWinner(w) else AbLoser
    case Lost(retry) =>
      map t | t in Superseded(g, r) ::
        if t == g.canonical && retry.Some? then SupersededByRetry(retry.value) else AbDegraded
  }

  function WithResolution(d: Disk, r: Resolution, now: int): Disk {
    var g := d.group;
    var shadowWon := r.Won? && r.winner != g.canonical;
    d.(group := g.(status := if r.Won? then Resolved else Degraded,
                   winner := if r.Won? then Some(r.winner) else None,
                   pending := None,
                   updatedAt := Some(now)),
       tasks := (if shadowWon then d.tasks[r.winner := Completed] else d.tasks) + AllCancelled(Superseded(g, r)),
       reasons := d.reasons + ResolutionReasons(d, r),
       lineage := if shadowWon then d.lineage[r.winner := g.canonical] else d.lineage)
  }

  /** One win/lose label per candidate, in candidate order. */
  function Labels(cs: seq<Candidate>, w: TaskId): seq<Reward> {
    seq(|cs|, i requires 0 <= i < |cs| => Reward(cs[i].model, cs[i].bloom, cs[i].taskId == w))
  }

  // ---------- traces ----------

  const MAX_ENQUEUE_ATTEMPTS := 3

  /** r1ProcessRetryEnqueueForCommand for one entry; `added` says whether adding the row succeeds. */
  function ReconcileTrace(d: Disk, id: TaskId, added: bool): seq<Disk> {
    if id !in d.marked then []
    else if id in d.queue then [WithoutMark(d, id)]
    else if d.marked[id] >= MAX_ENQUEUE_ATTEMPTS then [WithAbandoned(d, id, DeadLetter)]
    else if d.group.canonical !in d.queue then [WithAbandoned(d, id, Failed)]
    else if !added then [WithMark(d, id, d.marked[id] + 1)]
    else [WithQueuedRepair(d, id), WithoutMark(WithQueuedRepair(d, id), id)]
  }

  function EmitTrace(d: Disk, labels: seq<Reward>): seq<Disk>
    decreases |labels|
  {
    if labels == [] then []
    else
      var d1 := d.(rewards := d.rewards + [labels[0]]);
      [d1] + EmitTrace(d1, labels[1..])
  }

  /** resolveABGroup */
  function ResolveTrace(d: Disk, r: Resolution, now: int): seq<Disk> {
    if !Unresolved(d) then []
    else
      var d1 := WithResolution(d, r, now);
      [d1] + (if r.Won? then EmitTrace(d1, Labels(d.group.candidates, r.winner)) else [])
  }

  /** degradeABGroupWithRepair */
  ghost function DegradeTrace(d: Disk, sc: Scan): seq<Disk> {
    if HasRepair(d) then ResolveTrace(d, Lost(Some(WiredRepair(d))), sc.now)
    else if d.group.canonical !in d.queue then ResolveTrace(d, Lost(None), sc.now)
    else
      match sc.repair
      case CreateFails => []
      case WireFails => []
      case QueueFails(id, rolledBack) =>
        var d1 := WithWiredRepair(d, id);
        [d1, if rolledBack then WithoutWiredRepair(d1, id) else WithMark(d1, id, 0)]
      case Enqueued(id) =>
        var d1 := WithWiredRepair(d, id);
        var d2 := WithQueuedRepair(d1, id);
        [d1, d2] + ResolveTrace(d2, Lost(Some(id)), sc.now)
  }

  /** finalizeABWinner */
  ghost function FinalizeTrace(d: Disk, w: Candidate, sc: Scan): seq<Disk> {
    if !Unresolved(d) || (d.group.pending.Some? && d.group.pending.value != w.taskId) then []
    else
      var marked := if d.group.pending.Some? then [] else [WithPending(d, w.taskId, sc.now)];
      marked + IntakeTrace(Last(d, marked), w, sc)
  }

  /** finalizeABWinner after the decision is durable */
  ghost function IntakeTrace(d: Disk, w: Candidate, sc: Scan): seq<Disk> {
    if CommitOk(d, w.taskId, sc)
    then [WithCommit(d, w.taskId)] + MergeTrace(WithCommit(d, w.taskId), w, sc)
    else []
  }

  ghost function MergeTrace(d: Disk, w: Candidate, sc: Scan): seq<Disk> {
    if IntakeOk(d, w.branch, sc)
    then [WithIntake(d, w.branch)] + ResolveTrace(WithIntake(d, w.branch), Won(w.taskId), sc.now)
    else DegradeTrace(d, sc)
  }

  function CommitAllTrace(d: Disk, cs: seq<Candidate>, sc: Scan): (t: seq<Disk>)
    ensures |t| <= |cs|
    decreases |cs|
  {
    if cs == [] || !CommitOk(d, cs[0].taskId, sc) then []
    else
      var d1 := WithCommit(d, cs[0].taskId);
      [d1] + CommitAllTrace(d1, cs[1..], sc)
  }

  /** runABSelectionAndResolve once the group is selecting within its budget */
  ghost function SelectTrace(d: Disk, finished: seq<Candidate>, sc: Scan): seq<Disk>
    requires finished != []
  {
    var t := CommitAllTrace(d, finished, sc);
    if |t| < |finished| then t else t + VerdictTrace(Last(d, t), finished, sc)
  }

  /** What follows the selection engine's answer. */
  ghost function VerdictTrace(d: Disk, finished: seq<Candidate>, sc: Scan): seq<Disk>
    requires finished != []
  {
    match sc.selection
    case Busy => []
    case SelectionError => FinalizeTrace(d, finished[0], sc)
    case SoleCandidateFailed => DegradeTrace(d, sc)
    case NoSignal => FinalizeTrace(d, finished[0], sc)
    case Chosen(id) => FinalizeTrace(d, ChosenWinner(d.group, id, finished[0]), sc)
  }

  function ChosenWinner(g: Group, id: TaskId, fallback: Candidate): Candidate {
    var c := CandidateByTask(g, id);
    if c.Some? then c.value else fallback
  }

  /** commit one candidate, then continue with k on success or degrade on failure */
  ghost function CommitOrDegradeTrace(d: Disk, w: Candidate, sc: Scan): seq<Disk> {
    if CommitOk(d, w.taskId, sc)
    then [WithCommit(d, w.taskId)] + FinalizeTrace(WithCommit(d, w.taskId), w, sc)
    else DegradeTrace(d, sc)
  }

  /** runABSelectionAndResolve */
  ghost function AllTerminalTrace(d: Disk, finished: seq<Candidate>, sc: Scan): seq<Disk> {
    var g := d.group;
    if finished == [] then ResolveTrace(d, Lost(None), sc.now)
    else if HasRepair(d) then DegradeTrace(d, sc)
    else if g.pending.Some? && CandidateByTask(g, g.pending.value).Some?
    then ReplayTrace(d, CandidateByTask(g, g.pending.value).value, sc)
    else DecideTrace(d, finished, sc)
  }

  /** A decision is already recorded: finalize exactly that one. */
  ghost function ReplayTrace(d: Disk, w: Candidate, sc: Scan): seq<Disk> {
    if SelectionTimedOut(d.group, sc) then CommitOrDegradeTrace(d, w, sc) else FinalizeTrace(d, w, sc)
  }

  /** No decision is recorded yet. */
  ghost function DecideTrace(d: Disk, finished: seq<Candidate>, sc: Scan): seq<Disk>
    requires finished != []
  {
    if d.group.status.Racing? then
      var d1 := WithSelecting(d, sc.now);
      [d1] + SelectTrace(d1, finished, sc)
    else if SelectionTimedOut(d.group, sc) then CommitOrDegradeTrace(d, finished[0], sc)
    else SelectTrace(d, finished, sc)
  }

  function FinishedCandidates(d: Disk, sc: Scan, canonical: Candidate, shadow: Candidate): (r: seq<Candidate>)
    ensures forall c | c in r :: (c == canonical || c == shadow) && Finished(d, sc, c.taskId)
    ensures r == [] ==> !Finished(d, sc, canonical.taskId) && !Finished(d, sc, shadow.taskId)
  {
    (if Finished(d, sc, canonical.taskId) then [canonical] else [])
    + (if Finished(d, sc, shadow.taskId) then [shadow] else [])
  }

  /** The race budget is spent: cancel a candidate that no worker executes once its rival has completed. */
  function TimeoutTrace(d: Disk, sc: Scan, c: Candidate): seq<Disk> {
    var rival := FindOther(d.group.candidates, c.taskId);
    if rival.None? || !Finished(d, sc, rival.value.taskId) then []
    else if c.taskId in sc.rows then
      if sc.rows[c.taskId] == Pending && StatusOf(d.queue, c.taskId) == Pending then
        var d1 := d.(queue := d.queue[c.taskId := Cancelled]);
        [d1, WithStateCancelled(d1, c.taskId, AbTimeout)]
      else []
    else if IsTerminal(StatusOf(d.tasks, c.taskId)) then []
    else [WithStateCancelled(d, c.taskId, AbTimeout)]
  }

  /** processABGroup: all durable writes of one scan. */
  ghost function ScanTrace(d: Disk, sc: Scan): seq<Disk> {
    if !Unresolved(d) then []
    else
      var canonical := Find(d.group.candidates, d.group.canonical);
      var shadow := FindOther(d.group.candidates, d.group.canonical);
      if canonical.None? || shadow.None? then ResolveTrace(d, Lost(None), sc.now)
      else ScanPairTrace(d, sc, canonical.value, shadow.value)
  }

  ghost function ScanPairTrace(d: Disk, sc: Scan, canonical: Candidate, shadow: Candidate): seq<Disk> {
    if canonical.taskId in sc.tagged && !sc.tagged[canonical.taskId] then
      ResolveTrace(d, Lost(None), sc.now)
    else if shadow.taskId !in sc.rows && StatusOf(d.tasks, shadow.taskId) == Pending then
      [WithStateCancelled(d, shadow.taskId, AbFanoutIncomplete)]
    else if IsTerminal(Effective(d, sc, canonical.taskId)) && IsTerminal(Effective(d, sc, shadow.taskId)) then
      AllTerminalTrace(d, FinishedCandidates(d, sc, canonical, shadow), sc)
    else if RaceTimedOut(d.group, sc) then
      var t := TimeoutTrace(d, sc, canonical);
      t + TimeoutTrace(Last(d, t), sc, shadow)
    else []
  }
}
