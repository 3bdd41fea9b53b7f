/**
 The cancel protocol for one scan: pending tasks are cancelled at once, running
 ones are collected with their lease epoch, the lock is released while the workers
 are interrupted, and the collected cancellations are applied to whatever the queue
 holds by then.  Workers report results, leases are released and tasks may be
 dispatched again in between.
 */
module CancelModel {
  import opened Common

  type TaskId = string
  type CommandId = string
  type WorkerId = string  // "" for a queue file that belongs to no worker

  datatype Status = Pending | InProgress | Completed | Failed | Cancelled | DeadLetter

  datatype Task = Task(id: TaskId, command: CommandId, worker: WorkerId, status: Status, epoch: nat, leased: bool)

  datatype Mark = Mark(id: TaskId, worker: WorkerId, epoch: nat)

  /** A synthetic cancelled result in a worker's result file. */
  datatype Synthetic = Synthetic(id: TaskId, worker: WorkerId, epoch: nat)

  /** The queue files, the commands whose dispatch is blocked (in memory only), and all result files together. */
  datatype State = State(rows: seq<Task>, blocked: set<CommandId>, results: multiset<Synthetic>)

  predicate IsTerminal(s: Status) {
    s.Completed? || s.Failed? || s.Cancelled? || s.DeadLetter?
  }

  /** ValidateCommandTaskQueueTransition */
  predicate LegalMove(source: Status, target: Status) {
    match source
    case Pending => target.InProgress? || target.Cancelled? || target.DeadLetter?
    case InProgress => target.Pending? || target.Completed? || target.Failed? || target.Cancelled?
    case _ => false
  }

  predicate UniqueIds(rows: seq<Task>) {
    forall i, j | 0 <= i < j < |rows| :: rows[i].id != rows[j].id
  }

  // ---------- the protocol ----------

  function ResultOf(t: Task): multiset<Synthetic> {
    if t.worker == "" then multiset{} else multiset{Synthetic(t.id, t.worker, t.epoch)}
  }

  function PendingCancelled(t: Task, cmd: CommandId): Task {
    if t.command == cmd && t.status.Pending? then t.(status := Cancelled) else t
  }

  function PendingResults(rows: seq<Task>, cmd: CommandId): multiset<Synthetic> {
    if rows == [] then multiset{}
    else
      var t := rows[|rows| - 1];
      PendingResults(rows[..|rows| - 1], cmd) + (if t.command == cmd && t.status.Pending? then ResultOf(t) else multiset{})
  }

  /** CancelPendingTasks, over all queue files */
  function CancelPending(s: State, cmd: CommandId): (r: State)
    ensures |r.rows| == |s.rows|
  {
    State(
      seq(|s.rows|, i requires 0 <= i < |s.rows| => PendingCancelled(s.rows[i], cmd)),
      s.blocked + {cmd},
      s.results + PendingResults(s.rows, cmd))
  }

  /** CollectCancelInterruptItems: the marks. */
  function Marks(rows: seq<Task>, cmd: CommandId): seq<Mark> {
    if rows == [] then []
    else
      var t := rows[|rows| - 1];
      Marks(rows[..|rows| - 1], cmd)
      + (if t.command == cmd && t.status.InProgress? then [Mark(t.id, t.worker, t.epoch)] else [])
  }

  /** The tasks whose worker is interrupted: those with a lease, in a worker's queue. */
  function Interrupts(rows: seq<Task>, cmd: CommandId): seq<Mark> {
    if rows == [] then []
    else
      var t := rows[|rows| - 1];
      Interrupts(rows[..|rows| - 1], cmd)
      + (if t.command == cmd && t.status.InProgress? && t.leased && t.worker != "" then [Mark(t.id, t.worker, t.epoch)] else [])
  }

  /** Still the dispatch that was collected, running or released back to the queue. */
  predicate Applies(t: Task, m: Mark) {
    t.id == m.id && t.worker == m.worker && (t.status.InProgress? || t.status.Pending?) && t.epoch == m.epoch
  }

  function FindRow(rows: seq<Task>, m: Mark): (k: nat)
    ensures k <= |rows|
    ensures k < |rows| ==> rows[k].id == m.id && rows[k].worker == m.worker
    ensures forall i | 0 <= i < k :: !(rows[i].id == m.id && rows[i].worker == m.worker)
  {
    if rows == [] || (rows[0].id == m.id && rows[0].worker == m.worker) then 0 else 1 + FindRow(rows[1..], m)
  }

  /** ApplyCancelMark on the row the mark names, and the result it makes due. */
  function ApplyMark(s: State, m: Mark): (r: State)
    ensures |r.rows| == |s.rows| && r.blocked == s.blocked
  {
    var k := FindRow(s.rows, m);
    if k < |s.rows| && Applies(s.rows[k], m) then CancelRow(s, k) else s
  }

  function CancelRow(s: State, k: nat): State
    requires k < |s.rows|
  {
    s.(rows := s.rows[k := s.rows[k].(status := Cancelled, leased := false)],
       results := s.results + ResultOf(s.rows[k]))
  }

  function ApplyMarks(s: State, marks: seq<Mark>): (r: State)
    ensures |r.rows| == |s.rows| && r.blocked == s.blocked
    decreases |marks|
  {
    if marks == [] then s else ApplyMarks(ApplyMark(s, marks[0]), marks[1..])
  }

  // ---------- what happens between collecting and applying ----------

  datatype Move =
    | Report(id: TaskId, ok: bool)  // the worker's own result
    | Release(id: TaskId)           // the lease is given up
    | Redispatch(id: TaskId)        // a new lease, with the next epoch
    | Bury(id: TaskId)              // attempts exhausted

  function Moved(t: Task, m: Move): Task {
    if t.id != m.id then t
    else
      match m
      case Report(_, ok) =>
        if t.status.InProgress? then t.(status := if ok then Completed else Failed, leased := false) else t
      case Release(_) => if t.status.InProgress? then t.(status := Pending, leased := false) else t
      case Redispatch(_) => if t.status.Pending? then t.(status := InProgress, epoch := t.epoch + 1, leased := true) else t
      case Bury(_) => if t.status.Pending? then t.(status := DeadLetter) else t
  }

  function MoveRows(rows: seq<Task>, m: Move): (r: seq<Task>)
    ensures |r| == |rows|
  {
    seq(|rows|, i requires 0 <= i < |rows| => Moved(rows[i], m))
  }

  function MoveAll(rows: seq<Task>, ms: seq<Move>): (r: seq<Task>)
    ensures |r| == |rows|
    decreases |ms|
  {
    if ms == [] then rows else MoveAll(MoveRows(rows, ms[0]), ms[1..])
  }

  /** One whole scan for a cancelled command. */
  function CancelScan(s: State, cmd: CommandId, between: seq<Move>): (r: State)
    ensures |r.rows| == |s.rows| && r.blocked == s.blocked + {cmd}
  {
    var a := CancelPending(s, cmd);
    ApplyMarks(a.(rows := MoveAll(a.rows, between)), Marks(a.rows, cmd))
  }

  // ---------- auto-completion ----------

  predicate Settled(rows: seq<Task>, cmd: CommandId) {
    forall t | t in rows :: t.command == cmd ==> IsTerminal(t.status)
  }

  predicate HasTask(rows: seq<Task>, cmd: CommandId) {
    exists t | t in rows :: t.command == cmd
  }
}
