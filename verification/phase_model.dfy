/**
 Phase dependency machine: what one scan decides for every phase of a command,
 and the durable writes with which it carries the decisions out.
 */
module PhaseModel {
  import opened Common

  type PhaseId = string
  type TaskId = string

  datatype PhaseStatus = Pending | AwaitingFill | Filling | Active | Completed | Failed | Cancelled | TimedOut

  /** A task's completion-aware status; a task that cannot be read has none. */
  datatype TaskStatus = TaskCompleted | TaskFailed | TaskCancelled | TaskOther

  /** Why a phase is cancelled: only a cascade names the dependency that caused it. */
  datatype CancelReason = NoReason | Operator | Cascade(dep: PhaseId)

  datatype Phase = Phase(
    id: PhaseId,
    status: PhaseStatus,
    tasks: seq<TaskId>,
    required: seq<TaskId>,
    dependsOn: seq<PhaseId>,
    reason: CancelReason,
    deadline: Option<int>,
    fillMinutes: int)

  /** What the scan observes besides the phases: task states, merges recorded so far, the clock. */
  datatype World = World(tasks: map<TaskId, TaskStatus>, merged: set<PhaseId>, now: int)

  datatype Mark = KeepReason | SetReason(dep: PhaseId) | ClearReason

  datatype Transition = Transition(phase: PhaseId, target: PhaseStatus, mark: Mark)

  predicate IsTerminal(s: PhaseStatus) {
    s.Completed? || s.Failed? || s.Cancelled? || s.TimedOut?
  }

  /** ValidatePhaseTransition */
  predicate LegalMove(source: PhaseStatus, target: PhaseStatus) {
    match source
    case Pending => target.AwaitingFill? || target.Cancelled? || target.Failed?
    case AwaitingFill => target.Filling? || target.TimedOut? || target.Failed?
    case Filling => target.Active? || target.AwaitingFill? || target.Failed?
    case Active => target.Completed? || target.Failed? || target.Cancelled?
    case Failed => target.Active?
    case Cancelled => target.Pending?
    case Completed => false
    case TimedOut => false
  }

  predicate UniqueIds(s: seq<Phase>) {
    forall i, j | 0 <= i < j < |s| :: s[i].id != s[j].id
  }

  // ---------- decisions ----------

  function Observed(p: Phase): seq<TaskId> {
    if p.tasks == [] then p.required else p.tasks
  }

  predicate TaskIs(w: World, t: TaskId, s: TaskStatus) {
    t in w.tasks && w.tasks[t] == s
  }

  predicate RequiredOutcome(w: World, p: Phase, s: TaskStatus) {
    exists t | t in Observed(p) :: t in p.required && TaskIs(w, t, s)
  }

  predicate AllSettled(w: World, p: Phase) {
    forall t | t in Observed(p) :: t in w.tasks && !w.tasks[t].TaskOther?
  }

  /** A required failure beats a required cancellation, which beats completion. */
  function ActiveOutcome(w: World, p: Phase): (r: Option<PhaseStatus>)
    ensures r.Some? ==> r.value.Failed? || r.value.Cancelled? || r.value.Completed?
  {
    if Observed(p) == [] then None
    else if RequiredOutcome(w, p, TaskFailed) then Some(Failed)
    else if RequiredOutcome(w, p, TaskCancelled) then Some(Cancelled)
    else if AllSettled(w, p) then Some(Completed)
    else None
  }

  /** Whether the transition may be applied now: completion waits for the recorded merge. */
  predicate Allowed(w: World, id: PhaseId, target: PhaseStatus) {
    target.Completed? ==> id in w.merged
  }

  /** The status that passes 2 and 3 see. */
  function Seen(w: World, p: Phase): PhaseStatus {
    if !p.status.Active? then p.status
    else
      match ActiveOutcome(w, p)
      case None => Active
      case Some(target) => if Allowed(w, p.id, target) then target else Active
  }

  /** The lookup map of passes 2 and 3. */
  function View(w: World, s: seq<Phase>): map<PhaseId, PhaseStatus> {
    if s == [] then map[]
    else View(w, s[..|s| - 1])[Last(s[0], s).id := Seen(w, Last(s[0], s))]
  }

  predicate Dead(s: PhaseStatus) {
    s.Failed? || s.Cancelled? || s.TimedOut?
  }

  predicate Live(s: PhaseStatus) {
    s.Active? || s.AwaitingFill? || s.Filling? || s.Completed?
  }

  /** The first dependency that can no longer complete. */
  function FirstDead(v: map<PhaseId, PhaseStatus>, deps: seq<PhaseId>): (r: Option<PhaseId>)
    ensures r.Some? ==> r.value in deps && r.value in v && Dead(v[r.value])
    ensures r.None? ==> forall d | d in deps && d in v :: !Dead(v[d])
  {
    if deps == [] then None
    else if deps[0] in v && Dead(v[deps[0]]) then Some(deps[0])
    else FirstDead(v, deps[1..])
  }

  predicate AllCompleted(v: map<PhaseId, PhaseStatus>, deps: seq<PhaseId>) {
    forall d | d in deps :: d in v && v[d].Completed?
  }

  predicate Expired(w: World, p: Phase) {
    p.deadline.Some? && w.now > p.deadline.value
  }

  predicate Recovers(v: map<PhaseId, PhaseStatus>, p: Phase) {
    p.reason.Cascade? && p.reason.dep in v && Live(v[p.reason.dep])
  }

  /** The transition that is due for one phase. */
  function Due(w: World, v: map<PhaseId, PhaseStatus>, p: Phase): Option<Transition> {
    match p.status
    case Active =>
      var outcome := ActiveOutcome(w, p);
      if outcome.Some? then Some(Transition(p.id, outcome.value, KeepReason)) else None
    case AwaitingFill =>
      if Expired(w, p) then Some(Transition(p.id, TimedOut, KeepReason)) else None
    case Pending =>
      var dead := FirstDead(v, p.dependsOn);
      if dead.Some? then Some(Transition(p.id, Cancelled, SetReason(dead.value)))
      else if AllCompleted(v, p.dependsOn) then Some(Transition(p.id, AwaitingFill, KeepReason))
      else None
    case Cancelled =>
      if Recovers(v, p) then Some(Transition(p.id, Pending, ClearReason)) else None
    case _ => None
  }

  /** The pass that handles a phase; 0 for phases that no pass touches. */
  function PassOf(s: PhaseStatus): nat {
    match s
    case Active => 1
    case AwaitingFill => 1
    case Pending => 2
    case Cancelled => 3
    case _ => 0
  }

  /** The transitions that one pass appends for the phases s, in list order. */
  function Pass(w: World, v: map<PhaseId, PhaseStatus>, s: seq<Phase>, pass: nat): seq<Transition> {
    if s == [] then []
    else
      var p := s[|s| - 1];
      var due := Due(w, v, p);
      Pass(w, v, s[..|s| - 1], pass) + (if PassOf(p.status) == pass && due.Some? then [due.value] else [])
  }

  /** CheckPhaseTransitions */
  function Emitted(w: World, s: seq<Phase>): seq<Transition> {
    var v := View(w, s);
    Pass(w, v, s, 1) + Pass(w, v, s, 2) + Pass(w, v, s, 3)
  }

  // ---------- application ----------

  function Priority(s: PhaseStatus): nat {
    match s
    case Failed => 0
    case Cancelled => 1
    case TimedOut => 2
    case Completed => 3
    case AwaitingFill => 4
    case _ => 5
  }

  /** The position behind the last transition that x must not overtake. */
  function Slot(ts: seq<Transition>, x: Transition): (k: nat)
    ensures k <= |ts|
    ensures k > 0 ==> Priority(ts[k - 1].target) <= Priority(x.target)
    ensures forall i | k <= i < |ts| :: Priority(ts[i].target) > Priority(x.target)
  {
    if ts == [] || Priority(ts[|ts| - 1].target) <= Priority(x.target) then |ts| else Slot(ts[..|ts| - 1], x)
  }

  /** sortPhaseTransitions: a stable sort by priority. */
  function Sorted(ts: seq<Transition>): seq<Transition> {
    if ts == [] then []
    else
      var rest, x := Sorted(ts[..|ts| - 1]), ts[|ts| - 1];
      rest[..Slot(rest, x)] + [x] + rest[Slot(rest, x)..]
  }

  predicate Targeted(ts: seq<Transition>, id: PhaseId) {
    exists y | y in ts :: y.phase == id
  }

  /** deduplicatePhaseTransitions: the first transition of each phase. */
  function FirstOfEach(ts: seq<Transition>): seq<Transition> {
    if ts == [] then []
    else
      var rest, x := ts[..|ts| - 1], ts[|ts| - 1];
      FirstOfEach(rest) + (if Targeted(rest, x.phase) then [] else [x])
  }

  /** The transitions a scan applies, in order. */
  function Applied(w: World, ts: seq<Transition>): seq<Transition> {
    if ts == [] then []
    else
      var x := ts[|ts| - 1];
      Applied(w, ts[..|ts| - 1]) + (if Allowed(w, x.phase, x.target) then [x] else [])
  }

  /** ApplyPhaseTransition on one phase: entering awaiting_fill restarts the fill deadline. */
  function WithStatus(p: Phase, target: PhaseStatus, now: int): Phase {
    p.(status := target,
       deadline := if target.AwaitingFill? && p.fillMinutes > 0 then Some(now + 60 * p.fillMinutes) else p.deadline)
  }

  function WithMark(p: Phase, mark: Mark): Phase {
    match mark
    case KeepReason => p
    case SetReason(dep) => p.(reason := Cascade(dep))
    case ClearReason => p.(reason := NoReason)
  }

  function WriteStatus(s: seq<Phase>, x: Transition, now: int): (r: seq<Phase>)
    ensures |r| == |s|
  {
    seq(|s|, i requires 0 <= i < |s| => if s[i].id == x.phase then WithStatus(s[i], x.target, now) else s[i])
  }

  function WriteMark(s: seq<Phase>, x: Transition): (r: seq<Phase>)
    ensures |r| == |s|
  {
    seq(|s|, i requires 0 <= i < |s| => if s[i].id == x.phase then WithMark(s[i], x.mark) else s[i])
  }

  /** Both durable writes of one transition. */
  function Write(s: seq<Phase>, x: Transition, now: int): (r: seq<Phase>)
    ensures |r| == |s|
  {
    WriteMark(WriteStatus(s, x, now), x)
  }

  function WriteAll(s: seq<Phase>, ts: seq<Transition>, now: int): (r: seq<Phase>)
    ensures |r| == |s|
  {
    if ts == [] then s else Write(WriteAll(s, ts[..|ts| - 1], now), ts[|ts| - 1], now)
  }

  /** The transitions one scan applies: check, sort, deduplicate, gate. */
  function Plan(w: World, s: seq<Phase>): seq<Transition> {
    Applied(w, FirstOfEach(Sorted(Emitted(w, s))))
  }

  /** stepPhaseTransitions for one command */
  function Scan(w: World, s: seq<Phase>): seq<Phase> {
    WriteAll(s, Plan(w, s), w.now)
  }

  function Move(p: Phase, x: Transition, now: int): Phase {
    WithMark(WithStatus(p, x.target, now), x.mark)
  }

  /** What a scan means for one phase. */
  function Step(w: World, v: map<PhaseId, PhaseStatus>, p: Phase): Phase {
    match Due(w, v, p)
    case None => p
    case Some(x) => if Allowed(w, p.id, x.target) then Move(p, x, w.now) else p
  }

  /** Every phase steps by itself, all against the same view. */
  function StepAll(w: World, s: seq<Phase>): (r: seq<Phase>)
    ensures |r| == |s|
  {
    seq(|s|, i requires 0 <= i < |s| => Step(w, View(w, s), s[i]))
  }
}
