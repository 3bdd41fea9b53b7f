/**
 Safety of the A/B race over every run, every crash point and every outcome of
 commit, intake, selection and repair.
 */
module ABSafety {
  import opened Common
  import opened ABProtocol

  ghost predicate AtMostOne<T(!new)>(s: set<T>) {
    forall x, y | x in s && y in s :: x == y
  }

  /** While the group is unresolved, an intaken branch is the one of the recorded decision. */
  ghost predicate IntakeFollowsDecision(d: Disk) {
    d.intaken != {} ==>
      && d.group.pending.Some?
      && CandidateByTask(d.group, d.group.pending.value).Some?
      && d.intaken == {CandidateByTask(d.group, d.group.pending.value).value.branch}
      && d.group.pending.value in d.committed
      && !HasRepair(d)
  }

  ghost predicate UnresolvedInv(d: Disk) {
    && d.group.winner.None?
    && d.rewards == []
    && (d.group.pending.Some? ==>
          d.group.status.Selecting? && CandidateByTask(d.group, d.group.pending.value).Some?)
    && IntakeFollowsDecision(d)
    && d.wired == RepairSuccessors(d)
  }

  ghost predicate ResolvedInv(d: Disk) {
    var g := d.group;
    && g.pending.None?
    && g.winner.Some?
    && var w := g.winner.value;
    && CandidateByTask(g, w).Some?
    && d.intaken == {CandidateByTask(g, w).value.branch}
    && d.wired == {}
    && d.rewards <= Labels(g.candidates, w)
    && (forall c | c in g.candidates && c.taskId != w :: StatusOf(d.tasks, c.taskId) == Cancelled)
    && (w != g.canonical ==> StatusOf(d.tasks, w) == Completed && w in d.lineage && d.lineage[w] == g.canonical)
  }

  ghost predicate DegradedInv(d: Disk) {
    var g := d.group;
    && g.pending.None?
    && g.winner.None?
    && d.rewards == []
    && AtMostOne(d.intaken)
    && (d.intaken == {} || d.wired == {})
    && (forall c | c in g.candidates && c.taskId != g.canonical :: StatusOf(d.tasks, c.taskId) == Cancelled)
  }

  /** At most one repair, no candidate, is ever wired; only that one is marked or queued, and its row is on record. */
  ghost predicate RepairInv(d: Disk) {
    && AtMostOne(d.wired)
    && d.wired !! CandidateIds(d.group) && d.group.canonical !in d.wired
    && d.repairs <= d.wired && d.marked.Keys <= d.wired
    && (forall r | r in d.wired && r in d.queue :: r in d.repairs)
  }

  ghost predicate Inv(d: Disk) {
    && RepairInv(d)
    && match d.group.status
       case Racing => UnresolvedInv(d)
       case Selecting => UnresolvedInv(d)
       case Resolved => ResolvedInv(d)
       case Degraded => DegradedInv(d)
  }

  /** How one durable write may change a group; terminal groups are frozen. */
  ghost predicate GroupMove(g: Group, h: Group) {
    && h.canonical == g.canonical && h.candidates == g.candidates
    && (h.status == g.status
        || (g.status.Racing? && (h.status.Selecting? || h.status.Degraded?))
        || (g.status.Selecting? && (h.status.Resolved? || h.status.Degraded?)))
    && (g.status.Resolved? || g.status.Degraded? ==> h == g)
    && (g.pending.Some? && (h.status.Racing? || h.status.Selecting?) ==> h.pending == g.pending)
    && (g.pending.Some? && h.status.Resolved? && h != g ==> h.winner == g.pending)
  }

  predicate SameEntry<V(==)>(m: map<TaskId, V>, n: map<TaskId, V>, t: TaskId) {
    (t in m <==> t in n) && (t in m ==> m[t] == n[t])
  }

  predicate HasReason(d: Disk, t: TaskId, r: Reason) {
    t in d.reasons && d.reasons[t] == r
  }

  /**
   What a win leaves: a winning shadow is completed and inherits the canonical's place;
   the canonical is superseded by it; any other candidate that was not cancelled
   before loses; nobody else is touched.
   */
  ghost predicate WinMarks(d: Disk, e: Disk, w: TaskId) {
    forall t: TaskId :: WinMark(d, e, w, t)
  }

  ghost predicate WinMark(d: Disk, e: Disk, w: TaskId, t: TaskId) {
    if t == w then
      && SameEntry(e.reasons, d.reasons, t)
      && (if w == d.group.canonical then SameEntry(e.tasks, d.tasks, t) && SameEntry(e.lineage, d.lineage, t)
          else StatusOf(e.tasks, t) == Completed && t in e.lineage && e.lineage[t] == d.group.canonical)
    else
      && SameEntry(e.lineage, d.lineage, t)
      && if t == d.group.canonical then StatusOf(e.tasks, t) == Cancelled && HasReason(e, t, SupersededByWinner(w))
         else if t in CandidateIds(d.group) then
           && StatusOf(e.tasks, t) == Cancelled
           && if StatusOf(d.tasks, t) == Cancelled then SameEntry(e.reasons, d.reasons, t) else HasReason(e, t, AbLoser)
         else SameEntry(e.tasks, d.tasks, t) && SameEntry(e.reasons, d.reasons, t)
  }

  /**
   What a degrade leaves: every other candidate is cancelled as degraded; the canonical
   stands, or is cancelled as superseded by one retry; nobody else is touched.
   */
  ghost predicate DegradeMarks(d: Disk, e: Disk) {
    e.lineage == d.lineage && forall t: TaskId :: DegradeMark(d, e, t)
  }

  ghost predicate DegradeMark(d: Disk, e: Disk, t: TaskId) {
    if t == d.group.canonical then
      || (SameEntry(e.tasks, d.tasks, t) && SameEntry(e.reasons, d.reasons, t))
      || (StatusOf(e.tasks, t) == Cancelled && exists r :: HasReason(e, t, SupersededByRetry(r)))
    else if t in CandidateIds(d.group) then StatusOf(e.tasks, t) == Cancelled && HasReason(e, t, AbDegraded)
    else SameEntry(e.tasks, d.tasks, t) && SameEntry(e.reasons, d.reasons, t)
  }

  /** The write that ends a group marks its candidates accordingly, and touches neither queue, commits nor merges. */
  ghost predicate EndMarks(d: Disk, e: Disk) {
    Unresolved(d) && !Unresolved(e) ==>
      && e.queue == d.queue && e.committed == d.committed && e.intaken == d.intaken
      && if e.group.status.Resolved? then e.group.winner.Some? && WinMarks(d, e, e.group.winner.value) else DegradeMarks(d, e)
  }

  /** A durable write is safe: it ends in the invariant, moves the group legally, and leaves the right marks when it ends it. */
  ghost predicate SafeWrite(d: Disk, e: Disk) {
    Inv(e) && GroupMove(d.group, e.group) && EndMarks(d, e)
  }

  /** Every write of the trace is safe, so every crash point is. */
  ghost predicate Sound(d: Disk, t: seq<Disk>) {
    Chain(SafeWrite, d, t)
  }

  lemma Compose(d: Disk, a: seq<Disk>, b: seq<Disk>)
    requires Sound(d, a) && Sound(Last(d, a), b)
    ensures Sound(d, a + b)
    ensures Last(d, a + b) == Last(Last(d, a), b)
  {
    ChainCompose(SafeWrite, d, a, b);
  }

  lemma Prepend(d: Disk, e: Disk, t: seq<Disk>)
    requires Inv(e) && GroupMove(d.group, e.group) && EndMarks(d, e) && Sound(e, t)
    ensures Sound(d, [e] + t)
  {
    Compose(d, [e], t);
  }

  // ---------- resolution ----------

  lemma EmitWrite(d: Disk, r: Reward)
    requires d.group.status.Resolved? && Inv(d)
    requires d.rewards + [r] <= Labels(d.group.candidates, d.group.winner.value)
    ensures Inv(d.(rewards := d.rewards + [r]))
  {}

  lemma {:induction false} EmitSound(d: Disk, labels: seq<Reward>)
    requires d.group.status.Resolved? && Inv(d)
    requires d.rewards + labels == Labels(d.group.candidates, d.group.winner.value)
    ensures Sound(d, EmitTrace(d, labels))
    ensures var e := Last(d, EmitTrace(d, labels));
      e == d.(rewards := d.rewards + labels)
    decreases |labels|
  {
    if labels == [] {
      assert d.rewards + [] == d.rewards;
    } else {
      var d1 := d.(rewards := d.rewards + [labels[0]]);
      assert d1.rewards + labels[1..] == d.rewards + labels;
      EmitWrite(d, labels[0]);
      hide Inv;
      EmitSound(d1, labels[1..]);
      Compose(d, [d1], EmitTrace(d1, labels[1..]));
    }
  }

  lemma LostWrite(d: Disk, retry: Option<TaskId>, now: int)
    requires Inv(d) && Unresolved(d)
    ensures Inv(WithResolution(d, Lost(retry), now))
  {
    var d1 := WithResolution(d, Lost(retry), now);
    forall c | c in d.group.candidates && c.taskId != d.group.canonical
      ensures StatusOf(d1.tasks, c.taskId) == Cancelled
    {
      assert c.taskId in CandidateIds(d.group);
    }
    assert d.intaken == {} || RepairSuccessors(d) == {};
  }

  lemma LostTaskMark(d: Disk, retry: Option<TaskId>, now: int, t: TaskId)
    ensures var e := WithResolution(d, Lost(retry), now);
      if t in CandidateIds(d.group) && (t != d.group.canonical || retry.Some?) then StatusOf(e.tasks, t) == Cancelled
      else SameEntry(e.tasks, d.tasks, t)
  {
    hide CandidateIds, ResolutionReasons;
  }

  lemma LostReasonMark(d: Disk, retry: Option<TaskId>, now: int, t: TaskId)
    ensures var e := WithResolution(d, Lost(retry), now);
      if t in CandidateIds(d.group) && t != d.group.canonical then HasReason(e, t, AbDegraded)
      else if t in CandidateIds(d.group) && retry.Some? then HasReason(e, t, SupersededByRetry(retry.value))
      else SameEntry(e.reasons, d.reasons, t)
  {
    hide CandidateIds, AllCancelled;
  }

  lemma LostMark(d: Disk, retry: Option<TaskId>, now: int, t: TaskId)
    ensures DegradeMark(d, WithResolution(d, Lost(retry), now), t)
  {
    LostTaskMark(d, retry, now, t);
    LostReasonMark(d, retry, now, t);
    hide CandidateIds, WithResolution, SameEntry, HasReason;
  }

  lemma LostMarks(d: Disk, retry: Option<TaskId>, now: int)
    ensures DegradeMarks(d, WithResolution(d, Lost(retry), now))
  {
    assert WithResolution(d, Lost(retry), now).lineage == d.lineage;
    hide WithResolution, DegradeMark;
    forall t: TaskId
      ensures DegradeMark(d, WithResolution(d, Lost(retry), now), t)
    {
      LostMark(d, retry, now, t);
    }
  }

  lemma LostEnds(d: Disk, retry: Option<TaskId>, now: int)
    ensures EndMarks(d, WithResolution(d, Lost(retry), now))
  {
    LostMarks(d, retry, now);
    ResolutionFrame(d, Lost(retry), now);
    hide WithResolution, DegradeMarks;
  }

  lemma WonTaskMark(d: Disk, w: TaskId, now: int, t: TaskId)
    ensures var e := WithResolution(d, Won(w), now); var lost := t in CandidateIds(d.group) || t == d.group.canonical;
      && (if t == w && t != d.group.canonical then StatusOf(e.tasks, t) == Completed
          else if t != w && lost then StatusOf(e.tasks, t) == Cancelled else SameEntry(e.tasks, d.tasks, t))
      && (if t == w && t != d.group.canonical then t in e.lineage && e.lineage[t] == d.group.canonical
          else SameEntry(e.lineage, d.lineage, t))
  {
    hide CandidateIds, ResolutionReasons;
  }

  lemma WonReasonMark(d: Disk, w: TaskId, now: int, t: TaskId)
    ensures var e := WithResolution(d, Won(w), now); var lost := t in CandidateIds(d.group);
      if t != w && t == d.group.canonical then HasReason(e, t, SupersededByWinner(w))
      else if t != w && lost && StatusOf(d.tasks, t) != Cancelled then HasReason(e, t, AbLoser)
      else SameEntry(e.reasons, d.reasons, t)
  {
    hide CandidateIds, AllCancelled;
  }

  lemma WonMarks(d: Disk, w: TaskId, now: int)
    ensures WinMarks(d, WithResolution(d, Won(w), now), w)
  {
    hide WithResolution, CandidateIds, SameEntry, HasReason;
    forall t: TaskId
      ensures WinMark(d, WithResolution(d, Won(w), now), w, t)
    {
      WonTaskMark(d, w, now, t);
      WonReasonMark(d, w, now, t);
    }
    hide WinMark;
  }

  lemma WonEnds(d: Disk, w: TaskId, now: int)
    ensures EndMarks(d, WithResolution(d, Won(w), now))
  {
    WonMarks(d, w, now);
    ResolutionFrame(d, Won(w), now);
    hide WithResolution, WinMarks;
  }

  lemma LostSound(d: Disk, retry: Option<TaskId>, now: int)
    requires Inv(d) && Unresolved(d)
    ensures Sound(d, ResolveTrace(d, Lost(retry), now))
    ensures Last(d, ResolveTrace(d, Lost(retry), now)).group.status.Degraded?
  {
    LostWrite(d, retry, now);
    LostEnds(d, retry, now);
    assert ResolveTrace(d, Lost(retry), now) == [WithResolution(d, Lost(retry), now)];
  }

  /** What the resolution for w makes of the tasks and the lineage. */
  lemma WonTasks(d: Disk, w: TaskId, now: int)
    requires w in CandidateIds(d.group)
    ensures var d1 := WithResolution(d, Won(w), now); var g := d.group;
      && (forall c | c in g.candidates && c.taskId != w :: StatusOf(d1.tasks, c.taskId) == Cancelled)
      && (w != g.canonical ==> StatusOf(d1.tasks, w) == Completed && w in d1.lineage && d1.lineage[w] == g.canonical)
  {
    hide ResolutionReasons;
    forall c | c in d.group.candidates && c.taskId != w
      ensures StatusOf(WithResolution(d, Won(w), now).tasks, c.taskId) == Cancelled
    {
      assert c.taskId in CandidateIds(d.group);
    }
  }

  /** A resolution changes the group, the tasks, their reasons and the lineage, and nothing else. */
  lemma ResolutionFrame(d: Disk, r: Resolution, now: int)
    ensures var e := WithResolution(d, r, now);
      && e.queue == d.queue && e.committed == d.committed && e.intaken == d.intaken
      && e.wired == d.wired && e.repairs == d.repairs && e.marked == d.marked && e.rewards == d.rewards
      && e.group == d.group.(status := if r.Won? then Resolved else Degraded,
                             winner := if r.Won? then Some(r.winner) else None,
                             pending := None, updatedAt := Some(now))
  {
    hide ResolutionReasons, AllCancelled, Superseded;
  }

  lemma WonWrite(d: Disk, w: Candidate, now: int)
    requires Inv(d) && Unresolved(d)
    requires CandidateByTask(d.group, w.taskId) == Some(w)
    requires d.group.pending == Some(w.taskId)
    requires d.intaken == {w.branch}
    ensures Inv(WithResolution(d, Won(w.taskId), now))
    ensures GroupMove(d.group, WithResolution(d, Won(w.taskId), now).group)
  {
    var e := WithResolution(d, Won(w.taskId), now);
    ResolutionFrame(d, Won(w.taskId), now);
    hide WithResolution, Labels, StatusOf;
    assert w.taskId in CandidateIds(d.group);
    WonTasks(d, w.taskId, now);
    assert RepairInv(e);
    assert d.wired == {} && d.rewards == [];
    hide RepairInv, UnresolvedInv;
    assert ResolvedInv(e);
  }

  lemma WonSound(d: Disk, w: Candidate, now: int)
    requires Inv(d) && Unresolved(d)
    requires CandidateByTask(d.group, w.taskId) == Some(w)
    requires d.group.pending == Some(w.taskId)
    requires d.intaken == {w.branch}
    ensures Sound(d, ResolveTrace(d, Won(w.taskId), now))
    ensures Last(d, ResolveTrace(d, Won(w.taskId), now)).group.winner == Some(w.taskId)
    ensures Last(d, ResolveTrace(d, Won(w.taskId), now)).group.status.Resolved?
  {
    var d1 := WithResolution(d, Won(w.taskId), now);
    WonWrite(d, w, now);
    WonEnds(d, w.taskId, now);
    ResolutionFrame(d, Won(w.taskId), now);
    assert d.rewards == [];
    hide WithResolution, EndMarks, GroupMove, Inv, Labels, EmitTrace;
    var labels := Labels(d.group.candidates, w.taskId);
    assert d1.rewards + labels == labels;
    EmitSound(d1, labels);
    var t := EmitTrace(d1, labels);
    Prepend(d, d1, t);
    assert Last(d, [d1] + t) == Last(d1, t);
  }

  // ---------- repair and intake ----------

  /** Repair task IDs are freshly generated. */
  ghost predicate FreshRepair(d: Disk, sc: Scan) {
    sc.repair.QueueFails? || sc.repair.Enqueued? ==>
      && sc.repair.id !in d.lineage
      && sc.repair.id !in d.tasks
      && sc.repair.id !in d.queue
      && sc.repair.id !in CandidateIds(d.group) && sc.repair.id != d.group.canonical
  }

  lemma SameSuccessors(d: Disk, e: Disk)
    requires e.lineage == d.lineage
    requires e.group.canonical == d.group.canonical && e.group.candidates == d.group.candidates
    ensures RepairSuccessors(e) == RepairSuccessors(d)
  {}

  lemma WireSuccessors(d: Disk, id: TaskId)
    requires id !in d.lineage && id !in CandidateIds(d.group)
    ensures RepairSuccessors(WithWiredRepair(d, id)) == RepairSuccessors(d) + {id}
  {}

  lemma WireSound(d: Disk, id: TaskId)
    requires Inv(d) && Unresolved(d) && d.intaken == {} && !HasRepair(d)
    requires id !in d.lineage && id !in d.queue && id !in CandidateIds(d.group) && id != d.group.canonical
    ensures Sound(d, [WithWiredRepair(d, id)])
  {
    WireSuccessors(d, id);
  }

  lemma UnwireSound(d: Disk, id: TaskId)
    requires Inv(d) && Unresolved(d) && d.intaken == {} && !HasRepair(d)
    requires id !in d.lineage && id !in d.queue && id !in CandidateIds(d.group) && id != d.group.canonical
    ensures Sound(WithWiredRepair(d, id), [WithoutWiredRepair(WithWiredRepair(d, id), id)])
  {
    var d2 := WithoutWiredRepair(WithWiredRepair(d, id), id);
    assert d2.lineage == d.lineage;
    assert RepairSuccessors(d2) == RepairSuccessors(d);
  }

  lemma QueueSound(d: Disk, id: TaskId)
    requires Inv(d) && Unresolved(d) && d.intaken == {}
    requires id in RepairSuccessors(d)
    ensures Sound(d, [WithQueuedRepair(d, id)])
  {
    assert RepairSuccessors(WithQueuedRepair(d, id)) == RepairSuccessors(d);
  }

  lemma MarkSound(d: Disk, id: TaskId, attempts: nat)
    requires Inv(d) && id in d.wired
    ensures Sound(d, [WithMark(d, id, attempts)])
  {
    SameSuccessors(d, WithMark(d, id, attempts));
  }

  /** The queue write fails: the wiring is rolled back, or the repair is marked for the reconciler. */
  lemma QueueFailsSound(d: Disk, id: TaskId, rolledBack: bool)
    requires Inv(d) && Unresolved(d) && d.intaken == {} && !HasRepair(d)
    requires id !in d.lineage && id !in d.queue && id !in CandidateIds(d.group) && id != d.group.canonical
    ensures var d1 := WithWiredRepair(d, id);
      Sound(d, [d1, if rolledBack then WithoutWiredRepair(d1, id) else WithMark(d1, id, 0)])
  {
    var d1 := WithWiredRepair(d, id);
    var d2 := if rolledBack then WithoutWiredRepair(d1, id) else WithMark(d1, id, 0);
    WireSound(d, id);
    UnwireSound(d, id);
    assert Inv(d1) && id in d1.wired;
    MarkSound(d1, id, 0);
    hide Inv, WithWiredRepair, WithoutWiredRepair;
    Compose(d, [d1], [d2]);
    assert [d1] + [d2] == [d1, d2];
  }

  /** The degrade path wires a repair only while nothing has been intaken. */
  lemma DegradeSound(d: Disk, sc: Scan)
    requires Inv(d) && Unresolved(d) && FreshRepair(d, sc)
    requires d.intaken == {}
    ensures Sound(d, DegradeTrace(d, sc))
    ensures sc.repair.Enqueued? ==> Last(d, DegradeTrace(d, sc)).group.status.Degraded?
  {
    if HasRepair(d) {
      LostSound(d, Some(WiredRepair(d)), sc.now);
    } else if d.group.canonical !in d.queue {
      LostSound(d, None, sc.now);
    } else if sc.repair.QueueFails? {
      QueueFailsSound(d, sc.repair.id, sc.repair.rolledBack);
    } else if sc.repair.Enqueued? {
      EnqueueSound(d, sc.repair.id, sc.now);
    }
  }

  lemma EnqueueSound(d: Disk, id: TaskId, now: int)
    requires Inv(d) && Unresolved(d) && d.intaken == {} && !HasRepair(d)
    requires id !in d.lineage && id !in d.queue && id !in CandidateIds(d.group) && id != d.group.canonical
    ensures var d1 := WithWiredRepair(d, id); var d2 := WithQueuedRepair(d1, id);
      var t := [d1, d2] + ResolveTrace(d2, Lost(Some(id)), now);
      Sound(d, t) && Last(d, t).group.status.Degraded?
  {
    var d1 := WithWiredRepair(d, id);
    var d2 := WithQueuedRepair(d1, id);
    QueuedSound(d, id);
    hide Inv, WithWiredRepair, WithQueuedRepair, ResolveTrace, RepairSuccessors, HasRepair, CandidateIds;
    LostSound(d2, Some(id), now);
    Compose(d, [d1, d2], ResolveTrace(d2, Lost(Some(id)), now));
  }

  lemma QueuedSound(d: Disk, id: TaskId)
    requires Inv(d) && Unresolved(d) && d.intaken == {} && !HasRepair(d)
    requires id !in d.lineage && id !in d.queue && id !in CandidateIds(d.group) && id != d.group.canonical
    ensures var d1 := WithWiredRepair(d, id); var d2 := WithQueuedRepair(d1, id);
      Sound(d, [d1, d2]) && Inv(d2) && Unresolved(d2)
  {
    var d1 := WithWiredRepair(d, id);
    var d2 := WithQueuedRepair(d1, id);
    WireSound(d, id);
    WireSuccessors(d, id);
    assert Unresolved(d1) && d1.intaken == {} && d1.group == d2.group;
    hide Inv, WithWiredRepair, WithQueuedRepair, RepairSuccessors, HasRepair, CandidateIds;
    assert SafeWrite(Before(d, [d1], 0), d1);
    QueueSound(d1, id);
    assert SafeWrite(Before(d1, [d2], 0), d2);
    Compose(d, [d1], [d2]);
    assert [d1] + [d2] == [d1, d2];
  }

  lemma CommitSound(d: Disk, id: TaskId)
    requires Inv(d) && Unresolved(d)
    ensures Sound(d, [WithCommit(d, id)])
    ensures Inv(WithCommit(d, id))
    ensures RepairSuccessors(WithCommit(d, id)) == RepairSuccessors(d)
  {}

  lemma IntakeWriteSound(d: Disk, w: Candidate)
    requires Inv(d) && Unresolved(d) && !HasRepair(d)
    requires CandidateByTask(d.group, w.taskId) == Some(w)
    requires d.group.pending == Some(w.taskId) && w.taskId in d.committed
    ensures Sound(d, [WithIntake(d, w.branch)])
    ensures WithIntake(d, w.branch).intaken == {w.branch}
  {
    assert RepairSuccessors(WithIntake(d, w.branch)) == RepairSuccessors(d);
  }

  lemma IntakeWins(d: Disk, w: Candidate, now: int)
    requires Inv(d) && Unresolved(d) && !HasRepair(d)
    requires CandidateByTask(d.group, w.taskId) == Some(w)
    requires d.group.pending == Some(w.taskId) && w.taskId in d.committed
    ensures var t := [WithIntake(d, w.branch)] + ResolveTrace(WithIntake(d, w.branch), Won(w.taskId), now);
      && Sound(d, t)
      && Last(d, t).group.winner == Some(w.taskId)
      && !Unresolved(Last(d, t))
  {
    var d1 := WithIntake(d, w.branch);
    IntakeWriteSound(d, w);
    WonSound(d1, w, now);
    Compose(d, [d1], ResolveTrace(d1, Won(w.taskId), now));
  }

  lemma IntakeSound(d: Disk, w: Candidate, sc: Scan)
    requires Inv(d) && Unresolved(d) && FreshRepair(d, sc) && !HasRepair(d)
    requires CandidateByTask(d.group, w.taskId) == Some(w)
    requires d.group.pending == Some(w.taskId)
    ensures Sound(d, IntakeTrace(d, w, sc))
    ensures !CommitOk(d, w.taskId, sc) ==> IntakeTrace(d, w, sc) == []
    ensures CommitOk(d, w.taskId, sc) && sc.repair.Enqueued? ==>
              !Unresolved(Last(d, IntakeTrace(d, w, sc)))
    ensures CommitOk(d, w.taskId, sc) && d.intaken != {} ==>
              Last(d, IntakeTrace(d, w, sc)).group.winner == Some(w.taskId)
  {
    if CommitOk(d, w.taskId, sc) {
      CommitSound(d, w.taskId);
      var d1 := WithCommit(d, w.taskId);
      if IntakeOk(d1, w.branch, sc) {
        IntakeWins(d1, w, sc.now);
        Compose(d, [d1], [WithIntake(d1, w.branch)] + ResolveTrace(WithIntake(d1, w.branch), Won(w.taskId), sc.now));
      } else {
        DegradeSound(d1, sc);
        Compose(d, [d1], DegradeTrace(d1, sc));
      }
    }
  }

  lemma FinalizeSound(d: Disk, w: Candidate, sc: Scan)
    requires Inv(d) && d.group.status.Selecting? && FreshRepair(d, sc) && !HasRepair(d)
    requires CandidateByTask(d.group, w.taskId) == Some(w)
    ensures Sound(d, FinalizeTrace(d, w, sc))
    ensures var e := Last(d, FinalizeTrace(d, w, sc));
      (d.group.pending.None? || d.group.pending == Some(w.taskId)) && Unresolved(e) && sc.repair.Enqueued? ==>
        && !CommitOk(d, w.taskId, sc)
        && e.group.pending == Some(w.taskId)
        && e.group.updatedAt == if d.group.pending.None? then Some(sc.now) else d.group.updatedAt
    ensures d.group.pending == Some(w.taskId) && CommitOk(d, w.taskId, sc) && d.intaken != {} ==>
              Last(d, FinalizeTrace(d, w, sc)).group.winner == Some(w.taskId)
  {
    hide IntakeTrace;
    if d.group.pending.None? {
      var d1 := WithPending(d, w.taskId, sc.now);
      assert RepairSuccessors(d1) == RepairSuccessors(d);
      IntakeSound(d1, w, sc);
      Prepend(d, d1, IntakeTrace(d1, w, sc));
      Compose(d, [d1], IntakeTrace(d1, w, sc));
    } else if d.group.pending.value == w.taskId {
      IntakeSound(d, w, sc);
      assert [] + IntakeTrace(d, w, sc) == IntakeTrace(d, w, sc);
    }
  }

  /** A marked repair is queued at any time, also after the group is finished. */
  lemma RequeueWrite(d: Disk, id: TaskId)
    requires Inv(d) && id in d.marked
    ensures Inv(WithQueuedRepair(d, id))
  {
    SameSuccessors(d, WithQueuedRepair(d, id));
    hide RepairSuccessors, Labels;
  }

  lemma UnmarkWrite(d: Disk, id: TaskId)
    requires Inv(d)
    ensures Inv(WithoutMark(d, id))
  {
    SameSuccessors(d, WithoutMark(d, id));
    hide RepairSuccessors, Labels;
  }

  lemma AbandonWrite(d: Disk, id: TaskId, end: Status)
    requires Inv(d) && id in d.marked
    ensures Inv(WithAbandoned(d, id, end))
  {
    SameSuccessors(d, WithAbandoned(d, id, end));
    hide RepairSuccessors, Labels;
  }

  /** Every write of the reconciler is safe. */
  lemma ReconcileSound(d: Disk, id: TaskId, added: bool)
    requires Inv(d)
    ensures Sound(d, ReconcileTrace(d, id, added))
  {
    if id in d.marked {
      var queued := WithQueuedRepair(d, id);
      RequeueWrite(d, id);
      UnmarkWrite(d, id);
      UnmarkWrite(queued, id);
      AbandonWrite(d, id, DeadLetter);
      AbandonWrite(d, id, Failed);
      MarkSound(d, id, d.marked[id] + 1);
      hide Inv;
      forall e: Disk | e.group == d.group
        ensures EndMarks(d, e) && EndMarks(queued, e)
      {}
      hide EndMarks;
      Prepend(d, queued, [WithoutMark(queued, id)]);
    }
  }

  // ---------- whole scans ----------

  lemma {:induction false} CommitAllSound(d: Disk, cs: seq<Candidate>, sc: Scan)
    requires Inv(d) && Unresolved(d)
    ensures var t := CommitAllTrace(d, cs, sc);
      && Sound(d, t)
      && Last(d, t) == d.(committed := Last(d, t).committed)
      && d.committed <= Last(d, t).committed
      && |t| <= |cs|
    decreases |cs|
  {
    if cs == [] || !CommitOk(d, cs[0].taskId, sc) {
    } else {
      CommitSound(d, cs[0].taskId);
      var d1 := WithCommit(d, cs[0].taskId);
      CommitAllSound(d1, cs[1..], sc);
      Compose(d, [d1], CommitAllTrace(d1, cs[1..], sc));
    }
  }

  /** What a scan leaves behind when it neither resolves nor degrades the group. */
  ghost predicate Waiting(d: Disk, e: Disk, sc: Scan) {
    || e.group == d.group
    || (d.group.pending.None? && e.group.status.Selecting? && e.group.pending.Some? && e.group.updatedAt == Some(sc.now))
  }

  lemma VerdictSound(d: Disk, finished: seq<Candidate>, sc: Scan)
    requires Inv(d) && d.group.status.Selecting? && d.group.pending.None? && FreshRepair(d, sc) && !HasRepair(d)
    requires finished != [] && CandidateByTask(d.group, finished[0].taskId) == Some(finished[0])
    ensures Sound(d, VerdictTrace(d, finished, sc))
    ensures var e := Last(d, VerdictTrace(d, finished, sc));
      Unresolved(e) && sc.repair.Enqueued? ==> Waiting(d, e, sc)
  {
    hide FinalizeTrace, DegradeTrace;
    if sc.selection.SoleCandidateFailed? {
      DegradeSound(d, sc);
    } else if !sc.selection.Busy? {
      FinalizeSound(d, if sc.selection.Chosen? then ChosenWinner(d.group, sc.selection.id, finished[0]) else finished[0], sc);
    }
  }

  lemma SelectSound(d: Disk, finished: seq<Candidate>, sc: Scan)
    requires Inv(d) && d.group.status.Selecting? && d.group.pending.None? && FreshRepair(d, sc) && !HasRepair(d)
    requires finished != [] && CandidateByTask(d.group, finished[0].taskId) == Some(finished[0])
    ensures Sound(d, SelectTrace(d, finished, sc))
    ensures var e := Last(d, SelectTrace(d, finished, sc));
      Unresolved(e) && sc.repair.Enqueued? ==> Waiting(d, e, sc)
  {
    CommitAllSound(d, finished, sc);
    var t := CommitAllTrace(d, finished, sc);
    if |t| == |finished| {
      var d1 := Last(d, t);
      assert RepairSuccessors(d1) == RepairSuccessors(d);
      VerdictSound(d1, finished, sc);
      Compose(d, t, VerdictTrace(d1, finished, sc));
    }
  }

  /** Past the selection budget one scan is enough: a recoverable winner is taken, any other is re-executed. */
  lemma CommitOrDegradeSound(d: Disk, w: Candidate, sc: Scan)
    requires Inv(d) && d.group.status.Selecting? && FreshRepair(d, sc) && !HasRepair(d)
    requires CandidateByTask(d.group, w.taskId) == Some(w)
    requires d.group.pending.None? || d.group.pending == Some(w.taskId)
    ensures Sound(d, CommitOrDegradeTrace(d, w, sc))
    ensures sc.repair.Enqueued? ==> !Unresolved(Last(d, CommitOrDegradeTrace(d, w, sc)))
    ensures d.intaken != {} ==> Last(d, CommitOrDegradeTrace(d, w, sc)).group.winner == Some(w.taskId)
  {
    if CommitOk(d, w.taskId, sc) {
      CommitSound(d, w.taskId);
      var d1 := WithCommit(d, w.taskId);
      FinalizeSound(d1, w, sc);
      Compose(d, [d1], FinalizeTrace(d1, w, sc));
    } else {
      DegradeSound(d, sc);
    }
  }

  lemma DecideSound(d: Disk, finished: seq<Candidate>, sc: Scan)
    requires Inv(d) && Unresolved(d) && d.group.pending.None? && FreshRepair(d, sc) && !HasRepair(d)
    requires finished != [] && CandidateByTask(d.group, finished[0].taskId) == Some(finished[0])
    ensures Sound(d, DecideTrace(d, finished, sc))
    ensures var e := Last(d, DecideTrace(d, finished, sc));
      Unresolved(e) && sc.repair.Enqueued? ==>
        if d.group.status.Racing? then Waiting(WithSelecting(d, sc.now), e, sc)
        else !SelectionTimedOut(d.group, sc) && Waiting(d, e, sc)
  {
    if d.group.status.Racing? {
      var d1 := WithSelecting(d, sc.now);
      assert RepairSuccessors(d1) == RepairSuccessors(d);
      SelectSound(d1, finished, sc);
      Compose(d, [d1], SelectTrace(d1, finished, sc));
    } else if SelectionTimedOut(d.group, sc) {
      CommitOrDegradeSound(d, finished[0], sc);
    } else {
      SelectSound(d, finished, sc);
    }
  }

  lemma ReplaySound(d: Disk, sc: Scan)
    requires Inv(d) && Unresolved(d) && d.group.pending.Some? && FreshRepair(d, sc) && !HasRepair(d)
    ensures var w := CandidateByTask(d.group, d.group.pending.value).value;
      var t := ReplayTrace(d, w, sc);
      && Sound(d, t)
      && (d.intaken != {} ==> Last(d, t).group.winner == Some(w.taskId))
      && (Unresolved(Last(d, t)) && sc.repair.Enqueued? ==>
            !SelectionTimedOut(d.group, sc) && Waiting(d, Last(d, t), sc))
  {
    var w := CandidateByTask(d.group, d.group.pending.value).value;
    if SelectionTimedOut(d.group, sc) {
      CommitOrDegradeSound(d, w, sc);
    } else {
      FinalizeSound(d, w, sc);
    }
  }

  lemma AllTerminalSound(d: Disk, finished: seq<Candidate>, sc: Scan)
    requires Inv(d) && Unresolved(d) && FreshRepair(d, sc)
    requires finished != [] ==> CandidateByTask(d.group, finished[0].taskId) == Some(finished[0])
    ensures Sound(d, AllTerminalTrace(d, finished, sc))
  {
    if finished == [] {
      LostSound(d, None, sc.now);
    } else if HasRepair(d) {
      DegradeSound(d, sc);
    } else if d.group.pending.Some? {
      ReplaySound(d, sc);
    } else {
      DecideSound(d, finished, sc);
    }
  }

  lemma TimeoutSound(d: Disk, sc: Scan, c: Candidate)
    requires Inv(d) && Unresolved(d)
    ensures Sound(d, TimeoutTrace(d, sc, c))
    ensures Last(d, TimeoutTrace(d, sc, c)).group == d.group
  {
    var t := TimeoutTrace(d, sc, c);
    forall i | 0 <= i < |t|
      ensures SafeWrite(Before(d, t, i), t[i])
    {
      assert RepairSuccessors(t[i]) == RepairSuccessors(d);
    }
  }

  lemma {:induction false} FindOtherIsFirst(cs: seq<Candidate>, id: TaskId)
    requires FindOther(cs, id).Some?
    ensures Find(cs, FindOther(cs, id).value.taskId) == FindOther(cs, id)
  {
    if cs[0].taskId == id {
      FindOtherIsFirst(cs[1..], id);
    }
  }

  lemma FinishedAreCandidates(d: Disk, sc: Scan)
    requires Find(d.group.candidates, d.group.canonical).Some?
    requires FindOther(d.group.candidates, d.group.canonical).Some?
    ensures
      var f := FinishedCandidates(d, sc, Find(d.group.candidates, d.group.canonical).value,
                                  FindOther(d.group.candidates, d.group.canonical).value);
      f != [] ==> CandidateByTask(d.group, f[0].taskId) == Some(f[0])
  {
    FindOtherIsFirst(d.group.candidates, d.group.canonical);
  }

  /** Every durable write of a scan, hence every crash point of it, is safe. */
  lemma ScanSound(d: Disk, sc: Scan)
    requires Inv(d) && FreshRepair(d, sc)
    ensures Sound(d, ScanTrace(d, sc))
  {
    if Unresolved(d) {
      var canonical := Find(d.group.candidates, d.group.canonical);
      var shadow := FindOther(d.group.candidates, d.group.canonical);
      if canonical.None? || shadow.None? {
        LostSound(d, None, sc.now);
      } else {
        ScanPairSound(d, sc, canonical.value, shadow.value);
      }
    }
  }

  lemma CancelSound(d: Disk, id: TaskId, why: Reason)
    requires Inv(d) && Unresolved(d)
    ensures Sound(d, [WithStateCancelled(d, id, why)])
  {
    SameSuccessors(d, WithStateCancelled(d, id, why));
    hide RepairSuccessors;
  }

  lemma ScanPairSound(d: Disk, sc: Scan, canonical: Candidate, shadow: Candidate)
    requires Inv(d) && Unresolved(d) && FreshRepair(d, sc)
    requires Find(d.group.candidates, d.group.canonical) == Some(canonical)
    requires FindOther(d.group.candidates, d.group.canonical) == Some(shadow)
    ensures Sound(d, ScanPairTrace(d, sc, canonical, shadow))
  {
    CancelSound(d, shadow.taskId, AbFanoutIncomplete);
    hide ResolveTrace, AllTerminalTrace, TimeoutTrace, FinishedCandidates, WithStateCancelled, Effective, RaceTimedOut, Inv;
    if canonical.taskId in sc.tagged && !sc.tagged[canonical.taskId] {
      LostSound(d, None, sc.now);
    } else if shadow.taskId !in sc.rows && StatusOf(d.tasks, shadow.taskId) == Pending {
    } else if IsTerminal(Effective(d, sc, canonical.taskId)) && IsTerminal(Effective(d, sc, shadow.taskId)) {
      FinishedAreCandidates(d, sc);
      AllTerminalSound(d, FinishedCandidates(d, sc, canonical, shadow), sc);
    } else if RaceTimedOut(d.group, sc) {
      TimeoutsSound(d, sc, canonical, shadow);
    }
  }

  lemma TimeoutsSound(d: Disk, sc: Scan, canonical: Candidate, shadow: Candidate)
    requires Inv(d) && Unresolved(d)
    ensures var t := TimeoutTrace(d, sc, canonical);
      Sound(d, t + TimeoutTrace(Last(d, t), sc, shadow))
  {
    var t := TimeoutTrace(d, sc, canonical);
    TimeoutSound(d, sc, canonical);
    if t != [] {
      assert SafeWrite(Before(d, t, |t| - 1), t[|t| - 1]);
    }
    TimeoutSound(Last(d, t), sc, shadow);
    Compose(d, t, TimeoutTrace(Last(d, t), sc, shadow));
  }
}
