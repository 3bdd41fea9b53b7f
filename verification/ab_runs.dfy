/**
 Whole runs of the A/B race: scans and reconciliations that may crash after any
 durable write, interleaved with everything the workers, the planner and the
 queues do.
 */
module ABRuns {
  import opened Common
  import opened ABProtocol
  import opened ABSafety

  /**
   What may happen between two scans, cut or complete.  Terminal task states are
   stable, lineage entries stay, nobody else touches the group, the candidate
   branches or the group's retry marks, nobody but the degrade path and the
   reconciler puts the group's repair into a queue for the first time, and while
   the group is unresolved retries of its candidates are gated.
   */
  ghost predicate WorldStep(d: Disk, e: Disk) {
    && e.group == d.group
    && e.committed == d.committed && e.intaken == d.intaken && e.rewards == d.rewards
    && e.wired == d.wired && e.repairs == d.repairs && e.marked == d.marked
    && (forall r | r in d.wired && r !in d.repairs :: r !in e.queue)
    && (forall t | t in d.tasks && IsTerminal(d.tasks[t]) :: t in e.tasks && e.tasks[t] == d.tasks[t])
    && (forall s | s in d.lineage :: s in e.lineage && e.lineage[s] == d.lineage[s])
    && (Unresolved(d) ==> RepairSuccessors(e) == RepairSuccessors(d))
  }

  datatype Event =
    | ScanEvent(sc: Scan, writes: nat)  // the scan stops after this many durable writes
    | ReconcileEvent(id: TaskId, added: bool, writes: nat)  // one retry mark, cut likewise
    | WorldEvent(next: Disk)

  ghost predicate Possible(d: Disk, ev: Event) {
    match ev
    case ScanEvent(sc, _) => FreshRepair(d, sc)
    case ReconcileEvent(_, _, _) => true
    case WorldEvent(e) => WorldStep(d, e)
  }

  ghost function Apply(d: Disk, ev: Event): Disk {
    match ev
    case ScanEvent(sc, n) => Cut(d, ScanTrace(d, sc), n)
    case ReconcileEvent(id, added, n) => Cut(d, ReconcileTrace(d, id, added), n)
    case WorldEvent(e) => e
  }

  /** The disk after the first n writes of t. */
  function Cut(d: Disk, t: seq<Disk>, n: nat): Disk {
    Last(d, if n < |t| then t[..n] else t)
  }

  ghost function Run(d: Disk, evs: seq<Event>): Disk
    decreases |evs|
  {
    if evs == [] then d else Run(Apply(d, evs[0]), evs[1..])
  }

  ghost predicate PossibleRun(d: Disk, evs: seq<Event>)
    decreases |evs|
  {
    evs == [] || (Possible(d, evs[0]) && PossibleRun(Apply(d, evs[0]), evs[1..]))
  }

  /** A freshly registered group. */
  ghost predicate Initial(d: Disk) {
    && d.group.status.Racing? && d.group.pending.None? && d.group.winner.None?
    && d.intaken == {} && d.wired == {} && d.repairs == {} && d.marked == map[] && d.rewards == [] && RepairSuccessors(d) == {}
  }

  /** The group h is a possible future of the group g. */
  ghost predicate Later(g: Group, h: Group) {
    && h.canonical == g.canonical && h.candidates == g.candidates
    && (g.status.Selecting? ==> !h.status.Racing?)
    && (g.status.Resolved? || g.status.Degraded? ==> h == g)
    && (g.pending.Some? && (h.status.Racing? || h.status.Selecting?) ==> h.pending == g.pending)
    && (g.pending.Some? && h.status.Resolved? && h != g ==> h.winner == g.pending)
  }

  lemma {:induction false} TraceLater(d: Disk, t: seq<Disk>)
    requires Inv(d) && Sound(d, t)
    ensures Inv(Last(d, t)) && Later(d.group, Last(d, t).group)
    decreases |t|
  {
    hide Inv, EndMarks;
    if t == [] {
    } else {
      var n := |t| - 1;
      ChainPrefix(SafeWrite, d, t, n);
      TraceLater(d, t[..n]);
      assert Before(d, t, n) == Last(d, t[..n]);
      assert SafeWrite(Before(d, t, n), t[n]);
    }
  }

  lemma CutSafe(d: Disk, t: seq<Disk>, n: nat)
    requires Inv(d) && Sound(d, t)
    ensures Inv(Cut(d, t, n)) && Later(d.group, Cut(d, t, n).group)
  {
    if n < |t| {
      ChainPrefix(SafeWrite, d, t, n);
      TraceLater(d, t[..n]);
    } else {
      TraceLater(d, t);
    }
  }

  lemma EventSafe(d: Disk, ev: Event)
    requires Inv(d) && Possible(d, ev)
    ensures Inv(Apply(d, ev)) && Later(d.group, Apply(d, ev).group)
  {
    match ev
    case ScanEvent(sc, n) =>
      ScanSound(d, sc);
      CutSafe(d, ScanTrace(d, sc), n);
    case ReconcileEvent(id, added, n) =>
      ReconcileSound(d, id, added);
      CutSafe(d, ReconcileTrace(d, id, added), n);
    case WorldEvent(e) =>
      WorldSafe(d, e);
  }

  lemma WorldSafe(d: Disk, e: Disk)
    requires Inv(d) && WorldStep(d, e)
    ensures Inv(e)
  {}

  lemma {:induction false} RunKeepsInvariant(d: Disk, evs: seq<Event>)
    requires Inv(d) && PossibleRun(d, evs)
    ensures Inv(Run(d, evs)) && Later(d.group, Run(d, evs).group)
    decreases |evs|
  {
    if evs == [] {
    } else {
      EventSafe(d, evs[0]);
      RunKeepsInvariant(Apply(d, evs[0]), evs[1..]);
    }
  }

  lemma {:induction false} AtMostOneSize<T(!new)>(s: set<T>)
    requires AtMostOne(s)
    ensures |s| <= 1
  {
    if s != {} {
      var x :| x in s;
      assert s == {x};
    }
  }

  // ---------- what every run guarantees ----------

  /** At most one branch is ever merged, and a group has a winner only if that winner's branch was merged. */
  lemma SingleIntake(d: Disk, evs: seq<Event>)
    requires Initial(d) && PossibleRun(d, evs)
    ensures var e := Run(d, evs);
      && |e.intaken| <= 1
      && (e.group.status.Resolved? ==>
            && e.group.winner.Some?
            && CandidateByTask(e.group, e.group.winner.value).Some?
            && CandidateByTask(e.group, e.group.winner.value).value.branch in e.intaken)
      && (Unresolved(e) && e.intaken != {} ==>
            && e.group.pending.Some?
            && CandidateByTask(e.group, e.group.pending.value).Some?
            && CandidateByTask(e.group, e.group.pending.value).value.branch in e.intaken)
  {
    RunKeepsInvariant(d, evs);
    AtMostOneSize(Run(d, evs).intaken);
  }

  /**
   The logical task is never both integrated and re-executed, and never re-executed
   twice, also when the reconciler queues the repair after the group is finished.
   */
  lemma NeverIntakeAndRepair(d: Disk, evs: seq<Event>)
    requires Initial(d) && PossibleRun(d, evs)
    ensures var e := Run(d, evs);
      && (e.intaken == {} || e.wired == {})
      && |e.wired| <= 1 && e.repairs <= e.wired
      && (forall r | r in e.wired && r in e.queue :: r in e.repairs)
      && (Unresolved(e) ==> e.wired == RepairSuccessors(e))
  {
    RunKeepsInvariant(d, evs);
    AtMostOneSize(Run(d, evs).wired);
  }

  /** The recorded decision is final: whatever follows, no other candidate can win. */
  lemma DecisionIsFinal(d: Disk, before: seq<Event>, after: seq<Event>)
    requires Initial(d) && PossibleRun(d, before)
    requires PossibleRun(Run(d, before), after)
    requires Run(d, before).group.pending.Some?
    ensures var w := Run(d, before).group.pending;
      var e := Run(Run(d, before), after);
      && (Unresolved(e) ==> e.group.pending == w)
      && (e.group.status.Resolved? ==> e.group.winner == w)
  {
    RunKeepsInvariant(d, before);
    RunKeepsInvariant(Run(d, before), after);
  }

  /** Terminal groups never change again. */
  lemma TerminalIsFrozen(d: Disk, before: seq<Event>, after: seq<Event>)
    requires Initial(d) && PossibleRun(d, before)
    requires PossibleRun(Run(d, before), after)
    requires !Unresolved(Run(d, before))
    ensures Run(Run(d, before), after).group == Run(d, before).group
  {
    RunKeepsInvariant(d, before);
    RunKeepsInvariant(Run(d, before), after);
  }

  ghost function Wins(rewards: seq<Reward>): nat {
    if rewards == [] then 0 else (if rewards[0].win then 1 else 0) + Wins(rewards[1..])
  }

  ghost predicate DistinctIds(cs: seq<Candidate>) {
    forall i, j | 0 <= i < j < |cs| :: cs[i].taskId != cs[j].taskId
  }

  lemma {:induction false} NoWinsOutside(cs: seq<Candidate>, w: TaskId)
    requires forall c | c in cs :: c.taskId != w
    ensures Wins(Labels(cs, w)) == 0
  {
    if cs == [] {
    } else {
      NoWinsOutside(cs[1..], w);
      assert Labels(cs, w)[1..] == Labels(cs[1..], w);
    }
  }

  lemma {:induction false} OneWin(cs: seq<Candidate>, w: TaskId)
    requires DistinctIds(cs) && Find(cs, w).Some?
    ensures Wins(Labels(cs, w)) == 1
  {
    assert Labels(cs, w)[1..] == Labels(cs[1..], w);
    if cs[0].taskId == w {
      NoWinsOutside(cs[1..], w);
    } else {
      OneWin(cs[1..], w);
    }
  }

  lemma {:induction false} WinsOfPrefix(p: seq<Reward>, r: seq<Reward>)
    requires p <= r
    ensures Wins(p) <= Wins(r)
  {
    if p == [] {
    } else {
      WinsOfPrefix(p[1..], r[1..]);
    }
  }

  /**
   What each terminal status leaves behind: who is cancelled, whose lineage the
   shadow inherits, and that each candidate is labelled at most once, in order,
   with exactly one win, and only for a resolved group.
   */
  lemma TerminalOutcome(d: Disk, evs: seq<Event>)
    requires Initial(d) && DistinctIds(d.group.candidates) && PossibleRun(d, evs)
    ensures var e := Run(d, evs); var g := e.group;
      && (g.status.Resolved? ==>
            && g.winner.Some? && g.pending.None?
            && (forall c | c in g.candidates && c.taskId != g.winner.value :: StatusOf(e.tasks, c.taskId) == Cancelled)
            && (g.winner.value != g.canonical ==>
                  StatusOf(e.tasks, g.winner.value) == Completed
                  && g.winner.value in e.lineage && e.lineage[g.winner.value] == g.canonical)
            && e.rewards <= Labels(g.candidates, g.winner.value)
            && Wins(e.rewards) <= 1
            && Wins(Labels(g.candidates, g.winner.value)) == 1)
      && (g.status.Degraded? ==>
            && g.winner.None? && g.pending.None?
            && (forall c | c in g.candidates && c.taskId != g.canonical :: StatusOf(e.tasks, c.taskId) == Cancelled))
      && (!g.status.Resolved? ==> e.rewards == [])
  {
    RunKeepsInvariant(d, evs);
    var e := Run(d, evs);
    if e.group.status.Resolved? {
      OneWin(e.group.candidates, e.group.winner.value);
      WinsOfPrefix(e.rewards, Labels(e.group.candidates, e.group.winner.value));
    }
  }

  // ---------- crash recovery ----------

  ghost predicate BothTerminal(d: Disk, sc: Scan) {
    var canonical := Find(d.group.candidates, d.group.canonical);
    var shadow := FindOther(d.group.candidates, d.group.canonical);
    canonical.Some? && shadow.Some? ==>
      && IsTerminal(Effective(d, sc, canonical.value.taskId))
      && IsTerminal(Effective(d, sc, shadow.value.taskId))
  }

  /** The snapshot shows a group with both candidates, a tagged canonical row, both terminal, one completed. */
  ghost predicate RaceFinished(d: Disk, sc: Scan) {
    var canonical := Find(d.group.candidates, d.group.canonical);
    var shadow := FindOther(d.group.candidates, d.group.canonical);
    && canonical.Some? && shadow.Some?
    && (canonical.value.taskId in sc.tagged ==> sc.tagged[canonical.value.taskId])
    && BothTerminal(d, sc)
    && (Finished(d, sc, canonical.value.taskId) || Finished(d, sc, shadow.value.taskId))
  }

  /** A finished race with a recorded decision and no repair is replayed. */
  lemma FinishedRaceReplays(d: Disk, sc: Scan, w: Candidate)
    requires Unresolved(d) && RaceFinished(d, sc) && !HasRepair(d)
    requires d.group.pending == Some(w.taskId) && CandidateByTask(d.group, w.taskId) == Some(w)
    ensures ScanTrace(d, sc) == ReplayTrace(d, w, sc)
  {
    hide ReplayTrace, DegradeTrace, DecideTrace, ResolveTrace, TimeoutTrace, RaceTimedOut, HasRepair;
  }

  /**
   After a crash between the intake and the resolution, one uninterrupted scan
   resolves the group for exactly the candidate that was merged, whatever commit,
   intake, selection and repair would answer for anything else.
   */
  lemma RecoveryCompletes(d: Disk, sc: Scan)
    requires Inv(d) && Unresolved(d) && FreshRepair(d, sc) && RaceFinished(d, sc)
    requires d.intaken != {}
    ensures var e := Last(d, ScanTrace(d, sc));
      && e.group.status.Resolved?
      && e.group.winner == d.group.pending
      && e.intaken == d.intaken
  {
    hide ReplayTrace, ScanTrace, RaceFinished, FreshRepair;
    var w := CandidateByTask(d.group, d.group.pending.value).value;
    FinishedRaceReplays(d, sc, w);
    ReplaySound(d, sc);
    TraceLater(d, ReplayTrace(d, w, sc));
  }
}
