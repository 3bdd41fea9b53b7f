/**
 Who wins.  The candidate that the selection engine chooses is recorded, merged,
 resolved and rewarded; without a usable answer it is the first finisher; and while
 the engine is busy nothing is decided.
 */
module ABDecisions {
  import opened Common
  import opened ABProtocol
  import opened ABSafety
  import opened ABRuns

  // ---------- decisions and wins, read off the disks ----------

  /** The trace records the decision for id, and never one for anybody else. */
  ghost predicate Decides(t: seq<Disk>, id: TaskId) {
    && (exists i :: 0 <= i < |t| && t[i].group.pending == Some(id))
    && (forall i | 0 <= i < |t| :: t[i].group.pending in {None, Some(id)})
  }

  ghost predicate Undecided(t: seq<Disk>) {
    forall i | 0 <= i < |t| :: t[i].group.pending.None?
  }

  /** The disk is resolved for id, its branch alone is merged, and each candidate is labelled. */
  ghost predicate WonBy(d: Disk, id: TaskId) {
    var cs := d.group.candidates;
    && d.group.status.Resolved? && d.group.winner == Some(id)
    && (exists c | c in cs :: c.taskId == id && d.intaken == {c.branch})
    && |d.rewards| == |cs|
    && (forall i | 0 <= i < |cs| ::
          d.rewards[i].model == cs[i].model && d.rewards[i].bloom == cs[i].bloom
          && (d.rewards[i].win <==> cs[i].taskId == id))
  }

  /** The queue row when the snapshot has one, else the state entry, shows this status. */
  ghost predicate ShownAs(d: Disk, sc: Scan, id: TaskId, s: Status) {
    if id in sc.rows then sc.rows[id] == s else id in d.tasks && d.tasks[id] == s
  }

  ghost predicate ShownEnded(d: Disk, sc: Scan, id: TaskId) {
    exists s: Status :: s in {Completed, Failed, Cancelled, DeadLetter, Aborted} && ShownAs(d, sc, id, s)
  }

  /** Both candidates have ended, one of them completed, and the canonical's row has its tag if there is a row. */
  ghost predicate RaceOver(d: Disk, sc: Scan) {
    var canonical := Find(d.group.candidates, d.group.canonical);
    var shadow := FindOther(d.group.candidates, d.group.canonical);
    && canonical.Some? && shadow.Some?
    && (d.group.canonical in sc.tagged ==> sc.tagged[d.group.canonical])
    && ShownEnded(d, sc, d.group.canonical) && ShownEnded(d, sc, shadow.value.taskId)
    && (ShownAs(d, sc, d.group.canonical, Completed) || ShownAs(d, sc, shadow.value.taskId, Completed))
  }

  lemma OverIsFinished(d: Disk, sc: Scan)
    requires RaceOver(d, sc)
    ensures RaceFinished(d, sc)
  {}

  /** The selection budget, counted from the last time the group was written, is spent. */
  ghost predicate Late(d: Disk, sc: Scan) {
    d.group.updatedAt.Some? && sc.now > d.group.updatedAt.value + sc.selectionTimeout
  }

  /** The race is finished and nothing is decided, wired or overdue; all finished work can be committed. */
  ghost predicate Open(d: Disk, sc: Scan) {
    && Inv(d) && Unresolved(d) && d.group.pending.None? && !HasRepair(d)
    && RaceOver(d, sc)
    && (d.group.status.Selecting? ==> !Late(d, sc))
    && (forall c | c in d.group.candidates && ShownAs(d, sc, c.taskId, Completed) :: Committable(d, sc, c.taskId))
  }

  /** The canonical or the shadow of the race. */
  ghost predicate IsPair(d: Disk, id: TaskId) {
    id == d.group.canonical || exists c :: FindOther(d.group.candidates, d.group.canonical) == Some(c) && c.taskId == id
  }

  /** Committed before, or its commit succeeds in this scan. */
  ghost predicate Committable(d: Disk, sc: Scan, id: TaskId) {
    id in d.committed || id in sc.commitOk
  }

  /** The canonical if it has completed, and the other candidate otherwise. */
  ghost predicate FirstFinisher(d: Disk, sc: Scan, id: TaskId) {
    if ShownAs(d, sc, d.group.canonical, Completed) then id == d.group.canonical
    else
      && id != d.group.canonical && ShownAs(d, sc, id, Completed)
      && exists c | c in d.group.candidates :: c.taskId == id && FindOther(d.group.candidates, d.group.canonical) == Some(c)
  }

  // ---------- resolution and merge ----------

  lemma {:induction false} EmitEnds(d: Disk, labels: seq<Reward>)
    ensures Last(d, EmitTrace(d, labels)) == d.(rewards := d.rewards + labels)
    ensures forall i | 0 <= i < |EmitTrace(d, labels)| :: EmitTrace(d, labels)[i].group == d.group
    decreases |labels|
  {
    if labels == [] {
      assert d.rewards + [] == d.rewards;
    } else {
      var d1 := d.(rewards := d.rewards + [labels[0]]);
      EmitEnds(d1, labels[1..]);
      assert d1.rewards + labels[1..] == d.rewards + labels;
    }
  }

  /** The trace keeps the decision, or ends it with the group. */
  ghost predicate KeepsDecision(d: Disk, t: seq<Disk>) {
    forall i | 0 <= i < |t| :: t[i].group.pending in {None, d.group.pending}
  }

  lemma ResolveKeeps(d: Disk, r: Resolution, now: int)
    ensures KeepsDecision(d, ResolveTrace(d, r, now))
  {
    ResolutionFrame(d, r, now);
    if r.Won? {
      EmitEnds(WithResolution(d, r, now), Labels(d.group.candidates, r.winner));
    }
    hide WithResolution, EmitTrace, Labels;
  }

  lemma DegradeKeeps(d: Disk, sc: Scan)
    ensures KeepsDecision(d, DegradeTrace(d, sc))
  {
    hide ResolveTrace, HasRepair;
    ResolveKeeps(d, Lost(None), sc.now);
    if HasRepair(d) {
      ResolveKeeps(d, Lost(Some(WiredRepair(d))), sc.now);
    } else if sc.repair.Enqueued? {
      ResolveKeeps(WithQueuedRepair(WithWiredRepair(d, sc.repair.id), sc.repair.id), Lost(Some(sc.repair.id)), sc.now);
    }
  }

  lemma IntakeKeeps(d: Disk, w: Candidate, sc: Scan)
    ensures KeepsDecision(d, IntakeTrace(d, w, sc))
  {
    var d1 := WithCommit(d, w.taskId);
    var d2 := WithIntake(d1, w.branch);
    ResolveKeeps(d2, Won(w.taskId), sc.now);
    DegradeKeeps(d1, sc);
    hide ResolveTrace, DegradeTrace;
  }

  /** A committed and mergeable winner is merged, resolved and rewarded. */
  lemma IntakeWon(d: Disk, w: Candidate, sc: Scan)
    requires Unresolved(d) && w in d.group.candidates && d.intaken <= {w.branch} && d.rewards == []
    requires CommitOk(d, w.taskId, sc) && IntakeOk(d, w.branch, sc)
    ensures WonBy(Last(d, IntakeTrace(d, w, sc)), w.taskId)
  {
    var d1 := WithCommit(d, w.taskId);
    var d2 := WithIntake(d1, w.branch);
    var d3 := WithResolution(d2, Won(w.taskId), sc.now);
    var labels := Labels(d.group.candidates, w.taskId);
    ResolutionFrame(d2, Won(w.taskId), sc.now);
    EmitEnds(d3, labels);
    hide WithResolution, EmitTrace;
    assert Last(d, IntakeTrace(d, w, sc)) == Last(d3, EmitTrace(d3, labels));
    assert d2.intaken == {w.branch};
    assert d3.rewards + labels == labels;
  }

  lemma FinalizeDecides(d: Disk, w: Candidate, sc: Scan)
    requires Unresolved(d) && d.group.pending.None?
    ensures Decides(FinalizeTrace(d, w, sc), w.taskId)
    ensures w in d.group.candidates && d.intaken == {} && d.rewards == [] && CommitOk(d, w.taskId, sc) && sc.intakeOk ==>
      WonBy(Last(d, FinalizeTrace(d, w, sc)), w.taskId)
  {
    var d1 := WithPending(d, w.taskId, sc.now);
    IntakeKeeps(d1, w, sc);
    if w in d.group.candidates && d.intaken == {} && d.rewards == [] && CommitOk(d, w.taskId, sc) && sc.intakeOk {
      IntakeWon(d1, w, sc);
    }
    hide IntakeTrace, WonBy;
    var t := FinalizeTrace(d, w, sc);
    assert t == [d1] + IntakeTrace(d1, w, sc);
    assert t[0].group.pending == Some(w.taskId);
  }

  // ---------- before the decision ----------

  /** The trace a decides nothing, and t follows it. */
  lemma AfterUndecided(d: Disk, a: seq<Disk>, t: seq<Disk>, id: TaskId)
    requires Undecided(a)
    ensures Decides(t, id) ==> Decides(a + t, id)
    ensures Undecided(t) ==> Undecided(a + t)
    ensures Last(d, a + t) == Last(Last(d, a), t)
  {
    if Decides(t, id) {
      var i :| 0 <= i < |t| && t[i].group.pending == Some(id);
      assert (a + t)[|a| + i] == t[i];
    }
  }

  lemma {:induction false} CommitsAll(d: Disk, cs: seq<Candidate>, sc: Scan)
    requires d.group.pending.None?
    requires forall c | c in cs :: CommitOk(d, c.taskId, sc)
    ensures var t := CommitAllTrace(d, cs, sc);
      && |t| == |cs| && Undecided(t)
      && Last(d, t) == d.(committed := Last(d, t).committed) && d.committed <= Last(d, t).committed
      && forall c | c in cs :: c.taskId in Last(d, t).committed
    decreases |cs|
  {
    if cs != [] {
      assert cs[0] in cs;
      assert forall c | c in cs[1..] :: c in cs;
      var d1 := WithCommit(d, cs[0].taskId);
      CommitsAll(d1, cs[1..], sc);
      assert CommitAllTrace(d, cs, sc) == [d1] + CommitAllTrace(d1, cs[1..], sc);
      hide CommitAllTrace, CommitOk;
    }
  }

  // ---------- the answer of the engine ----------

  /** From a group that has entered selection, the verdict follows the commits of all finished candidates. */
  lemma SelectsByVerdict(d: Disk, finished: seq<Candidate>, sc: Scan) returns (e: Disk, commits: seq<Disk>)
    requires d.group.pending.None? && finished != []
    requires forall c | c in finished :: CommitOk(d, c.taskId, sc)
    ensures SelectTrace(d, finished, sc) == commits + VerdictTrace(e, finished, sc)
    ensures Undecided(commits) && e == Last(d, commits)
    ensures e == d.(committed := e.committed) && d.committed <= e.committed
    ensures forall c | c in finished :: c.taskId in e.committed
  {
    hide VerdictTrace;
    commits := CommitAllTrace(d, finished, sc);
    e := Last(d, commits);
    CommitsAll(d, finished, sc);
  }

  /** A finished race without repair and decision comes to the decision, the first finisher first. */
  lemma FinishedRaceDecides(d: Disk, sc: Scan) returns (finished: seq<Candidate>)
    requires Unresolved(d) && RaceFinished(d, sc) && !HasRepair(d) && d.group.pending.None?
    ensures finished != [] && ScanTrace(d, sc) == DecideTrace(d, finished, sc)
    ensures forall c | c in finished :: c in d.group.candidates && Finished(d, sc, c.taskId)
    ensures forall id: TaskId | Finished(d, sc, id) && IsPair(d, id) :: exists c | c in finished :: c.taskId == id
    ensures FirstFinisher(d, sc, finished[0].taskId)
  {
    var canonical := Find(d.group.candidates, d.group.canonical).value;
    var shadow := FindOther(d.group.candidates, d.group.canonical).value;
    finished := FinishedCandidates(d, sc, canonical, shadow);
    assert finished != [];
    assert finished[0] == if Finished(d, sc, canonical.taskId) then canonical else shadow;
    hide DecideTrace, DegradeTrace, ResolveTrace, TimeoutTrace, FinishedCandidates, HasRepair, RaceTimedOut;
    assert ScanTrace(d, sc) == AllTerminalTrace(d, finished, sc);
  }

  /** What an open race writes before the engine is asked, and the disk on which its answer is acted upon. */
  lemma DecidesByVerdict(d: Disk, finished: seq<Candidate>, sc: Scan) returns (prelude: seq<Disk>, e: Disk)
    requires finished != [] && Unresolved(d) && d.group.pending.None?
    requires d.group.status.Selecting? ==> !SelectionTimedOut(d.group, sc)
    requires forall c | c in finished :: CommitOk(d, c.taskId, sc)
    ensures DecideTrace(d, finished, sc) == prelude + VerdictTrace(e, finished, sc)
    ensures Undecided(prelude) && e == Last(d, prelude)
    ensures Unresolved(e) && e.group.pending.None? && e.group.candidates == d.group.candidates
    ensures e.intaken == d.intaken && e.rewards == d.rewards && d.committed <= e.committed
    ensures forall c | c in finished :: c.taskId in e.committed
  {
    hide VerdictTrace, SelectTrace, CommitOrDegradeTrace, SelectionTimedOut;
    if d.group.status.Racing? {
      var d1 := WithSelecting(d, sc.now);
      var commits: seq<Disk>;
      e, commits := SelectsByVerdict(d1, finished, sc);
      prelude := [d1] + commits;
      assert [d1] + (commits + VerdictTrace(e, finished, sc)) == prelude + VerdictTrace(e, finished, sc);
    } else {
      e, prelude := SelectsByVerdict(d, finished, sc);
    }
  }

  lemma OpenScan(d: Disk, sc: Scan) returns (finished: seq<Candidate>, prelude: seq<Disk>, e: Disk)
    requires Open(d, sc)
    ensures finished != [] && ScanTrace(d, sc) == prelude + VerdictTrace(e, finished, sc)
    ensures Undecided(prelude) && e == Last(d, prelude)
    ensures Unresolved(e) && e.group.pending.None? && e.group.candidates == d.group.candidates
    ensures e.intaken == d.intaken == {} && e.rewards == [] && d.committed <= e.committed
    ensures finished[0] in d.group.candidates && FirstFinisher(d, sc, finished[0].taskId)
    ensures CommitOk(d, finished[0].taskId, sc)
    ensures forall id: TaskId | IsPair(d, id) && ShownAs(d, sc, id, Completed) :: id in e.committed
  {
    assert d.intaken == {} && d.rewards == [];
    OverIsFinished(d, sc);
    assert SelectionTimedOut(d.group, sc) == Late(d, sc);
    forall id: TaskId
      ensures ShownAs(d, sc, id, Completed) <==> Finished(d, sc, id)
    {}
    hide Inv, VerdictTrace, ScanTrace, DecideTrace, RaceFinished, RaceOver, HasRepair, FirstFinisher, SelectionTimedOut, ShownAs, Finished;
    finished := FinishedRaceDecides(d, sc);
    prelude, e := DecidesByVerdict(d, finished, sc);
  }

  /** The candidate that the engine chose is the decision, and with its branch mergeable the winner. */
  lemma ChosenWins(d: Disk, sc: Scan, id: TaskId)
    requires Open(d, sc) && sc.selection == Chosen(id) && id in CandidateIds(d.group)
    ensures Decides(ScanTrace(d, sc), id)
    ensures Committable(d, sc, id) && sc.intakeOk ==> WonBy(Last(d, ScanTrace(d, sc)), id)
  {
    var finished, prelude, e := OpenScan(d, sc);
    hide ScanTrace, FinalizeTrace, Open, WonBy, Decides, Undecided, Unresolved;
    var c := Find(e.group.candidates, id).value;
    assert VerdictTrace(e, finished, sc) == FinalizeTrace(e, c, sc);
    FinalizeDecides(e, c, sc);
    AfterUndecided(d, prelude, FinalizeTrace(e, c, sc), id);
  }

  /** Without a usable answer the first finisher is the decision, and with its branch mergeable the winner. */
  lemma FirstFinisherWins(d: Disk, sc: Scan, id: TaskId)
    requires Open(d, sc) && FirstFinisher(d, sc, id)
    requires sc.selection.NoSignal? || sc.selection.SelectionError?
      || (sc.selection.Chosen? && sc.selection.id !in CandidateIds(d.group))
    ensures Decides(ScanTrace(d, sc), id)
    ensures sc.intakeOk ==> WonBy(Last(d, ScanTrace(d, sc)), id)
  {
    var finished, prelude, e := OpenScan(d, sc);
    assert id == finished[0].taskId;
    hide ScanTrace, FinalizeTrace, Open, WonBy, Decides, Undecided, FirstFinisher, Unresolved;
    assert VerdictTrace(e, finished, sc) == FinalizeTrace(e, finished[0], sc);
    FinalizeDecides(e, finished[0], sc);
    AfterUndecided(d, prelude, FinalizeTrace(e, finished[0], sc), id);
  }

  /** A busy engine decides nothing: the race stays as open as it was, with all finished work committed. */
  lemma BusyWaits(d: Disk, sc: Scan)
    requires Open(d, sc) && sc.selection.Busy?
    ensures Undecided(ScanTrace(d, sc))
    ensures var e := Last(d, ScanTrace(d, sc));
      && Unresolved(e) && e.intaken == {}
      && forall id: TaskId | IsPair(d, id) && ShownAs(d, sc, id, Completed) :: id in e.committed
  {
    var finished, prelude, e := OpenScan(d, sc);
    hide ScanTrace, Open, Undecided;
    assert prelude + [] == prelude;
  }

  /** A sole candidate that failed verification is not taken: nothing is decided or merged. */
  lemma RejectedIsNotTaken(d: Disk, sc: Scan)
    requires Open(d, sc) && sc.selection.SoleCandidateFailed?
    ensures Undecided(ScanTrace(d, sc)) && !Last(d, ScanTrace(d, sc)).group.status.Resolved?
    ensures Last(d, ScanTrace(d, sc)).intaken == {}
  {
    var finished, prelude, e := OpenScan(d, sc);
    hide ScanTrace, Open;
    DegradeKeeps(e, sc);
    AfterUndecided(d, prelude, DegradeTrace(e, sc), "");
    DegradeTakesNothing(e, sc);
    hide DegradeTrace;
  }

  lemma LostTakesNothing(d: Disk, retry: Option<TaskId>, now: int)
    requires Unresolved(d)
    ensures var e := Last(d, ResolveTrace(d, Lost(retry), now)); e.intaken == d.intaken && e.group.status.Degraded?
  {
    ResolutionFrame(d, Lost(retry), now);
    hide WithResolution;
  }

  lemma DegradeTakesNothing(d: Disk, sc: Scan)
    requires Unresolved(d)
    ensures var e := Last(d, DegradeTrace(d, sc)); e.intaken == d.intaken && !e.group.status.Resolved?
  {
    hide ResolveTrace, HasRepair;
    LostTakesNothing(d, None, sc.now);
    if HasRepair(d) {
      LostTakesNothing(d, Some(WiredRepair(d)), sc.now);
    } else if sc.repair.Enqueued? {
      LostTakesNothing(WithQueuedRepair(WithWiredRepair(d, sc.repair.id), sc.repair.id), Some(sc.repair.id), sc.now);
    }
  }

  // ---------- overdue and recorded decisions ----------

  /** Past the selection budget the scan tries to commit the first finisher. */
  lemma OverdueTrace(d: Disk, sc: Scan, id: TaskId) returns (w: Candidate)
    requires d.group.status.Selecting? && d.group.pending.None? && !HasRepair(d) && RaceOver(d, sc)
    requires Late(d, sc) && FirstFinisher(d, sc, id)
    ensures ScanTrace(d, sc) == CommitOrDegradeTrace(d, w, sc) && w in d.group.candidates && w.taskId == id
  {
    OverIsFinished(d, sc);
    assert SelectionTimedOut(d.group, sc);
    hide ScanTrace, RaceFinished, RaceOver, HasRepair, CommitOrDegradeTrace, SelectTrace, SelectionTimedOut, Late;
    var finished := FinishedRaceDecides(d, sc);
    w := finished[0];
  }

  /** Past the selection budget the engine is not asked: the first finisher is taken, if its work can be committed. */
  lemma OverdueTakesFirst(d: Disk, sc: Scan, id: TaskId)
    requires Inv(d) && d.group.status.Selecting? && d.group.pending.None? && !HasRepair(d) && RaceOver(d, sc)
    requires Late(d, sc) && FirstFinisher(d, sc, id)
    ensures Committable(d, sc, id) ==> Decides(ScanTrace(d, sc), id)
    ensures Committable(d, sc, id) && sc.intakeOk ==> WonBy(Last(d, ScanTrace(d, sc)), id)
    ensures !Committable(d, sc, id) ==> Undecided(ScanTrace(d, sc)) && Last(d, ScanTrace(d, sc)).intaken == {}
  {
    assert d.intaken == {} && d.rewards == [];
    hide Inv, FinalizeTrace, DegradeTrace, ScanTrace, RaceOver, HasRepair, WonBy, Decides, FirstFinisher, Late;
    var w := OverdueTrace(d, sc, id);
    if CommitOk(d, id, sc) {
      var d1 := WithCommit(d, id);
      FinalizeDecides(d1, w, sc);
      AfterUndecided(d, [d1], FinalizeTrace(d1, w, sc), id);
    } else {
      DegradeKeeps(d, sc);
      DegradeTakesNothing(d, sc);
    }
  }

  /** A recorded decision is carried out as soon as its work can be committed and merged. */
  lemma RecordedWins(d: Disk, sc: Scan, w: Candidate)
    requires Inv(d) && Unresolved(d) && !HasRepair(d) && RaceOver(d, sc)
    requires d.group.pending == Some(w.taskId) && CandidateByTask(d.group, w.taskId) == Some(w)
    requires Committable(d, sc, w.taskId) && sc.intakeOk
    ensures WonBy(Last(d, ScanTrace(d, sc)), w.taskId)
  {
    assert d.intaken <= {w.branch} && d.rewards == [];
    OverIsFinished(d, sc);
    hide Inv, ScanTrace, RaceFinished, RaceOver, HasRepair, FinalizeTrace, DegradeTrace, WonBy;
    FinishedRaceReplays(d, sc, w);
    var d1 := WithCommit(d, w.taskId);
    RecordedFinalize(d, w, sc);
    RecordedFinalize(d1, w, sc);
    assert Last(d, [d1] + FinalizeTrace(d1, w, sc)) == Last(d1, FinalizeTrace(d1, w, sc));
  }

  lemma RecordedFinalize(d: Disk, w: Candidate, sc: Scan)
    requires Unresolved(d) && w in d.group.candidates && d.intaken <= {w.branch} && d.rewards == []
    requires d.group.pending == Some(w.taskId) && CommitOk(d, w.taskId, sc) && sc.intakeOk
    ensures WonBy(Last(d, FinalizeTrace(d, w, sc)), w.taskId)
    ensures FinalizeTrace(d, w, sc) != []
  {
    IntakeWon(d, w, sc);
    assert IntakeTrace(d, w, sc) != [];
    hide IntakeTrace, WonBy;
    assert [] + IntakeTrace(d, w, sc) == IntakeTrace(d, w, sc);
  }
}
