/**
 Degraded means that nothing was merged.  Within a scan a merge is followed by the
 resolution for the merged candidate and by nothing else; and as long as a finished
 race stays visible, a scan that meets a merged branch resolves the group.
 */
module ABMerged {
  import opened Common
  import opened ABProtocol
  import opened ABSafety
  import opened ABRuns

  ghost predicate Unmerged(d: Disk, t: seq<Disk>) {
    forall i | 0 <= i < |t| :: t[i].intaken == d.intaken
  }

  /** The trace merges nothing, or ends resolved. */
  ghost predicate MergesOnlyToWin(d: Disk, t: seq<Disk>) {
    Last(d, t).group.status.Resolved? || Unmerged(d, t)
  }

  lemma Append(d: Disk, a: seq<Disk>, b: seq<Disk>)
    requires Unmerged(d, a) && MergesOnlyToWin(Last(d, a), b)
    ensures MergesOnlyToWin(d, a + b)
  {}

  lemma MergesNothing(d: Disk, t: seq<Disk>)
    requires Unmerged(d, t)
    ensures MergesOnlyToWin(d, t)
  {}

  lemma Then(d: Disk, e: Disk, t: seq<Disk>)
    requires e.intaken == d.intaken && MergesOnlyToWin(e, t)
    ensures MergesOnlyToWin(d, [e] + t)
  {
    Append(d, [e], t);
  }

  lemma {:induction false} EmitKeepsGroup(d: Disk, labels: seq<Reward>)
    ensures Last(d, EmitTrace(d, labels)).group == d.group
    decreases |labels|
  {
    if labels == [] {
    } else {
      var d1 := d.(rewards := d.rewards + [labels[0]]);
      EmitKeepsGroup(d1, labels[1..]);
    }
  }

  lemma WonResolves(d: Disk, w: TaskId, now: int)
    requires Unresolved(d)
    ensures Last(d, ResolveTrace(d, Won(w), now)).group.status.Resolved?
  {
    EmitKeepsGroup(WithResolution(d, Won(w), now), Labels(d.group.candidates, w));
  }

  lemma LostMergesNothing(d: Disk, retry: Option<TaskId>, now: int)
    ensures Unmerged(d, ResolveTrace(d, Lost(retry), now))
  {
    ResolutionFrame(d, Lost(retry), now);
    hide WithResolution;
  }

  lemma DegradeMergesNothing(d: Disk, sc: Scan)
    ensures Unmerged(d, DegradeTrace(d, sc))
  {
    hide ResolveTrace, HasRepair;
    LostMergesNothing(d, None, sc.now);
    if HasRepair(d) {
      LostMergesNothing(d, Some(WiredRepair(d)), sc.now);
    } else if sc.repair.Enqueued? {
      LostMergesNothing(WithQueuedRepair(WithWiredRepair(d, sc.repair.id), sc.repair.id), Some(sc.repair.id), sc.now);
    }
  }

  lemma MergeWins(d: Disk, w: Candidate, sc: Scan)
    requires Unresolved(d)
    ensures MergesOnlyToWin(d, MergeTrace(d, w, sc))
  {
    DegradeMergesNothing(d, sc);
    WonResolves(WithIntake(d, w.branch), w.taskId, sc.now);
    hide DegradeTrace, ResolveTrace;
  }

  lemma CommitAndMergeWins(d: Disk, w: Candidate, sc: Scan)
    requires Unresolved(d)
    ensures MergesOnlyToWin(d, IntakeTrace(d, w, sc))
  {
    var d1 := WithCommit(d, w.taskId);
    MergeWins(d1, w, sc);
    hide MergeTrace;
    Then(d, d1, MergeTrace(d1, w, sc));
  }

  lemma FinalizeWins(d: Disk, w: Candidate, sc: Scan)
    ensures MergesOnlyToWin(d, FinalizeTrace(d, w, sc))
  {
    if Unresolved(d) && (d.group.pending.None? || d.group.pending.value == w.taskId) {
      var marked := if d.group.pending.Some? then [] else [WithPending(d, w.taskId, sc.now)];
      CommitAndMergeWins(Last(d, marked), w, sc);
      Append(d, marked, IntakeTrace(Last(d, marked), w, sc));
    }
    hide IntakeTrace;
  }

  lemma {:induction false} CommitMergesNothing(d: Disk, cs: seq<Candidate>, sc: Scan)
    ensures Unmerged(d, CommitAllTrace(d, cs, sc))
    decreases |cs|
  {
    if cs != [] && CommitOk(d, cs[0].taskId, sc) {
      CommitMergesNothing(WithCommit(d, cs[0].taskId), cs[1..], sc);
    }
  }

  lemma SelectWins(d: Disk, finished: seq<Candidate>, sc: Scan)
    requires finished != []
    ensures MergesOnlyToWin(d, SelectTrace(d, finished, sc))
  {
    var t := CommitAllTrace(d, finished, sc);
    var e := Last(d, t);
    hide CommitAllTrace, VerdictTrace, MergesOnlyToWin, Unmerged;
    CommitMergesNothing(d, finished, sc);
    MergesNothing(d, t);
    VerdictWins(e, finished, sc);
    Append(d, t, VerdictTrace(e, finished, sc));
  }

  lemma VerdictWins(d: Disk, finished: seq<Candidate>, sc: Scan)
    requires finished != []
    ensures MergesOnlyToWin(d, VerdictTrace(d, finished, sc))
  {
    hide DegradeTrace, FinalizeTrace, MergesOnlyToWin, ChosenWinner;
    DegradeMergesNothing(d, sc);
    MergesNothing(d, DegradeTrace(d, sc));
    MergesNothing(d, []);
    FinalizeWins(d, finished[0], sc);
    if sc.selection.Chosen? {
      FinalizeWins(d, ChosenWinner(d.group, sc.selection.id, finished[0]), sc);
    }
  }

  lemma CommitOrDegradeWins(d: Disk, w: Candidate, sc: Scan)
    ensures MergesOnlyToWin(d, CommitOrDegradeTrace(d, w, sc))
  {
    var d1 := WithCommit(d, w.taskId);
    hide DegradeTrace, FinalizeTrace, MergesOnlyToWin, Unmerged;
    DegradeMergesNothing(d, sc);
    MergesNothing(d, DegradeTrace(d, sc));
    FinalizeWins(d1, w, sc);
    Then(d, d1, FinalizeTrace(d1, w, sc));
  }

  lemma DecideWins(d: Disk, finished: seq<Candidate>, sc: Scan)
    requires finished != []
    ensures MergesOnlyToWin(d, DecideTrace(d, finished, sc))
  {
    var d1 := WithSelecting(d, sc.now);
    hide SelectTrace, CommitOrDegradeTrace, MergesOnlyToWin;
    SelectWins(d1, finished, sc);
    Then(d, d1, SelectTrace(d1, finished, sc));
    SelectWins(d, finished, sc);
    CommitOrDegradeWins(d, finished[0], sc);
  }

  lemma ReplayWins(d: Disk, w: Candidate, sc: Scan)
    ensures MergesOnlyToWin(d, ReplayTrace(d, w, sc))
  {
    hide CommitOrDegradeTrace, FinalizeTrace, MergesOnlyToWin;
    CommitOrDegradeWins(d, w, sc);
    FinalizeWins(d, w, sc);
  }

  lemma AllTerminalWins(d: Disk, finished: seq<Candidate>, sc: Scan)
    ensures MergesOnlyToWin(d, AllTerminalTrace(d, finished, sc))
  {
    hide DegradeTrace, ResolveTrace, DecideTrace, ReplayTrace, HasRepair, MergesOnlyToWin, Unmerged;
    LostMergesNothing(d, None, sc.now);
    MergesNothing(d, ResolveTrace(d, Lost(None), sc.now));
    DegradeMergesNothing(d, sc);
    MergesNothing(d, DegradeTrace(d, sc));
    if finished != [] {
      DecideWins(d, finished, sc);
    }
    if d.group.pending.Some? && CandidateByTask(d.group, d.group.pending.value).Some? {
      ReplayWins(d, CandidateByTask(d.group, d.group.pending.value).value, sc);
    }
  }

  lemma TimeoutsMergeNothing(d: Disk, sc: Scan, canonical: Candidate, shadow: Candidate)
    ensures var t := TimeoutTrace(d, sc, canonical); MergesOnlyToWin(d, t + TimeoutTrace(Last(d, t), sc, shadow))
  {
    var t := TimeoutTrace(d, sc, canonical);
    assert Unmerged(d, t) && Unmerged(Last(d, t), TimeoutTrace(Last(d, t), sc, shadow));
    hide TimeoutTrace;
    Append(d, t, TimeoutTrace(Last(d, t), sc, shadow));
  }

  lemma PairWins(d: Disk, sc: Scan, canonical: Candidate, shadow: Candidate)
    ensures MergesOnlyToWin(d, ScanPairTrace(d, sc, canonical, shadow))
  {
    var e := WithStateCancelled(d, shadow.taskId, AbFanoutIncomplete);
    assert MergesOnlyToWin(d, []) && MergesOnlyToWin(d, [e]);
    hide AllTerminalTrace, FinishedCandidates, TimeoutTrace, ResolveTrace, Effective, RaceTimedOut, MergesOnlyToWin, Unmerged,
      WithStateCancelled;
    LostMergesNothing(d, None, sc.now);
    MergesNothing(d, ResolveTrace(d, Lost(None), sc.now));
    AllTerminalWins(d, FinishedCandidates(d, sc, canonical, shadow), sc);
    TimeoutsMergeNothing(d, sc, canonical, shadow);
  }

  lemma ScanWins(d: Disk, sc: Scan)
    ensures MergesOnlyToWin(d, ScanTrace(d, sc))
  {
    MergesNothing(d, []);
    hide ScanPairTrace, ResolveTrace, MergesOnlyToWin, Unmerged, Unresolved;
    LostMergesNothing(d, None, sc.now);
    MergesNothing(d, ResolveTrace(d, Lost(None), sc.now));
    var canonical := Find(d.group.candidates, d.group.canonical);
    var shadow := FindOther(d.group.candidates, d.group.canonical);
    if canonical.Some? && shadow.Some? {
      PairWins(d, sc, canonical.value, shadow.value);
    }
  }

  // ---------- runs ----------

  /** A trace that ends resolved is nowhere degraded. */
  lemma ResolvedNotDegraded(d: Disk, t: seq<Disk>, n: nat)
    requires Inv(d) && Sound(d, t) && Last(d, t).group.status.Resolved? && n <= |t|
    ensures !Last(d, t[..n]).group.status.Degraded?
  {
    hide Inv, SafeWrite, Chain;
    ChainPrefix(SafeWrite, d, t, n);
    TraceLater(d, t[..n]);
    ChainSuffix(SafeWrite, d, t, n);
    TraceLater(Last(d, t[..n]), t[n..]);
  }

  /** Scans that meet a merged branch still see the race finished: rows keep their tag and completed rows stay. */
  ghost predicate Attentive(d: Disk, evs: seq<Event>)
    decreases |evs|
  {
    evs != [] ==>
      && (evs[0].ScanEvent? && Unresolved(d) && d.intaken != {} ==> RaceFinished(d, evs[0].sc))
      && Attentive(Apply(d, evs[0]), evs[1..])
  }

  ghost predicate DegradedUnmerged(d: Disk) {
    d.group.status.Degraded? ==> d.intaken == {}
  }

  lemma ScanDegradesUnmerged(d: Disk, sc: Scan, n: nat)
    requires Inv(d) && FreshRepair(d, sc) && DegradedUnmerged(d)
    requires Unresolved(d) && d.intaken != {} ==> RaceFinished(d, sc)
    ensures DegradedUnmerged(Apply(d, ScanEvent(sc, n)))
  {
    hide ScanTrace, Inv, Sound, RaceFinished, FreshRepair;
    var t := ScanTrace(d, sc);
    if Unresolved(d) {
      ScanSound(d, sc);
      ScanWins(d, sc);
      if d.intaken != {} {
        RecoveryCompletes(d, sc);
      }
      if Last(d, t).group.status.Resolved? {
        ResolvedNotDegraded(d, t, if n < |t| then n else |t|);
        assert t[..|t|] == t;
      } else {
        UnmergedCut(d, t, n);
      }
    } else {
      NoScan(d, sc);
    }
  }

  lemma UnmergedCut(d: Disk, t: seq<Disk>, n: nat)
    requires Unmerged(d, t)
    ensures Cut(d, t, n).intaken == d.intaken
  {}

  lemma NoScan(d: Disk, sc: Scan)
    requires !Unresolved(d)
    ensures ScanTrace(d, sc) == []
  {}

  lemma EventDegradesUnmerged(d: Disk, ev: Event)
    requires Inv(d) && DegradedUnmerged(d) && Possible(d, ev)
    requires ev.ScanEvent? && Unresolved(d) && d.intaken != {} ==> RaceFinished(d, ev.sc)
    ensures DegradedUnmerged(Apply(d, ev))
  {
    hide Inv, ScanTrace, RaceFinished;
    if ev.ScanEvent? {
      ScanDegradesUnmerged(d, ev.sc, ev.writes);
    }
  }

  /** Over every run of attentive scans, a degraded group has no merged branch. */
  lemma {:induction false} DegradedMeansUnmerged(d: Disk, evs: seq<Event>)
    requires Inv(d) && DegradedUnmerged(d) && PossibleRun(d, evs) && Attentive(d, evs)
    ensures DegradedUnmerged(Run(d, evs))
    decreases |evs|
  {
    if evs == [] {
    } else {
      EventSafe(d, evs[0]);
      EventDegradesUnmerged(d, evs[0]);
      hide Apply, Inv, DegradedUnmerged, Possible, RaceFinished;
      DegradedMeansUnmerged(Apply(d, evs[0]), evs[1..]);
    }
  }
}
