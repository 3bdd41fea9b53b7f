/**
 Scans of a race that is not finished: what becomes of a group whose tag was removed,
 of a shadow that was never enqueued, and of a candidate that no worker executes
 when the race has run out of time.
 */
module ABTimeouts {
  import opened Common
  import opened ABProtocol
  import opened ABSafety
  import opened ABDecisions

  /** A race of the two candidates c, the canonical, and f, listed in either order. */
  ghost predicate Pair(d: Disk, c: Candidate, f: Candidate) {
    && (d.group.candidates == [c, f] || d.group.candidates == [f, c])
    && c.taskId == d.group.canonical && f.taskId != c.taskId
  }

  lemma PairFound(d: Disk, c: Candidate, f: Candidate)
    requires Pair(d, c, f)
    ensures Find(d.group.candidates, d.group.canonical) == Some(c)
    ensures FindOther(d.group.candidates, c.taskId) == Some(f) && FindOther(d.group.candidates, f.taskId) == Some(c)
  {
    assert [c, f][1..] == [f] && [f, c][1..] == [c];
    assert [f][1..] == [] && [c][1..] == [];
  }

  /** The canonical's row is there without its tag. */
  predicate Stripped(d: Disk, sc: Scan) {
    d.group.canonical in sc.tagged && !sc.tagged[d.group.canonical]
  }

  /** The shadow was registered and its row was never written. */
  predicate HalfEnqueued(d: Disk, sc: Scan, f: TaskId) {
    f !in sc.rows && f in d.tasks && d.tasks[f] == Pending
  }

  /** A group whose canonical lost its tag is degraded in one write, and nothing supersedes the canonical. */
  lemma StrippedIsDegraded(d: Disk, sc: Scan, c: Candidate, f: Candidate)
    requires Unresolved(d) && Pair(d, c, f) && Stripped(d, sc)
    ensures var t := ScanTrace(d, sc);
      && |t| == 1 && t[0].group.status.Degraded? && EndMarks(d, t[0])
      && SameEntry(t[0].tasks, d.tasks, c.taskId) && SameEntry(t[0].reasons, d.reasons, c.taskId)
  {
    PairFound(d, c, f);
    LostEnds(d, None, sc.now);
    ResolutionFrame(d, Lost(None), sc.now);
    CanonicalStands(d, sc.now);
    hide EndMarks, WithResolution, SameEntry;
  }

  lemma CanonicalStands(d: Disk, now: int)
    ensures var e := WithResolution(d, Lost(None), now);
      SameEntry(e.tasks, d.tasks, d.group.canonical) && SameEntry(e.reasons, d.reasons, d.group.canonical)
  {
    hide CandidateIds;
  }

  /** A shadow that was never enqueued is cancelled in one write that touches nothing else. */
  lemma HalfEnqueuedIsCancelled(d: Disk, sc: Scan, c: Candidate, f: Candidate)
    requires Unresolved(d) && Pair(d, c, f) && !Stripped(d, sc) && HalfEnqueued(d, sc, f.taskId)
    ensures ScanTrace(d, sc) ==
      [d.(tasks := d.tasks[f.taskId := Cancelled], reasons := d.reasons[f.taskId := AbFanoutIncomplete])]
  {
    PairFound(d, c, f);
  }

  /** The race has run for longer than its timeout, else the wall-clock limit, else half an hour. */
  predicate Overtime(d: Disk, sc: Scan) {
    && d.group.createdAt.Some?
    && var age := sc.now - d.group.createdAt.value;
      || (sc.raceTimeout > 0 && age > sc.raceTimeout)
      || (sc.raceTimeout <= 0 && sc.wallClock > 0 && age > sc.wallClock)
      || (sc.raceTimeout <= 0 && sc.wallClock <= 0 && age > 1800)
  }

  /** No worker executes the candidate: its row is pending in the snapshot and still is, or it has no row and has not ended. */
  ghost predicate Idle(d: Disk, sc: Scan, id: TaskId) {
    if id in sc.rows then sc.rows[id] == Pending && id in d.queue && d.queue[id] == Pending
    else !(id in d.tasks && d.tasks[id] in {Completed, Failed, Cancelled, DeadLetter, Aborted})
  }

  /** The candidate is cancelled for the timeout, in its queue row if it has one and then in the state. */
  ghost predicate TimedOutIn(d: Disk, sc: Scan, id: TaskId, e: Disk) {
    e == d.(queue := if id in sc.rows then d.queue[id := Cancelled] else d.queue,
            tasks := d.tasks[id := Cancelled], reasons := d.reasons[id := AbTimeout])
  }

  /** Whom a timed-out race cancels: an idle candidate whose rival has completed. */
  ghost predicate Beaten(d: Disk, sc: Scan, id: TaskId, rival: TaskId) {
    Idle(d, sc, id) && ShownAs(d, sc, rival, Completed)
  }

  lemma TimeoutTraceExactly(d: Disk, sc: Scan, x: Candidate, rival: Candidate)
    requires FindOther(d.group.candidates, x.taskId) == Some(rival)
    ensures var t := TimeoutTrace(d, sc, x);
      if Beaten(d, sc, x.taskId, rival.taskId) then
        t != [] && TimedOutIn(d, sc, x.taskId, Last(d, t)) && |t| == if x.taskId in sc.rows then 2 else 1
      else t == []
  {}

  /** In overtime exactly the idle candidate whose rival has completed is cancelled; within its time a race is left alone. */
  lemma TimeoutExactly(d: Disk, sc: Scan, c: Candidate, f: Candidate)
    requires Unresolved(d) && Pair(d, c, f) && !Stripped(d, sc) && !HalfEnqueued(d, sc, f.taskId)
    requires !(ShownEnded(d, sc, c.taskId) && ShownEnded(d, sc, f.taskId))
    ensures var t := ScanTrace(d, sc); var e := Last(d, t);
      if Overtime(d, sc) && Beaten(d, sc, c.taskId, f.taskId) then TimedOutIn(d, sc, c.taskId, e)
      else if Overtime(d, sc) && Beaten(d, sc, f.taskId, c.taskId) then TimedOutIn(d, sc, f.taskId, e)
      else t == []
  {
    PairFound(d, c, f);
    EndedIsTerminal(d, sc, c.taskId);
    EndedIsTerminal(d, sc, f.taskId);
    assert RaceTimedOut(d.group, sc) == Overtime(d, sc);
    var t := TimeoutTrace(d, sc, c);
    TimeoutTraceExactly(d, sc, c, f);
    TimeoutTraceExactly(d, sc, f, c);
    assert t + [] == t && [] + TimeoutTrace(d, sc, f) == TimeoutTrace(d, sc, f);
    if Beaten(d, sc, c.taskId, f.taskId) {
      NotBoth(d, sc, c.taskId, f.taskId, Last(d, t));
      TimeoutTraceExactly(Last(d, t), sc, f, c);
    }
    hide TimeoutTrace, RaceTimedOut, Overtime, Effective, ShownEnded, AllTerminalTrace, ResolveTrace, Beaten, TimedOutIn;
  }

  lemma EndedIsTerminal(d: Disk, sc: Scan, id: TaskId)
    ensures ShownEnded(d, sc, id) <==> IsTerminal(Effective(d, sc, id))
  {
    if IsTerminal(Effective(d, sc, id)) {
      assert ShownAs(d, sc, id, Effective(d, sc, id));
    }
  }

  /** Once a beaten candidate has been cancelled, its rival is not beaten. */
  lemma NotBoth(d: Disk, sc: Scan, id: TaskId, rival: TaskId, e: Disk)
    requires Beaten(d, sc, id, rival) && TimedOutIn(d, sc, id, e) && id != rival
    ensures !Beaten(e, sc, rival, id) && !Beaten(d, sc, rival, id)
  {}

  /** When both candidates have ended and none completed, the group is degraded in one write, and nothing supersedes the canonical. */
  lemma NoneCompletedIsDegraded(d: Disk, sc: Scan, c: Candidate, f: Candidate)
    requires Unresolved(d) && Pair(d, c, f) && !Stripped(d, sc) && !HalfEnqueued(d, sc, f.taskId)
    requires ShownEnded(d, sc, c.taskId) && ShownEnded(d, sc, f.taskId)
    requires !ShownAs(d, sc, c.taskId, Completed) && !ShownAs(d, sc, f.taskId, Completed)
    ensures var t := ScanTrace(d, sc);
      && |t| == 1 && t[0].group.status.Degraded? && EndMarks(d, t[0])
      && SameEntry(t[0].tasks, d.tasks, c.taskId) && SameEntry(t[0].reasons, d.reasons, c.taskId)
  {
    PairFound(d, c, f);
    EndedIsTerminal(d, sc, c.taskId);
    EndedIsTerminal(d, sc, f.taskId);
    LostEnds(d, None, sc.now);
    ResolutionFrame(d, Lost(None), sc.now);
    CanonicalStands(d, sc.now);
    hide EndMarks, WithResolution, SameEntry, ShownEnded, IsTerminal;
    assert FinishedCandidates(d, sc, c, f) == [];
  }
}
