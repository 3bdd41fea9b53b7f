/**
 Convergence of the A/B race: an unresolved group whose candidates are both
 terminal is resolved or degraded by the first complete scan that starts more
 than two selection windows after the first one, whatever commit, selection and
 intake answer.  Two windows, because recording the decision restarts the clock.
 */
module ABConvergence {
  import opened Common
  import opened ABProtocol
  import opened ABSafety
  import opened ABRuns

  /** A scan that is not cut short, sees both candidates terminal, and can create repairs. */
  ghost predicate CompleteScan(d: Disk, sc: Scan, limit: nat) {
    && FreshRepair(d, sc)
    && sc.repair.Enqueued?
    && sc.selectionTimeout == limit
    && BothTerminal(d, sc)
  }

  ghost predicate CompleteRun(d: Disk, evs: seq<Event>, limit: nat)
    decreases |evs|
  {
    evs != [] ==>
      && (match evs[0]
          case ScanEvent(sc, n) => CompleteScan(d, sc, limit) && n >= |ScanTrace(d, sc)|
          case _ => Possible(d, evs[0]))
      && CompleteRun(Apply(d, evs[0]), evs[1..], limit)
  }

  /** When the group must be finished: two windows from selecting, one from a recorded decision. */
  ghost function Deadline(g: Group, limit: nat): int
    requires g.updatedAt.Some?
  {
    g.updatedAt.value + (if g.pending.None? then 2 * limit else limit)
  }

  ghost predicate Clocked(d: Disk, limit: nat, deadline: int) {
    Unresolved(d) ==> d.group.status.Selecting? && d.group.updatedAt.Some? && Deadline(d.group, limit) <= deadline
  }

  lemma ScanProgress(d: Disk, sc: Scan, limit: nat)
    requires Inv(d) && Unresolved(d) && CompleteScan(d, sc, limit)
    ensures var e := Last(d, ScanTrace(d, sc));
      Unresolved(e) ==>
        if d.group.status.Racing? then Waiting(WithSelecting(d, sc.now), e, sc)
        else !SelectionTimedOut(d.group, sc) && Waiting(d, e, sc)
  {
    var canonical := Find(d.group.candidates, d.group.canonical);
    var shadow := FindOther(d.group.candidates, d.group.canonical);
    if canonical.None? || shadow.None? {
      LostSound(d, None, sc.now);
    } else if canonical.value.taskId in sc.tagged && !sc.tagged[canonical.value.taskId] {
      LostSound(d, None, sc.now);
    } else {
      FinishedAreCandidates(d, sc);
      AllTerminalProgress(d, FinishedCandidates(d, sc, canonical.value, shadow.value), sc);
    }
  }

  lemma AllTerminalProgress(d: Disk, finished: seq<Candidate>, sc: Scan)
    requires Inv(d) && Unresolved(d) && FreshRepair(d, sc) && sc.repair.Enqueued?
    requires finished != [] ==> CandidateByTask(d.group, finished[0].taskId) == Some(finished[0])
    ensures var e := Last(d, AllTerminalTrace(d, finished, sc));
      Unresolved(e) ==>
        if d.group.status.Racing? then Waiting(WithSelecting(d, sc.now), e, sc)
        else !SelectionTimedOut(d.group, sc) && Waiting(d, e, sc)
  {
    if finished == [] {
      LostSound(d, None, sc.now);
    } else if HasRepair(d) {
      DegradeSound(d, sc);
    } else if d.group.pending.Some? {
      ReplaySound(d, sc);
    } else {
      DecideSound(d, finished, sc);
    }
  }

  /** A complete scan never moves the deadline back, and finishes the group once the deadline has passed. */
  lemma ScanKeepsDeadline(d: Disk, sc: Scan, limit: nat, deadline: int)
    requires Inv(d) && CompleteScan(d, sc, limit)
    requires Clocked(d, limit, deadline) || (d.group.status.Racing? && sc.now + 2 * limit <= deadline)
    ensures Clocked(Last(d, ScanTrace(d, sc)), limit, deadline)
    ensures !d.group.status.Racing? && sc.now > deadline ==> !Unresolved(Last(d, ScanTrace(d, sc)))
  {
    if Unresolved(d) {
      ScanProgress(d, sc, limit);
    }
  }

  lemma EventKeepsDeadline(d: Disk, ev: Event, limit: nat, deadline: int)
    requires Inv(d) && Possible(d, ev) && Clocked(d, limit, deadline)
    requires ev.ScanEvent? ==> CompleteScan(d, ev.sc, limit) && ev.writes >= |ScanTrace(d, ev.sc)|
    ensures Clocked(Apply(d, ev), limit, deadline)
  {
    hide Inv, ScanTrace, CompleteScan;
    if ev.ScanEvent? {
      ScanKeepsDeadline(d, ev.sc, limit, deadline);
    }
  }

  lemma {:induction false} RunKeepsDeadline(d: Disk, evs: seq<Event>, limit: nat, deadline: int)
    requires Inv(d) && CompleteRun(d, evs, limit) && Clocked(d, limit, deadline)
    ensures Inv(Run(d, evs)) && Clocked(Run(d, evs), limit, deadline)
    decreases |evs|
  {
    if evs == [] {
    } else {
      EventSafe(d, evs[0]);
      EventKeepsDeadline(d, evs[0], limit, deadline);
      hide Apply, Inv, Clocked, Possible, CompleteScan, ScanTrace;
      RunKeepsDeadline(Apply(d, evs[0]), evs[1..], limit, deadline);
    }
  }

  /**
   The group enters this run racing, or selecting since some time not after the
   first scan.  Whatever happens in between, the last scan leaves it finished.
   */
  lemma Converges(d: Disk, first: Scan, between: seq<Event>, last: Scan, limit: nat)
    requires Inv(d) && Unresolved(d) && CompleteScan(d, first, limit)
    requires d.group.status.Selecting? ==> d.group.updatedAt.Some? && d.group.updatedAt.value <= first.now
    requires var d1 := Last(d, ScanTrace(d, first));
      CompleteRun(d1, between, limit) && CompleteScan(Run(d1, between), last, limit)
    requires last.now > first.now + 2 * limit
    ensures var d1 := Last(d, ScanTrace(d, first));
      !Unresolved(Last(Run(d1, between), ScanTrace(Run(d1, between), last)))
  {
    var deadline := first.now + 2 * limit;
    var d1 := Last(d, ScanTrace(d, first));
    ScanKeepsDeadline(d, first, limit, deadline);
    EventSafe(d, ScanEvent(first, |ScanTrace(d, first)|));
    RunKeepsDeadline(d1, between, limit, deadline);
    ScanKeepsDeadline(Run(d1, between), last, limit, deadline);
  }
}
