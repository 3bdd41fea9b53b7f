/**
 The repair of a degraded group.  Wiring it into the command state and putting it
 into a queue are two durable writes; a failed queue write is rolled back or leaves
 a mark from which the reconciler queues the repair later.  Exactly when the
 repair that a group waits for is lost for good.
 */
module ABRepairs {
  import opened Common
  import opened ABProtocol
  import opened ABSafety
  import opened ABRuns

  // ---------- where a scan touches repairs ----------

  /** Nothing that concerns repairs has changed, and no row has been queued or removed. */
  ghost predicate SameRepairs(d: Disk, e: Disk) {
    e.wired == d.wired && e.repairs == d.repairs && e.marked == d.marked && e.queue.Keys == d.queue.Keys
  }

  ghost predicate Calm(d: Disk, t: seq<Disk>) {
    forall i | 0 <= i < |t| :: SameRepairs(d, t[i])
  }

  /** What a scan may have written before it degrades: the group's status, decision and clock, and commits. */
  ghost predicate Prepared(d: Disk, e: Disk) {
    && Unresolved(e)
    && e == d.(committed := e.committed,
               group := d.group.(status := e.group.status, pending := e.group.pending, updatedAt := e.group.updatedAt))
  }

  /** The trace writes the calm part p, and then degrades or ends. */
  ghost predicate Shape(d: Disk, sc: Scan, t: seq<Disk>, p: seq<Disk>, degrades: bool) {
    && Calm(d, p)
    && t == p + (if degrades then DegradeTrace(Last(d, p), sc) else [])
    && (degrades ==> Prepared(d, Last(d, p)))
  }

  ghost predicate CalmThenDegrade(d: Disk, sc: Scan, t: seq<Disk>) {
    exists p, degrades :: Shape(d, sc, t, p, degrades)
  }

  lemma OnlyCalm(d: Disk, sc: Scan, t: seq<Disk>)
    requires Calm(d, t)
    ensures CalmThenDegrade(d, sc, t)
  {
    assert Shape(d, sc, t, t, false);
  }

  lemma OnlyDegrade(d: Disk, sc: Scan)
    requires Unresolved(d)
    ensures CalmThenDegrade(d, sc, DegradeTrace(d, sc))
  {
    assert [] + DegradeTrace(d, sc) == DegradeTrace(d, sc);
    assert Shape(d, sc, DegradeTrace(d, sc), [], true);
  }

  lemma CalmBoth(d: Disk, a: seq<Disk>, b: seq<Disk>)
    requires Calm(d, a) && Calm(Last(d, a), b)
    ensures Calm(d, a + b)
  {}

  lemma After(d: Disk, a: seq<Disk>, sc: Scan, t: seq<Disk>)
    requires Calm(d, a) && Prepared(d, Last(d, a)) && CalmThenDegrade(Last(d, a), sc, t)
    ensures CalmThenDegrade(d, sc, a + t)
  {
    hide DegradeTrace;
    var e := Last(d, a);
    var p, degrades :| Shape(e, sc, t, p, degrades);
    CalmBoth(d, a, p);
    assert Last(d, a + p) == Last(e, p);
    assert degrades ==> Prepared(d, Last(e, p));
    hide Calm, Prepared, Last;
    assert a + t == (a + p) + (if degrades then DegradeTrace(Last(e, p), sc) else []);
    assert Shape(d, sc, a + t, a + p, degrades);
  }

  lemma {:induction false} EmitCalm(d: Disk, labels: seq<Reward>)
    ensures Calm(d, EmitTrace(d, labels))
    decreases |labels|
  {
    if labels != [] {
      EmitCalm(d.(rewards := d.rewards + [labels[0]]), labels[1..]);
    }
  }

  lemma ResolutionCalm(d: Disk, r: Resolution, now: int)
    ensures SameRepairs(d, WithResolution(d, r, now))
  {
    ResolutionFrame(d, r, now);
    hide WithResolution;
  }

  lemma ResolveCalm(d: Disk, r: Resolution, now: int)
    ensures Calm(d, ResolveTrace(d, r, now))
  {
    var e := WithResolution(d, r, now);
    ResolutionCalm(d, r, now);
    hide EmitTrace, Labels, WithResolution;
    if r.Won? {
      EmitCalm(e, Labels(d.group.candidates, r.winner));
    }
  }

  lemma MergeShape(d: Disk, w: Candidate, sc: Scan)
    requires Unresolved(d)
    ensures CalmThenDegrade(d, sc, MergeTrace(d, w, sc))
  {
    var e := WithIntake(d, w.branch);
    ResolveCalm(e, Won(w.taskId), sc.now);
    hide ResolveTrace, DegradeTrace;
    OnlyDegrade(d, sc);
    if IntakeOk(d, w.branch, sc) {
      OnlyCalm(d, sc, [e] + ResolveTrace(e, Won(w.taskId), sc.now));
    }
  }

  lemma IntakeShape(d: Disk, w: Candidate, sc: Scan)
    requires Unresolved(d)
    ensures CalmThenDegrade(d, sc, IntakeTrace(d, w, sc))
  {
    var e := WithCommit(d, w.taskId);
    OnlyCalm(d, sc, []);
    MergeShape(e, w, sc);
    After(d, [e], sc, MergeTrace(e, w, sc));
    hide MergeTrace, CalmThenDegrade;
  }

  lemma FinalizeShape(d: Disk, w: Candidate, sc: Scan)
    ensures CalmThenDegrade(d, sc, FinalizeTrace(d, w, sc))
  {
    OnlyCalm(d, sc, []);
    if Unresolved(d) && (d.group.pending.None? || d.group.pending.value == w.taskId) {
      var marked := if d.group.pending.Some? then [] else [WithPending(d, w.taskId, sc.now)];
      IntakeShape(Last(d, marked), w, sc);
      After(d, marked, sc, IntakeTrace(Last(d, marked), w, sc));
    }
    hide IntakeTrace, CalmThenDegrade;
  }

  lemma {:induction false} CommitAllCalm(d: Disk, cs: seq<Candidate>, sc: Scan)
    requires Unresolved(d)
    ensures var t := CommitAllTrace(d, cs, sc); Calm(d, t) && Prepared(d, Last(d, t))
    decreases |cs|
  {
    if cs != [] && CommitOk(d, cs[0].taskId, sc) {
      CommitAllCalm(WithCommit(d, cs[0].taskId), cs[1..], sc);
    }
  }

  lemma VerdictShape(d: Disk, finished: seq<Candidate>, sc: Scan)
    requires Unresolved(d) && finished != []
    ensures CalmThenDegrade(d, sc, VerdictTrace(d, finished, sc))
  {
    hide DegradeTrace, FinalizeTrace, ChosenWinner;
    OnlyCalm(d, sc, []);
    hide CalmThenDegrade;
    OnlyDegrade(d, sc);
    FinalizeShape(d, finished[0], sc);
    if sc.selection.Chosen? {
      FinalizeShape(d, ChosenWinner(d.group, sc.selection.id, finished[0]), sc);
    }
  }

  lemma SelectShape(d: Disk, finished: seq<Candidate>, sc: Scan)
    requires Unresolved(d) && finished != []
    ensures CalmThenDegrade(d, sc, SelectTrace(d, finished, sc))
  {
    hide CommitAllTrace, VerdictTrace, CalmThenDegrade;
    var t := CommitAllTrace(d, finished, sc);
    CommitAllCalm(d, finished, sc);
    OnlyCalm(d, sc, t);
    VerdictShape(Last(d, t), finished, sc);
    After(d, t, sc, VerdictTrace(Last(d, t), finished, sc));
  }

  lemma CommitOrDegradeShape(d: Disk, w: Candidate, sc: Scan)
    requires Unresolved(d)
    ensures CalmThenDegrade(d, sc, CommitOrDegradeTrace(d, w, sc))
  {
    hide DegradeTrace, FinalizeTrace, CalmThenDegrade;
    var e := WithCommit(d, w.taskId);
    OnlyDegrade(d, sc);
    FinalizeShape(e, w, sc);
    After(d, [e], sc, FinalizeTrace(e, w, sc));
  }

  lemma DecideShape(d: Disk, finished: seq<Candidate>, sc: Scan)
    requires Unresolved(d) && finished != []
    ensures CalmThenDegrade(d, sc, DecideTrace(d, finished, sc))
  {
    hide SelectTrace, CommitOrDegradeTrace, CalmThenDegrade;
    var e := WithSelecting(d, sc.now);
    SelectShape(e, finished, sc);
    After(d, [e], sc, SelectTrace(e, finished, sc));
    SelectShape(d, finished, sc);
    CommitOrDegradeShape(d, finished[0], sc);
  }

  lemma AllTerminalShape(d: Disk, finished: seq<Candidate>, sc: Scan)
    requires Unresolved(d)
    ensures CalmThenDegrade(d, sc, AllTerminalTrace(d, finished, sc))
  {
    hide DegradeTrace, ResolveTrace, DecideTrace, CommitOrDegradeTrace, FinalizeTrace, HasRepair, CalmThenDegrade;
    ResolveCalm(d, Lost(None), sc.now);
    OnlyCalm(d, sc, ResolveTrace(d, Lost(None), sc.now));
    OnlyDegrade(d, sc);
    if finished != [] {
      DecideShape(d, finished, sc);
    }
    if d.group.pending.Some? && CandidateByTask(d.group, d.group.pending.value).Some? {
      var w := CandidateByTask(d.group, d.group.pending.value).value;
      CommitOrDegradeShape(d, w, sc);
      FinalizeShape(d, w, sc);
    }
  }

  lemma TimeoutCalm(d: Disk, sc: Scan, c: Candidate)
    ensures Calm(d, TimeoutTrace(d, sc, c)) && SameRepairs(d, Last(d, TimeoutTrace(d, sc, c)))
  {}

  lemma TimeoutsCalm(d: Disk, sc: Scan, canonical: Candidate, shadow: Candidate)
    ensures var t := TimeoutTrace(d, sc, canonical); Calm(d, t + TimeoutTrace(Last(d, t), sc, shadow))
  {
    var t := TimeoutTrace(d, sc, canonical);
    TimeoutCalm(d, sc, canonical);
    TimeoutCalm(Last(d, t), sc, shadow);
    hide TimeoutTrace;
  }

  lemma PairShape(d: Disk, sc: Scan, canonical: Candidate, shadow: Candidate)
    requires Unresolved(d)
    ensures CalmThenDegrade(d, sc, ScanPairTrace(d, sc, canonical, shadow))
  {
    var e := WithStateCancelled(d, shadow.taskId, AbFanoutIncomplete);
    assert Calm(d, []) && Calm(d, [e]);
    hide AllTerminalTrace, FinishedCandidates, TimeoutTrace, ResolveTrace, Effective, RaceTimedOut, CalmThenDegrade, Calm,
      WithStateCancelled;
    OnlyCalm(d, sc, []);
    OnlyCalm(d, sc, [e]);
    ResolveCalm(d, Lost(None), sc.now);
    OnlyCalm(d, sc, ResolveTrace(d, Lost(None), sc.now));
    AllTerminalShape(d, FinishedCandidates(d, sc, canonical, shadow), sc);
    TimeoutsCalm(d, sc, canonical, shadow);
    var t := TimeoutTrace(d, sc, canonical);
    OnlyCalm(d, sc, t + TimeoutTrace(Last(d, t), sc, shadow));
  }

  /** A scan leaves repairs alone, except that it may end with one degrade. */
  lemma ScanShape(d: Disk, sc: Scan)
    ensures CalmThenDegrade(d, sc, ScanTrace(d, sc))
  {
    assert Calm(d, []);
    hide ScanPairTrace, ResolveTrace, CalmThenDegrade, Calm;
    OnlyCalm(d, sc, []);
    ResolveCalm(d, Lost(None), sc.now);
    OnlyCalm(d, sc, ResolveTrace(d, Lost(None), sc.now));
    var canonical := Find(d.group.candidates, d.group.canonical);
    var shadow := FindOther(d.group.candidates, d.group.canonical);
    if Unresolved(d) && canonical.Some? && shadow.Some? {
      PairShape(d, sc, canonical.value, shadow.value);
    }
  }

  // ---------- which cut loses the repair ----------

  /** Some wired repair is neither queued nor marked. */
  ghost predicate Orphaned(d: Disk) {
    exists r :: r in d.wired && r !in d.repairs && r !in d.marked
  }

  /** Write k of the trace is the wiring of a repair. */
  ghost predicate WiresAt(d: Disk, t: seq<Disk>, k: nat) {
    k < |t| && Before(d, t, k).wired == {} && t[k].wired != {}
  }

  /** A degrade that does not end at once: it wires a new repair. */
  ghost predicate Wires(d: Disk, sc: Scan) {
    !HasRepair(d) && d.group.canonical in d.queue && (sc.repair.QueueFails? || sc.repair.Enqueued?)
  }

  lemma PreparedKeeps(d: Disk, e: Disk)
    requires Prepared(d, e)
    ensures RepairSuccessors(e) == RepairSuccessors(d)
    ensures e.wired == d.wired && e.repairs == d.repairs && e.marked == d.marked && e.queue == d.queue
  {
    SameSuccessors(d, e);
  }

  /** A degrade that wires nothing is calm. */
  lemma DegradeCalm(d: Disk, sc: Scan)
    requires !Wires(d, sc)
    ensures Calm(d, DegradeTrace(d, sc))
  {
    assert Calm(d, []);
    if HasRepair(d) {
      ResolveCalm(d, Lost(Some(WiredRepair(d))), sc.now);
    }
    ResolveCalm(d, Lost(None), sc.now);
    hide ResolveTrace, HasRepair, Calm;
  }

  ghost predicate Settled(d: Disk, id: TaskId) {
    d.wired == {} || (d.wired == {id} && (id in d.repairs || id in d.marked))
  }

  /** After the wiring, every further write queues the repair, marks it, or takes the wiring back. */
  lemma WiringThenSettled(d: Disk, sc: Scan)
    requires Wires(d, sc) && Unresolved(d) && d.wired == {}
    ensures var q := DegradeTrace(d, sc); var id := sc.repair.id;
      && |q| >= 2 && q[0] == WithWiredRepair(d, id)
      && (forall i | 1 <= i < |q| :: Settled(q[i], id) && Before(d, q, i).wired != {})
  {
    hide ResolveTrace, WithResolution, HasRepair;
    var id := sc.repair.id;
    var d2 := WithQueuedRepair(WithWiredRepair(d, id), id);
    ResolutionCalm(d2, Lost(Some(id)), sc.now);
    assert d2.wired == {id} && id in d2.repairs;
    LostTrace(d2, Some(id), sc.now);
  }

  lemma LostTrace(d: Disk, retry: Option<TaskId>, now: int)
    requires Unresolved(d)
    ensures ResolveTrace(d, Lost(retry), now) == [WithResolution(d, Lost(retry), now)]
  {
    hide WithResolution;
  }

  /** Only the first write of q wires a repair, and only that one leaves it orphaned. */
  ghost predicate OneWiring(d: Disk, q: seq<Disk>) {
    && q != [] && WiresAt(d, q, 0) && Orphaned(q[0])
    && forall k | 1 <= k < |q| :: !WiresAt(d, q, k) && !Orphaned(q[k])
  }

  lemma SettledNotOrphaned(d: Disk, id: TaskId)
    requires Settled(d, id)
    ensures !Orphaned(d)
  {}

  lemma WiringDegrade(d: Disk, sc: Scan)
    requires Wires(d, sc) && Unresolved(d) && d.wired == {} && d.repairs == {} && d.marked == map[]
    ensures var q := DegradeTrace(d, sc);
      OneWiring(d, q) && q[0] == WithWiredRepair(d, sc.repair.id)
  {
    WiringThenSettled(d, sc);
    var q := DegradeTrace(d, sc);
    hide DegradeTrace, Wires, Settled;
    assert sc.repair.id in q[0].wired;
    forall k | 1 <= k < |q|
      ensures !WiresAt(d, q, k) && !Orphaned(q[k])
    {
      assert Settled(q[k], sc.repair.id);
      SettledNotOrphaned(q[k], sc.repair.id);
    }
  }

  lemma CutOfTwo(d: Disk, p: seq<Disk>, q: seq<Disk>, n: nat)
    ensures n <= |p| ==> Cut(d, p + q, n) == Cut(d, p, n)
    ensures |p| < n <= |p| + |q| ==> Cut(d, p + q, n) == q[n - |p| - 1]
    ensures n > |p| + |q| ==> Cut(d, p + q, n) == Cut(d, p + q, |p| + |q|)
  {
    if n <= |p| {
      assert (p + q)[..n] == p[..n];
    }
  }

  /**
   Of all the cuts of a scan, whatever makes it degrade, exactly the one behind the
   wiring leaves a repair that is neither queued nor marked.
   */
  lemma OnlyWiringLoses(d: Disk, sc: Scan, n: nat)
    requires Inv(d) && d.wired == {}
    ensures Orphaned(Apply(d, ScanEvent(sc, n))) <==> n > 0 && WiresAt(d, ScanTrace(d, sc), n - 1)
    ensures n > 0 && WiresAt(d, ScanTrace(d, sc), n - 1) ==>
      exists before :: Prepared(d, before) && Wires(before, sc) && Apply(d, ScanEvent(sc, n)) == WithWiredRepair(before, sc.repair.id)
  {
    var t := ScanTrace(d, sc);
    ScanShape(d, sc);
    var p, degrades :| Shape(d, sc, t, p, degrades);
    var before := Last(d, p);
    hide Inv, ScanTrace;
    if degrades && Wires(before, sc) {
      PreparedKeeps(d, before);
      WiringDegrade(before, sc);
      WiringCut(d, sc, p, n);
      if n > 0 {
        WiringCut(d, sc, p, n - 1);
      }
    } else {
      if degrades {
        DegradeCalm(before, sc);
        CalmBoth(d, p, DegradeTrace(before, sc));
      } else {
        assert p + [] == p;
      }
      hide DegradeTrace;
      CalmCut(d, t, n);
      if n > 0 {
        CalmCut(d, t, n - 1);
      }
    }
  }

  /** No scan has two such cuts. */
  lemma OneCutLoses(d: Disk, sc: Scan, n: nat, m: nat)
    requires Inv(d) && d.wired == {}
    requires Orphaned(Apply(d, ScanEvent(sc, n))) && Orphaned(Apply(d, ScanEvent(sc, m)))
    ensures n == m
  {
    var t := ScanTrace(d, sc);
    ScanShape(d, sc);
    var p, degrades :| Shape(d, sc, t, p, degrades);
    var before := Last(d, p);
    assert d.repairs == {} && d.marked == map[];
    hide Inv, ScanTrace;
    if degrades && Wires(before, sc) {
      WiringCut(d, sc, p, n);
      WiringCut(d, sc, p, m);
    } else {
      if degrades {
        DegradeCalm(before, sc);
        CalmBoth(d, p, DegradeTrace(before, sc));
      } else {
        assert p + [] == p;
      }
      hide DegradeTrace;
      CalmCut(d, t, n);
    }
  }

  lemma CalmCut(d: Disk, t: seq<Disk>, n: nat)
    requires Calm(d, t) && d.wired == {}
    ensures !Orphaned(Cut(d, t, n)) && !WiresAt(d, t, n)
  {}

  lemma WiresAtOfTwo(d: Disk, p: seq<Disk>, q: seq<Disk>, k: nat)
    ensures k < |p| ==> (WiresAt(d, p + q, k) <==> WiresAt(d, p, k))
    ensures k >= |p| ==> (WiresAt(d, p + q, k) <==> WiresAt(Last(d, p), q, k - |p|))
  {
    if k < |p| {
      assert Before(d, p + q, k) == Before(d, p, k);
    } else if k < |p + q| {
      assert Before(d, p + q, k) == Before(Last(d, p), q, k - |p|);
    }
  }

  lemma WiringCut(d: Disk, sc: Scan, p: seq<Disk>, n: nat)
    requires Calm(d, p) && Prepared(d, Last(d, p)) && Wires(Last(d, p), sc)
    requires d.wired == {} && d.repairs == {} && d.marked == map[]
    ensures var t := p + DegradeTrace(Last(d, p), sc);
      && (Orphaned(Cut(d, t, n)) <==> n == |p| + 1)
      && (WiresAt(d, t, n) <==> n == |p|)
      && (n == |p| + 1 ==> Cut(d, t, n) == WithWiredRepair(Last(d, p), sc.repair.id))
  {
    var before := Last(d, p);
    var q := DegradeTrace(before, sc);
    PreparedKeeps(d, before);
    assert Unresolved(before);
    hide DegradeTrace, Wires, Prepared, Orphaned, WiresAt, Calm, Cut, WithWiredRepair, Unresolved;
    WiringDegrade(before, sc);
    CutOfTwo(d, p, q, n);
    CutOfTwo(d, p, q, |p| + |q|);
    CalmCut(d, p, n);
    WiresAtOfTwo(d, p, q, n);
    if n >= |p| + |q| {
      PastTheEnd(before, q, n - |p|);
    }
  }

  lemma PastTheEnd(d: Disk, t: seq<Disk>, n: nat)
    requires n >= |t|
    ensures !WiresAt(d, t, n)
  {}

  // ---------- lost for good ----------

  /** The reconciler still has an attempt to queue the repair. */
  ghost predicate CanRequeue(d: Disk, id: TaskId) {
    id in d.marked && d.marked[id] < MAX_ENQUEUE_ATTEMPTS
  }

  /** Wired, never queued, and the reconciler will not queue it. */
  ghost predicate LostForGood(d: Disk, id: TaskId) {
    id in d.wired && id !in d.repairs && !CanRequeue(d, id)
  }

  /** While a repair is wired, no scan changes what is wired, queued or marked. */
  lemma WiredScanCalm(d: Disk, sc: Scan)
    requires Inv(d) && d.wired != {}
    ensures Calm(d, ScanTrace(d, sc))
  {
    assert Unresolved(d) ==> HasRepair(d);
    hide Inv;
    if Unresolved(d) {
      ScanShape(d, sc);
      hide ScanTrace, DegradeTrace;
      var p, degrades :| Shape(d, sc, ScanTrace(d, sc), p, degrades);
      if degrades {
        PreparedKeeps(d, Last(d, p));
        DegradeCalm(Last(d, p), sc);
        hide Prepared, HasRepair, RepairSuccessors;
        CalmBoth(d, p, DegradeTrace(Last(d, p), sc));
      } else {
        assert p + [] == p;
      }
    }
  }

  lemma StaysLost(d: Disk, ev: Event, id: TaskId)
    requires Inv(d) && Possible(d, ev) && LostForGood(d, id)
    ensures LostForGood(Apply(d, ev), id)
  {
    match ev
    case ScanEvent(sc, n) =>
      WiredScanCalm(d, sc);
      hide ScanTrace, Inv;
    case ReconcileEvent(x, added, n) =>
      hide ScanTrace;
    case WorldEvent(e) =>
  }

  lemma {:induction false} RunStaysLost(d: Disk, evs: seq<Event>, id: TaskId)
    requires Inv(d) && PossibleRun(d, evs) && LostForGood(d, id)
    ensures LostForGood(Run(d, evs), id) && id !in Run(d, evs).queue
    decreases |evs|
  {
    if evs == [] {
    } else {
      EventSafe(d, evs[0]);
      StaysLost(d, evs[0], id);
      hide Apply, Inv, LostForGood;
      RunStaysLost(Apply(d, evs[0]), evs[1..], id);
    }
  }

  /** The reconciler can be run until it queues the repair. */
  lemma CanBeQueued(d: Disk, id: TaskId) returns (evs: seq<Event>)
    requires Inv(d) && CanRequeue(d, id)
    ensures PossibleRun(d, evs) && id in Run(d, evs).queue
  {
    var restored := d.(queue := d.queue[d.group.canonical := Completed]);
    var world, added := WorldEvent(restored), ReconcileEvent(id, true, 1);
    CanRestore(d, restored);
    ApplyWorld(d, restored);
    FirstAttemptQueues(restored, id);
    assert Possible(d, world) && Possible(restored, added);
    hide Inv, WorldStep, Apply, Possible, CanRequeue;
    evs := [world, added];
    TwoEvents(d, world, added);
  }

  lemma TwoEvents(d: Disk, a: Event, b: Event)
    requires Possible(d, a) && Possible(Apply(d, a), b)
    ensures PossibleRun(d, [a, b]) && Run(d, [a, b]) == Apply(Apply(d, a), b)
  {
    hide Apply, Possible;
    var e := Apply(d, a);
    assert [a, b][1..] == [b] && [b][1..] == [];
    assert PossibleRun(Apply(e, b), []) && Run(Apply(e, b), []) == Apply(e, b);
    assert PossibleRun(e, [b]) && Run(e, [b]) == Apply(e, b);
  }

  lemma FirstAttemptQueues(d: Disk, id: TaskId)
    requires CanRequeue(d, id) && d.group.canonical in d.queue
    ensures id in Apply(d, ReconcileEvent(id, true, 1)).queue
  {
    hide ScanTrace;
    var t := ReconcileTrace(d, id, true);
    assert t != [];
    assert |t| > 1 ==> t[..1] == [t[0]];
  }

  lemma ApplyWorld(d: Disk, e: Disk)
    ensures Apply(d, WorldEvent(e)) == e
  {}

  lemma CanRestore(d: Disk, e: Disk)
    requires Inv(d) && e == d.(queue := d.queue[d.group.canonical := Completed])
    ensures WorldStep(d, e)
  {
    SameSuccessors(d, e);
  }

  /**
   A wired repair that has not been queued is never queued in any run if and only if
   it carries no mark with an attempt left.
   */
  lemma RepairLostExactly(d: Disk, id: TaskId)
    requires Inv(d) && id in d.wired && id !in d.repairs
    ensures (forall evs | PossibleRun(d, evs) :: id !in Run(d, evs).queue) <==> !CanRequeue(d, id)
  {
    if CanRequeue(d, id) {
      var evs := CanBeQueued(d, id);
    } else {
      forall evs | PossibleRun(d, evs)
        ensures id !in Run(d, evs).queue
      {
        RunStaysLost(d, evs, id);
      }
    }
  }

  /** The repair that supersedes the canonical, if it is superseded by one. */
  function SupersedingRepair(d: Disk): Option<TaskId> {
    if d.group.canonical in d.reasons && d.reasons[d.group.canonical].SupersededByRetry?
    then Some(d.reasons[d.group.canonical].retry) else None
  }

  /** A successor of the canonical proves a repair exactly if it is no candidate. */
  lemma RepairMeans(d: Disk)
    ensures HasRepair(d) <==>
      exists s | s in d.lineage :: d.lineage[s] == d.group.canonical && forall c | c in d.group.candidates :: c.taskId != s
  {
    if s :| s in d.lineage && d.lineage[s] == d.group.canonical && forall c | c in d.group.candidates :: c.taskId != s {
      assert s in RepairSuccessors(d);
    }
    if HasRepair(d) {
      var s := WiredRepair(d);
      forall c | c in d.group.candidates
        ensures c.taskId != s
      {
        assert c.taskId in CandidateIds(d.group);
      }
    }
  }

  lemma LostNames(d: Disk, retry: Option<TaskId>, now: int)
    requires Unresolved(d) && d.group.canonical in CandidateIds(d.group)
    ensures var e := Last(d, ResolveTrace(d, Lost(retry), now));
      && SupersedingRepair(e) == (if retry.Some? then retry else SupersedingRepair(d))
      && SameRepairs(d, e) && e.group.status.Degraded?
  {
    ResolutionCalm(d, Lost(retry), now);
    hide AllCancelled;
  }

  /**
   The retry that a degrade names is wired; it is queued unless the degrade met it
   wired and not queued, and it is lost for good exactly if it was before.
   */
  lemma RepairQueuedExactly(d: Disk, sc: Scan)
    requires Inv(d) && Unresolved(d) && FreshRepair(d, sc)
    requires d.group.canonical in CandidateIds(d.group) && SupersedingRepair(d).None?
    ensures var e := Last(d, DegradeTrace(d, sc));
      e.group.status.Degraded? && SupersedingRepair(e).Some? ==>
        var r := SupersedingRepair(e).value;
        && r in e.wired
        && (r in e.repairs <==> !(r in d.wired && r !in d.repairs))
        && (LostForGood(e, r) <==> LostForGood(d, r))
  {
    assert d.wired == RepairSuccessors(d) && d.repairs <= d.wired;
    assert sc.repair.Enqueued? ==> sc.repair.id !in d.wired;
    hide ResolveTrace, CandidateIds, SupersedingRepair, Inv, RepairSuccessors, FreshRepair;
    LostNames(d, None, sc.now);
    if HasRepair(d) {
      LostNames(d, Some(WiredRepair(d)), sc.now);
    } else if d.group.canonical in d.queue && sc.repair.Enqueued? {
      EnqueuedNames(d, sc.repair.id, sc.now);
      hide HasRepair;
    }
  }

  lemma EnqueuedNames(d: Disk, id: TaskId, now: int)
    requires Unresolved(d) && d.group.canonical in CandidateIds(d.group)
    ensures var d1 := WithWiredRepair(d, id); var d2 := WithQueuedRepair(d1, id);
      var e := Last(d, [d1, d2] + ResolveTrace(d2, Lost(Some(id)), now));
      SupersedingRepair(e) == Some(id) && id in e.wired && id in e.repairs
  {
    var d2 := WithQueuedRepair(WithWiredRepair(d, id), id);
    assert d2.group == d.group && id in d2.repairs && id in d2.wired;
    hide ResolveTrace, CandidateIds, SupersedingRepair, WithWiredRepair, WithQueuedRepair;
    LostNames(d2, Some(id), now);
  }

  lemma WiringCutLoses(d: Disk, sc: Scan, n: nat) returns (id: TaskId)
    requires Inv(d) && d.wired == {} && n > 0 && WiresAt(d, ScanTrace(d, sc), n - 1)
    ensures var crashed := Apply(d, ScanEvent(sc, n));
      crashed.wired == {id} && Unresolved(crashed) && LostForGood(crashed, id)
  {
    OnlyWiringLoses(d, sc, n);
    id := sc.repair.id;
    var crashed := Apply(d, ScanEvent(sc, n));
    var before :| Prepared(d, before) && Wires(before, sc) && crashed == WithWiredRepair(before, id);
    assert d.repairs == {} && d.marked == map[];
    hide ScanTrace, Apply, Inv, Wires, WiresAt;
    PreparedKeeps(d, before);
  }

  /** The repair is wired behind the canonical and marked, and nothing else has happened to rows and group. */
  ghost predicate MarkedFor(d: Disk, e: Disk, id: TaskId) {
    && e.marked == map[id := 0] && e.wired == {id} && e.queue == d.queue && e.group == d.group
    && e.lineage == d.lineage[id := d.group.canonical]
  }

  lemma MarkTable(d: Disk, id: TaskId, rolledBack: bool)
    requires d.wired == {} && d.marked == map[] && id !in d.lineage && id !in d.tasks
    ensures var d1 := WithWiredRepair(d, id);
      if rolledBack then WithoutWiredRepair(d1, id) == d else MarkedFor(d, WithMark(d1, id, 0), id)
  {}

  lemma EnqueueTable(d: Disk, id: TaskId, now: int)
    requires Unresolved(d) && d.group.canonical in CandidateIds(d.group) && id !in CandidateIds(d.group) && id != d.group.canonical
    ensures var d1 := WithWiredRepair(d, id); var d2 := WithQueuedRepair(d1, id);
      var e := Last(d, [d1, d2] + ResolveTrace(d2, Lost(Some(id)), now));
      && e.group.status.Degraded? && SupersedingRepair(e) == Some(id)
      && id in e.queue && e.queue[id] == Pending && id in e.repairs && id in e.lineage && e.lineage[id] == d.group.canonical
      && StatusOf(e.tasks, id) == Extended("planned")
  {
    var d2 := WithQueuedRepair(WithWiredRepair(d, id), id);
    assert d2.group == d.group && id in d2.repairs && id in d2.queue && d2.queue[id] == Pending;
    assert d2.tasks[id] == Extended("planned") && d2.lineage[id] == d.group.canonical;
    hide WithWiredRepair, WithQueuedRepair, CandidateIds;
    LostNames(d2, Some(id), now);
    LostMarks(d2, Some(id), now);
    LostTrace(d2, Some(id), now);
    ResolutionFrame(d2, Lost(Some(id)), now);
    hide WithResolution, ResolveTrace, SupersedingRepair;
    assert DegradeMark(d2, WithResolution(d2, Lost(Some(id)), now), id);
  }

  /**
   What a degrade does about the repair, for each way in which creating it can end:
   nothing; nothing in the end; a mark for the reconciler; or a queued repair that
   supersedes the canonical.
   */
  lemma DegradeTable(d: Disk, sc: Scan)
    requires Inv(d) && Unresolved(d) && FreshRepair(d, sc) && !HasRepair(d)
    requires d.group.canonical in d.queue && d.group.canonical in CandidateIds(d.group)
    ensures var t := DegradeTrace(d, sc); var e := Last(d, t);
      match sc.repair
      case CreateFails => t == []
      case WireFails => t == []
      case QueueFails(id, rolledBack) =>
        && (rolledBack ==> e == d)
        && (!rolledBack ==> MarkedFor(d, e, id))
      case Enqueued(id) =>
        && e.group.status.Degraded? && SupersedingRepair(e) == Some(id)
        && id in e.queue && e.queue[id] == Pending && id in e.repairs && id in e.lineage && e.lineage[id] == d.group.canonical
        && StatusOf(e.tasks, id) == Extended("planned")
  {
    assert d.wired == {} && d.marked == map[];
    hide Inv, HasRepair, CandidateIds, ResolveTrace, SupersedingRepair, MarkedFor, WithWiredRepair, WithoutWiredRepair, WithQueuedRepair;
    match sc.repair
    case CreateFails =>
    case WireFails =>
    case QueueFails(id, rolledBack) => MarkTable(d, id, rolledBack);
    case Enqueued(id) => EnqueueTable(d, id, sc.now);
  }

  /** A degrade without the canonical's row ends the group in one write, and nothing supersedes the canonical. */
  lemma RowlessDegrade(d: Disk, sc: Scan)
    requires Unresolved(d) && !HasRepair(d) && d.group.canonical !in d.queue
    ensures var t := DegradeTrace(d, sc);
      |t| == 1 && t[0].group.status.Degraded? && SupersedingRepair(t[0]) == SupersedingRepair(d) && t[0].queue == d.queue
  {
    ResolutionFrame(d, Lost(None), sc.now);
    LostTrace(d, None, sc.now);
    hide HasRepair, ResolveTrace, CandidateIds;
  }

  /** A crash behind the wiring: no run queues the repair, and the next scan of the finished race degrades for it. */
  lemma WiringCutIsFinal(d: Disk, sc: Scan, n: nat, evs: seq<Event>, last: Scan)
    requires Inv(d) && FreshRepair(d, sc) && d.wired == {} && n > 0 && WiresAt(d, ScanTrace(d, sc), n - 1)
    requires PossibleRun(Apply(d, ScanEvent(sc, n)), evs)
    ensures var crashed := Apply(d, ScanEvent(sc, n));
      && crashed.wired != {}
      && (forall r | r in crashed.wired :: LostForGood(crashed, r) && r !in Run(crashed, evs).queue)
      && (RaceFinished(crashed, last) ==>
            var e := Last(crashed, ScanTrace(crashed, last));
            e.group.status.Degraded? && SupersedingRepair(e).Some? && LostForGood(e, SupersedingRepair(e).value))
  {
    EventSafe(d, ScanEvent(sc, n));
    hide ScanTrace, Apply, Inv, PossibleRun, RaceFinished, FreshRepair, WiresAt, LostForGood;
    var crashed := Apply(d, ScanEvent(sc, n));
    var id := WiringCutLoses(d, sc, n);
    RunStaysLost(crashed, evs, id);
    if RaceFinished(crashed, last) {
      FinishedRaceSupersedes(crashed, id, last);
    }
  }

  /** A finished race with a wired repair is degraded as superseded by it, and nothing becomes of the repair. */
  lemma FinishedRaceSupersedes(d: Disk, id: TaskId, sc: Scan)
    requires Inv(d) && Unresolved(d) && d.wired == {id} && RaceFinished(d, sc)
    ensures var e := Last(d, ScanTrace(d, sc));
      && e.group.status.Degraded? && SupersedingRepair(e) == Some(id)
      && (LostForGood(e, id) <==> LostForGood(d, id))
  {
    FinishedAreCandidates(d, sc);
    assert HasRepair(d) && WiredRepair(d) == id;
    hide Inv, ResolveTrace, SupersedingRepair, RepairSuccessors;
    assert d.group.canonical in CandidateIds(d.group);
    assert ScanTrace(d, sc) == ResolveTrace(d, Lost(Some(id)), sc.now);
    hide ScanTrace, RaceFinished, CandidateIds, HasRepair;
    LostNames(d, Some(id), sc.now);
  }

  // ---------- the reconciler ----------

  /** Complete reconciliations of one mark; `adds` says which of them can add the row. */
  function Reconciled(d: Disk, id: TaskId, adds: seq<bool>): Disk
    decreases |adds|
  {
    if adds == [] then d else Reconciled(Last(d, ReconcileTrace(d, id, adds[0])), id, adds[1..])
  }

  /**
   Once there have been more reconciliations than attempts are left, the mark is gone.
   The repair is queued exactly if the canonical's row is still there and an attempt
   succeeded; without the row its task has failed, without a success it is dead-lettered.
   */
  lemma {:induction false} ReconcilerSettles(d: Disk, id: TaskId, adds: seq<bool>)
    requires id in d.marked && id !in d.queue && d.marked[id] <= MAX_ENQUEUE_ATTEMPTS
    requires |adds| > MAX_ENQUEUE_ATTEMPTS - d.marked[id]
    ensures var e := Reconciled(d, id, adds);
      var succeeds := d.group.canonical in d.queue && exists i :: 0 <= i < 3 - d.marked[id] && adds[i];
      && id !in e.marked
      && (id in e.queue <==> succeeds)
      && (succeeds ==> e.queue[id] == Pending && id in e.repairs && e.tasks == d.tasks)
      && (!succeeds ==> StatusOf(e.tasks, id) == if d.group.canonical !in d.queue && d.marked[id] < 3 then Failed else DeadLetter)
    decreases |adds|
  {
    var e := Last(d, ReconcileTrace(d, id, adds[0]));
    if id in e.marked {
      ReconcilerSettles(e, id, adds[1..]);
      assert forall i | 1 <= i < |adds| :: adds[i] == adds[1..][i - 1];
    } else {
      Unmarked(e, id, adds[1..]);
    }
  }

  /** A mark whose repair is in a queue by now is cleared, and that is all. */
  lemma QueuedIsUnmarked(d: Disk, id: TaskId, added: bool)
    requires id in d.marked && id in d.queue
    ensures ReconcileTrace(d, id, added) == [d.(marked := d.marked - {id})]
  {}

  lemma {:induction false} Unmarked(d: Disk, id: TaskId, adds: seq<bool>)
    requires id !in d.marked
    ensures Reconciled(d, id, adds) == d
    decreases |adds|
  {
    if adds != [] {
      Unmarked(d, id, adds[1..]);
    }
  }

  // ---------- a concrete loss ----------

  const WINNER := Candidate("c", "worker1", "ab/c", "m1", 2)
  const LOSER := Candidate("f", "worker2", "ab/f", "m2", 2)

  /** The canonical is completed and the shadow failed. */
  const FINISHED_RACE := Disk(
    Group(Racing, "c", [WINNER, LOSER], None, None, Some(0), Some(0)),
    map["c" := Completed, "f" := Failed], map[], map[], map["c" := Completed, "f" := Failed], {}, {}, {}, {}, map[], [])

  /** The canonical's work is committed, but it fails verification. */
  const REJECTING := Scan(0, FINISHED_RACE.queue, map["c" := true, "f" := true], 0, 0, 60, {"c"}, true,
    SoleCandidateFailed, Enqueued("repair"))

  lemma RejectingTrace()
    ensures var d2 := WithCommit(WithSelecting(FINISHED_RACE, 0), "c");
      ScanTrace(FINISHED_RACE, REJECTING) == [WithSelecting(FINISHED_RACE, 0)] + ([d2] + DegradeTrace(d2, REJECTING))
  {
    var d, sc := FINISHED_RACE, REJECTING;
    hide DegradeTrace;
    assert [WINNER, LOSER][1..] == [LOSER];
    assert Find([WINNER, LOSER], "c") == Some(WINNER) && FindOther([WINNER, LOSER], "c") == Some(LOSER);
    assert RepairSuccessors(d) == {};
    assert FinishedCandidates(d, sc, WINNER, LOSER) == [WINNER];
    var d1 := WithSelecting(d, 0);
    assert CommitAllTrace(d1, [WINNER], sc) == [WithCommit(d1, "c")];
    assert AllTerminalTrace(d, [WINNER], sc) == [d1] + SelectTrace(d1, [WINNER], sc);
  }

  lemma LossAt(d: Disk, sc: Scan, d1: Disk, d2: Disk)
    requires ScanTrace(d, sc) == [d1] + ([d2] + DegradeTrace(d2, sc))
    requires Wires(d2, sc) && Unresolved(d2) && d2.wired == {} && d2.repairs == {} && d2.marked == map[]
    ensures LostForGood(Apply(d, ScanEvent(sc, 3)), sc.repair.id)
  {
    WiringThenSettled(d2, sc);
    var q := DegradeTrace(d2, sc);
    hide DegradeTrace, ScanTrace, Wires;
    var t := [d1] + ([d2] + q);
    assert t[2] == q[0];
    assert Last(d, t[..3]) == q[0];
  }

  lemma RejectingWires()
    ensures Initial(FINISHED_RACE) && FreshRepair(FINISHED_RACE, REJECTING)
    ensures Wires(WithCommit(WithSelecting(FINISHED_RACE, 0), "c"), REJECTING)
  {
    assert RepairSuccessors(FINISHED_RACE) == {};
    assert RepairSuccessors(WithCommit(WithSelecting(FINISHED_RACE, 0), "c")) == {};
    assert "repair" !in FINISHED_RACE.tasks && "repair" !in FINISHED_RACE.queue;
  }

  /** The third write of this scan is the wiring: a crash behind it loses the repair. */
  lemma LossHappens()
    ensures Initial(FINISHED_RACE) && FreshRepair(FINISHED_RACE, REJECTING)
    ensures LostForGood(Apply(FINISHED_RACE, ScanEvent(REJECTING, 3)), "repair")
  {
    var d1 := WithSelecting(FINISHED_RACE, 0);
    RejectingTrace();
    RejectingWires();
    hide DegradeTrace, ScanTrace, Apply, LostForGood, Wires, Initial, FreshRepair;
    LossAt(FINISHED_RACE, REJECTING, d1, WithCommit(d1, "c"));
  }
}
