/**
 Scans in which the status write of some phases fails.  The scan logs the failure
 and goes on with the next transition, so what is on disk is no prefix of the plan.
 */
module PhaseFailures {
  import opened Common
  import opened PhaseModel
  import opened PhaseSafety

  /** The transitions ts written one after the other, except those of the failing phases. */
  function WriteSome(s: seq<Phase>, ts: seq<Transition>, failing: set<PhaseId>, now: int): (r: seq<Phase>)
    ensures |r| == |s|
  {
    if ts == [] then s
    else
      var before, x := WriteSome(s, ts[..|ts| - 1], failing, now), ts[|ts| - 1];
      if x.phase in failing then before else Write(before, x, now)
  }

  /** A failing phase stays as it was; every other phase is as if nothing had failed. */
  lemma {:induction false} WriteSomeAt(s: seq<Phase>, ts: seq<Transition>, failing: set<PhaseId>, now: int, j: nat)
    requires j < |s|
    ensures WriteSome(s, ts, failing, now)[j] == if s[j].id in failing then s[j] else WriteAll(s, ts, now)[j]
    ensures WriteAll(s, ts, now)[j].id == s[j].id
  {
    if ts != [] {
      var rest, x := ts[..|ts| - 1], ts[|ts| - 1];
      WriteSomeAt(s, rest, failing, now, j);
      WriteAt(WriteAll(s, rest, now), x, now, j);
      WriteAt(WriteSome(s, rest, failing, now), x, now, j);
      hide Write;
    }
  }

  /**
   No write that the transition relies on has failed: no dependency of an activated
   phase was about to complete, and the dependency named by a cascade was dead before.
   */
  ghost predicate CausesWritten(s: seq<Phase>, p: Phase, x: Transition, failing: set<PhaseId>) {
    forall q | q in s && q.id in failing ::
      && (x.target.AwaitingFill? && q.id in p.dependsOn ==> q.status.Completed?)
      && (x.mark.SetReason? && q.id == x.mark.dep ==> Dead(q.status))
  }

  lemma OnDiskAt(s: seq<Phase>, disk: seq<Phase>, j: nat, allowed: set<PhaseStatus>)
    requires UniqueIds(s) && |disk| == |s| && j < |s|
    requires forall i | 0 <= i < |s| :: disk[i].id == s[i].id
    ensures OnDisk(disk, s[j].id, allowed) <==> disk[j].status in allowed
  {
    if OnDisk(disk, s[j].id, allowed) {
      var q :| q in disk && q.id == s[j].id && q.status in allowed;
      var i :| 0 <= i < |disk| && disk[i] == q;
      assert i < j || j < i || i == j;
    }
    assert disk[j] in disk;
  }

  /** Phase i with the transition x that is due for it, on a disk that still shows it unchanged. */
  lemma JustifiedAt(w: World, s: seq<Phase>, disk: seq<Phase>, i: nat, x: Transition)
    requires UniqueIds(s) && |disk| == |s| && i < |s| && disk[i] == s[i] && x.phase == s[i].id
    requires forall j | 0 <= j < |s| :: disk[j].id == s[j].id
    ensures Justified(w, disk, x) <==> JustifiedFor(w, disk, s[i], x)
  {
    if Justified(w, disk, x) {
      var p :| p in disk && p.id == x.phase && JustifiedFor(w, disk, p, x);
      var j :| 0 <= j < |disk| && disk[j] == p;
      assert i < j || j < i || i == j;
    }
    assert disk[i] in disk;
    hide JustifiedFor;
  }

  /** The disk `some` differs from `disk` at most in failing phases, and those are as they were in s. */
  ghost predicate Behind(s: seq<Phase>, disk: seq<Phase>, some: seq<Phase>, failing: set<PhaseId>) {
    && |disk| == |s| && |some| == |s|
    && forall j | 0 <= j < |s| ::
         disk[j].id == s[j].id && some[j] == if s[j].id in failing then s[j] else disk[j]
  }

  lemma StillOnDisk(s: seq<Phase>, disk: seq<Phase>, some: seq<Phase>, failing: set<PhaseId>, d: PhaseId, allowed: set<PhaseStatus>)
    requires UniqueIds(s) && Behind(s, disk, some, failing) && OnDisk(disk, d, allowed)
    requires forall q | q in s && q.id == d && q.id in failing :: q.status in allowed
    ensures OnDisk(some, d, allowed)
  {
    var q :| q in disk && q.id == d && q.status in allowed;
    var j :| 0 <= j < |disk| && disk[j] == q;
    assert s[j] in s;
    assert some[j] in some;
  }

  lemma StillJustified(w: World, s: seq<Phase>, disk: seq<Phase>, some: seq<Phase>, failing: set<PhaseId>, p: Phase, x: Transition)
    requires UniqueIds(s) && Behind(s, disk, some, failing)
    requires Due(w, View(w, s), p) == Some(x) && JustifiedFor(w, disk, p, x) && CausesWritten(s, p, x, failing)
    ensures JustifiedFor(w, some, p, x)
  {
    match x.target {
      case AwaitingFill =>
        forall d | d in p.dependsOn
          ensures OnDisk(some, d, {Completed})
        {
          StillOnDisk(s, disk, some, failing, d, {Completed});
        }
      case Cancelled =>
        if x.mark.SetReason? {
          StillOnDisk(s, disk, some, failing, x.mark.dep, {Failed, Cancelled, TimedOut});
        }
      case Pending =>
        LiveBefore(w, s, p, x);
        StillOnDisk(s, disk, some, failing, p.reason.dep, {Active, AwaitingFill, Filling, Completed, TimedOut});
      case _ =>
    }
    hide View, Due, ActiveOutcome, OnDisk, CausesWritten;
  }

  /** A recovery relies on no write of this scan: the dependency was live before it. */
  lemma LiveBefore(w: World, s: seq<Phase>, p: Phase, x: Transition)
    requires UniqueIds(s) && Due(w, View(w, s), p) == Some(x) && x.target.Pending?
    ensures p.reason.Cascade?
    ensures forall q | q in s && q.id == p.reason.dep :: Live(q.status)
  {
    ViewFaithful(w, s);
    hide View, ActiveOutcome, FirstDead;
    forall q | q in s && q.id == p.reason.dep
      ensures Live(q.status)
    {
      var j :| 0 <= j < |s| && s[j] == q;
    }
  }

  lemma CausesNeeded(w: World, s: seq<Phase>, disk: seq<Phase>, some: seq<Phase>, failing: set<PhaseId>, p: Phase, x: Transition)
    requires UniqueIds(s) && Behind(s, disk, some, failing)
    requires Due(w, View(w, s), p) == Some(x) && JustifiedFor(w, some, p, x)
    ensures CausesWritten(s, p, x, failing)
  {
    hide View, ActiveOutcome, FirstDead, AllCompleted, OnDisk;
    forall q | q in s && q.id in failing
      ensures x.target.AwaitingFill? && q.id in p.dependsOn ==> q.status.Completed?
      ensures x.mark.SetReason? && q.id == x.mark.dep ==> Dead(q.status)
    {
      var j :| 0 <= j < |s| && s[j] == q;
      OnDiskAt(s, some, j, {Completed});
      OnDiskAt(s, some, j, {Failed, Cancelled, TimedOut});
    }
  }

  lemma BehindAfter(s: seq<Phase>, ts: seq<Transition>, failing: set<PhaseId>, now: int)
    ensures Behind(s, WriteAll(s, ts, now), WriteSome(s, ts, failing, now), failing)
  {
    forall j | 0 <= j < |s|
      ensures WriteSome(s, ts, failing, now)[j] == if s[j].id in failing then s[j] else WriteAll(s, ts, now)[j]
      ensures WriteAll(s, ts, now)[j].id == s[j].id
    {
      WriteSomeAt(s, ts, failing, now, j);
    }
    hide WriteAll, WriteSome;
  }

  /** Transition k of the plan is due for its phase p, which is unchanged when its turn comes. */
  lemma PlannedFor(w: World, s: seq<Phase>, k: nat, p: Phase) returns (i: nat)
    requires UniqueIds(s) && k < |Plan(w, s)| && p in s && p.id == Plan(w, s)[k].phase
    ensures i < |s| && s[i] == p && Due(w, View(w, s), p) == Some(Plan(w, s)[k])
    ensures WriteAll(s, Plan(w, s)[..k], w.now)[i] == p
  {
    hide Plan, View, Due, Key, Allowed, WriteAll;
    PlanExactly(w, s);
    i :| 0 <= i < |s| && Due(w, View(w, s), s[i]) == Some(Plan(w, s)[k]);
    DueNamesPhase(w, View(w, s), s[i]);
    var j :| 0 <= j < |s| && s[j] == p;
    assert i < j || j < i || i == j;
    DependencyOnDisk(w, s, k, i);
  }

  /**
   Whatever status writes fail, a write made is justified by what is on disk then if
   and only if no failed write is one that it relies on.
   */
  lemma WritesJustifiedExactly(w: World, s: seq<Phase>, k: nat, failing: set<PhaseId>, p: Phase)
    requires UniqueIds(s) && k < |Plan(w, s)| && Plan(w, s)[k].phase !in failing
    requires p in s && p.id == Plan(w, s)[k].phase
    ensures Justified(w, WriteSome(s, Plan(w, s)[..k], failing, w.now), Plan(w, s)[k])
        <==> CausesWritten(s, p, Plan(w, s)[k], failing)
  {
    var ts, x := Plan(w, s)[..k], Plan(w, s)[k];
    var disk, some := WriteAll(s, ts, w.now), WriteSome(s, ts, failing, w.now);
    hide Plan, View, Due, Justified, JustifiedFor, CausesWritten, WriteAll, WriteSome, UniqueIds;
    var i := PlannedFor(w, s, k, p);
    WritesJustified(w, s, k);
    BehindAfter(s, ts, failing, w.now);
    JustifiedAt(w, s, disk, i, x);
    JustifiedAt(w, s, some, i, x);
    hide Behind;
    if CausesWritten(s, p, x, failing) {
      StillJustified(w, s, disk, some, failing, p, x);
    }
    if Justified(w, some, x) {
      CausesNeeded(w, s, disk, some, failing, p, x);
    }
  }

  lemma ActivatedIsPending(w: World, v: map<PhaseId, PhaseStatus>, p: Phase)
    requires Due(w, v, p) == Some(Transition(p.id, AwaitingFill, KeepReason))
    ensures p.status.Pending?
  {
    hide FirstDead, AllCompleted, Recovers, Expired;
  }

  lemma DifferentIds(s: seq<Phase>, p: Phase, q: Phase)
    requires UniqueIds(s) && p in s && q in s && p != q
    ensures p.id != q.id
  {
    var i :| 0 <= i < |s| && s[i] == p;
    var j :| 0 <= j < |s| && s[j] == q;
    assert i < j || j < i;
  }

  /** Whenever a phase is activated because q completes in the same scan, a failed write of q makes that premature. */
  lemma ActivatedAhead(w: World, s: seq<Phase>, p: Phase, q: Phase) returns (k: nat)
    requires UniqueIds(s) && p in s && q in s && q.status.Active? && q.id in p.dependsOn
    requires Due(w, View(w, s), p) == Some(Transition(p.id, AwaitingFill, KeepReason))
    ensures k < |Plan(w, s)| && Plan(w, s)[k] == Transition(p.id, AwaitingFill, KeepReason)
    ensures !Justified(w, WriteSome(s, Plan(w, s)[..k], {q.id}, w.now), Plan(w, s)[k])
  {
    hide Plan, View, Due, Justified, WriteSome, UniqueIds;
    var x := Transition(p.id, AwaitingFill, KeepReason);
    ActivatedIsPending(w, View(w, s), p);
    DifferentIds(s, p, q);
    PlanExactly(w, s);
    assert x in Plan(w, s) by {
      var i :| 0 <= i < |s| && s[i] == p;
    }
    k :| 0 <= k < |Plan(w, s)| && Plan(w, s)[k] == x;
    WritesJustifiedExactly(w, s, k, {q.id}, p);
    assert !CausesWritten(s, p, x, {q.id});
  }
}
