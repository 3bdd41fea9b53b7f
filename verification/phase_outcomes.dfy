/**
 What one scan makes of each phase, read off the phases before and after it: the
 task states, deadlines and dependencies on one side, the new status on the other.
 */
module PhaseOutcomes {
  import opened Common
  import opened PhaseModel
  import opened PhaseSafety

  /** The tasks of a phase that the scan looks at: the required ones when no others are listed. */
  ghost predicate Looked(p: Phase, t: TaskId) {
    if p.tasks == [] then t in p.required else t in p.tasks
  }

  ghost predicate RequiredIs(w: World, p: Phase, s: TaskStatus) {
    exists t: TaskId :: Looked(p, t) && t in p.required && t in w.tasks && w.tasks[t] == s
  }

  /** There is a task, and every one is readable and completed, failed or cancelled. */
  ghost predicate EveryTaskEnded(w: World, p: Phase) {
    && (exists t: TaskId :: Looked(p, t))
    && forall t: TaskId | Looked(p, t) ::
         t in w.tasks && (w.tasks[t].TaskCompleted? || w.tasks[t].TaskFailed? || w.tasks[t].TaskCancelled?)
  }

  lemma LookedAt(p: Phase)
    ensures forall t: TaskId :: Looked(p, t) <==> t in Observed(p)
    ensures Observed(p) != [] <==> exists t: TaskId :: Looked(p, t)
  {
    if Observed(p) != [] {
      assert Looked(p, Observed(p)[0]);
    }
  }

  lemma RequiredExactly(w: World, p: Phase, s: TaskStatus)
    ensures RequiredOutcome(w, p, s) <==> RequiredIs(w, p, s)
  {
    LookedAt(p);
    hide Looked, Observed;
  }

  lemma EndedExactly(w: World, p: Phase)
    ensures AllSettled(w, p) && Observed(p) != [] <==> EveryTaskEnded(w, p)
  {
    LookedAt(p);
    hide Looked, Observed;
  }

  lemma NothingLooked(w: World, p: Phase, s: TaskStatus)
    requires Observed(p) == []
    ensures !RequiredIs(w, p, s) && !EveryTaskEnded(w, p)
  {
    LookedAt(p);
    hide Looked, Observed;
  }

  lemma OutcomeExactly(w: World, p: Phase)
    ensures ActiveOutcome(w, p) == Some(Failed) <==> RequiredIs(w, p, TaskFailed)
    ensures ActiveOutcome(w, p) == Some(Cancelled) <==> !RequiredIs(w, p, TaskFailed) && RequiredIs(w, p, TaskCancelled)
    ensures ActiveOutcome(w, p) == Some(Completed) <==>
      !RequiredIs(w, p, TaskFailed) && !RequiredIs(w, p, TaskCancelled) && EveryTaskEnded(w, p)
  {
    RequiredExactly(w, p, TaskFailed);
    RequiredExactly(w, p, TaskCancelled);
    EndedExactly(w, p);
    if Observed(p) == [] {
      NothingLooked(w, p, TaskFailed);
      NothingLooked(w, p, TaskCancelled);
    }
    hide RequiredOutcome, AllSettled, RequiredIs, EveryTaskEnded, Observed;
  }

  lemma ActiveStep(w: World, v: map<PhaseId, PhaseStatus>, p: Phase)
    requires p.status.Active?
    ensures var q := Step(w, v, p);
      && q == p.(status := q.status)
      && (q.status.Failed? <==> RequiredIs(w, p, TaskFailed))
      && (q.status.Cancelled? <==> !RequiredIs(w, p, TaskFailed) && RequiredIs(w, p, TaskCancelled))
      && (q.status.Completed? <==>
            !RequiredIs(w, p, TaskFailed) && !RequiredIs(w, p, TaskCancelled) && EveryTaskEnded(w, p) && p.id in w.merged)
      && (q.status.Active? || q.status.Failed? || q.status.Cancelled? || q.status.Completed?)
  {
    OutcomeExactly(w, p);
    hide ActiveOutcome, RequiredIs, EveryTaskEnded;
  }

  /** An active phase fails, is cancelled, completes or stays active by its tasks and the recorded merges alone. */
  lemma ActiveExactly(w: World, s: seq<Phase>, i: nat)
    requires UniqueIds(s) && i < |s| && s[i].status.Active?
    ensures var p, q := s[i], Scan(w, s)[i];
      && q == p.(status := q.status)
      && (q.status.Failed? <==> RequiredIs(w, p, TaskFailed))
      && (q.status.Cancelled? <==> !RequiredIs(w, p, TaskFailed) && RequiredIs(w, p, TaskCancelled))
      && (q.status.Completed? <==>
            !RequiredIs(w, p, TaskFailed) && !RequiredIs(w, p, TaskCancelled) && EveryTaskEnded(w, p) && p.id in w.merged)
      && (q.status.Active? || q.status.Failed? || q.status.Cancelled? || q.status.Completed?)
  {
    hide Scan, View, RequiredIs, EveryTaskEnded, UniqueIds;
    ScanIsStepAll(w, s);
    ActiveStep(w, View(w, s), s[i]);
    hide Step;
  }

  // ---------- dependencies, by what the scan makes of them ----------

  /** p was complete, or the scan that leaves it as q completes it. */
  predicate EndsCompleted(p: Phase, q: Phase) {
    p.status.Completed? || (p.status.Active? && q.status.Completed?)
  }

  /** p had ended otherwise, or its tasks end it otherwise in this scan. */
  predicate EndsDead(p: Phase, q: Phase) {
    p.status.Failed? || p.status.Cancelled? || p.status.TimedOut? || (p.status.Active? && (q.status.Failed? || q.status.Cancelled?))
  }

  /** p was complete or worked on, and its tasks do not end it otherwise in this scan. */
  predicate StaysLive(p: Phase, q: Phase) {
    || p.status.AwaitingFill? || p.status.Filling? || p.status.Completed?
    || (p.status.Active? && (q.status.Active? || q.status.Completed?))
  }

  ghost predicate ShownCompleted(s: seq<Phase>, r: seq<Phase>, d: PhaseId)
    requires |r| == |s|
  {
    exists j :: 0 <= j < |s| && s[j].id == d && EndsCompleted(s[j], r[j])
  }

  ghost predicate ShownDead(s: seq<Phase>, r: seq<Phase>, d: PhaseId)
    requires |r| == |s|
  {
    exists j :: 0 <= j < |s| && s[j].id == d && EndsDead(s[j], r[j])
  }

  ghost predicate ShownLive(s: seq<Phase>, r: seq<Phase>, d: PhaseId)
    requires |r| == |s|
  {
    exists j :: 0 <= j < |s| && s[j].id == d && StaysLive(s[j], r[j])
  }

  /** What the later passes see of a phase is what the scan makes of it, if it is active, and what it was otherwise. */
  lemma SeenAfter(w: World, v: map<PhaseId, PhaseStatus>, p: Phase)
    ensures Seen(w, p) == if p.status.Active? then Step(w, v, p).status else p.status
  {
    hide ActiveOutcome;
  }

  lemma ActiveSteps(w: World, v: map<PhaseId, PhaseStatus>, p: Phase)
    requires p.status.Active?
    ensures var q := Step(w, v, p).status; q.Active? || q.Failed? || q.Cancelled? || q.Completed?
  {
    hide RequiredOutcome, AllSettled, Observed;
  }

  lemma ShownAt(w: World, s: seq<Phase>, j: nat)
    requires UniqueIds(s) && j < |s|
    ensures |Scan(w, s)| == |s| && s[j].id in View(w, s)
    ensures var seen, r := View(w, s)[s[j].id], Scan(w, s);
      && (EndsCompleted(s[j], r[j]) <==> seen.Completed?)
      && (EndsDead(s[j], r[j]) <==> Dead(seen))
      && (StaysLive(s[j], r[j]) <==> Live(seen))
  {
    hide Scan, View, Seen, Step;
    ScanIsStepAll(w, s);
    ViewFaithful(w, s);
    SeenAfter(w, View(w, s), s[j]);
    if s[j].status.Active? {
      ActiveSteps(w, View(w, s), s[j]);
    }
    hide UniqueIds;
  }

  lemma ShownExactly(w: World, s: seq<Phase>, d: PhaseId)
    requires UniqueIds(s)
    ensures |Scan(w, s)| == |s|
    ensures var v, r := View(w, s), Scan(w, s);
      && (ShownCompleted(s, r, d) <==> d in v && v[d].Completed?)
      && (ShownDead(s, r, d) <==> d in v && Dead(v[d]))
      && (ShownLive(s, r, d) <==> d in v && Live(v[d]))
  {
    ScanIsStepAll(w, s);
    assert |Scan(w, s)| == |s|;
    hide Scan, View, Seen, Step, EndsCompleted, EndsDead, StaysLive, Dead, Live;
    ViewFaithful(w, s);
    forall j | 0 <= j < |s| && s[j].id == d
      ensures var seen, r := View(w, s)[d], Scan(w, s);
        && (EndsCompleted(s[j], r[j]) <==> seen.Completed?)
        && (EndsDead(s[j], r[j]) <==> Dead(seen))
        && (StaysLive(s[j], r[j]) <==> Live(seen))
    {
      ShownAt(w, s, j);
    }
    hide UniqueIds;
    if d in View(w, s) {
      var j :| 0 <= j < |s| && s[j].id == d;
    }
  }

  lemma {:induction false} FirstDeadAt(v: map<PhaseId, PhaseStatus>, deps: seq<PhaseId>, k: nat)
    requires k < |deps| && deps[k] in v && Dead(v[deps[k]])
    requires forall l | 0 <= l < k :: !(deps[l] in v && Dead(v[deps[l]]))
    ensures FirstDead(v, deps) == Some(deps[k])
  {
    if k > 0 {
      FirstDeadAt(v, deps[1..], k - 1);
    }
  }

  /** The first dependency that is shown dead is the one that the cascade names. */
  lemma CascadeExactly(w: World, s: seq<Phase>, i: nat, k: nat)
    requires UniqueIds(s) && i < |s| && s[i].status.Pending? && k < |s[i].dependsOn| && |Scan(w, s)| == |s|
    requires ShownDead(s, Scan(w, s), s[i].dependsOn[k])
    requires forall l | 0 <= l < k :: !ShownDead(s, Scan(w, s), s[i].dependsOn[l])
    ensures Scan(w, s)[i] == s[i].(status := Cancelled, reason := Cascade(s[i].dependsOn[k]))
  {
    hide Scan, View, ShownDead, ShownLive, ShownCompleted;
    forall d {
      ShownExactly(w, s, d);
    }
    FirstDeadAt(View(w, s), s[i].dependsOn, k);
    ScanIsStepAll(w, s);
    hide UniqueIds, FirstDead;
  }

  /** Without a dead dependency a pending phase is activated exactly when all are shown complete, and gets a new deadline. */
  lemma ActivationExactly(w: World, s: seq<Phase>, i: nat)
    requires UniqueIds(s) && i < |s| && s[i].status.Pending? && |Scan(w, s)| == |s|
    requires forall d | d in s[i].dependsOn :: !ShownDead(s, Scan(w, s), d)
    ensures var p := s[i];
      Scan(w, s)[i] ==
        if forall d | d in p.dependsOn :: ShownCompleted(s, Scan(w, s), d)
        then p.(status := AwaitingFill, deadline := if p.fillMinutes > 0 then Some(w.now + 60 * p.fillMinutes) else p.deadline)
        else p
  {
    hide Scan, View, ShownDead, ShownLive, ShownCompleted;
    forall d {
      ShownExactly(w, s, d);
    }
    ScanIsStepAll(w, s);
    hide UniqueIds, FirstDead;
  }

  /** Only a cascade is undone, and exactly when the dependency that it names is shown live. */
  lemma RecoveryExactly(w: World, s: seq<Phase>, i: nat)
    requires UniqueIds(s) && i < |s| && s[i].status.Cancelled? && |Scan(w, s)| == |s|
    ensures var p := s[i];
      Scan(w, s)[i] ==
        if p.reason.Cascade? && ShownLive(s, Scan(w, s), p.reason.dep) then p.(status := Pending, reason := NoReason) else p
  {
    hide Scan, View, ShownDead, ShownLive, ShownCompleted;
    forall d {
      ShownExactly(w, s, d);
    }
    ScanIsStepAll(w, s);
    hide UniqueIds, FirstDead;
  }

  /** A phase waiting to be filled times out exactly when its deadline has passed; phases in any other status rest. */
  lemma OthersExactly(w: World, s: seq<Phase>, i: nat)
    requires UniqueIds(s) && i < |s| && !s[i].status.Active? && !s[i].status.Pending? && !s[i].status.Cancelled?
    ensures var p := s[i];
      Scan(w, s)[i] ==
        if p.status.AwaitingFill? && p.deadline.Some? && p.deadline.value < w.now then p.(status := TimedOut) else p
  {
    ScanIsStepAll(w, s);
    hide Scan, View, UniqueIds;
  }

  // ---------- the order of the writes ----------

  /** Failures are written first, then cancellations, timeouts, completions, activations and recoveries. */
  predicate Before(x: PhaseStatus, y: PhaseStatus) {
    && (y.Failed? ==> x.Failed?)
    && (y.Cancelled? ==> x.Failed? || x.Cancelled?)
    && (y.TimedOut? ==> x.Failed? || x.Cancelled? || x.TimedOut?)
    && (y.Completed? ==> x.Failed? || x.Cancelled? || x.TimedOut? || x.Completed?)
    && (y.AwaitingFill? ==> x.Failed? || x.Cancelled? || x.TimedOut? || x.Completed? || x.AwaitingFill?)
  }

  /** The transitions of a scan are written in that order; cancellations by tasks come before those by dependencies. */
  lemma PlanOrder(w: World, s: seq<Phase>, i: nat, j: nat)
    requires UniqueIds(s) && i < j < |Plan(w, s)|
    ensures var x, y := Plan(w, s)[i], Plan(w, s)[j];
      && Before(x.target, y.target)
      && (x.target.Cancelled? && y.target.Cancelled? && x.mark.SetReason? ==> y.mark.SetReason?)
  {
    PlanExactly(w, s);
    hide Plan, View, Due, Allowed;
  }

  /** Of every phase that is named at all, exactly the first transition is kept. */
  lemma {:induction false} FirstOfEachExactly(ts: seq<Transition>, x: Transition)
    ensures DistinctPhases(FirstOfEach(ts))
    ensures x in FirstOfEach(ts) <==>
      exists i :: 0 <= i < |ts| && ts[i] == x && forall j | 0 <= j < i :: ts[j].phase != x.phase
  {
    if ts != [] {
      var n := |ts| - 1;
      var rest, last := ts[..n], ts[n];
      assert ts == rest + [last];
      FirstOfEachExactly(rest, x);
      forall y | y in FirstOfEach(rest)
        ensures y in rest
      {
        FirstOfEachExactly(rest, y);
        var i :| 0 <= i < |rest| && rest[i] == y && forall j | 0 <= j < i :: rest[j].phase != y.phase;
      }
      if x in FirstOfEach(rest) {
        var i :| 0 <= i < n && rest[i] == x && forall j | 0 <= j < i :: rest[j].phase != x.phase;
        assert ts[i] == x;
      }
    }
  }

  /** The fourteen moves that the validator accepts. */
  lemma LegalMovesAre(source: PhaseStatus, target: PhaseStatus)
    ensures LegalMove(source, target) <==> (source, target) in {
      (Pending, AwaitingFill), (Pending, Cancelled), (Pending, Failed),
      (AwaitingFill, Filling), (AwaitingFill, TimedOut), (AwaitingFill, Failed),
      (Filling, Active), (Filling, AwaitingFill), (Filling, Failed),
      (Active, Completed), (Active, Failed), (Active, Cancelled),
      (Failed, Active), (Cancelled, Pending)}
  {}
}
