/**
 Convergence of the phase machine.  With task states, recorded merges and the
 clock frozen, repeated scans of an acyclic phase graph settle within four scans
 per level of the graph: cascades and recoveries cannot chase each other.  What
 they settle in is not a deadlock.
 */
module PhaseConvergence {
  import opened Common
  import opened PhaseModel
  import opened PhaseSafety

  /** Dependencies point down in rank, and a cascade names a dependency of the phase. */
  ghost predicate Ranked(s: seq<Phase>, rank: PhaseId -> nat) {
    forall p | p in s ::
      && (forall d | d in p.dependsOn :: rank(d) < rank(p.id))
      && (p.reason.Cascade? ==> p.reason.dep in p.dependsOn)
  }

  function Iterate(w: World, s: seq<Phase>, n: nat): seq<Phase>
    decreases n
  {
    if n == 0 then s else Iterate(w, Scan(w, s), n - 1)
  }

  ghost predicate Settled(w: World, v: map<PhaseId, PhaseStatus>, p: Phase) {
    Step(w, v, p) == p
  }

  /** How many moves are left at most, for a phase whose dependencies have settled. */
  function Energy(w: World, v: map<PhaseId, PhaseStatus>, p: Phase): nat {
    match p.status
    case Active => 4
    case Cancelled => if Recovers(v, p) then 3 else 0
    case Pending => 2
    case AwaitingFill => if Expired(w, p) then 1 else 0
    case _ => 0
  }

  ghost predicate SettledBelow(w: World, s: seq<Phase>, rank: PhaseId -> nat, k: nat) {
    forall p | p in s && rank(p.id) < k :: Settled(w, View(w, s), p)
  }

  /** Everything below rank k has settled, and rank k has at most e moves left. */
  ghost predicate Bounded(w: World, s: seq<Phase>, rank: PhaseId -> nat, k: nat, e: nat) {
    && SettledBelow(w, s, rank, k)
    && forall p | p in s && rank(p.id) == k :: Settled(w, View(w, s), p) || Energy(w, View(w, s), p) <= e
  }

  // ---------- one phase ----------

  ghost predicate Agree(v: map<PhaseId, PhaseStatus>, u: map<PhaseId, PhaseStatus>, deps: seq<PhaseId>) {
    forall d | d in deps :: (d in v <==> d in u) && (d in v ==> v[d] == u[d])
  }

  lemma {:induction false} SameFirstDead(v: map<PhaseId, PhaseStatus>, u: map<PhaseId, PhaseStatus>, deps: seq<PhaseId>)
    requires Agree(v, u, deps)
    ensures FirstDead(v, deps) == FirstDead(u, deps)
  {
    if deps == [] {
    } else {
      assert deps[0] in deps && forall d | d in deps[1..] :: d in deps;
      SameFirstDead(v, u, deps[1..]);
    }
  }

  /** A phase depends on the other phases only through its dependencies. */
  lemma StepIsLocal(w: World, v: map<PhaseId, PhaseStatus>, u: map<PhaseId, PhaseStatus>, p: Phase)
    requires Agree(v, u, p.dependsOn) && (p.reason.Cascade? ==> p.reason.dep in p.dependsOn)
    ensures Step(w, v, p) == Step(w, u, p) && Energy(w, v, p) == Energy(w, u, p)
  {
    SameFirstDead(v, u, p.dependsOn);
    hide FirstDead, ActiveOutcome;
  }

  lemma EnergyDrops(w: World, v: map<PhaseId, PhaseStatus>, p: Phase)
    ensures Energy(w, v, p) <= 4
    ensures !Settled(w, v, p) ==> Energy(w, v, Step(w, v, p)) < Energy(w, v, p)
  {
    hide ActiveOutcome, AllCompleted;
  }

  lemma StepKeepsShape(w: World, v: map<PhaseId, PhaseStatus>, p: Phase)
    ensures var q := Step(w, v, p);
      && q.id == p.id && q.dependsOn == p.dependsOn
      && ((p.reason.Cascade? ==> p.reason.dep in p.dependsOn) ==> (q.reason.Cascade? ==> q.reason.dep in q.dependsOn))
  {
    hide ActiveOutcome, AllCompleted, Recovers, Expired;
  }

  // ---------- one scan ----------

  lemma ScanKeepsShape(w: World, s: seq<Phase>, rank: PhaseId -> nat)
    requires UniqueIds(s) && Ranked(s, rank)
    ensures UniqueIds(Scan(w, s)) && Ranked(Scan(w, s), rank)
    ensures forall i | 0 <= i < |s| :: Scan(w, s)[i].id == s[i].id && Scan(w, s)[i] == Step(w, View(w, s), s[i])
  {
    ScanIsStepAll(w, s);
    forall i | 0 <= i < |s| {
      StepKeepsShape(w, View(w, s), s[i]);
    }
    hide View, Step, Scan;
  }

  lemma SameEntry(w: World, s: seq<Phase>, t: seq<Phase>, d: PhaseId)
    requires UniqueIds(s) && UniqueIds(t) && |t| == |s|
    requires forall i | 0 <= i < |s| :: t[i].id == s[i].id && (s[i].id == d ==> t[i] == s[i])
    ensures (d in View(w, s) <==> d in View(w, t)) && (d in View(w, s) ==> View(w, s)[d] == View(w, t)[d])
  {
    ViewFaithful(w, s);
    ViewFaithful(w, t);
    hide View, Seen;
    if d in View(w, s) {
      var i :| 0 <= i < |s| && s[i].id == d;
      assert t[i].id == d;
    }
    if d in View(w, t) {
      var i :| 0 <= i < |t| && t[i].id == d;
      assert s[i].id == d;
    }
  }

  lemma SettledStays(w: World, s: seq<Phase>, rank: PhaseId -> nat, k: nat, d: PhaseId)
    requires UniqueIds(s) && Ranked(s, rank) && SettledBelow(w, s, rank, k) && rank(d) < k
    ensures forall i | 0 <= i < |s| && s[i].id == d :: Scan(w, s)[i] == s[i]
  {
    ScanKeepsShape(w, s, rank);
    hide View, Scan, Step, UniqueIds, Ranked;
    forall i | 0 <= i < |s| && s[i].id == d
      ensures Scan(w, s)[i] == s[i]
    {
      assert s[i] in s;
    }
  }

  /** What has settled stays put, so the phases one rank up keep seeing the same dependencies. */
  lemma SettledViewsAgree(w: World, s: seq<Phase>, rank: PhaseId -> nat, k: nat, p: Phase)
    requires UniqueIds(s) && Ranked(s, rank) && SettledBelow(w, s, rank, k)
    requires p in s && rank(p.id) <= k
    ensures Agree(View(w, s), View(w, Scan(w, s)), p.dependsOn)
  {
    var t := Scan(w, s);
    ScanKeepsShape(w, s, rank);
    assert forall d | d in p.dependsOn :: rank(d) < k;
    hide View, Scan, Step, UniqueIds, Ranked, SettledBelow;
    forall d | d in p.dependsOn
      ensures (d in View(w, s) <==> d in View(w, t)) && (d in View(w, s) ==> View(w, s)[d] == View(w, t)[d])
    {
      SettledStays(w, s, rank, k, d);
      SameEntry(w, s, t, d);
    }
  }

  lemma ScanSpendsEnergy(w: World, s: seq<Phase>, rank: PhaseId -> nat, k: nat, e: nat)
    requires UniqueIds(s) && Ranked(s, rank) && Bounded(w, s, rank, k, e)
    ensures Bounded(w, Scan(w, s), rank, k, if e == 0 then 0 else e - 1)
  {
    var t := Scan(w, s);
    ScanKeepsShape(w, s, rank);
    hide Scan, View, Step, Energy;
    forall q | q in t && rank(q.id) <= k
      ensures Settled(w, View(w, t), q) || (rank(q.id) == k && Energy(w, View(w, t), q) < e)
    {
      var i :| 0 <= i < |t| && t[i] == q;
      var p := s[i];
      assert p in s;
      SettledViewsAgree(w, s, rank, k, p);
      EnergyDrops(w, View(w, s), p);
      StepKeepsShape(w, View(w, s), p);
      StepIsLocal(w, View(w, s), View(w, t), q);
    }
  }

  // ---------- many scans ----------

  lemma {:induction false} RankSettles(w: World, s: seq<Phase>, rank: PhaseId -> nat, k: nat, e: nat)
    requires UniqueIds(s) && Ranked(s, rank) && Bounded(w, s, rank, k, e)
    ensures var t := Iterate(w, s, e); UniqueIds(t) && Ranked(t, rank) && SettledBelow(w, t, rank, k + 1)
    decreases e
  {
    hide Scan, View, Step, Energy;
    if e == 0 {
      forall p | p in s {
        EnergyDrops(w, View(w, s), p);
      }
    } else {
      ScanKeepsShape(w, s, rank);
      ScanSpendsEnergy(w, s, rank, k, e);
      RankSettles(w, Scan(w, s), rank, k, e - 1);
    }
  }

  lemma {:induction false} IterateAdds(w: World, s: seq<Phase>, m: nat, n: nat)
    ensures Iterate(w, Iterate(w, s, m), n) == Iterate(w, s, m + n)
    decreases m
  {
    hide Scan;
    if m == 0 {
    } else {
      IterateAdds(w, Scan(w, s), m - 1, n);
    }
  }

  lemma AtMostFour(w: World, s: seq<Phase>, rank: PhaseId -> nat, k: nat)
    requires SettledBelow(w, s, rank, k)
    ensures Bounded(w, s, rank, k, 4)
  {
    hide View, Step, Energy;
    forall p {
      EnergyDrops(w, View(w, s), p);
    }
  }

  lemma {:induction false} RanksSettle(w: World, s: seq<Phase>, rank: PhaseId -> nat, k: nat, n: nat)
    requires UniqueIds(s) && Ranked(s, rank) && n == 4 * k
    ensures var t := Iterate(w, s, n); UniqueIds(t) && Ranked(t, rank) && SettledBelow(w, t, rank, k)
    decreases k
  {
    hide UniqueIds, Ranked, Bounded, Scan, View, Step;
    if k == 0 {
    } else {
      hide SettledBelow, Iterate;
      var e := n - 4 * (k - 1);
      var t := Iterate(w, s, n - e);
      RanksSettle(w, s, rank, k - 1, n - e);
      AtMostFour(w, t, rank, k - 1);
      RankSettles(w, t, rank, k - 1, e);
      IterateAdds(w, s, n - e, e);
    }
  }

  /** Four scans per level of the dependency graph reach a state that no further scan changes. */
  lemma ReachesFixpoint(w: World, s: seq<Phase>, rank: PhaseId -> nat, depth: nat)
    requires UniqueIds(s) && Ranked(s, rank) && forall p | p in s :: rank(p.id) < depth
    ensures var t := Iterate(w, s, 4 * depth); Scan(w, t) == t
  {
    var t := Iterate(w, s, 4 * depth);
    RanksSettle(w, s, rank, depth, 4 * depth);
    IterateKeepsIds(w, s, rank, 4 * depth);
    ScanIsStepAll(w, t);
    hide Scan, View, Step, Iterate;
    forall i | 0 <= i < |t|
      ensures StepAll(w, t)[i] == t[i]
    {
      assert t[i] in t && t[i].id == s[i].id && s[i] in s;
    }
  }

  lemma {:induction false} IterateKeepsIds(w: World, s: seq<Phase>, rank: PhaseId -> nat, n: nat)
    requires UniqueIds(s) && Ranked(s, rank)
    ensures |Iterate(w, s, n)| == |s| && forall i | 0 <= i < |s| :: Iterate(w, s, n)[i].id == s[i].id
    decreases n
  {
    if n == 0 {
    } else {
      ScanKeepsShape(w, s, rank);
      IterateKeepsIds(w, Scan(w, s), rank, n - 1);
      hide Scan, Ranked;
    }
  }

  // ---------- what a fixpoint looks like ----------

  predicate Working(s: PhaseStatus) {
    s.Active? || s.AwaitingFill? || s.Filling?
  }

  predicate Missing(s: seq<Phase>, d: PhaseId) {
    forall r | r in s :: r.id != d
  }

  /** From p through pending dependencies to a phase that is being worked on, or that lacks a dependency. */
  ghost predicate WaitingChain(s: seq<Phase>, p: Phase, chain: seq<Phase>)
    decreases |chain|
  {
    && chain != [] && chain[0] == p && p in s
    && if |chain| == 1 then Working(p.status) || (p.status.Pending? && exists d | d in p.dependsOn :: Missing(s, d))
       else p.status.Pending? && chain[1].id in p.dependsOn && WaitingChain(s, chain[1], chain[1..])
  }

  /**
   In a fixpoint a pending phase waits for something: a chain of pending
   dependencies leads to a phase that is being worked on, or to a dependency
   that does not exist.
   */
  lemma {:induction false} PendingWaitsForWork(w: World, s: seq<Phase>, rank: PhaseId -> nat, p: Phase)
    returns (chain: seq<Phase>)
    requires UniqueIds(s) && Ranked(s, rank) && Scan(w, s) == s && p in s && p.status.Pending?
    ensures WaitingChain(s, p, chain)
    decreases rank(p.id)
  {
    var d := Waits(w, s, p);
    hide Scan, UniqueIds;
    if Missing(s, d) {
      chain := [p];
    } else {
      hide Missing;
      var q :| q in s && q.id == d && !q.status.Completed? && !Dead(q.status);
      if q.status.Pending? {
        var rest := PendingWaitsForWork(w, s, rank, q);
        chain := [p] + rest;
      } else {
        chain := [p, q];
        assert chain[1..] == [q];
      }
    }
  }

  lemma FixpointSettles(w: World, s: seq<Phase>, p: Phase)
    requires UniqueIds(s) && Scan(w, s) == s && p in s
    ensures Settled(w, View(w, s), p)
  {
    ScanIsStepAll(w, s);
    hide Scan, View, Step;
    var i :| 0 <= i < |s| && s[i] == p;
    assert StepAll(w, s)[i] == Step(w, View(w, s), p);
  }

  /** A pending phase in a fixpoint has a dependency that is neither complete nor dead. */
  lemma Waits(w: World, s: seq<Phase>, p: Phase) returns (d: PhaseId)
    requires UniqueIds(s) && Scan(w, s) == s && p in s && p.status.Pending?
    ensures d in p.dependsOn
    ensures !Missing(s, d) ==> exists q :: q in s && q.id == d && !q.status.Completed? && !Dead(q.status)
  {
    var v := View(w, s);
    FixpointSettles(w, s, p);
    hide View, Scan;
    d :| d in p.dependsOn && !(d in v && v[d].Completed?);
    if !Missing(s, d) {
      var q :| q in s && q.id == d;
      ViewFaithful(w, s);
      SeenWaits(w, q);
      hide Step, Seen, Due;
      var i :| 0 <= i < |s| && s[i] == q;
    }
  }

  lemma SeenWaits(w: World, q: Phase)
    ensures Dead(q.status) ==> Dead(Seen(w, q))
    ensures q.status.Completed? ==> Seen(w, q).Completed?
  {}

  // ---------- the reason is a separate write ----------

  /**
   The status and the cascade reason are two writes.  A crash between them leaves
   the cancellation with the reason the phase had before: without one no later scan
   ever undoes it, with a stale one only the dependency that it names does.  With
   both writes made, the phase recovers exactly when the dependency that caused the
   cancellation is seen live.
   */
  lemma CascadeLostBetweenWrites(w: World, s: seq<Phase>, i: nat, x: Transition, later: World, v: map<PhaseId, PhaseStatus>)
    requires UniqueIds(s) && i < |s| && s[i].status.Pending?
    requires Due(w, View(w, s), s[i]) == Some(x) && x.target.Cancelled?
    ensures var cut := WriteStatus(s, x, w.now)[i];
      && cut.status.Cancelled? && cut.reason == s[i].reason
      && (Step(later, v, cut) != cut <==>
            s[i].reason.Cascade? && s[i].reason.dep in v && Live(v[s[i].reason.dep]))
    ensures x.mark.SetReason?
    ensures var full := Write(s, x, w.now)[i];
      full.status.Cancelled? && (Step(later, v, full) != full <==> x.mark.dep in v && Live(v[x.mark.dep]))
  {
    hide View, FirstDead, AllCompleted;
    WriteAt(s, x, w.now, i);
  }
}
