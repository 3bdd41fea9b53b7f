/**
 Soundness of one phase scan.  The three passes, the sort and the sequence of
 writes amount to one simultaneous step of every phase, in which each phase moves
 at most once and legally; and every single write is justified by what the
 earlier writes of the scan have already made durable, wherever a crash falls.
 */
module PhaseSafety {
  import opened Common
  import opened PhaseModel

  ghost predicate DistinctPhases(ts: seq<Transition>) {
    forall i, j | 0 <= i < j < |ts| :: ts[i].phase != ts[j].phase
  }

  /** Sorting position: cancellations that cascade come after the cancellations of active phases. */
  function Key(x: Transition): nat {
    2 * Priority(x.target) + (if x.mark.SetReason? then 1 else 0)
  }

  ghost predicate Ascending(ts: seq<Transition>) {
    forall i, j | 0 <= i < j < |ts| :: Key(ts[i]) <= Key(ts[j])
  }

  /** Ascending among transitions of equal priority, which is all that a stable sort needs. */
  ghost predicate AscendingTies(ts: seq<Transition>) {
    forall i, j | 0 <= i < j < |ts| && Priority(ts[i].target) == Priority(ts[j].target) :: Key(ts[i]) <= Key(ts[j])
  }

  // ---------- the view and the emitted list ----------

  lemma {:induction false} ViewFaithful(w: World, s: seq<Phase>)
    requires UniqueIds(s)
    ensures forall i | 0 <= i < |s| :: s[i].id in View(w, s) && View(w, s)[s[i].id] == Seen(w, s[i])
    ensures forall d | d in View(w, s) :: exists i :: 0 <= i < |s| && s[i].id == d
  {
    hide Seen;
    if s == [] {
    } else {
      var n := |s| - 1;
      var rest := s[..n];
      ViewFaithful(w, rest);
      forall i | 0 <= i < |s|
        ensures s[i].id in View(w, s) && View(w, s)[s[i].id] == Seen(w, s[i])
      {
        if i < n {
          assert rest[i] == s[i];
        }
      }
      forall d | d in View(w, s)
        ensures exists i :: 0 <= i < |s| && s[i].id == d
      {
        if d in View(w, rest) {
          var i :| 0 <= i < |rest| && rest[i].id == d;
          assert s[i].id == d;
        } else {
          assert s[n].id == d;
        }
      }
    }
  }

  lemma DueNamesPhase(w: World, v: map<PhaseId, PhaseStatus>, p: Phase)
    ensures Due(w, v, p).Some? ==> Due(w, v, p).value.phase == p.id && PassOf(p.status) in {1, 2, 3}
  {}

  /** x is due for a phase that pass k handles. */
  ghost predicate FromPass(w: World, v: map<PhaseId, PhaseStatus>, s: seq<Phase>, k: nat, x: Transition) {
    exists i :: 0 <= i < |s| && PassOf(s[i].status) == k && Due(w, v, s[i]) == Some(x)
  }

  lemma FromPassSnoc(w: World, v: map<PhaseId, PhaseStatus>, s: seq<Phase>, k: nat, x: Transition)
    requires s != [] && UniqueIds(s)
    ensures var n := |s| - 1;
      && (FromPass(w, v, s, k, x) <==>
            FromPass(w, v, s[..n], k, x) || (PassOf(s[n].status) == k && Due(w, v, s[n]) == Some(x)))
      && (FromPass(w, v, s[..n], k, x) ==> x.phase != s[n].id)
  {
    var n := |s| - 1;
    var rest := s[..n];
    if FromPass(w, v, rest, k, x) {
      var i :| 0 <= i < n && PassOf(rest[i].status) == k && Due(w, v, rest[i]) == Some(x);
      assert s[i] == rest[i];
      DueNamesPhase(w, v, s[i]);
    }
    hide Due, PassOf;
    if FromPass(w, v, s, k, x) {
      var i :| 0 <= i <= n && PassOf(s[i].status) == k && Due(w, v, s[i]) == Some(x);
      assert i < n ==> s[i] == rest[i];
    }
  }

  lemma {:induction false} PassMembers(w: World, v: map<PhaseId, PhaseStatus>, s: seq<Phase>, k: nat)
    requires UniqueIds(s)
    ensures forall x :: x in Pass(w, v, s, k) <==> FromPass(w, v, s, k, x)
    ensures DistinctPhases(Pass(w, v, s, k))
  {
    hide Due, PassOf;
    if s == [] {
    } else {
      var n := |s| - 1;
      PassMembers(w, v, s[..n], k);
      DueNamesPhase(w, v, s[n]);
      forall x {
        FromPassSnoc(w, v, s, k, x);
      }
      hide FromPass;
      var due := Due(w, v, s[n]);
      if PassOf(s[n].status) == k && due.Some? {
        DistinctSnoc(Pass(w, v, s[..n], k), due.value);
      }
    }
  }

  lemma DistinctSnoc(ts: seq<Transition>, x: Transition)
    requires DistinctPhases(ts) && forall y | y in ts :: y.phase != x.phase
    ensures DistinctPhases(ts + [x])
  {}

  lemma PassesDiffer(w: World, v: map<PhaseId, PhaseStatus>, s: seq<Phase>, k: nat, l: nat, x: Transition, y: Transition)
    requires UniqueIds(s) && k != l && FromPass(w, v, s, k, x) && FromPass(w, v, s, l, y)
    ensures x.phase != y.phase
  {
    var i :| 0 <= i < |s| && PassOf(s[i].status) == k && Due(w, v, s[i]) == Some(x);
    var j :| 0 <= j < |s| && PassOf(s[j].status) == l && Due(w, v, s[j]) == Some(y);
    DueNamesPhase(w, v, s[i]);
    DueNamesPhase(w, v, s[j]);
    assert i < j || j < i;
  }

  /** Exactly the due transitions are emitted, and at most one per phase. */
  lemma EmittedExactly(w: World, s: seq<Phase>)
    requires UniqueIds(s)
    ensures forall x :: x in Emitted(w, s) <==> exists i :: 0 <= i < |s| && Due(w, View(w, s), s[i]) == Some(x)
    ensures DistinctPhases(Emitted(w, s))
  {
    hide View, Pass, Due;
    var v := View(w, s);
    var a, b, c := Pass(w, v, s, 1), Pass(w, v, s, 2), Pass(w, v, s, 3);
    PassMembers(w, v, s, 1);
    PassMembers(w, v, s, 2);
    PassMembers(w, v, s, 3);
    forall i | 0 <= i < |s| {
      DueNamesPhase(w, v, s[i]);
    }
    forall x, y
      ensures x in a && y in b ==> x.phase != y.phase
      ensures x in a + b && y in c ==> x.phase != y.phase
    {
      if x in a && y in b {
        PassesDiffer(w, v, s, 1, 2, x, y);
      }
      if x in a && y in c {
        PassesDiffer(w, v, s, 1, 3, x, y);
      }
      if x in b && y in c {
        PassesDiffer(w, v, s, 2, 3, x, y);
      }
    }
    DistinctConcat(a, b);
    DistinctConcat(a + b, c);
    forall x
      ensures x in Emitted(w, s) <==> exists i :: 0 <= i < |s| && Due(w, v, s[i]) == Some(x)
    {
      assert x in Emitted(w, s) <==> FromPass(w, v, s, 1, x) || FromPass(w, v, s, 2, x) || FromPass(w, v, s, 3, x);
    }
  }

  lemma DistinctConcat(a: seq<Transition>, b: seq<Transition>)
    requires DistinctPhases(a) && DistinctPhases(b)
    requires forall x, y :: x in a && y in b ==> x.phase != y.phase
    ensures DistinctPhases(a + b)
  {}

  /** Active phases are reported before the pending phases that may depend on them. */
  lemma EmittedTies(w: World, s: seq<Phase>)
    requires UniqueIds(s)
    ensures AscendingTies(Emitted(w, s))
  {
    hide View, Pass;
    var v := View(w, s);
    var a, b, c := Pass(w, v, s, 1), Pass(w, v, s, 2), Pass(w, v, s, 3);
    PassMembers(w, v, s, 1);
    PassMembers(w, v, s, 2);
    PassMembers(w, v, s, 3);
    var t := Emitted(w, s);
    forall x
      ensures x in a ==> x.mark.KeepReason?
      ensures x in b ==> Key(x) in {3, 8}
      ensures x in c ==> Key(x) == 10
    {
      if x in a {
        assert FromPass(w, v, s, 1, x);
      }
      if x in b {
        assert FromPass(w, v, s, 2, x);
      }
      if x in c {
        assert FromPass(w, v, s, 3, x);
      }
    }
    forall i, j | 0 <= i < j < |t| && Priority(t[i].target) == Priority(t[j].target)
      ensures Key(t[i]) <= Key(t[j])
    {
      assert t[i] in a || t[i] in b || t[i] in c;
      assert i >= |a| ==> t[j] in b || t[j] in c;
      assert i < |a| ==> t[i] in a;
      hide Key, Priority;
    }
  }

  // ---------- sort, deduplication, gate ----------

  /** The sort keeps the transitions and orders them by key. */
  lemma {:induction false} SortedSound(ts: seq<Transition>)
    requires DistinctPhases(ts) && AscendingTies(ts)
    ensures forall x :: x in Sorted(ts) <==> x in ts
    ensures DistinctPhases(Sorted(ts)) && Ascending(Sorted(ts))
  {
    if ts == [] {
    } else {
      var n := |ts| - 1;
      var first := ts[..n];
      var x := ts[n];
      assert ts == first + [x];
      SortedSound(first);
      SlotFits(first, Sorted(first), x);
      InsertKeeps(Sorted(first), x, Slot(Sorted(first), x));
    }
  }

  lemma SlotFits(first: seq<Transition>, rest: seq<Transition>, x: Transition)
    requires DistinctPhases(first + [x]) && AscendingTies(first + [x])
    requires (forall y :: y in rest <==> y in first) && Ascending(rest)
    ensures forall i | 0 <= i < |rest| :: rest[i].phase != x.phase
    ensures forall i | 0 <= i < |rest| :: if i < Slot(rest, x) then Key(rest[i]) <= Key(x) else Key(x) <= Key(rest[i])
  {
    hide Slot;
    var k := Slot(rest, x);
    var ts := first + [x];
    assert ts[|first|] == x;
    forall i | 0 <= i < |rest|
      ensures rest[i].phase != x.phase
      ensures if i < k then Key(rest[i]) <= Key(x) else Key(x) <= Key(rest[i])
    {
      assert rest[i] in first;
      var j :| 0 <= j < |first| && first[j] == rest[i];
      assert ts[j] == rest[i];
      assert i < k ==> Key(rest[i]) <= Key(rest[k - 1]);
    }
  }

  lemma InsertKeeps(ts: seq<Transition>, x: Transition, k: nat)
    requires k <= |ts| && DistinctPhases(ts) && Ascending(ts)
    requires forall i | 0 <= i < |ts| :: ts[i].phase != x.phase
    requires forall i | 0 <= i < |ts| :: if i < k then Key(ts[i]) <= Key(x) else Key(x) <= Key(ts[i])
    ensures var r := ts[..k] + [x] + ts[k..];
      DistinctPhases(r) && Ascending(r) && forall y :: y in r <==> y in ts || y == x
  {
    hide Key;
    var r := ts[..k] + [x] + ts[k..];
    assert ts == ts[..k] + ts[k..];
    forall i, j | 0 <= i < j < |r|
      ensures r[i].phase != r[j].phase && Key(r[i]) <= Key(r[j])
    {
      if j == k {
        assert r[j] == x && r[i] == ts[i];
      } else if i == k {
        assert r[i] == x && r[j] == ts[j - 1];
      } else {
        var i', j' := if i < k then i else i - 1, if j < k then j else j - 1;
        assert r[i] == ts[i'] && r[j] == ts[j'];
      }
    }
  }

  lemma LastNotTargeted(ts: seq<Transition>)
    requires DistinctPhases(ts) && ts != []
    ensures !Targeted(ts[..|ts| - 1], ts[|ts| - 1].phase)
  {}

  lemma FirstOfEachNext(ts: seq<Transition>)
    requires ts != [] && !Targeted(ts[..|ts| - 1], ts[|ts| - 1].phase)
    ensures FirstOfEach(ts) == FirstOfEach(ts[..|ts| - 1]) + [ts[|ts| - 1]]
  {
    hide Targeted;
  }

  lemma {:induction false} FirstOfEachKeepsAll(ts: seq<Transition>)
    requires DistinctPhases(ts)
    ensures FirstOfEach(ts) == ts
  {
    if ts == [] {
    } else {
      var n := |ts| - 1;
      LastNotTargeted(ts);
      FirstOfEachNext(ts);
      assert DistinctPhases(ts[..n]);
      hide FirstOfEach, Targeted, DistinctPhases;
      FirstOfEachKeepsAll(ts[..n]);
      assert ts == ts[..n] + [ts[n]];
    }
  }

  lemma {:induction false} AppliedSound(w: World, ts: seq<Transition>)
    requires DistinctPhases(ts) && Ascending(ts)
    ensures forall x :: x in Applied(w, ts) <==> x in ts && Allowed(w, x.phase, x.target)
    ensures DistinctPhases(Applied(w, ts)) && Ascending(Applied(w, ts))
  {
    hide Key, Allowed;
    if ts == [] {
    } else {
      AppliedSound(w, ts[..|ts| - 1]);
    }
  }

  lemma PlanExactly(w: World, s: seq<Phase>)
    requires UniqueIds(s)
    ensures forall x :: x in Plan(w, s) <==>
      Allowed(w, x.phase, x.target) && exists i :: 0 <= i < |s| && Due(w, View(w, s), s[i]) == Some(x)
    ensures DistinctPhases(Plan(w, s)) && Ascending(Plan(w, s))
  {
    hide Due, View, Emitted, Sorted, Allowed, Key;
    var e := Emitted(w, s);
    EmittedExactly(w, s);
    EmittedTies(w, s);
    SortedSound(e);
    FirstOfEachKeepsAll(Sorted(e));
    AppliedSound(w, Sorted(e));
  }

  // ---------- a scan is one simultaneous step ----------

  lemma WriteAt(s: seq<Phase>, x: Transition, now: int, i: nat)
    requires i < |s|
    ensures Write(s, x, now)[i] == if s[i].id == x.phase then Move(s[i], x, now) else s[i]
    ensures Write(s, x, now)[i].id == s[i].id
  {}

  lemma {:induction false} WriteAllAt(s: seq<Phase>, ts: seq<Transition>, now: int, i: nat)
    requires DistinctPhases(ts) && i < |s|
    ensures forall x | x in ts && x.phase == s[i].id :: WriteAll(s, ts, now)[i] == Move(s[i], x, now)
    ensures (forall x | x in ts :: x.phase != s[i].id) ==> WriteAll(s, ts, now)[i] == s[i]
    ensures WriteAll(s, ts, now)[i].id == s[i].id
  {
    hide Move, Write;
    if ts == [] {
    } else {
      var rest, x := ts[..|ts| - 1], ts[|ts| - 1];
      assert ts == rest + [x];
      WriteAllAt(s, rest, now, i);
      WriteAt(WriteAll(s, rest, now), x, now, i);
      forall y | y in rest
        ensures y.phase != x.phase
      {
        var k :| 0 <= k < |rest| && rest[k] == y;
        assert ts[k] == y;
      }
    }
  }

  /** Check, sort, deduplicate, gate and write one after the other: the same as one simultaneous step. */
  lemma ScanIsStepAll(w: World, s: seq<Phase>)
    requires UniqueIds(s)
    ensures Scan(w, s) == StepAll(w, s)
  {
    hide View, Due, Plan, WriteAll, Move;
    PlanExactly(w, s);
    var ts := Plan(w, s);
    forall i | 0 <= i < |s|
      ensures Scan(w, s)[i] == StepAll(w, s)[i]
    {
      WriteAllAt(s, ts, w.now, i);
      DueNamesPhase(w, View(w, s), s[i]);
      var due := Due(w, View(w, s), s[i]);
      if due.Some? && Allowed(w, s[i].id, due.value.target) {
        assert due.value in ts;
      } else {
        forall x | x in ts
          ensures x.phase != s[i].id
        {
          var j :| 0 <= j < |s| && Due(w, View(w, s), s[j]) == Some(x);
          DueNamesPhase(w, View(w, s), s[j]);
          assert x.phase == s[j].id;
          assert i < j || j < i || i == j;
        }
      }
    }
  }

  /** The order in which the phases are listed decides nothing. */
  lemma ListOrderIrrelevant(w: World, s: seq<Phase>, t: seq<Phase>)
    requires UniqueIds(s) && UniqueIds(t) && forall p :: p in s <==> p in t
    ensures forall x :: x in Emitted(w, s) <==> x in Emitted(w, t)
    ensures forall p :: p in Scan(w, s) <==> p in Scan(w, t)
  {
    SameView(w, s, t);
    EmittedExactly(w, s);
    EmittedExactly(w, t);
    ScanIsStepAll(w, s);
    ScanIsStepAll(w, t);
    hide View, Emitted, Scan, Due, Step;
    SubsetScan(w, s, t);
    SubsetScan(w, t, s);
  }

  lemma SubsetScan(w: World, s: seq<Phase>, t: seq<Phase>)
    requires View(w, s) == View(w, t) && forall p | p in s :: p in t
    ensures forall p | p in StepAll(w, s) :: p in StepAll(w, t)
    ensures forall x | exists i :: 0 <= i < |s| && Due(w, View(w, s), s[i]) == Some(x) ::
      exists i :: 0 <= i < |t| && Due(w, View(w, t), t[i]) == Some(x)
  {
    hide View, Due, Step;
    forall p | p in StepAll(w, s)
      ensures p in StepAll(w, t)
    {
      var i :| 0 <= i < |s| && Step(w, View(w, s), s[i]) == p;
      assert s[i] in t;
      var j :| 0 <= j < |t| && t[j] == s[i];
      assert StepAll(w, t)[j] == p;
    }
    forall x | exists i :: 0 <= i < |s| && Due(w, View(w, s), s[i]) == Some(x)
      ensures exists i :: 0 <= i < |t| && Due(w, View(w, t), t[i]) == Some(x)
    {
      var i :| 0 <= i < |s| && Due(w, View(w, s), s[i]) == Some(x);
      assert s[i] in t;
      var j :| 0 <= j < |t| && t[j] == s[i];
    }
  }

  lemma SameView(w: World, s: seq<Phase>, t: seq<Phase>)
    requires UniqueIds(s) && UniqueIds(t) && forall p :: p in s <==> p in t
    ensures View(w, s) == View(w, t)
  {
    hide View, Seen;
    ViewFaithful(w, s);
    ViewFaithful(w, t);
    forall d
      ensures d in View(w, s) <==> d in View(w, t)
      ensures d in View(w, s) ==> View(w, s)[d] == View(w, t)[d]
    {
      if d in View(w, s) {
        var i :| 0 <= i < |s| && s[i].id == d;
        assert s[i] in t;
      }
      if d in View(w, t) {
        var i :| 0 <= i < |t| && t[i].id == d;
        assert t[i] in s;
      }
    }
  }

  // ---------- when a phase is activated, cascaded, recovered ----------

  /** Complete, or about to complete in this scan with the merge recorded. */
  predicate Completes(w: World, q: Phase) {
    q.status.Completed? || (q.status.Active? && ActiveOutcome(w, q) == Some(Completed) && q.id in w.merged)
  }

  /** Dead, or failed or cancelled by its required tasks in this scan. */
  predicate Dies(w: World, q: Phase) {
    Dead(q.status) || (q.status.Active? && ActiveOutcome(w, q) in {Some(Failed), Some(Cancelled)})
  }

  /** Being worked on or complete, and not failed or cancelled by its required tasks in this scan. */
  predicate Lives(w: World, q: Phase) {
    Live(q.status) && !(q.status.Active? && ActiveOutcome(w, q) in {Some(Failed), Some(Cancelled)})
  }

  lemma SeenMeans(w: World, q: Phase)
    ensures Seen(w, q).Completed? <==> Completes(w, q)
    ensures Dead(Seen(w, q)) <==> Dies(w, q)
    ensures Live(Seen(w, q)) <==> Lives(w, q)
  {}

  lemma SeenExactly(w: World, s: seq<Phase>, d: PhaseId)
    requires UniqueIds(s)
    ensures (d in View(w, s) && View(w, s)[d].Completed?) <==> exists q | q in s :: q.id == d && Completes(w, q)
    ensures (d in View(w, s) && Dead(View(w, s)[d])) <==> exists q | q in s :: q.id == d && Dies(w, q)
    ensures (d in View(w, s) && Live(View(w, s)[d])) <==> exists q | q in s :: q.id == d && Lives(w, q)
  {
    ViewFaithful(w, s);
    hide View, Seen, Completes, Dies, Lives, Dead, Live;
    if d in View(w, s) {
      var i :| 0 <= i < |s| && s[i].id == d;
      SeenMeans(w, s[i]);
      assert s[i] in s;
      assert forall q | q in s && q.id == d :: q == s[i];
    }
  }

  /** A pending phase is activated exactly when every dependency completes; a missing one never does. */
  lemma ActivatedExactly(w: World, s: seq<Phase>, p: Phase)
    requires UniqueIds(s) && p in s && p.status.Pending?
    ensures Due(w, View(w, s), p) == Some(Transition(p.id, AwaitingFill, KeepReason)) <==>
      forall d | d in p.dependsOn :: exists q | q in s :: q.id == d && Completes(w, q)
  {
    hide View, Completes;
    forall d {
      SeenExactly(w, s, d);
    }
  }

  /** A pending phase is cancelled exactly when some dependency dies. */
  lemma CascadedExactly(w: World, s: seq<Phase>, p: Phase)
    requires UniqueIds(s) && p in s && p.status.Pending?
    ensures (exists d :: Due(w, View(w, s), p) == Some(Transition(p.id, Cancelled, SetReason(d)))) <==>
      exists q | q in s :: q.id in p.dependsOn && Dies(w, q)
  {
    hide View, Dies;
    var v := View(w, s);
    forall d {
      SeenExactly(w, s, d);
    }
    var dead := FirstDead(v, p.dependsOn);
    if dead.Some? {
      assert Due(w, v, p) == Some(Transition(p.id, Cancelled, SetReason(dead.value)));
    }
  }

  /** A cancelled phase recovers exactly when a cascade cancelled it and the dependency named then lives again. */
  lemma RecoveredExactly(w: World, s: seq<Phase>, p: Phase)
    requires UniqueIds(s) && p in s && p.status.Cancelled?
    ensures Due(w, View(w, s), p) == Some(Transition(p.id, Pending, ClearReason)) <==>
      p.reason.Cascade? && exists q | q in s :: q.id == p.reason.dep && Lives(w, q)
  {
    hide View, Lives;
    if p.reason.Cascade? {
      SeenExactly(w, s, p.reason.dep);
    }
  }

  lemma StepIsLegal(w: World, v: map<PhaseId, PhaseStatus>, p: Phase)
    ensures var q := Step(w, v, p);
      q.id == p.id && (q.status == p.status ==> q == p) && (q.status != p.status ==> LegalMove(p.status, q.status))
  {
    hide ActiveOutcome, FirstDead, AllCompleted, Recovers, Expired;
  }

  /** At most one move per phase, and always one that ApplyPhaseTransition accepts. */
  lemma MovesAreLegal(w: World, s: seq<Phase>, i: nat)
    requires UniqueIds(s) && i < |s|
    ensures var p := Scan(w, s)[i];
      p.id == s[i].id && (p.status == s[i].status ==> p == s[i]) && (p.status != s[i].status ==> LegalMove(s[i].status, p.status))
  {
    ScanIsStepAll(w, s);
    StepIsLegal(w, View(w, s), s[i]);
    hide View, Scan, Step, LegalMove;
  }

  // ---------- every write is justified on disk ----------

  ghost predicate OnDisk(disk: seq<Phase>, d: PhaseId, allowed: set<PhaseStatus>) {
    exists q | q in disk :: q.id == d && q.status in allowed
  }

  /** Why x may be written now, judged by the phases as they are on disk at this moment. */
  ghost predicate Justified(w: World, disk: seq<Phase>, x: Transition) {
    exists p | p in disk && p.id == x.phase :: JustifiedFor(w, disk, p, x)
  }

  ghost predicate JustifiedFor(w: World, disk: seq<Phase>, p: Phase, x: Transition) {
    && LegalMove(p.status, x.target)
    && match x.target
       case AwaitingFill => forall d | d in p.dependsOn :: OnDisk(disk, d, {Completed})
       case Completed => ActiveOutcome(w, p) == Some(Completed) && x.phase in w.merged
       case Failed => ActiveOutcome(w, p) == Some(Failed)
       case TimedOut => Expired(w, p)
       case Cancelled =>
         if x.mark.SetReason? then x.mark.dep in p.dependsOn && OnDisk(disk, x.mark.dep, {Failed, Cancelled, TimedOut})
         else ActiveOutcome(w, p) == Some(Cancelled)
       case Pending =>
         p.reason.Cascade? && OnDisk(disk, p.reason.dep, {Active, AwaitingFill, Filling, Completed, TimedOut})
       case _ => false
  }

  /** The dependency of the phase that x moves, as the earlier writes of the scan left it. */
  lemma DependencyOnDisk(w: World, s: seq<Phase>, k: nat, j: nat)
    requires UniqueIds(s) && k < |Plan(w, s)| && j < |s|
    ensures var disk := WriteAll(s, Plan(w, s)[..k], w.now);
      var due := Due(w, View(w, s), s[j]);
      var key := Key(Plan(w, s)[k]);
      && disk[j].id == s[j].id
      && (due.None? || !Allowed(w, s[j].id, due.value.target) || Key(due.value) > key ==> disk[j] == s[j])
      && (due == Some(Plan(w, s)[k]) ==> disk[j] == s[j])
      && (due.Some? && Allowed(w, s[j].id, due.value.target) && Key(due.value) < key ==>
            disk[j] == Move(s[j], due.value, w.now))
      && (disk[j] == s[j] || (due.Some? && disk[j] == Move(s[j], due.value, w.now)))
  {
    hide View, Due, WriteAll, Move, Plan, Key, Allowed;
    PlanExactly(w, s);
    var ts := Plan(w, s);
    var due := Due(w, View(w, s), s[j]);
    DueNamesPhase(w, View(w, s), s[j]);
    WriteAllAt(s, ts[..k], w.now, j);
    forall x | x in ts[..k] && x.phase == s[j].id
      ensures due == Some(x) && Allowed(w, s[j].id, x.target) && Key(x) <= Key(ts[k]) && x.phase != ts[k].phase
    {
      var i :| 0 <= i < |s| && Due(w, View(w, s), s[i]) == Some(x);
      DueNamesPhase(w, View(w, s), s[i]);
      assert i < j || j < i || i == j;
      var l :| 0 <= l < k && ts[l] == x;
    }
    if due.Some? && Allowed(w, s[j].id, due.value.target) && Key(due.value) < Key(ts[k]) {
      assert due.value in ts;
      var l :| 0 <= l < |ts| && ts[l] == due.value;
      assert l < k ==> due.value in ts[..k];
    }
  }

  /** What the disk holds for a dependency that passes 2 and 3 saw as `seen`, when a write of this key comes. */
  predicate Backed(onDisk: PhaseStatus, seen: PhaseStatus, key: nat) {
    && (seen.Completed? && key == 8 ==> onDisk.Completed?)
    && (Dead(seen) && key == 3 ==> Dead(onDisk))
    && (Live(seen) && key == 10 ==> Live(onDisk) || onDisk.TimedOut?)
  }

  lemma MoveBacked(w: World, v: map<PhaseId, PhaseStatus>, q: Phase, e: Phase, key: nat)
    requires var due := Due(w, v, q);
      && (due.None? || !Allowed(w, q.id, due.value.target) || Key(due.value) > key ==> e == q)
      && (due.Some? && Allowed(w, q.id, due.value.target) && Key(due.value) < key ==> e == Move(q, due.value, w.now))
      && (e == q || (due.Some? && e == Move(q, due.value, w.now)))
    ensures Backed(e.status, Seen(w, q), key)
  {
    hide ActiveOutcome, FirstDead, AllCompleted, Expired, Recovers;
  }

  ghost predicate ViewBacked(disk: seq<Phase>, v: map<PhaseId, PhaseStatus>, key: nat) {
    forall d | d in v :: exists q | q in disk :: q.id == d && Backed(q.status, v[d], key)
  }

  lemma ViewIsBacked(w: World, s: seq<Phase>, k: nat)
    requires UniqueIds(s) && k < |Plan(w, s)|
    ensures ViewBacked(WriteAll(s, Plan(w, s)[..k], w.now), View(w, s), Key(Plan(w, s)[k]))
  {
    var v := View(w, s);
    var disk := WriteAll(s, Plan(w, s)[..k], w.now);
    ViewFaithful(w, s);
    hide Plan, View, WriteAll, Seen, Due, Key, Move, Allowed, Backed;
    forall d | d in v
      ensures exists q | q in disk :: q.id == d && Backed(q.status, v[d], Key(Plan(w, s)[k]))
    {
      var j :| 0 <= j < |s| && s[j].id == d;
      DependencyOnDisk(w, s, k, j);
      MoveBacked(w, v, s[j], disk[j], Key(Plan(w, s)[k]));
      assert disk[j] in disk;
    }
  }

  lemma JustifiedByView(w: World, v: map<PhaseId, PhaseStatus>, disk: seq<Phase>, p: Phase, x: Transition)
    requires p in disk && Due(w, v, p) == Some(x) && Allowed(w, p.id, x.target)
    requires ViewBacked(disk, v, Key(x))
    ensures Justified(w, disk, x)
  {
    hide ActiveOutcome;
  }

  /** Wherever a crash cuts the writes of a scan, every write that was made is justified by the ones before it. */
  lemma WritesJustified(w: World, s: seq<Phase>, k: nat)
    requires UniqueIds(s) && k < |Plan(w, s)|
    ensures Justified(w, WriteAll(s, Plan(w, s)[..k], w.now), Plan(w, s)[k])
  {
    hide Plan, View, WriteAll, Due, Key, Move, Allowed, ViewBacked, Justified;
    var x := Plan(w, s)[k];
    var disk := WriteAll(s, Plan(w, s)[..k], w.now);
    PlanExactly(w, s);
    var i :| 0 <= i < |s| && Due(w, View(w, s), s[i]) == Some(x);
    DueNamesPhase(w, View(w, s), s[i]);
    DependencyOnDisk(w, s, k, i);
    assert disk[i] == s[i] && s[i] in disk;
    ViewIsBacked(w, s, k);
    JustifiedByView(w, View(w, s), disk, s[i], x);
  }
}
