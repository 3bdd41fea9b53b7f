/**
 The phase resolver and the scan step that applies its transitions, in the form
 the daemon has: three loops over the phase list around a mutable lookup map, and
 writes to the phase records one transition at a time.
 */
module PhaseResolver {
  import opened Common
  import opened PhaseModel
  import opened PhaseSafety

  // ---------- decisions ----------

  /** checkActivePhaseCompletion */
  method ActivePhaseCompletion(w: World, p: Phase) returns (r: Option<Transition>)
    ensures r == match ActiveOutcome(w, p)
                 case None => None
                 case Some(target) => Some(Transition(p.id, target, KeepReason))
  {
    var ids := if |p.tasks| == 0 then p.required else p.tasks;
    if |ids| == 0 {
      return None;
    }
    var allCompleted, hasFailed, hasCancelled := true, false, false;
    for i := 0 to |ids|
      invariant hasFailed <==> exists t | t in ids[..i] :: t in p.required && TaskIs(w, t, TaskFailed)
      invariant hasCancelled <==> exists t | t in ids[..i] :: t in p.required && TaskIs(w, t, TaskCancelled)
      invariant allCompleted <==> forall t | t in ids[..i] :: t in w.tasks && !w.tasks[t].TaskOther?
    {
      var id := ids[i];
      assert ids[..i + 1] == ids[..i] + [id];
      if id !in w.tasks {
        allCompleted := false;
        continue;
      }
      match w.tasks[id] {
        case TaskCompleted =>
        case TaskFailed =>
          if id in p.required {
            hasFailed := true;
          }
        case TaskCancelled =>
          if id in p.required {
            hasCancelled := true;
          }
        case TaskOther =>
          allCompleted := false;
      }
    }
    assert ids[..|ids|] == ids;
    if hasFailed {
      r := Some(Transition(p.id, Failed, KeepReason));
    } else if hasCancelled {
      r := Some(Transition(p.id, Cancelled, KeepReason));
    } else if allCompleted {
      r := Some(Transition(p.id, Completed, KeepReason));
    } else {
      r := None;
    }
  }

  /** checkPendingPhaseCascade */
  method PendingPhaseCascade(phaseMap: map<PhaseId, PhaseStatus>, p: Phase) returns (r: Option<Transition>)
    ensures r == match FirstDead(phaseMap, p.dependsOn)
                 case None => None
                 case Some(dep) => Some(Transition(p.id, Cancelled, SetReason(dep)))
  {
    for i := 0 to |p.dependsOn|
      invariant FirstDead(phaseMap, p.dependsOn) == FirstDead(phaseMap, p.dependsOn[i..])
    {
      var dep := p.dependsOn[i];
      assert p.dependsOn[i..][1..] == p.dependsOn[i + 1..];
      if dep in phaseMap && Dead(phaseMap[dep]) {
        return Some(Transition(p.id, Cancelled, SetReason(dep)));
      }
    }
    r := None;
  }

  /** checkPendingPhaseActivation */
  method PendingPhaseActivation(phaseMap: map<PhaseId, PhaseStatus>, p: Phase) returns (r: Option<Transition>)
    ensures r == if AllCompleted(phaseMap, p.dependsOn) then Some(Transition(p.id, AwaitingFill, KeepReason)) else None
  {
    for i := 0 to |p.dependsOn|
      invariant AllCompleted(phaseMap, p.dependsOn[..i])
    {
      var dep := p.dependsOn[i];
      if dep !in phaseMap || !phaseMap[dep].Completed? {
        return None;
      }
    }
    r := Some(Transition(p.id, AwaitingFill, KeepReason));
  }

  // ---------- CheckPhaseTransitions ----------

  ghost predicate Maps(m: map<PhaseId, PhaseStatus>, w: World, s: seq<Phase>, seen: nat, known: nat) {
    && (forall i | 0 <= i < |s| && i < known :: s[i].id in m && m[s[i].id] == if i < seen then Seen(w, s[i]) else s[i].status)
    && (forall d | d in m :: exists i :: 0 <= i < |s| && i < known && s[i].id == d)
  }

  lemma MapsView(m: map<PhaseId, PhaseStatus>, w: World, s: seq<Phase>)
    requires UniqueIds(s) && Maps(m, w, s, |s|, |s|)
    ensures m == View(w, s)
  {
    hide View, Seen;
    ViewFaithful(w, s);
  }

  /** Once phase i has been handled, the map shows it as passes 2 and 3 are to see it. */
  lemma MapsNext(m: map<PhaseId, PhaseStatus>, w: World, s: seq<Phase>, i: nat)
    requires UniqueIds(s) && i < |s| && Maps(m, w, s, i, |s|)
    ensures Maps(m[s[i].id := Seen(w, s[i])], w, s, i + 1, |s|)
    ensures Seen(w, s[i]) == s[i].status ==> Maps(m, w, s, i + 1, |s|)
  {
    hide Seen;
  }

  lemma NoPhases(w: World, v: map<PhaseId, PhaseStatus>, s: seq<Phase>, k: nat)
    ensures Pass(w, v, s[..0], k) == []
  {}

  lemma PassSnoc(w: World, v: map<PhaseId, PhaseStatus>, s: seq<Phase>, i: nat, k: nat)
    requires i < |s|
    ensures Pass(w, v, s[..i + 1], k) == Pass(w, v, s[..i], k)
      + (if PassOf(s[i].status) == k && Due(w, v, s[i]).Some? then [Due(w, v, s[i]).value] else [])
  {
    assert s[..i + 1][..i] == s[..i];
  }

  method BuildPhaseMap(w: World, s: seq<Phase>) returns (m: map<PhaseId, PhaseStatus>)
    requires UniqueIds(s)
    ensures Maps(m, w, s, 0, |s|)
  {
    m := map[];
    for i := 0 to |s|
      invariant Maps(m, w, s, 0, i)
    {
      m := m[s[i].id := s[i].status];
    }
  }

  /** Pass 1: active and awaiting_fill phases; what becomes visible is written into the lookup map. */
  method PassOne(w: World, s: seq<Phase>, known: map<PhaseId, PhaseStatus>)
    returns (ts: seq<Transition>, m: map<PhaseId, PhaseStatus>)
    requires UniqueIds(s) && Maps(known, w, s, 0, |s|)
    ensures ts == Pass(w, View(w, s), s, 1) && m == View(w, s)
  {
    hide View, Pass, Maps, ActiveOutcome, FirstDead, AllCompleted, Recovers;
    m, ts := known, [];
    NoPhases(w, View(w, s), s, 1);
    for i := 0 to |s|
      invariant Maps(m, w, s, i, |s|)
      invariant ts == Pass(w, View(w, s), s[..i], 1)
    {
      var p := s[i];
      PassSnoc(w, View(w, s), s, i, 1);
      MapsNext(m, w, s, i);
      if p.status.Active? {
        var tr := ActivePhaseCompletion(w, p);
        if tr.Some? {
          ts := ts + [tr.value];
          if !(tr.value.target.Completed? && p.id !in w.merged) {
            m := m[p.id := tr.value.target];
          }
        }
      } else if p.status.AwaitingFill? {
        if Expired(w, p) {
          ts := ts + [Transition(p.id, TimedOut, KeepReason)];
        }
      }
    }
    assert s[..|s|] == s;
    MapsView(m, w, s);
  }

  /** Pass 2: pending phases. */
  method PassTwo(w: World, s: seq<Phase>, m: map<PhaseId, PhaseStatus>) returns (ts: seq<Transition>)
    ensures ts == Pass(w, m, s, 2)
  {
    ts := [];
    for i := 0 to |s|
      invariant ts == Pass(w, m, s[..i], 2)
    {
      assert s[..i + 1][..i] == s[..i];
      var p := s[i];
      if !p.status.Pending? {
        continue;
      }
      var tr := PendingPhaseCascade(m, p);
      if tr.Some? {
        ts := ts + [tr.value];
        continue;
      }
      tr := PendingPhaseActivation(m, p);
      if tr.Some? {
        ts := ts + [tr.value];
      }
    }
    assert s[..|s|] == s;
  }

  /** Pass 3: phases that a cascade cancelled. */
  method PassThree(w: World, s: seq<Phase>, m: map<PhaseId, PhaseStatus>) returns (ts: seq<Transition>)
    ensures ts == Pass(w, m, s, 3)
  {
    ts := [];
    for i := 0 to |s|
      invariant ts == Pass(w, m, s[..i], 3)
    {
      assert s[..i + 1][..i] == s[..i];
      var p := s[i];
      if p.status.Cancelled? {
        if p.reason.Cascade? && p.reason.dep in m && Live(m[p.reason.dep]) {
          ts := ts + [Transition(p.id, Pending, ClearReason)];
        }
      }
    }
    assert s[..|s|] == s;
  }

  method CheckPhaseTransitions(w: World, s: seq<Phase>) returns (ts: seq<Transition>)
    requires UniqueIds(s)
    ensures ts == Emitted(w, s)
  {
    hide View, Pass;
    var known := BuildPhaseMap(w, s);
    var first, m := PassOne(w, s, known);
    var second := PassTwo(w, s, m);
    var third := PassThree(w, s, m);
    ts := first + second + third;
  }

  // ---------- stepPhaseTransitions ----------

  lemma TargetedSnoc(ts: seq<Transition>, i: nat)
    requires i < |ts|
    ensures forall id :: Targeted(ts[..i + 1], id) <==> Targeted(ts[..i], id) || id == ts[i].phase
    ensures FirstOfEach(ts[..i + 1]) == FirstOfEach(ts[..i]) + (if Targeted(ts[..i], ts[i].phase) then [] else [ts[i]])
  {
    assert ts[..i + 1] == ts[..i] + [ts[i]];
    assert ts[i] in ts[..i + 1];
  }

  /** deduplicatePhaseTransitions */
  method Deduplicate(ts: seq<Transition>) returns (out: seq<Transition>)
    ensures out == FirstOfEach(ts)
  {
    var seen: set<PhaseId> := {};
    out := [];
    for i := 0 to |ts|
      invariant forall id :: id in seen <==> Targeted(ts[..i], id)
      invariant out == FirstOfEach(ts[..i])
    {
      TargetedSnoc(ts, i);
      hide Targeted, FirstOfEach;
      if ts[i].phase !in seen {
        seen := seen + {ts[i].phase};
        out := out + [ts[i]];
      }
    }
    assert ts[..|ts|] == ts;
  }

  lemma {:induction false} AppliedPrefix(w: World, ts: seq<Transition>, i: nat)
    requires i < |ts|
    ensures Applied(w, ts[..i]) <= Applied(w, ts)
    ensures Applied(w, ts[..i + 1]) ==
      if Allowed(w, ts[i].phase, ts[i].target) then Applied(w, ts[..i]) + [ts[i]] else Applied(w, ts[..i])
    ensures Applied(w, ts[..i + 1]) <= Applied(w, ts)
  {
    var n := |ts| - 1;
    assert ts[..i + 1][..i] == ts[..i];
    if i < n {
      AppliedPrefix(w, ts[..n], i);
      assert ts[..n][..i] == ts[..i] && ts[..n][..i + 1] == ts[..i + 1];
    } else {
      assert ts[..i + 1] == ts;
    }
  }

  /** ApplyPhaseTransition accepts every transition of the plan when its turn comes. */
  lemma NextIsAccepted(w: World, s: seq<Phase>, ts: seq<Transition>, i: nat)
    requires UniqueIds(s) && ts == FirstOfEach(Sorted(Emitted(w, s))) && i < |ts|
    requires Allowed(w, ts[i].phase, ts[i].target)
    ensures var disk := WriteAll(s, Applied(w, ts[..i]), w.now);
      && UniqueIds(disk)
      && (exists p | p in disk :: p.id == ts[i].phase && LegalMove(p.status, ts[i].target))
      && WriteAll(s, Applied(w, ts[..i + 1]), w.now) == Write(disk, ts[i], w.now)
  {
    hide Emitted, Sorted, FirstOfEach, Applied, View, Due, Write, Allowed;
    AppliedPrefix(w, ts, i);
    var before := Applied(w, ts[..i]);
    var k := |before|;
    assert Plan(w, s) == Applied(w, ts);
    assert before + [ts[i]] <= Plan(w, s);
    assert Plan(w, s)[..k] == before && Plan(w, s)[k] == ts[i];
    assert (before + [ts[i]])[..k] == before;
    hide Plan;
    WritesJustified(w, s, k);
    PlanExactly(w, s);
    forall j | 0 <= j < |s| {
      DependencyOnDisk(w, s, k, j);
    }
  }

  /** The phase records of one command. */
  class CommandPhases {
    var phases: seq<Phase>

    constructor (s: seq<Phase>)
      ensures phases == s
    {
      phases := s;
    }

    method PhaseIndex(id: PhaseId) returns (index: Option<nat>)
      ensures index.Some? ==> index.value < |phases| && phases[index.value].id == id
      ensures index.None? ==> forall p | p in phases :: p.id != id
    {
      for i := 0 to |phases|
        invariant forall p | p in phases[..i] :: p.id != id
      {
        if phases[i].id == id {
          return Some(i);
        }
      }
      return None;
    }

    /** Refuses an unknown phase and an illegal move. */
    method ApplyPhaseTransition(x: Transition, now: int) returns (ok: bool)
      requires UniqueIds(phases)
      modifies this
      ensures ok <==> exists p | p in old(phases) :: p.id == x.phase && LegalMove(p.status, x.target)
      ensures phases == if ok then WriteStatus(old(phases), x, now) else old(phases)
    {
      var index := PhaseIndex(x.phase);
      if index.None? {
        return false;
      }
      var i := index.value;
      assert phases[i] in phases;
      assert forall p | p in phases && p.id == x.phase :: p == phases[i];
      if !LegalMove(phases[i].status, x.target) {
        return false;
      }
      phases := phases[i := WithStatus(phases[i], x.target, now)];
      ok := true;
    }

    method SetPhaseCancelledReason(x: Transition)
      requires UniqueIds(phases)
      modifies this
      ensures phases == WriteMark(old(phases), x)
    {
      var index := PhaseIndex(x.phase);
      if index.Some? && !x.mark.KeepReason? {
        phases := phases[index.value := WithMark(phases[index.value], x.mark)];
      }
    }

    /** One scan of the command's phases. */
    method StepPhaseTransitions(w: World)
      requires UniqueIds(phases)
      modifies this
      ensures phases == Scan(w, old(phases))
    {
      hide Emitted, Sorted, FirstOfEach, WriteStatus, WriteMark, WriteAll, Applied, LegalMove, UniqueIds;
      ghost var s := phases;
      var emitted := CheckPhaseTransitions(w, phases);
      var ts := Deduplicate(Sorted(emitted));
      NothingWritten(w, s, ts);
      for i := 0 to |ts|
        invariant phases == WriteAll(s, Applied(w, ts[..i]), w.now)
      {
        var x := ts[i];
        AppliedPrefix(w, ts, i);
        if x.target.Completed? && x.phase !in w.merged {
          continue;
        }
        NextIsAccepted(w, s, ts, i);
        var ok := ApplyPhaseTransition(x, w.now);
        if !ok {
          continue;
        }
        SameIds(WriteAll(s, Applied(w, ts[..i]), w.now), x, w.now);
        SetPhaseCancelledReason(x);
      }
      assert ts[..|ts|] == ts;
    }
  }

  lemma NothingWritten(w: World, s: seq<Phase>, ts: seq<Transition>)
    ensures WriteAll(s, Applied(w, ts[..0]), w.now) == s
  {}

  lemma SameIds(s: seq<Phase>, x: Transition, now: int)
    requires UniqueIds(s)
    ensures UniqueIds(WriteStatus(s, x, now))
  {}
}
