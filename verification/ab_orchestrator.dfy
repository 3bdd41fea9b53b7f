/**
 The orchestrator that drives one candidate group, in the form the daemon has.
 Every durable change loads the state, mutates the loaded copy, and replaces the
 file in one write.  Each method is proved to perform exactly the writes of the
 corresponding trace in ABProtocol, in order.
 */
module ABOrchestrator {
  import opened Common
  import opened ABProtocol
  import opened ABSafety

  // ---------- lookups ----------

  method CandidateFor(g: Group, id: TaskId) returns (r: Option<Candidate>)
    ensures r == Find(g.candidates, id)
  {
    r := None;
    for i := 0 to |g.candidates|
      invariant Find(g.candidates, id) == Find(g.candidates[i..], id)
    {
      if g.candidates[i].taskId == id {
        return Some(g.candidates[i]);
      }
      assert g.candidates[i..][1..] == g.candidates[i + 1..];
    }
  }

  method OtherCandidate(g: Group, id: TaskId) returns (r: Option<Candidate>)
    ensures r == FindOther(g.candidates, id)
  {
    r := None;
    for i := 0 to |g.candidates|
      invariant FindOther(g.candidates, id) == FindOther(g.candidates[i..], id)
    {
      if g.candidates[i].taskId != id {
        return Some(g.candidates[i]);
      }
      assert g.candidates[i..][1..] == g.candidates[i + 1..];
    }
  }

  /** A non-candidate successor of the canonical in the retry lineage, if there is one. */
  method FindRepairSuccessor(d: Disk) returns (r: Option<TaskId>)
    ensures r.Some? ==> r.value in RepairSuccessors(d)
    ensures r.None? ==> !HasRepair(d)
  {
    var todo := d.lineage.Keys;
    r := None;
    while todo != {}
      invariant todo <= d.lineage.Keys
      invariant forall s | s in RepairSuccessors(d) :: s in todo
    {
      var succ :| succ in todo;
      var candidate := CandidateFor(d.group, succ);
      if d.lineage[succ] == d.group.canonical && candidate.None? {
        assert succ !in CandidateIds(d.group);
        return Some(succ);
      }
      assert succ !in RepairSuccessors(d) by {
        if candidate.Some? {
          assert candidate.value.taskId in CandidateIds(d.group);
        }
      }
      todo := todo - {succ};
    }
  }

  // ---------- mutations of a loaded state ----------

  function IdsOf(cs: seq<Candidate>): set<TaskId> {
    set c | c in cs :: c.taskId
  }

  lemma IdsOfSnoc(cs: seq<Candidate>, i: nat)
    requires i < |cs|
    ensures IdsOf(cs[..i + 1]) == IdsOf(cs[..i]) + {cs[i].taskId}
  {
    assert cs[..i + 1] == cs[..i] + [cs[i]];
  }

  /** The entries of m at the given keys, on top of base. */
  function Overlay<V>(base: map<TaskId, V>, m: map<TaskId, V>, keys: set<TaskId>): map<TaskId, V> {
    base + map t | t in m && t in keys :: m[t]
  }

  lemma OverlayNone<V>(base: map<TaskId, V>, m: map<TaskId, V>)
    ensures Overlay(base, m, {}) == base
  {}

  lemma OverlayAll<V>(base: map<TaskId, V>, m: map<TaskId, V>, keys: set<TaskId>)
    requires m.Keys <= keys
    ensures Overlay(base, m, keys) == base + m
  {
    assert (map t | t in m && t in keys :: m[t]) == m;
  }

  lemma OverlayAt<V(!new)>(base: map<TaskId, V>, m: map<TaskId, V>, keys: set<TaskId>, id: TaskId)
    ensures id in m && id in keys ==> id in Overlay(base, m, keys) && Overlay(base, m, keys)[id] == m[id]
    ensures id !in keys ==> (id in Overlay(base, m, keys) <==> id in base)
    ensures id !in keys && id in base ==> Overlay(base, m, keys)[id] == base[id]
  {}

  lemma OverlayPut<V(!new)>(base: map<TaskId, V>, m: map<TaskId, V>, keys: set<TaskId>, id: TaskId)
    requires id in m
    ensures Overlay(base, m, keys + {id}) == Overlay(base, m, keys)[id := m[id]]
  {}

  lemma OverlayKeep<V(!new)>(base: map<TaskId, V>, m: map<TaskId, V>, keys: set<TaskId>, id: TaskId)
    requires id !in m || id in keys || (id in base && base[id] == m[id])
    ensures Overlay(base, m, keys + {id}) == Overlay(base, m, keys)
  {}

  lemma OverlayAdd<V(!new)>(base: map<TaskId, V>, m: map<TaskId, V>, keys: set<TaskId>, id: TaskId)
    ensures id in m ==> Overlay(base, m, keys + {id}) == Overlay(base, m, keys)[id := m[id]]
    ensures id !in m || id in keys || (id in base && base[id] == m[id]) ==>
              Overlay(base, m, keys + {id}) == Overlay(base, m, keys)
    ensures id in m && id in keys ==> id in Overlay(base, m, keys) && Overlay(base, m, keys)[id] == m[id]
    ensures id !in keys ==> (id in Overlay(base, m, keys) <==> id in base)
    ensures id !in keys && id in base ==> Overlay(base, m, keys)[id] == base[id]
  {
    hide Overlay;
    OverlayAt(base, m, keys, id);
    if id in m {
      OverlayPut(base, m, keys, id);
    }
    if id !in m || id in keys || (id in base && base[id] == m[id]) {
      OverlayKeep(base, m, keys, id);
    }
  }

  /** A lost race: the shadow is cancelled, the canonical only when a repair supersedes it. */
  method CancelLost(d: Disk, retry: Option<TaskId>)
    returns (tasks: map<TaskId, Status>, reasons: map<TaskId, Reason>)
    ensures tasks == d.tasks + AllCancelled(Superseded(d.group, Lost(retry)))
    ensures reasons == d.reasons + ResolutionReasons(d, Lost(retry))
  {
    hide Overlay;
    var cs := d.group.candidates;
    tasks, reasons := d.tasks, d.reasons;
    ghost var gone := AllCancelled(Superseded(d.group, Lost(retry)));
    ghost var why := ResolutionReasons(d, Lost(retry));
    assert IdsOf(cs[..0]) == {};
    OverlayNone(d.tasks, gone);
    OverlayNone(d.reasons, why);
    for i := 0 to |cs|
      invariant tasks == Overlay(d.tasks, gone, IdsOf(cs[..i]))
      invariant reasons == Overlay(d.reasons, why, IdsOf(cs[..i]))
    {
      var id := cs[i].taskId;
      IdsOfSnoc(cs, i);
      OverlayAdd(d.tasks, gone, IdsOf(cs[..i]), id);
      OverlayAdd(d.reasons, why, IdsOf(cs[..i]), id);
      assert id in CandidateIds(d.group);
      if id == d.group.canonical {
        if retry.Some? {
          tasks, reasons := tasks[id := Cancelled], reasons[id := SupersededByRetry(retry.value)];
        }
      } else {
        tasks, reasons := tasks[id := Cancelled], reasons[id := AbDegraded];
      }
    }
    assert cs[..|cs|] == cs;
    OverlayAll(d.tasks, gone, IdsOf(cs));
    OverlayAll(d.reasons, why, IdsOf(cs));
  }

  /** The keys already settled before the loop over the losers: a winning shadow has superseded the canonical. */
  function Wired(g: Group, w: TaskId): set<TaskId> {
    if w == g.canonical then {} else {g.canonical}
  }

  function WiredTasks(d: Disk, w: TaskId): map<TaskId, Status> {
    if w == d.group.canonical then d.tasks else d.tasks[w := Completed]
  }

  lemma WiredTaskState(d: Disk, w: TaskId)
    ensures Overlay(WiredTasks(d, w), AllCancelled(Superseded(d.group, Won(w))), Wired(d.group, w)) ==
      if w == d.group.canonical then d.tasks else d.tasks[w := Completed][d.group.canonical := Cancelled]
  {}

  lemma WiredReasonState(d: Disk, w: TaskId)
    ensures Overlay(d.reasons, ResolutionReasons(d, Won(w)), Wired(d.group, w)) ==
      if w == d.group.canonical then d.reasons else d.reasons[d.group.canonical := SupersededByWinner(w)]
  {}

  /** What the loop over the losers finds at candidate id, once the keys have been settled. */
  lemma LoserStep(d: Disk, w: TaskId, keys: set<TaskId>, id: TaskId)
    requires id in CandidateIds(d.group) && Wired(d.group, w) <= keys
    ensures var gone := AllCancelled(Superseded(d.group, Won(w)));
      var why := ResolutionReasons(d, Won(w));
      var tasks := Overlay(WiredTasks(d, w), gone, keys);
      var reasons := Overlay(d.reasons, why, keys);
      var cancel := id != w && StatusOf(tasks, id) != Cancelled;
      && Overlay(WiredTasks(d, w), gone, keys + {id}) == (if cancel then tasks[id := Cancelled] else tasks)
      && Overlay(d.reasons, why, keys + {id}) == (if cancel then reasons[id := AbLoser] else reasons)
  {
    hide Overlay;
    OverlayAdd(WiredTasks(d, w), AllCancelled(Superseded(d.group, Won(w))), keys, id);
    OverlayAdd(d.reasons, ResolutionReasons(d, Won(w)), keys, id);
  }

  /** A won race: a winning shadow inherits the canonical's lineage; every other candidate is cancelled. */
  method CancelLosers(d: Disk, w: TaskId)
    returns (tasks: map<TaskId, Status>, reasons: map<TaskId, Reason>, lineage: map<TaskId, TaskId>)
    requires d.group.canonical in CandidateIds(d.group)
    ensures tasks == WithResolution(d, Won(w), 0).tasks
    ensures reasons == WithResolution(d, Won(w), 0).reasons
    ensures lineage == WithResolution(d, Won(w), 0).lineage
  {
    hide Overlay, ResolutionReasons;
    var cs, canonical := d.group.candidates, d.group.canonical;
    tasks, reasons, lineage := d.tasks, d.reasons, d.lineage;
    if w != canonical {
      lineage := lineage[w := canonical];
      tasks := tasks[w := Completed][canonical := Cancelled];
      reasons := reasons[canonical := SupersededByWinner(w)];
    }
    ghost var gone := AllCancelled(Superseded(d.group, Won(w)));
    ghost var why := ResolutionReasons(d, Won(w));
    ghost var wired := Wired(d.group, w);
    WiredTaskState(d, w);
    WiredReasonState(d, w);
    assert wired + IdsOf(cs[..0]) == wired;
    for i := 0 to |cs|
      invariant tasks == Overlay(WiredTasks(d, w), gone, wired + IdsOf(cs[..i]))
      invariant reasons == Overlay(d.reasons, why, wired + IdsOf(cs[..i]))
    {
      var id := cs[i].taskId;
      IdsOfSnoc(cs, i);
      assert id in CandidateIds(d.group);
      LoserStep(d, w, wired + IdsOf(cs[..i]), id);
      assert wired + IdsOf(cs[..i + 1]) == wired + IdsOf(cs[..i]) + {id};
      if id != w && !(id in tasks && tasks[id] == Cancelled) {
        tasks, reasons := tasks[id := Cancelled], reasons[id := AbLoser];
      }
    }
    assert cs[..|cs|] == cs;
    assert wired + IdsOf(cs) == CandidateIds(d.group);
    OverlayAll(WiredTasks(d, w), gone, wired + IdsOf(cs));
    ReasonsOfCandidates(d, w);
    OverlayAll(d.reasons, why, wired + IdsOf(cs));
  }

  lemma ReasonsOfCandidates(d: Disk, w: TaskId)
    requires d.group.canonical in CandidateIds(d.group)
    ensures ResolutionReasons(d, Won(w)).Keys <= CandidateIds(d.group)
  {}

  /** The terminal state of a group, computed on the loaded copy. */
  method Terminate(d: Disk, r: Resolution, now: int) returns (e: Disk)
    requires r.Won? ==> d.group.canonical in CandidateIds(d.group)
    ensures e == WithResolution(d, r, now)
    ensures e.group.candidates == d.group.candidates
  {
    var g := d.group;
    if r.Lost? {
      var tasks, reasons := CancelLost(d, r.supersededBy);
      e := d.(tasks := tasks, reasons := reasons,
              group := g.(status := Degraded, winner := None, pending := None, updatedAt := Some(now)));
    } else {
      var tasks, reasons, lineage := CancelLosers(d, r.winner);
      e := d.(tasks := tasks, reasons := reasons, lineage := lineage,
              group := g.(status := Resolved, winner := Some(r.winner), pending := None, updatedAt := Some(now)));
    }
  }

  lemma CommitAllNext(d: Disk, cs: seq<Candidate>, i: nat, sc: Scan)
    requires i < |cs|
    ensures CommitAllTrace(d, cs[i..], sc) ==
      if CommitOk(d, cs[i].taskId, sc)
      then [WithCommit(d, cs[i].taskId)] + CommitAllTrace(WithCommit(d, cs[i].taskId), cs[i + 1..], sc) else []
  {
    assert cs[i..][1..] == cs[i + 1..];
  }

  lemma WrittenOneMore(w0: seq<Disk>, d: Disk, done: seq<Disk>, e: Disk, rest: seq<Disk>)
    ensures w0 + done + [e] == w0 + (done + [e])
    ensures done + ([e] + rest) == (done + [e]) + rest
    ensures Last(d, done + [e]) == e
  {}

  lemma CommitAllDone(d: Disk, cs: seq<Candidate>, sc: Scan)
    ensures CommitAllTrace(d, cs[|cs|..], sc) == []
  {}

  // ---------- the orchestrator ----------

  class Orchestrator {
    /** The durable state; every assignment is one atomic write. */
    var disk: Disk
    /** Every durable write so far. */
    ghost var writes: seq<Disk>

    constructor (initial: Disk)
      ensures disk == initial && writes == []
    {
      disk, writes := initial, [];
    }

    /** The trace t, starting at disk d after the writes w0, is exactly what has been written. */
    ghost predicate Wrote(w0: seq<Disk>, d: Disk, t: seq<Disk>)
      reads this
    {
      writes == w0 + t && disk == Last(d, t)
    }

    method Save(d: Disk)
      modifies this
      ensures Wrote(old(writes), old(disk), [d])
    {
      disk := d;
      writes := writes + [d];
    }

    /** CAS: records the decision unless the group is finished or another decision is recorded. */
    method MarkPendingWinner(id: TaskId, now: int) returns (ok: bool)
      modifies this
      ensures var d := old(disk);
        && ok == (Unresolved(d) && (d.group.pending.None? || d.group.pending == Some(id)))
        && Wrote(old(writes), d, if ok && d.group.pending.None? then [WithPending(d, id, now)] else [])
    {
      if disk.group.status.Resolved? || disk.group.status.Degraded? {
        return false;
      }
      if disk.group.pending.Some? {
        return disk.group.pending.value == id;
      }
      Save(disk.(group := disk.group.(pending := Some(id), updatedAt := Some(now))));
      return true;
    }

    /** Idempotent: work that was committed once stays committed. */
    method CommitCandidate(id: TaskId, sc: Scan) returns (ok: bool)
      modifies this
      ensures ok == CommitOk(old(disk), id, sc)
      ensures Wrote(old(writes), old(disk), if ok then [WithCommit(old(disk), id)] else [])
    {
      ok := id in disk.committed || id in sc.commitOk;
      if ok {
        Save(disk.(committed := disk.committed + {id}));
      }
    }

    /** Idempotent: a branch that was merged once stays merged; a failed intake changes nothing. */
    method IntakeWinner(branch: Branch, sc: Scan) returns (ok: bool)
      modifies this
      ensures ok == IntakeOk(old(disk), branch, sc)
      ensures Wrote(old(writes), old(disk), if ok then [WithIntake(old(disk), branch)] else [])
    {
      ok := branch in disk.intaken || sc.intakeOk;
      if ok {
        Save(disk.(intaken := disk.intaken + {branch}));
      }
    }

    method EmitRewards(w: TaskId)
      modifies this
      ensures Wrote(old(writes), old(disk), EmitTrace(old(disk), Labels(old(disk).group.candidates, w)))
    {
      var cs := disk.group.candidates;
      ghost var labels := Labels(cs, w);
      ghost var t := EmitTrace(disk, labels);
      ghost var done: seq<Disk> := [];
      for i := 0 to |cs|
        invariant done + EmitTrace(disk, labels[i..]) == t
        invariant Wrote(old(writes), old(disk), done)
      {
        ghost var here := disk;
        Save(disk.(rewards := disk.rewards + [Reward(cs[i].model, cs[i].bloom, cs[i].taskId == w)]));
        assert labels[i..][1..] == labels[i + 1..];
        assert EmitTrace(here, labels[i..]) == [disk] + EmitTrace(disk, labels[i + 1..]);
        done := done + [disk];
      }
    }

    /** CAS: writes the terminal state unless the group is already terminal, then emits the outcomes. */
    method ResolveGroup(r: Resolution, now: int)
      requires r.Won? ==> disk.group.canonical in CandidateIds(disk.group)
      modifies this
      ensures Wrote(old(writes), old(disk), ResolveTrace(old(disk), r, now))
    {
      hide WithResolution, EmitTrace;
      if disk.group.status.Resolved? || disk.group.status.Degraded? {
        return;
      }
      var terminal := Terminate(disk, r, now);
      Save(terminal);
      if r.Won? {
        EmitRewards(r.winner);
      }
    }

    /** degradeABGroupWithRepair: re-execute the logical task, unless a repair is already wired. */
    method DegradeWithRepair(sc: Scan)
      requires AtMostOne(RepairSuccessors(disk))
      modifies this
      ensures Wrote(old(writes), old(disk), DegradeTrace(old(disk), sc))
    {
      hide ResolveTrace;
      var succ := FindRepairSuccessor(disk);
      if succ.Some? {
        assert succ.value == WiredRepair(disk);
        ResolveGroup(Lost(succ), sc.now);
      } else if disk.group.canonical !in disk.queue {
        ResolveGroup(Lost(None), sc.now);
      } else if sc.repair.QueueFails? || sc.repair.Enqueued? {
        var id := sc.repair.id;
        Save(disk.(lineage := disk.lineage[id := disk.group.canonical], tasks := disk.tasks[id := Extended("planned")],
                  wired := disk.wired + {id}));
        if sc.repair.Enqueued? {
          Save(disk.(queue := disk.queue[id := Pending], repairs := disk.repairs + {id}));
          ResolveGroup(Lost(Some(id)), sc.now);
        } else if sc.repair.rolledBack {
          Save(disk.(lineage := disk.lineage - {id}, tasks := disk.tasks - {id}, wired := disk.wired - {id}));
        } else {
          Save(disk.(marked := disk.marked[id := 0]));
        }
      }
    }

    method MergeOrDegrade(w: Candidate, sc: Scan)
      requires disk.group.canonical in CandidateIds(disk.group)
      requires AtMostOne(RepairSuccessors(disk))
      modifies this
      ensures Wrote(old(writes), old(disk), MergeTrace(old(disk), w, sc))
    {
      hide ResolveTrace, DegradeTrace;
      var merged := IntakeWinner(w.branch, sc);
      if merged {
        ResolveGroup(Won(w.taskId), sc.now);
      } else {
        DegradeWithRepair(sc);
      }
    }

    /** finalizeABWinner once the decision is durable. */
    method IntakeOrDegrade(w: Candidate, sc: Scan)
      requires disk.group.canonical in CandidateIds(disk.group)
      requires AtMostOne(RepairSuccessors(disk))
      modifies this
      ensures Wrote(old(writes), old(disk), IntakeTrace(old(disk), w, sc))
    {
      var committedNow := CommitCandidate(w.taskId, sc);
      if committedNow {
        SameSuccessors(old(disk), disk);
        WrittenTwice(old(writes), old(disk), [disk], MergeTrace(disk, w, sc));
        MergeOrDegrade(w, sc);
      }
    }

    /** finalizeABWinner: decision, commit, intake, resolution, in that order. */
    method FinalizeWinner(w: Candidate, sc: Scan)
      requires disk.group.canonical in CandidateIds(disk.group)
      requires AtMostOne(RepairSuccessors(disk))
      modifies this
      ensures Wrote(old(writes), old(disk), FinalizeTrace(old(disk), w, sc))
    {
      var marked := MarkPendingWinner(w.taskId, sc.now);
      if marked {
        SameSuccessors(old(disk), disk);
        ghost var t := if old(disk).group.pending.Some? then [] else [disk];
        WrittenTwice(old(writes), old(disk), t, IntakeTrace(disk, w, sc));
        IntakeOrDegrade(w, sc);
      }
    }

    /** Commits the finished candidates until one fails. */
    method CommitAll(cs: seq<Candidate>, sc: Scan) returns (ok: bool)
      modifies this
      ensures Wrote(old(writes), old(disk), CommitAllTrace(old(disk), cs, sc))
      ensures ok == (|CommitAllTrace(old(disk), cs, sc)| == |cs|)
      ensures disk == old(disk).(committed := disk.committed)
    {
      ghost var t := CommitAllTrace(disk, cs, sc);
      ghost var done: seq<Disk> := [];
      assert cs[0..] == cs;
      hide CommitOk, CommitAllTrace;
      for i := 0 to |cs|
        invariant |done| == i && done + CommitAllTrace(disk, cs[i..], sc) == t
        invariant Wrote(old(writes), old(disk), done)
        invariant disk == old(disk).(committed := disk.committed)
      {
        CommitAllNext(disk, cs, i, sc);
        ok := CommitCandidate(cs[i].taskId, sc);
        if !ok {
          assert done + [] == done;
          return;
        }
        hide WithCommit;
        WrittenOneMore(old(writes), old(disk), done, disk, CommitAllTrace(disk, cs[i + 1..], sc));
        done := done + [disk];
      }
      CommitAllDone(disk, cs, sc);
      return true;
    }

    /** Acts on the selection engine's answer. */
    method ActOnVerdict(finished: seq<Candidate>, sc: Scan)
      requires finished != []
      requires disk.group.canonical in CandidateIds(disk.group)
      requires AtMostOne(RepairSuccessors(disk))
      modifies this
      ensures Wrote(old(writes), old(disk), VerdictTrace(old(disk), finished, sc))
    {
      hide FinalizeTrace, DegradeTrace;
      if sc.selection.SoleCandidateFailed? {
        DegradeWithRepair(sc);
      } else if !sc.selection.Busy? {
        var winner := finished[0];
        if sc.selection.Chosen? {
          var chosen := CandidateFor(disk.group, sc.selection.id);
          if chosen.Some? {
            winner := chosen.value;
          }
        }
        FinalizeWinner(winner, sc);
      }
    }

    method SelectAndFinalize(finished: seq<Candidate>, sc: Scan)
      requires finished != []
      requires disk.group.canonical in CandidateIds(disk.group)
      requires AtMostOne(RepairSuccessors(disk))
      modifies this
      ensures Wrote(old(writes), old(disk), SelectTrace(old(disk), finished, sc))
    {
      hide VerdictTrace;
      var ok := CommitAll(finished, sc);
      if ok {
        SameSuccessors(old(disk), disk);
        WrittenTwice(old(writes), old(disk), CommitAllTrace(old(disk), finished, sc), VerdictTrace(disk, finished, sc));
        ActOnVerdict(finished, sc);
      }
    }

    /** The selection budget is spent: take the winner's work if it can be committed, else re-execute. */
    method CommitOrDegrade(w: Candidate, sc: Scan)
      requires disk.group.canonical in CandidateIds(disk.group)
      requires AtMostOne(RepairSuccessors(disk))
      modifies this
      ensures Wrote(old(writes), old(disk), CommitOrDegradeTrace(old(disk), w, sc))
    {
      hide FinalizeTrace, DegradeTrace;
      var ok := CommitCandidate(w.taskId, sc);
      if ok {
        SameSuccessors(old(disk), disk);
        WrittenTwice(old(writes), old(disk), [disk], FinalizeTrace(disk, w, sc));
        FinalizeWinner(w, sc);
      } else {
        DegradeWithRepair(sc);
      }
    }

    /** No decision is recorded: enter selecting, or walk over once the selection budget is spent. */
    method Decide(finished: seq<Candidate>, sc: Scan)
      requires finished != []
      requires disk.group.canonical in CandidateIds(disk.group)
      requires AtMostOne(RepairSuccessors(disk))
      modifies this
      ensures Wrote(old(writes), old(disk), DecideTrace(old(disk), finished, sc))
    {
      hide SelectTrace, CommitOrDegradeTrace;
      if disk.group.status.Racing? {
        Save(disk.(group := disk.group.(status := Selecting, updatedAt := Some(sc.now))));
        SameSuccessors(old(disk), disk);
        WrittenTwice(old(writes), old(disk), [disk], SelectTrace(disk, finished, sc));
        SelectAndFinalize(finished, sc);
      } else if SelectionTimedOut(disk.group, sc) {
        CommitOrDegrade(finished[0], sc);
      } else {
        SelectAndFinalize(finished, sc);
      }
    }

    /** runABSelectionAndResolve */
    method SelectAndResolve(finished: seq<Candidate>, sc: Scan)
      requires disk.group.canonical in CandidateIds(disk.group)
      requires AtMostOne(RepairSuccessors(disk))
      modifies this
      ensures Wrote(old(writes), old(disk), AllTerminalTrace(old(disk), finished, sc))
    {
      hide ResolveTrace, DegradeTrace, DecideTrace, CommitOrDegradeTrace, FinalizeTrace;
      if finished == [] {
        ResolveGroup(Lost(None), sc.now);
        return;
      }
      var succ := FindRepairSuccessor(disk);
      if succ.Some? {
        DegradeWithRepair(sc);
        return;
      }
      if disk.group.pending.Some? {
        var winner := CandidateFor(disk.group, disk.group.pending.value);
        if winner.Some? {
          if SelectionTimedOut(disk.group, sc) {
            CommitOrDegrade(winner.value, sc);
          } else {
            FinalizeWinner(winner.value, sc);
          }
          return;
        }
      }
      Decide(finished, sc);
    }

    /** Cancels c once its rival has completed, unless a worker may be executing it. */
    method CancelTimedOut(c: Candidate, sc: Scan)
      modifies this
      ensures Wrote(old(writes), old(disk), TimeoutTrace(old(disk), sc, c))
    {
      var rival := OtherCandidate(disk.group, c.taskId);
      if rival.None? || !Finished(disk, sc, rival.value.taskId) {
        return;
      }
      if c.taskId in sc.rows {
        if sc.rows[c.taskId] == Pending {
          CancelPendingRow(c);
        }
      } else {
        CancelInState(c.taskId, AbTimeout);
      }
    }

    /** Compare-and-swap on the queue row: a row dispatched in the meantime is left to its own lifecycle. */
    method CancelPendingRow(c: Candidate)
      modifies this
      ensures StatusOf(old(disk).queue, c.taskId) != Pending ==> disk == old(disk) && writes == old(writes)
      ensures StatusOf(old(disk).queue, c.taskId) == Pending ==>
        var row := old(disk).(queue := old(disk).queue[c.taskId := Cancelled]);
        Wrote(old(writes), old(disk), [row, WithStateCancelled(row, c.taskId, AbTimeout)])
      ensures forall t | t in old(disk).queue && old(disk).queue[t] != Pending :: t in disk.queue && disk.queue[t] == old(disk).queue[t]
    {
      if c.taskId !in disk.queue || disk.queue[c.taskId] != Pending {
        return;
      }
      Save(disk.(queue := disk.queue[c.taskId := Cancelled]));
      Save(disk.(tasks := disk.tasks[c.taskId := Cancelled], reasons := disk.reasons[c.taskId := AbTimeout]));
    }

    /** Compare-and-swap on the task state: afterwards the task is terminal, and no terminal status was overwritten. */
    method CancelInState(id: TaskId, why: Reason)
      modifies this
      ensures IsTerminal(StatusOf(disk.tasks, id))
      ensures forall t | IsTerminal(StatusOf(old(disk).tasks, t)) ::
        StatusOf(disk.tasks, t) == StatusOf(old(disk).tasks, t)
        && (t in disk.reasons <==> t in old(disk).reasons) && (t in disk.reasons ==> disk.reasons[t] == old(disk).reasons[t])
      ensures IsTerminal(StatusOf(old(disk).tasks, id)) ==> disk == old(disk) && writes == old(writes)
      ensures !IsTerminal(StatusOf(old(disk).tasks, id)) ==>
        Wrote(old(writes), old(disk), [WithStateCancelled(old(disk), id, why)])
    {
      if id in disk.tasks && IsTerminal(disk.tasks[id]) {
        return;
      }
      Save(disk.(tasks := disk.tasks[id := Cancelled], reasons := disk.reasons[id := why]));
    }

    /** r1ProcessRetryEnqueueForCommand, for one entry: queue the marked repair, or give it up. */
    method ConsumeRetryEnqueueFailed(id: TaskId, added: bool)
      requires Inv(disk)
      modifies this
      ensures Wrote(old(writes), old(disk), ReconcileTrace(old(disk), id, added))
      ensures Sound(old(disk), ReconcileTrace(old(disk), id, added))
    {
      ReconcileSound(disk, id, added);
      hide Sound, Inv;
      if id !in disk.marked {
        return;
      }
      if id in disk.queue {
        Save(disk.(marked := disk.marked - {id}));
      } else if disk.marked[id] >= MAX_ENQUEUE_ATTEMPTS {
        Save(disk.(tasks := disk.tasks[id := DeadLetter], marked := disk.marked - {id}));
      } else if disk.group.canonical !in disk.queue {
        Save(disk.(tasks := disk.tasks[id := Failed], marked := disk.marked - {id}));
      } else if !added {
        Save(disk.(marked := disk.marked[id := disk.marked[id] + 1]));
      } else {
        Save(disk.(queue := disk.queue[id := Pending], repairs := disk.repairs + {id}));
        Save(disk.(marked := disk.marked - {id}));
      }
    }

    /** processABGroup: one scan of one group. */
    method ProcessGroup(sc: Scan)
      requires Inv(disk) && FreshRepair(disk, sc)
      modifies this
      ensures Wrote(old(writes), old(disk), ScanTrace(old(disk), sc))
      ensures Sound(old(disk), ScanTrace(old(disk), sc))
    {
      ScanSound(disk, sc);
      hide Sound, ResolveTrace, AllTerminalTrace, TimeoutTrace;
      if disk.group.status.Resolved? || disk.group.status.Degraded? {
        return;
      }
      var canonical := CandidateFor(disk.group, disk.group.canonical);
      var shadow := OtherCandidate(disk.group, disk.group.canonical);
      if canonical.None? || shadow.None? {
        ResolveGroup(Lost(None), sc.now);
        return;
      }
      var c, s := canonical.value, shadow.value;
      if c.taskId in sc.tagged && !sc.tagged[c.taskId] {
        ResolveGroup(Lost(None), sc.now);
      } else if s.taskId !in sc.rows && StatusOf(disk.tasks, s.taskId) == Pending {
        CancelInState(s.taskId, AbFanoutIncomplete);
      } else if IsTerminal(Effective(disk, sc, c.taskId)) && IsTerminal(Effective(disk, sc, s.taskId)) {
        SelectAndResolve(FinishedCandidates(disk, sc, c, s), sc);
      } else if RaceTimedOut(disk.group, sc) {
        CancelTimedOut(c, sc);
        WrittenTwice(old(writes), old(disk), TimeoutTrace(old(disk), sc, c), TimeoutTrace(disk, sc, s));
        CancelTimedOut(s, sc);
      }
    }
  }
}
