/**
 The directory of a pane.  Where an envelope lands, exactly, whatever happens to the
 pane during the dispatch; and over every run in which nobody else moves the pane,
 the tracked directory is the real one and every envelope lands in the requested one.
 */
module PaneDirectories {
  import opened Common
  import opened PaneModel
  import opened PaneFencing

  /** The directory of the pane after the disturbances: that of the last respawn, if there is one. */
  function Relocated(cwd: Path, es: seq<Disturbance>): Path
    decreases |es|
  {
    if es == [] then cwd
    else
      var e := es[|es| - 1];
      match e
      case Respawn(c) => c
      case Evict(root) => root
      case _ => Relocated(cwd, es[..|es| - 1])
  }

  predicate Evicted(es: seq<Disturbance>) {
    exists e | e in es :: e.Evict?
  }

  /** What happens in the i-th pause of a dispatch. */
  function Gap(o: Outcome, i: nat): seq<Disturbance> {
    if i < |o.gaps| then o.gaps[i] else []
  }

  lemma {:induction false} DriftAppends(p: Pane, es: seq<Disturbance>)
    requires es != []
    ensures Drift(p, es) == Disturb(Drift(p, es[..|es| - 1]), es[|es| - 1])
    decreases |es|
  {
    if |es| > 1 {
      DriftAppends(Disturb(p, es[0]), es[1..]);
      assert es[1..][..|es| - 2] == es[..|es| - 1][1..];
    } else {
      assert es[1..] == [] && es[..0] == [];
    }
    hide Disturb;
  }

  lemma DisturbMoves(p: Pane, e: Disturbance, q: Pane)
    requires q == Disturb(p, e)
    ensures q.cwd == if e.Respawn? then e.cwd else if e.Evict? then e.root else p.cwd
    ensures q.trackedCwd == if e.Evict? then None else p.trackedCwd
  {}

  lemma EvictedSnoc(es: seq<Disturbance>)
    requires es != []
    ensures Evicted(es) <==> Evicted(es[..|es| - 1]) || es[|es| - 1].Evict?
  {
    assert es == es[..|es| - 1] + [es[|es| - 1]];
  }

  /** The directory and the tracked directory after disturbances. */
  lemma {:induction false} DriftMoves(p: Pane, es: seq<Disturbance>)
    ensures Drift(p, es).cwd == Relocated(p.cwd, es)
    ensures Drift(p, es).trackedCwd == if Evicted(es) then None else p.trackedCwd
    decreases |es|
  {
    if es != [] {
      var n := |es| - 1;
      DriftAppends(p, es);
      DriftMoves(p, es[..n]);
      EvictedSnoc(es);
      DisturbMoves(Drift(p, es[..n]), es[n], Drift(p, es));
      hide Drift, Disturb, Evicted;
    }
  }

  lemma PauseIsDrift(p: Pane, o: Outcome, i: nat)
    ensures Pause(p, o, i) == Drift(p, Gap(o, i))
  {}

  lemma PauseMoves(p: Pane, o: Outcome, i: nat)
    ensures Pause(p, o, i).cwd == Relocated(p.cwd, Gap(o, i))
    ensures Pause(p, o, i).trackedCwd == if Evicted(Gap(o, i)) then None else p.trackedCwd
  {
    PauseIsDrift(p, o, i);
    DriftMoves(p, Gap(o, i));
    hide Drift, Pause, Relocated, Evicted;
  }

  // ---------- where an envelope lands ----------

  /** The dispatch leaves the pane where it is: it is tracked there, the directory exists, and nobody evicts it first. */
  predicate Stays(p: Pane, dir: Path, o: Outcome) {
    p.trackedCwd == Some(dir) && o.dir.exists_ && !Evicted(Gap(o, 0))
  }

  /** The directory in which the envelope of a dispatch lands. */
  function Landing(p: Pane, req: Request, o: Outcome): Path {
    Relocated(if req.workingDir.None? || Stays(p, req.workingDir.value, o) then Relocated(p.cwd, Gap(o, 0))
              else Relocated(req.workingDir.value, o.dir.settling),
              Gap(o, 2))
  }

  ghost predicate AllEnvelopesAt(r: Result, cwd: Path) {
    forall x | x in r.log && x.Envelope? :: x.at.cwd == cwd
  }

  /** While an agent lives on undisturbed, the pane has not moved. */
  lemma SameAgentSamePlace(p: Pane, o: Outcome, i: nat)
    requires Fenced(p) && !p.pending
    ensures var q := Pause(p, o, i); Fenced(q) && !q.pending && (q.agent ==> q == p)
  {
    PauseEffect(p, o, i);
    hide Pause, Fenced;
  }

  lemma DeliverAt(p: Pane, req: Request, cleared: bool, o: Outcome, cwd: Path)
    requires p.agent ==> p.cwd == cwd
    ensures AllEnvelopesAt(Deliver(p, req, cleared, o), cwd)
  {
    hide Pause;
  }

  lemma FirstDispatchAt(p: Pane, req: Request, pid: nat, o: Outcome)
    requires Fenced(p) && !p.pending
    ensures AllEnvelopesAt(FirstDispatch(p, req, pid, o), p.cwd)
  {
    SameAgentSamePlace(p, o, 5);
    DeliverAt(Pause(p, o, 5), req, false, o, p.cwd);
    hide Pause, Deliver, Fenced;
  }

  lemma ClearAndDeliverAt(p: Pane, req: Request, o: Outcome)
    requires Fenced(p) && !p.pending
    ensures AllEnvelopesAt(ClearAndDeliver(p, req, o), p.cwd)
  {
    var q := Pause(p, o, 4);
    SameAgentSamePlace(p, o, 4);
    assert Fenced(Cleared(q));
    SameAgentSamePlace(Cleared(q), o, 5);
    DeliverAt(Pause(Cleared(q), o, 5), req, true, o, p.cwd);
    hide Pause, Deliver, Fenced;
  }

  lemma FullDispatchAt(p: Pane, req: Request, o: Outcome)
    requires Fenced(p)
    ensures AllEnvelopesAt(FullDispatch(p, req, o), Relocated(p.cwd, Gap(o, 2)))
  {
    var stamped := p.(runOnMain := req.runOnMain);
    assert Fenced(stamped);
    PauseEffect(stamped, o, 2);
    PauseMoves(stamped, o, 2);
    var before := Pause(stamped, o, 2);
    hide Pause, Relocated, FirstDispatch, ClearAndDeliver;
    EnsureRunningPlace(before, o.launch);
    EnsureRunningFenced(before, o.launch);
    var (q, running) := EnsureRunning(before, o.launch);
    hide EnsureRunning, DetectRestart, Fenced;
    if running {
      SameAgentSamePlace(q, o, 3);
      ExaminedAt(Pause(q, o, 3), req, o, q.cwd);
    }
  }

  lemma EnsureRunningPlace(p: Pane, how: Launch)
    ensures EnsureRunning(p, how).0.cwd == p.cwd
  {}

  lemma ExaminedAt(p: Pane, req: Request, o: Outcome, cwd: Path)
    requires Fenced(p) && !p.pending && (p.agent ==> p.cwd == cwd)
    ensures var s := DetectRestart(p);
      AllEnvelopesAt(FirstDispatch(s, req, s.pid, o), cwd) && AllEnvelopesAt(ClearAndDeliver(s, req, o), cwd)
  {
    DetectRestartFenced(p);
    var s := DetectRestart(p);
    assert s.cwd == p.cwd && s.agent == p.agent && s.pending == p.pending;
    hide DetectRestart, FirstDispatch, ClearAndDeliver, Fenced;
    FirstDispatchAt(s, req, s.pid, o);
    ClearAndDeliverAt(s, req, o);
    if !p.agent {
      NoAgentNoEnvelope(s, req, o);
    }
  }

  /** Without an agent nothing is pasted. */
  lemma NoAgentNoEnvelope(p: Pane, req: Request, o: Outcome)
    requires Fenced(p) && !p.pending && !p.agent
    ensures FirstDispatch(p, req, p.pid, o).log == [] && ClearAndDeliver(p, req, o).log == []
  {
    var q := Pause(p, o, 4);
    PauseEffect(p, o, 4);
    PauseEffect(p, o, 5);
    assert Fenced(Cleared(q));
    PauseEffect(Cleared(q), o, 5);
    DriftAgent(p, Gap(o, 4));
    DriftAgent(p, Gap(o, 5));
    DriftAgent(Cleared(q), Gap(o, 5));
    hide Drift, Fenced;
  }

  lemma {:induction false} DriftAgent(p: Pane, es: seq<Disturbance>)
    requires !p.agent && !p.pending
    ensures !Drift(p, es).agent && !Drift(p, es).pending
    decreases |es|
  {
    if es != [] {
      DriftAgent(Disturb(p, es[0]), es[1..]);
    }
  }

  lemma SettledAt(p: Pane, dir: Path, o: DirOutcome)
    requires Fenced(p)
    ensures var (q, settled) := EnsureWorkingDir(p, dir, o);
      && Fenced(q)
      && (settled ==> q.trackedCwd == Some(dir))
      && (settled ==> q.cwd == if p.trackedCwd == Some(dir) && o.exists_ then p.cwd else Relocated(dir, o.settling))
  {
    WorkingDirFenced(p, dir, o);
    DriftMoves(Respawned(p, dir), o.settling);
    hide Drift, Fenced;
  }

  lemma NudgesOnly(p: Pane, req: Request, o: Outcome)
    ensures forall x | x in ResumeNudge(p, req, o).log :: x.Nudge?
  {
    hide Pause, CanResume;
  }

  lemma ProbedStays(p: Pane, o: Probes)
    requires Fenced(p)
    ensures var q := Probed(p, o); Fenced(q) && q.cwd == p.cwd && q.trackedCwd == p.trackedCwd
  {}

  /** Whatever fails and whatever happens to the pane, an envelope lands exactly there. */
  lemma EnvelopesLand(p: Pane, req: Request, o: Outcome)
    requires Fenced(p)
    ensures AllEnvelopesAt(WithClear(p, req, o), Landing(p, req, o))
  {
    NudgesOnly(p, req, o);
    ProbedStays(p, o.preflight);
    hide FullDispatch, EnsureWorkingDir, ResumeNudge, Relocated, Evicted, Probed, CanResume;
    var before := if req.resume then Probed(p, o.preflight) else p;
    PauseMoves(before, o, 0);
    PauseEffect(before, o, 0);
    var q := Pause(before, o, 0);
    hide Pause, Fenced;
    match req.workingDir {
      case None => FullDispatchAt(q, req, o);
      case Some(dir) =>
        SettledAt(q, dir, o.dir);
        var r := EnsureWorkingDir(q, dir, o.dir).0;
        if EnsureWorkingDir(q, dir, o.dir).1 {
          FullDispatchAt(r, req, o);
        }
    }
  }

  // ---------- runs ----------

  /** An envelope for a request with a directory is in that directory. */
  predicate InPlace(x: Paste) {
    x.Envelope? && x.req.workingDir.Some? ==> x.at.cwd == x.req.workingDir.value
  }

  ghost predicate AllInPlace(log: seq<Paste>) {
    forall x | x in log :: InPlace(x)
  }

  /** Every dispatch of the run that pastes an envelope for a directory lands in that directory. */
  ghost predicate AllLand(p: Pane, actions: seq<Action>)
    decreases |actions|
  {
    actions != [] ==>
      var a := actions[0];
      && (a.Dispatch? && a.req.workingDir.Some? && PastesEnvelope(Act(p, a)) ==>
            Landing(p, a.req, a.o) == a.req.workingDir.value)
      && AllLand(Act(p, a).pane, actions[1..])
  }

  lemma {:induction false} RequestsOf(p: Pane, a: Action)
    ensures forall x | x in Act(p, a).log :: a.Dispatch? && x.req == a.req
  {
    hide Pause, EnsureRunning, EnsureWorkingDir, DetectRestart, CanResume, Probed, Drift;
  }

  /** Over every run, whatever happens: all envelopes are in place if and only if every pasting dispatch lands there. */
  lemma {:induction false} RunInPlaceExactly(p: Pane, actions: seq<Action>)
    requires Fenced(p) && AllNamed(actions)
    ensures AllInPlace(Run(p, actions).log) <==> AllLand(p, actions)
    decreases |actions|
  {
    if actions == [] {
    } else {
      var a := actions[0];
      ActTracks(p, a);
      RequestsOf(p, a);
      if a.Dispatch? {
        EnvelopesLand(p, a.req, a.o);
      }
      hide WithClear, Drift, Fenced, Landing, Known, Examined, LosesTrack;
      RunInPlaceExactly(Act(p, a).pane, actions[1..]);
      assert AllInPlace(Run(p, actions).log) <==>
        AllInPlace(Act(p, a).log) && AllInPlace(Run(Act(p, a).pane, actions[1..]).log);
    }
  }

  // ---------- the tracked directory ----------

  /** What is tracked is true. */
  predicate Tracked(p: Pane) {
    p.trackedCwd.Some? ==> p.cwd == p.trackedCwd.value
  }

  predicate NoRespawn(es: seq<Disturbance>) {
    forall e | e in es :: !e.Respawn?
  }

  /** Exactly when disturbances leave the tracked directory true. */
  lemma DriftTracksExactly(p: Pane, es: seq<Disturbance>)
    ensures Tracked(Drift(p, es)) <==> Evicted(es) || p.trackedCwd.None? || Relocated(p.cwd, es) == p.trackedCwd.value
  {
    DriftMoves(p, es);
    hide Drift, Relocated, Evicted;
  }

  lemma {:induction false} UnmovedUnlessEvicted(cwd: Path, es: seq<Disturbance>)
    requires NoRespawn(es) && !Evicted(es)
    ensures Relocated(cwd, es) == cwd
    decreases |es|
  {
    if es != [] {
      var n := |es| - 1;
      assert es[n] in es;
      assert forall e | e in es[..n] :: e in es;
      UnmovedUnlessEvicted(cwd, es[..n]);
    }
  }

  lemma DriftKeepsTracked(p: Pane, es: seq<Disturbance>)
    requires Tracked(p) && NoRespawn(es)
    ensures Tracked(Drift(p, es))
  {
    DriftTracksExactly(p, es);
    if !Evicted(es) {
      UnmovedUnlessEvicted(p.cwd, es);
    }
    hide Drift, Relocated, Evicted, NoRespawn;
  }

  /** Nobody else respawns the pane during the dispatch, and nobody evicts it while it settles in its directory. */
  predicate LeftAlone(o: Outcome) {
    && (forall i: nat | i < |o.gaps| :: NoRespawn(o.gaps[i]))
    && NoRespawn(o.dir.settling) && !Evicted(o.dir.settling)
  }

  lemma PauseKeepsTracked(p: Pane, o: Outcome, i: nat)
    requires Tracked(p) && LeftAlone(o)
    ensures Tracked(Pause(p, o, i))
  {
    if i < |o.gaps| {
      DriftKeepsTracked(p, o.gaps[i]);
    }
    hide Drift;
  }

  lemma DeliverTracked(p: Pane, req: Request, cleared: bool, o: Outcome)
    requires Tracked(p) && LeftAlone(o)
    ensures Tracked(Deliver(p, req, cleared, o).pane)
  {
    PauseKeepsTracked(p.(conversation := Some(req.task)), o, 6);
    hide Pause, LeftAlone;
  }

  lemma FullDispatchTracked(p: Pane, req: Request, o: Outcome)
    requires Tracked(p) && LeftAlone(o)
    ensures Tracked(FullDispatch(p, req, o).pane)
  {
    var before := Pause(p.(runOnMain := req.runOnMain), o, 2);
    PauseKeepsTracked(p.(runOnMain := req.runOnMain), o, 2);
    var q := EnsureRunning(before, o.launch).0;
    assert Tracked(q);
    PauseKeepsTracked(q, o, 3);
    var s := DetectRestart(Pause(q, o, 3));
    assert Tracked(s);
    hide Pause, EnsureRunning, DetectRestart, LeftAlone;
    FirstDispatchTracked(s, req, o);
    ClearAndDeliverTracked(s, req, o);
    hide FirstDispatch, ClearAndDeliver;
  }

  lemma FirstDispatchTracked(p: Pane, req: Request, o: Outcome)
    requires Tracked(p) && LeftAlone(o)
    ensures Tracked(FirstDispatch(p, req, p.pid, o).pane)
  {
    PauseKeepsTracked(p, o, 5);
    DeliverTracked(Pause(p, o, 5), req, false, o);
    hide Pause, Deliver, LeftAlone;
  }

  lemma ClearAndDeliverTracked(p: Pane, req: Request, o: Outcome)
    requires Tracked(p) && LeftAlone(o)
    ensures Tracked(ClearAndDeliver(p, req, o).pane)
  {
    var q := Pause(p, o, 4);
    PauseKeepsTracked(p, o, 4);
    PauseKeepsTracked(Cleared(q), o, 5);
    DeliverTracked(Pause(Cleared(q), o, 5), req, true, o);
    hide Pause, Deliver, LeftAlone;
  }

  lemma NudgeTracked(p: Pane, req: Request, o: Outcome)
    requires Tracked(p) && LeftAlone(o)
    ensures Tracked(ResumeNudge(p, req, o).pane)
  {
    var q := Pause(p.(runOnMain := req.runOnMain), o, 1);
    PauseKeepsTracked(p.(runOnMain := req.runOnMain), o, 1);
    PauseKeepsTracked(q, o, 6);
    hide Pause, LeftAlone, CanResume;
  }

  lemma SettledTracked(p: Pane, dir: Path, o: DirOutcome)
    requires Tracked(p) && NoRespawn(o.settling) && !Evicted(o.settling)
    ensures Tracked(EnsureWorkingDir(p, dir, o).0)
  {
    DriftMoves(Respawned(p, dir), o.settling);
    UnmovedUnlessEvicted(dir, o.settling);
    hide Drift, Relocated, Evicted, NoRespawn;
  }

  lemma DispatchTracked(p: Pane, req: Request, o: Outcome)
    requires Tracked(p) && LeftAlone(o)
    ensures Tracked(WithClear(p, req, o).pane)
  {
    NudgeTracked(p, req, o);
    var before := if req.resume then Probed(p, o.preflight) else p;
    assert Tracked(before);
    PauseKeepsTracked(before, o, 0);
    var q := Pause(before, o, 0);
    if req.workingDir.Some? {
      SettledTracked(q, req.workingDir.value, o.dir);
      FullDispatchTracked(EnsureWorkingDir(q, req.workingDir.value, o.dir).0, req, o);
    } else {
      FullDispatchTracked(q, req, o);
    }
    hide Pause, FullDispatch, ResumeNudge, EnsureWorkingDir, CanResume, Probed, Tracked, LeftAlone;
  }

  predicate ActionLeavesAlone(a: Action) {
    match a
    case Dispatch(_, o) => LeftAlone(o)
    case Interrupt(_) => true
    case Wait(es) => NoRespawn(es)
  }

  /** Over every run without foreign respawns, what is tracked stays true. */
  lemma {:induction false} RunTracked(p: Pane, actions: seq<Action>)
    requires Tracked(p) && forall a | a in actions :: ActionLeavesAlone(a)
    ensures Tracked(Run(p, actions).pane)
    decreases |actions|
  {
    if actions == [] {
    } else {
      var a := actions[0];
      assert a in actions;
      ActTracked(p, a);
      hide Act, Tracked, ActionLeavesAlone;
      RunTracked(Act(p, a).pane, actions[1..]);
    }
  }

  lemma ActTracked(p: Pane, a: Action)
    requires Tracked(p) && ActionLeavesAlone(a)
    ensures Tracked(Act(p, a).pane)
  {
    match a {
      case Dispatch(req, o) => DispatchTracked(p, req, o);
      case Interrupt(confirmed) =>
      case Wait(es) => DriftKeepsTracked(p, es);
    }
    hide WithClear, Drift, LeftAlone, NoRespawn;
  }

  /** Nobody evicts the pane between settling in its directory and the launch of its agent either. */
  predicate Undisplaced(a: Action) {
    ActionLeavesAlone(a) && (a.Dispatch? ==> !Evicted(Gap(a.o, 2)))
  }

  lemma LandsThere(p: Pane, req: Request, o: Outcome, dir: Path)
    requires Tracked(p) && LeftAlone(o) && !Evicted(Gap(o, 2)) && req.workingDir == Some(dir)
    ensures Landing(p, req, o) == dir
  {
    assert NoRespawn(Gap(o, 0)) && NoRespawn(Gap(o, 2));
    if !Evicted(Gap(o, 0)) {
      UnmovedUnlessEvicted(p.cwd, Gap(o, 0));
    }
    UnmovedUnlessEvicted(dir, o.dir.settling);
    UnmovedUnlessEvicted(dir, Gap(o, 2));
    hide Relocated, Evicted, NoRespawn, Gap;
  }

  lemma {:induction false} UndisplacedLand(p: Pane, actions: seq<Action>)
    requires Tracked(p) && forall a | a in actions :: Undisplaced(a)
    ensures AllLand(p, actions)
    decreases |actions|
  {
    if actions == [] {
    } else {
      var a := actions[0];
      assert a in actions;
      ActTracked(p, a);
      if a.Dispatch? && a.req.workingDir.Some? {
        LandsThere(p, a.req, a.o, a.req.workingDir.value);
      }
      hide Act, Tracked, Undisplaced, Landing, PastesEnvelope;
      UndisplacedLand(Act(p, a).pane, actions[1..]);
    }
  }

  /** Over every such run each envelope lands in the directory that its request names. */
  lemma RunInPlace(p: Pane, actions: seq<Action>)
    requires Fenced(p) && Tracked(p) && AllNamed(actions) && forall a | a in actions :: Undisplaced(a)
    ensures AllInPlace(Run(p, actions).log) && Tracked(Run(p, actions).pane)
  {
    hide Fenced, Tracked, AllNamed, AllLand, AllInPlace, Run, Evicted, LeftAlone, NoRespawn;
    UndisplacedLand(p, actions);
    RunInPlaceExactly(p, actions);
    RunTracked(p, actions);
  }

  /** Evicted while the agent is to be relaunched, the pane gets its envelope in the project root. */
  lemma EvictedThenElsewhere(p: Pane, req: Request, dir: Path, root: Path)
    requires Fenced(p) && !p.pending && Tracked(p) && p.trackedCwd == Some(dir) && root != dir
    requires !req.resume && req.workingDir == Some(dir)
    ensures var r := WithClear(p, req, Calm(Delivered).(gaps := [[], [], [Evict(root)]]));
      r.ok && exists x :: r.log == [x] && x.Envelope? && x.at.cwd == root
  {
    var o := Calm(Delivered).(gaps := [[], [], [Evict(root)]]);
    var stamped := p.(runOnMain := req.runOnMain);
    var es := [Evict(root)];
    assert o.gaps[2] == es && es[0] == Evict(root) && es[1..] == [];
    var e := Disturb(stamped, es[0]);
    assert Drift(e, []) == e;
    assert Drift(stamped, es) == Drift(Disturb(stamped, es[0]), es[1..]);
    assert Pause(stamped, o, 2) == e;
    var q := EnsureRunning(e, Up).0;
    assert FirstDispatch(q, req, q.pid, o).log == [Envelope(req, q, false)];
    assert o.gaps[0] == [];
    assert Pause(p, o, 0) == p;
    assert EnsureWorkingDir(p, dir, o.dir) == (p, true);
    assert Pause(q, o, 3) == q && !Restarted(q);
    assert FullDispatch(p, req, o) == FirstDispatch(q, req, q.pid, o);
    hide FullDispatch, FirstDispatch, EnsureWorkingDir, Pause;
  }
}
