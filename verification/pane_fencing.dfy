/**
 Fencing of resumed sessions.  The pane variables never claim a conversation that
 the running agent does not hold, over every run of dispatches, interrupts and
 disturbances; so a continuation nudge reaches only the conversation it continues.
 */
module PaneFencing {
  import opened Common
  import opened PaneModel

  /** What the variables say about the conversation is true whenever the resume probe would believe it. */
  ghost predicate Fenced(p: Pane) {
    && (p.agent && p.clearReady && p.clearReadyPid == Some(p.pid) && p.lastTask != "" ==>
          p.conversation == Some(p.lastTask))
    && (p.clearReady ==> p.clearReadyPid.Some?)
    && (p.clearReadyPid.Some? ==> p.clearReadyPid.value <= p.pid)
    && (p.pending ==> !p.agent && !p.clearReady)
    && (!p.agent ==> p.conversation.None?)
  }

  /** What a paste is allowed to look like. */
  ghost predicate Safe(x: Paste) {
    && x.at.agent
    && x.at.runOnMain == x.req.runOnMain
    && match x
       case Envelope(_, at, cleared) => cleared ==> at.conversation.None?
       case Nudge(req, at) => req.resume && at.conversation == Some(req.task) && InWorkingDir(at, req)
  }

  /** A dispatch that names its task, or meets a pane whose marker is empty. */
  predicate Tagged(p: Pane, req: Request) {
    req.task != "" || p.lastTask == ""
  }

  // ---------- disturbances ----------

  /** An undisturbed agent is the same agent: once it is gone, only a launch of the dispatcher brings one back. */
  lemma {:induction false} DriftEffect(p: Pane, es: seq<Disturbance>)
    requires Fenced(p)
    ensures var q := Drift(p, es);
      && Fenced(q) && q.pid >= p.pid && q.runOnMain == p.runOnMain && q.lastTask == p.lastTask
      && (p.conversation.None? ==> q.conversation.None?)
      && (!p.pending ==> !q.pending && (q.agent ==> q == p))
      && (q.clearReady ==> p.clearReady && q.clearReadyPid == p.clearReadyPid)
    decreases |es|
  {
    if es == [] {
    } else {
      DisturbEffect(p, es[0]);
      DriftEffect(Disturb(p, es[0]), es[1..]);
      hide Disturb, Fenced;
    }
  }

  lemma DisturbEffect(p: Pane, e: Disturbance)
    requires Fenced(p)
    ensures var q := Disturb(p, e);
      && Fenced(q) && q.pid >= p.pid && q.runOnMain == p.runOnMain && q.lastTask == p.lastTask
      && (p.conversation.None? ==> q.conversation.None?)
      && (!p.pending ==> !q.pending && (q.agent ==> q == p))
      && (q.clearReady ==> p.clearReady && q.clearReadyPid == p.clearReadyPid)
  {}

  lemma PauseEffect(p: Pane, o: Outcome, i: nat)
    requires Fenced(p)
    ensures var q := Pause(p, o, i);
      && Fenced(q) && q.pid >= p.pid && q.runOnMain == p.runOnMain && q.lastTask == p.lastTask
      && (p.conversation.None? ==> q.conversation.None?)
      && (!p.pending ==> !q.pending && (q.agent ==> q == p))
      && (q.clearReady ==> p.clearReady && q.clearReadyPid == p.clearReadyPid)
  {
    if i < |o.gaps| {
      DriftEffect(p, o.gaps[i]);
    }
    hide Fenced, Drift;
  }

  // ---------- the steps of a dispatch ----------

  /** What every part of a dispatch keeps. */
  ghost predicate Kept(r: Result) {
    Fenced(r.pane) && forall x | x in r.log :: Safe(x)
  }

  lemma DeliverFenced(p: Pane, req: Request, cleared: bool, o: Outcome)
    requires Fenced(p) && p.runOnMain == req.runOnMain && (cleared ==> p.conversation.None?)
    requires !p.clearReady || p.lastTask == ""
    ensures var d := Deliver(p, req, cleared, o);
      && Kept(d)
      && d.pane.lastTask == p.lastTask
      && (d.ok ==> !d.pane.pending && d.pane.pid >= p.pid && p.agent)
      && (d.ok ==> d.log != [])
      && (d.log == [] ==> d.pane == p)
      && (d.log != [] ==> d.log == [Envelope(req, p, cleared)])
      && (d.log != [] && d.pane.agent ==> d.pane == p.(conversation := Some(req.task)))
      && (d.pane.clearReady ==> p.clearReady)
  {
    if p.agent && !o.delivery.NotSent? {
      PauseEffect(p.(conversation := Some(req.task)), o, 6);
    }
    hide Pause;
  }

  lemma NudgeFenced(p: Pane, req: Request, o: Outcome)
    requires Fenced(p) && req.resume
    ensures Kept(ResumeNudge(p, req, o))
  {
    var q := Pause(p.(runOnMain := req.runOnMain), o, 1);
    PauseEffect(p.(runOnMain := req.runOnMain), o, 1);
    PauseEffect(q, o, 6);
    hide Pause;
  }

  lemma FirstDispatchFenced(p: Pane, req: Request, o: Outcome)
    requires Fenced(p) && p.runOnMain == req.runOnMain && !p.pending && !p.clearReady && Tagged(p, req)
    ensures Kept(FirstDispatch(p, req, p.pid, o))
  {
    PauseEffect(p, o, 5);
    DeliverFenced(Pause(p, o, 5), req, false, o);
    hide Pause, Deliver, Safe;
  }

  lemma ClearAndDeliverFenced(p: Pane, req: Request, o: Outcome)
    requires Fenced(p) && p.runOnMain == req.runOnMain && !p.pending && !Restarted(p)
    ensures Kept(ClearAndDeliver(p, req, o))
  {
    var q := Pause(p, o, 4);
    PauseEffect(p, o, 4);
    PauseEffect(Cleared(q), o, 5);
    DeliverFenced(Pause(Cleared(q), o, 5), req, true, o);
    hide Pause, Deliver, Safe;
  }

  lemma EnsureRunningFenced(p: Pane, how: Launch)
    requires Fenced(p)
    ensures var (q, ok) := EnsureRunning(p, how);
      Fenced(q) && q.lastTask == p.lastTask && q.runOnMain == p.runOnMain && (ok ==> !q.pending)
  {}

  lemma DetectRestartFenced(p: Pane)
    requires Fenced(p)
    ensures var q := DetectRestart(p);
      Fenced(q) && !Restarted(q) && q.lastTask == p.lastTask && q.runOnMain == p.runOnMain && q.pending == p.pending
  {}

  lemma FullDispatchFenced(p: Pane, req: Request, o: Outcome)
    requires Fenced(p) && Tagged(p, req)
    ensures Kept(FullDispatch(p, req, o))
  {
    var stamped := p.(runOnMain := req.runOnMain);
    assert Fenced(stamped);
    PauseEffect(stamped, o, 2);
    var before := Pause(stamped, o, 2);
    var q := EnsureRunning(before, o.launch).0;
    EnsureRunningFenced(before, o.launch);
    PauseEffect(q, o, 3);
    var s := DetectRestart(Pause(q, o, 3));
    DetectRestartFenced(Pause(q, o, 3));
    hide Pause, FirstDispatch, ClearAndDeliver, Safe, EnsureRunning, DetectRestart, Fenced, Restarted;
    if o.stamped && EnsureRunning(before, o.launch).1 && o.pidRead {
      if s.clearReady {
        ClearAndDeliverFenced(s, req, o);
      } else {
        FirstDispatchFenced(s, req, o);
      }
    }
  }

  lemma WorkingDirFenced(p: Pane, dir: Path, o: DirOutcome)
    requires Fenced(p)
    ensures Fenced(EnsureWorkingDir(p, dir, o).0) && EnsureWorkingDir(p, dir, o).0.lastTask == p.lastTask
  {
    DriftEffect(Respawned(p, dir), o.settling);
    hide Drift;
  }

  /** One dispatch keeps the fence and pastes nothing unsafe, whatever fails and whenever the agent dies. */
  lemma DispatchFenced(p: Pane, req: Request, o: Outcome)
    requires Fenced(p) && Tagged(p, req)
    ensures Kept(WithClear(p, req, o))
  {
    hide FullDispatch, ResumeNudge, EnsureWorkingDir, Pause, Safe;
    if req.resume && CanResume(p, req, o.preflight) {
      NudgeFenced(p, req, o);
    } else {
      var probed := if req.resume then Probed(p, o.preflight) else p;
      PauseEffect(probed, o, 0);
      var q := Pause(probed, o, 0);
      match req.workingDir {
        case None => FullDispatchFenced(q, req, o);
        case Some(dir) =>
          WorkingDirFenced(q, dir, o.dir);
          FullDispatchFenced(EnsureWorkingDir(q, dir, o.dir).0, req, o);
      }
    }
  }

  // ---------- runs ----------

  predicate AllNamed(actions: seq<Action>) {
    forall a | a in actions :: a.Dispatch? ==> a.req.task != ""
  }

  /** Over every run whose dispatches name their task, every paste is safe. */
  lemma {:induction false} RunFenced(p: Pane, actions: seq<Action>)
    requires Fenced(p) && AllNamed(actions)
    ensures Kept(Run(p, actions))
    decreases |actions|
  {
    if actions == [] {
    } else {
      var a := actions[0];
      match a {
        case Dispatch(req, o) => DispatchFenced(p, req, o);
        case Interrupt(confirmed) =>
        case Wait(es) => DriftEffect(p, es);
      }
      hide WithClear, Drift, Safe;
      assert Kept(Act(p, a));
      RunFenced(Act(p, a).pane, actions[1..]);
    }
  }

  /**
   The guard is exact: a first dispatch that is delivered and then left alone keeps
   the fence if and only if it names its task or finds the marker empty.
   */
  lemma FenceNeedsTask(p: Pane, req: Request, o: Outcome)
    requires Fenced(p) && p.runOnMain == req.runOnMain && !p.pending && !p.clearReady && p.agent
    requires o.ready && o.delivery.Delivered? && o.gaps == []
    ensures Fenced(FirstDispatch(p, req, p.pid, o).pane) <==> Tagged(p, req)
  {}

  // ---------- what a delivery makes possible ----------

  /** After a delivery the same task can be resumed, as long as the agent lives on in the task's directory. */
  lemma DeliveredIsResumable(p: Pane, req: Request, o: Outcome, probes: Probes)
    requires Fenced(p) && req.task != "" && WithClear(p, req, o).ok
    requires probes.pid && probes.command && probes.path
    ensures var q := WithClear(p, req, o).pane;
      q.agent && InWorkingDir(q, req) ==> CanResume(q, req, probes)
  {
    hide FullDispatch, ResumeNudge, EnsureWorkingDir, Pause;
    if req.resume && CanResume(p, req, o.preflight) {
      NudgeResumable(p, req, o);
    } else {
      var probed := if req.resume then Probed(p, o.preflight) else p;
      PauseEffect(probed, o, 0);
      var q := Pause(probed, o, 0);
      match req.workingDir {
        case None => FullResumable(q, req, o);
        case Some(dir) =>
          WorkingDirFenced(q, dir, o.dir);
          FullResumable(EnsureWorkingDir(q, dir, o.dir).0, req, o);
      }
    }
  }

  /** The variables match the running agent and the task. */
  predicate Marked(p: Pane, task: TaskId) {
    p.agent ==> p.clearReady && p.clearReadyPid == Some(p.pid) && p.lastTask == task
  }

  lemma NudgeResumable(p: Pane, req: Request, o: Outcome)
    requires Fenced(p) && ResumeNudge(p, req, o).ok
    ensures Marked(ResumeNudge(p, req, o).pane, req.task)
  {
    var q := Pause(p.(runOnMain := req.runOnMain), o, 1);
    PauseEffect(p.(runOnMain := req.runOnMain), o, 1);
    PauseEffect(q, o, 6);
    hide Pause;
  }

  lemma FullResumable(p: Pane, req: Request, o: Outcome)
    requires Fenced(p) && req.task != "" && FullDispatch(p, req, o).ok
    ensures Marked(FullDispatch(p, req, o).pane, req.task)
  {
    var stamped := p.(runOnMain := req.runOnMain);
    PauseEffect(stamped, o, 2);
    var q := EnsureRunning(Pause(stamped, o, 2), o.launch).0;
    PauseEffect(q, o, 3);
    hide Pause, FirstDispatch, ClearAndDeliver;
    var s := DetectRestart(Pause(q, o, 3));
    if s.clearReady {
      ClearResumable(s, req, o);
    } else {
      FirstResumable(s, req, o);
    }
  }

  lemma FirstResumable(p: Pane, req: Request, o: Outcome)
    requires Fenced(p) && req.task != "" && p.runOnMain == req.runOnMain && !p.pending && !p.clearReady
    requires FirstDispatch(p, req, p.pid, o).ok
    ensures Marked(FirstDispatch(p, req, p.pid, o).pane, req.task)
  {
    PauseEffect(p, o, 5);
    DeliverFenced(Pause(p, o, 5), req, false, o);
    hide Pause, Deliver;
  }

  lemma ClearResumable(p: Pane, req: Request, o: Outcome)
    requires Fenced(p) && req.task != "" && p.runOnMain == req.runOnMain && !p.pending && p.clearReady && !Restarted(p)
    requires ClearAndDeliver(p, req, o).ok
    ensures Marked(ClearAndDeliver(p, req, o).pane, req.task)
  {
    var q := Pause(p, o, 4);
    PauseEffect(p, o, 4);
    PauseEffect(Cleared(q), o, 5);
    DeliverFenced(Pause(Cleared(q), o, 5), req, true, o);
    hide Pause, Deliver;
  }

  // ---------- what the conversation holds when an envelope arrives ----------

  /** A running agent with something in its conversation is known to the variables, so the next dispatch clears it. */
  predicate Known(p: Pane) {
    p.agent && p.conversation.Some? ==> p.clearReady && p.clearReadyPid == Some(p.pid)
  }

  predicate Fresh(log: seq<Paste>) {
    forall x | x in log :: x.Envelope? ==> x.at.conversation.None?
  }

  /** No delivery is left unconfirmed and every /clear is confirmed. */
  predicate Smooth(o: Outcome) {
    !o.delivery.Unconfirmed? && o.clearConfirmed
  }

  lemma PauseKnown(p: Pane, o: Outcome, i: nat)
    requires Fenced(p) && Known(p)
    ensures Known(Pause(p, o, i))
  {
    PauseEffect(p, o, i);
    hide Pause;
  }

  // ---------- when clear_ready is read ----------

  /** The pane as execWithClear finds it when it reads clear_ready, if the dispatch gets that far. */
  function ExaminedFull(p: Pane, req: Request, o: Outcome): Option<Pane> {
    if !o.stamped then None
    else
      var (q, running) := EnsureRunning(Pause(p.(runOnMain := req.runOnMain), o, 2), o.launch);
      if !running || !o.pidRead then None else Some(Pause(q, o, 3))
  }

  function Examined(p: Pane, req: Request, o: Outcome): Option<Pane> {
    if req.resume && CanResume(p, req, o.preflight) then None
    else
      var q := Pause(if req.resume then Probed(p, o.preflight) else p, o, 0);
      match req.workingDir
      case None => ExaminedFull(q, req, o)
      case Some(dir) =>
        var (r, settled) := EnsureWorkingDir(q, dir, o.dir);
        if settled then ExaminedFull(r, req, o) else None
  }

  /**
   What makes the variables lose track of a conversation: a first dispatch that is
   pasted and not confirmed, or a /clear that is not confirmed.
   */
  predicate LosesTrack(examined: Option<Pane>, o: Outcome, r: Result) {
    && r.pane.agent && r.pane.conversation.Some? && examined.Some?
    && if DetectRestart(examined.value).clearReady then o.ready && !o.clearConfirmed else r.log != [] && !r.ok
  }

  predicate PastesEnvelope(r: Result) {
    exists x | x in r.log :: x.Envelope?
  }

  lemma FirstDispatchTracks(e: Pane, req: Request, o: Outcome)
    requires Fenced(e) && e.runOnMain == req.runOnMain && !e.pending && !DetectRestart(e).clearReady
    ensures var r := FirstDispatch(DetectRestart(e), req, DetectRestart(e).pid, o);
      && (r.log != [] ==> PastesEnvelope(r) && (Fresh(r.log) <==> Known(e)))
      && (Known(e) ==> (Known(r.pane) <==> !LosesTrack(Some(e), o, r)))
  {
    var s := DetectRestart(e);
    PauseEffect(s, o, 5);
    DeliverFenced(Pause(s, o, 5), req, false, o);
    OneEnvelope(FirstDispatch(s, req, s.pid, o));
    hide Pause, Deliver;
  }

  lemma OneEnvelope(r: Result)
    ensures r.log != [] && r.log[0].Envelope? ==> PastesEnvelope(r)
  {
    if r.log != [] {
      assert r.log[0] in r.log;
    }
  }

  lemma ClearAndDeliverTracks(e: Pane, req: Request, o: Outcome)
    requires Fenced(e) && e.runOnMain == req.runOnMain && !e.pending && DetectRestart(e).clearReady
    ensures var r := ClearAndDeliver(DetectRestart(e), req, o);
      && (r.log != [] ==> PastesEnvelope(r) && Fresh(r.log) && Known(e))
      && (Known(e) ==> (Known(r.pane) <==> !LosesTrack(Some(e), o, r)))
  {
    var q := Pause(e, o, 4);
    PauseEffect(e, o, 4);
    PauseEffect(Cleared(q), o, 5);
    DeliverFenced(Pause(Cleared(q), o, 5), req, true, o);
    OneEnvelope(ClearAndDeliver(DetectRestart(e), req, o));
    hide Pause, Deliver;
  }

  lemma EnsureRunningKnown(p: Pane, how: Launch)
    requires Known(p)
    ensures Known(EnsureRunning(p, how).0)
  {}

  lemma FullDispatchTracks(p: Pane, req: Request, o: Outcome)
    requires Fenced(p)
    ensures var r := FullDispatch(p, req, o);
      var e := ExaminedFull(p, req, o);
      && (e.Some? && Known(p) ==> Known(e.value))
      && (r.log != [] ==> PastesEnvelope(r) && e.Some? && (Fresh(r.log) <==> Known(e.value)))
      && (Known(p) ==> (Known(r.pane) <==> !LosesTrack(e, o, r)))
  {
    var stamped := p.(runOnMain := req.runOnMain);
    assert Fenced(stamped) && (Known(p) ==> Known(stamped));
    PauseEffect(stamped, o, 2);
    var before := Pause(stamped, o, 2);
    var q := EnsureRunning(before, o.launch).0;
    EnsureRunningFenced(before, o.launch);
    PauseEffect(q, o, 3);
    var e := Pause(q, o, 3);
    if Known(p) {
      PauseKnown(stamped, o, 2);
      EnsureRunningKnown(before, o.launch);
      PauseKnown(q, o, 3);
    }
    hide Pause, FirstDispatch, ClearAndDeliver, EnsureRunning, DetectRestart, Fenced, Known;
    if ExaminedFull(p, req, o).Some? {
      if DetectRestart(e).clearReady {
        ClearAndDeliverTracks(e, req, o);
      } else {
        FirstDispatchTracks(e, req, o);
      }
    }
  }

  lemma WorkingDirKnown(p: Pane, dir: Path, o: DirOutcome)
    requires Fenced(p) && Known(p)
    ensures Known(EnsureWorkingDir(p, dir, o).0)
  {
    DriftEffect(Respawned(p, dir), o.settling);
    hide Drift;
  }

  lemma NudgeTracks(p: Pane, req: Request, o: Outcome)
    requires Fenced(p)
    ensures Fresh(ResumeNudge(p, req, o).log) && !PastesEnvelope(ResumeNudge(p, req, o))
    ensures Known(p) ==> Known(ResumeNudge(p, req, o).pane)
  {
    var q := Pause(p.(runOnMain := req.runOnMain), o, 1);
    PauseEffect(p.(runOnMain := req.runOnMain), o, 1);
    if Known(p) {
      PauseKnown(p.(runOnMain := req.runOnMain), o, 1);
      PauseKnown(q, o, 6);
    }
    hide Pause;
  }

  /**
   Exactly when an envelope lands in an empty conversation, and exactly which
   dispatches lose track of one, whatever fails and whatever happens to the pane.
   */
  lemma DispatchTracks(p: Pane, req: Request, o: Outcome)
    requires Fenced(p)
    ensures var r := WithClear(p, req, o);
      var e := Examined(p, req, o);
      && (e.Some? && Known(p) ==> Known(e.value))
      && (PastesEnvelope(r) ==> e.Some?)
      && (Fresh(r.log) <==> (PastesEnvelope(r) ==> Known(e.value)))
      && (Known(p) ==> (Known(r.pane) <==> !LosesTrack(e, o, r)))
  {
    hide FullDispatch, ExaminedFull, ResumeNudge, EnsureWorkingDir, Pause, Known, Fenced, LosesTrack;
    if req.resume && CanResume(p, req, o.preflight) {
      NudgeTracks(p, req, o);
      NothingExamined(o, ResumeNudge(p, req, o));
    } else {
      var probed := if req.resume then Probed(p, o.preflight) else p;
      ProbedTracks(p, o.preflight);
      PauseEffect(probed, o, 0);
      var q := Pause(probed, o, 0);
      if Known(p) {
        PauseKnown(probed, o, 0);
      }
      match req.workingDir {
        case None =>
          FullDispatchTracks(q, req, o);
        case Some(dir) =>
          var r := EnsureWorkingDir(q, dir, o.dir).0;
          WorkingDirFenced(q, dir, o.dir);
          if Known(p) {
            WorkingDirKnown(q, dir, o.dir);
          }
          FullDispatchTracks(r, req, o);
          NothingExamined(o, Result(r, [], false));
      }
    }
  }

  lemma NothingExamined(o: Outcome, r: Result)
    ensures !LosesTrack(None, o, r)
  {}

  lemma ProbedTracks(p: Pane, o: Probes)
    requires Fenced(p)
    ensures Fenced(Probed(p, o)) && (Known(p) ==> Known(Probed(p, o)))
  {}

  /** The exact condition before the call, for an undisturbed dispatch that is not a resume. */
  lemma UndisturbedFreshExactly(p: Pane, req: Request, o: Outcome)
    requires Fenced(p) && !req.resume && req.workingDir.None? && o.gaps == []
    requires WithClear(p, req, o).log != []
    ensures Fresh(WithClear(p, req, o).log) <==> Known(p)
  {}

  // ---------- runs ----------

  /** Every envelope of the run meets a pane whose conversation the variables know. */
  predicate EnvelopesMeetKnown(p: Pane, actions: seq<Action>)
    decreases |actions|
  {
    actions != [] ==>
      var a := actions[0];
      && (a.Dispatch? && PastesEnvelope(Act(p, a)) && Examined(p, a.req, a.o).Some? ==>
            Known(Examined(p, a.req, a.o).value))
      && EnvelopesMeetKnown(Act(p, a).pane, actions[1..])
  }

  /** No dispatch of the run loses track. */
  predicate KeepsTrack(p: Pane, actions: seq<Action>)
    decreases |actions|
  {
    actions != [] ==>
      var a := actions[0];
      && (a.Dispatch? ==> !LosesTrack(Examined(p, a.req, a.o), a.o, Act(p, a)))
      && KeepsTrack(Act(p, a).pane, actions[1..])
  }

  predicate KnownThroughout(p: Pane, actions: seq<Action>)
    decreases |actions|
  {
    Known(p) && (actions != [] ==> KnownThroughout(Act(p, actions[0]).pane, actions[1..]))
  }

  lemma ActTracks(p: Pane, a: Action)
    requires Fenced(p) && (a.Dispatch? ==> a.req.task != "")
    ensures var r := Act(p, a);
      && Fenced(r.pane)
      && (!a.Dispatch? ==> Fresh(r.log) && (Known(p) ==> Known(r.pane)))
      && (a.Dispatch? ==>
            var e := Examined(p, a.req, a.o);
            && (PastesEnvelope(r) ==> e.Some?)
            && (e.Some? && Known(p) ==> Known(e.value))
            && (Fresh(r.log) <==> (PastesEnvelope(r) ==> Known(e.value)))
            && (Known(p) ==> (Known(r.pane) <==> !LosesTrack(e, a.o, r))))
  {
    match a {
      case Dispatch(req, o) =>
        DispatchFenced(p, req, o);
        DispatchTracks(p, req, o);
      case Interrupt(confirmed) =>
      case Wait(es) =>
        DriftEffect(p, es);
    }
    hide WithClear, Drift, Examined, LosesTrack;
  }

  /** Over every run: all envelopes land in empty conversations if and only if each meets a known one. */
  lemma {:induction false} RunFreshExactly(p: Pane, actions: seq<Action>)
    requires Fenced(p) && AllNamed(actions)
    ensures Fresh(Run(p, actions).log) <==> EnvelopesMeetKnown(p, actions)
    decreases |actions|
  {
    if actions == [] {
    } else {
      var a := actions[0];
      ActTracks(p, a);
      hide Act, Known, Fenced, Examined, LosesTrack, PastesEnvelope;
      RunFreshExactly(Act(p, a).pane, actions[1..]);
    }
  }

  /** A run that starts known stays known throughout if and only if no dispatch loses track; then every envelope is fresh. */
  lemma {:induction false} KnownThroughoutExactly(p: Pane, actions: seq<Action>)
    requires Fenced(p) && Known(p) && AllNamed(actions)
    ensures KnownThroughout(p, actions) <==> KeepsTrack(p, actions)
    ensures KeepsTrack(p, actions) ==> Known(Run(p, actions).pane) && Fresh(Run(p, actions).log)
    decreases |actions|
  {
    if actions == [] {
    } else {
      var a := actions[0];
      ActTracks(p, a);
      hide Act, Known, Fenced, Examined, LosesTrack, PastesEnvelope;
      var next := Act(p, a).pane;
      if Known(next) {
        KnownThroughoutExactly(next, actions[1..]);
      } else {
        NotKnownThroughout(next, actions[1..]);
      }
    }
  }

  lemma NotKnownThroughout(p: Pane, actions: seq<Action>)
    requires !Known(p)
    ensures !KnownThroughout(p, actions)
  {}

  predicate AllSmooth(actions: seq<Action>) {
    forall a | a in actions :: a.Dispatch? ==> Smooth(a.o)
  }

  lemma SmoothKeepsTrack(p: Pane, req: Request, o: Outcome)
    requires Fenced(p) && Smooth(o)
    ensures !LosesTrack(Examined(p, req, o), o, WithClear(p, req, o))
  {
    PastedIsDelivered(p, req, o);
    hide WithClear, Examined;
  }

  lemma PastedIsDelivered(p: Pane, req: Request, o: Outcome)
    requires !o.delivery.Unconfirmed?
    ensures WithClear(p, req, o).log != [] ==> WithClear(p, req, o).ok
  {
    hide Pause, EnsureRunning, EnsureWorkingDir, DetectRestart, CanResume, Probed;
  }

  /** Without an unconfirmed paste or /clear, no envelope ever lands behind another task's turn. */
  lemma RunFresh(p: Pane, actions: seq<Action>)
    requires Fenced(p) && Known(p) && AllNamed(actions) && AllSmooth(actions)
    ensures Known(Run(p, actions).pane) && Fresh(Run(p, actions).log)
  {
    AllSmoothKeepsTrack(p, actions);
    KnownThroughoutExactly(p, actions);
  }

  lemma {:induction false} AllSmoothKeepsTrack(p: Pane, actions: seq<Action>)
    requires Fenced(p) && AllNamed(actions) && AllSmooth(actions)
    ensures KeepsTrack(p, actions)
    decreases |actions|
  {
    if actions == [] {
    } else {
      var a := actions[0];
      ActTracks(p, a);
      if a.Dispatch? {
        SmoothKeepsTrack(p, a.req, a.o);
      }
      hide WithClear, Known, Fenced, Examined, LosesTrack, Drift;
      AllSmoothKeepsTrack(Act(p, a).pane, actions[1..]);
    }
  }

  // ---------- where the code falls short ----------

  const ALL_PROBES := Probes(true, true, true)

  /** Everything works, except how the paste ends. */
  function Calm(d: Delivery): Outcome {
    Outcome(ALL_PROBES, DirOutcome(true, true, [], true, Up), true, Up, true, true, true, true, ALL_PROBES, d, [])
  }

  /**
   An unconfirmed first dispatch leaves its task in the conversation with clear_ready
   unset, so the next task is dispatched behind it without a /clear.
   */
  lemma UnconfirmedThenMixed(p: Pane, a: Request, b: Request)
    requires Fenced(p) && p.agent && !p.clearReady && p.clearReadyPid.None?
    requires !a.resume && !b.resume && a.workingDir.None? && b.workingDir.None? && a.runOnMain == b.runOnMain
    ensures var first := WithClear(p, a, Calm(Unconfirmed));
      var second := WithClear(first.pane, b, Calm(Delivered));
      !first.ok && second.log == [Envelope(b, first.pane, false)] && first.pane.conversation == Some(a.task)
  {}

  /**
   A /clear that is not confirmed resets clear_ready and leaves the conversation, so
   the next task is dispatched behind it without a /clear.
   */
  lemma FailedClearThenMixed(p: Pane, a: Request, b: Request)
    requires Fenced(p) && p.agent && p.conversation.Some? && p.clearReady && p.clearReadyPid == Some(p.pid)
    requires !a.resume && !b.resume && a.workingDir.None? && b.workingDir.None? && a.runOnMain == b.runOnMain
    ensures var first := WithClear(p, a, Calm(Delivered).(clearConfirmed := false));
      var second := WithClear(first.pane, b, Calm(Delivered));
      && !first.ok && first.log == [] && first.pane.conversation == p.conversation
      && second.log == [Envelope(b, first.pane, false)]
  {}

  /**
   A dispatch without a task id, on a pane whose marker still names task t, lets a
   later nudge for t into the wrong conversation.
   */
  lemma UntaggedThenWrongNudge(p: Pane, unnamed: Request, t: Request)
    requires Fenced(p) && p.agent && !p.clearReady && p.clearReadyPid.None? && p.lastTask == t.task != ""
    requires unnamed.task == "" && !unnamed.resume && unnamed.workingDir.None? && t.resume && t.workingDir.None?
    ensures var first := WithClear(p, unnamed, Calm(Delivered));
      var second := WithClear(first.pane, t, Calm(Delivered));
      exists at :: second.log == [Nudge(t, at)] && at.conversation != Some(t.task)
  {
    var first := WithClear(p, unnamed, Calm(Delivered));
    assert CanResume(first.pane, t, ALL_PROBES);
    var at := first.pane.(runOnMain := t.runOnMain);
    assert WithClear(first.pane, t, Calm(Delivered)).log == [Nudge(t, at)];
  }
}
