/**
 What a dispatch does when nothing disturbs the pane, as a flat table over what the
 pane shows and how each operation ends: whether anything is pasted, what, where,
 and what the variables say afterwards.
 */
module PaneOutcomes {
  import opened Common
  import opened PaneModel
  import opened PaneFencing

  predicate Undisturbed(o: Outcome) {
    o.gaps == [] && o.dir.settling == []
  }

  /** All reads of a probe succeed and show the agent that holds the task's conversation, in the right place. */
  predicate ShowsTask(p: Pane, req: Request, seen: Probes) {
    && seen.pid && seen.command && p.agent
    && p.clearReady && p.clearReadyPid == Some(p.pid)
    && req.task != "" && p.lastTask == req.task
    && match req.workingDir
       case None => true
       case Some(dir) => seen.path && |dir| <= |p.cwd| && p.cwd[..|dir|] == dir && (req.runOnMain ==> |p.cwd| == |dir|)
  }

  /** The pane need not be moved. */
  predicate Kept(p: Pane, req: Request, o: Outcome) {
    req.workingDir.None? || (p.trackedCwd == req.workingDir && o.dir.exists_)
  }

  predicate Moves(o: Outcome) {
    o.dir.respawned && o.dir.shellSeen && o.dir.launch.Up?
  }

  /** The agent is the one that is known to be ready for a /clear. */
  predicate Warm(p: Pane, req: Request, o: Outcome) {
    Kept(p, req, o) && p.agent && p.clearReady && p.clearReadyPid == Some(p.pid)
  }

  /** Every operation that the dispatch needs goes well. */
  predicate Goes(p: Pane, req: Request, o: Outcome) {
    && (Kept(p, req, o) || Moves(o))
    && o.stamped
    && (Kept(p, req, o) && !p.agent ==> o.launch.Up?)
    && o.pidRead && o.ready
    && (Warm(p, req, o) ==> o.clearConfirmed && o.idle)
    && !o.delivery.NotSent?
  }

  /** The pane when it gets the envelope. */
  predicate Receives(p: Pane, req: Request, o: Outcome, x: Paste) {
    && x.Envelope? && x.req == req && x.at.agent && x.at.runOnMain == req.runOnMain
    && (x.cleared <==> Warm(p, req, o))
    && x.at.cwd == (if Kept(p, req, o) then p.cwd else req.workingDir.value)
    && x.at.conversation == (if Kept(p, req, o) && p.agent && !Warm(p, req, o) then p.conversation else None)
  }

  /** The pane after a confirmed delivery: ready for the next /clear, and marked with the task. */
  predicate Settled(q: Pane, req: Request) {
    && q.agent && q.conversation == Some(req.task) && q.runOnMain == req.runOnMain
    && q.clearReady && q.clearReadyPid == Some(q.pid)
    && (req.task != "" ==> q.lastTask == req.task)
    && (req.workingDir.Some? ==> q.trackedCwd == req.workingDir)
  }

  lemma Unpaused(o: Outcome)
    requires Undisturbed(o)
    ensures forall p: Pane, i: nat :: Pause(p, o, i) == p
  {}

  // ---------- once the directory is settled ----------

  predicate WarmHere(p: Pane) {
    p.agent && p.clearReady && p.clearReadyPid == Some(p.pid)
  }

  predicate GoesHere(p: Pane, o: Outcome) {
    o.stamped && (p.agent || o.launch.Up?) && o.pidRead && o.ready && (WarmHere(p) ==> o.clearConfirmed && o.idle) && !o.delivery.NotSent?
  }

  predicate ReceivesHere(p: Pane, req: Request, x: Paste) {
    && x.Envelope? && x.req == req && x.at.agent && x.at.runOnMain == req.runOnMain && x.at.cwd == p.cwd
    && (x.cleared <==> WarmHere(p))
    && x.at.conversation == (if p.agent && !WarmHere(p) then p.conversation else None)
  }

  predicate SettledHere(p: Pane, q: Pane, req: Request) {
    && q.agent && q.conversation == Some(req.task) && q.runOnMain == req.runOnMain && q.trackedCwd == p.trackedCwd
    && q.clearReady && q.clearReadyPid == Some(q.pid)
    && (req.task != "" ==> q.lastTask == req.task)
  }

  /** What a dispatch that pastes nothing may have changed. */
  predicate ClaimsNothing(p: Pane, q: Pane) {
    && (q.conversation == p.conversation || q.conversation.None?)
    && (q.lastTask == p.lastTask || q.lastTask == "")
    && (q.clearReady ==> p.clearReady && q.clearReadyPid == p.clearReadyPid)
  }

  predicate TableHere(p: Pane, req: Request, o: Outcome, r: Result) {
    && (GoesHere(p, o) ==> |r.log| == 1 && ReceivesHere(p, req, r.log[0]))
    && (!GoesHere(p, o) ==> r.log == [] && ClaimsNothing(p, r.pane))
    && (r.ok <==> GoesHere(p, o) && o.delivery.Delivered?)
    && (r.ok ==> SettledHere(p, r.pane, req))
  }

  lemma RunningTable(p: Pane, req: Request, o: Outcome)
    requires Fenced(p) && Undisturbed(o) && p.agent && p.runOnMain == req.runOnMain && o.stamped && o.pidRead
    ensures var s := DetectRestart(p);
      TableHere(p, req, o, if s.clearReady then ClearAndDeliver(s, req, o) else FirstDispatch(s, req, s.pid, o))
  {
    Unpaused(o);
    hide Pause;
  }

  lemma FullTable(p: Pane, req: Request, o: Outcome)
    requires Fenced(p) && Undisturbed(o)
    ensures TableHere(p, req, o, FullDispatch(p, req, o))
  {
    Unpaused(o);
    var stamped := p.(runOnMain := req.runOnMain);
    var q := EnsureRunning(stamped, o.launch).0;
    if o.stamped && o.pidRead && q.agent && EnsureRunning(stamped, o.launch).1 {
      assert Fenced(q);
      RunningTable(q, req, o);
      assert FullDispatch(p, req, o) ==
        var s := DetectRestart(q); if s.clearReady then ClearAndDeliver(s, req, o) else FirstDispatch(s, req, s.pid, o);
    }
    hide Pause, ClearAndDeliver, FirstDispatch, Fenced;
  }

  // ---------- the whole dispatch ----------

  predicate Table(p: Pane, req: Request, o: Outcome, r: Result) {
    && (Goes(p, req, o) ==> |r.log| == 1 && Receives(p, req, o, r.log[0]))
    && (!Goes(p, req, o) ==> r.log == [] && ClaimsNothing(p, r.pane))
    && (r.ok <==> Goes(p, req, o) && o.delivery.Delivered?)
    && (r.ok ==> Settled(r.pane, req))
  }

  /** From the pane as the dispatch finds it to the pane q in its directory. */
  lemma Lifts(p: Pane, q: Pane, req: Request, o: Outcome, r: Result)
    requires TableHere(q, req, o, r) && ClaimsNothing(p, q) && (Kept(p, req, o) || Moves(o))
    requires Kept(p, req, o) ==>
      q.agent == p.agent && (WarmHere(q) <==> WarmHere(p)) && q.cwd == p.cwd && q.trackedCwd == p.trackedCwd && q.conversation == p.conversation
    requires !Kept(p, req, o) ==>
      q.agent && !q.clearReady && q.cwd == req.workingDir.value && q.trackedCwd == req.workingDir && q.conversation.None?
    ensures Table(p, req, o, r)
  {}

  /** Nothing is resumed: exactly one envelope if everything goes, else nothing. */
  lemma DispatchTable(p: Pane, req: Request, o: Outcome)
    requires Fenced(p) && Undisturbed(o) && !(req.resume && ShowsTask(p, req, o.preflight))
    ensures Table(p, req, o, WithClear(p, req, o))
  {
    Unpaused(o);
    ShowsExactly(p, req, o.preflight);
    var q := if req.resume then Probed(p, o.preflight) else p;
    ProbedShows(p, o.preflight);
    assert ClaimsNothing(p, q);
    hide Pause, FullDispatch, Fenced, Probed, CanResume, ShowsTask, TableHere, Table, WarmHere;
    assert Pause(q, o, 0) == q;
    match req.workingDir {
      case None =>
        FullTable(q, req, o);
        Lifts(p, q, req, o, FullDispatch(q, req, o));
      case Some(dir) =>
        InDirTable(p, q, dir, req, o);
        hide EnsureWorkingDir;
        var (r, settled) := EnsureWorkingDir(q, dir, o.dir);
        assert WithClear(p, req, o) == if settled then FullDispatch(r, req, o) else Result(r, [], false);
    }
  }

  lemma InDirTable(p: Pane, q: Pane, dir: Path, req: Request, o: Outcome)
    requires Fenced(q) && Undisturbed(o) && req.workingDir == Some(dir) && ClaimsNothing(p, q)
    requires q.agent == p.agent && (WarmHere(q) <==> WarmHere(p)) && q.cwd == p.cwd && q.trackedCwd == p.trackedCwd && q.conversation == p.conversation
    ensures var (r, settled) := EnsureWorkingDir(q, dir, o.dir);
      Table(p, req, o, if settled then FullDispatch(r, req, o) else Result(r, [], false))
  {
    DirTable(q, dir, o.dir);
    hide EnsureWorkingDir, FullDispatch, Fenced, TableHere, WarmHere;
    var (r, settled) := EnsureWorkingDir(q, dir, o.dir);
    if settled {
      FullTable(r, req, o);
      hide Table;
      Lifts(p, r, req, o, FullDispatch(r, req, o));
    }
  }

  lemma ShowsExactly(p: Pane, req: Request, seen: Probes)
    requires Fenced(p)
    ensures ShowsTask(p, req, seen) <==> CanResume(p, req, seen)
  {}

  lemma ProbedShows(p: Pane, seen: Probes)
    requires Fenced(p)
    ensures var q := Probed(p, seen);
      && Fenced(q) && (WarmHere(q) <==> WarmHere(p)) && q.cwd == p.cwd && q.trackedCwd == p.trackedCwd && q.agent == p.agent
      && q.conversation == p.conversation && ClaimsNothing(p, q)
  {}

  /** The pane in its directory: kept as it is, or with a new agent. */
  lemma DirTable(p: Pane, dir: Path, o: DirOutcome)
    requires Fenced(p) && o.settling == []
    ensures var (q, settled) := EnsureWorkingDir(p, dir, o);
      var kept := p.trackedCwd == Some(dir) && o.exists_;
      && (settled <==> kept || (o.respawned && o.shellSeen && o.launch.Up?))
      && (kept ==> q == p)
      && (settled && !kept ==> q.agent && !q.clearReady && q.cwd == dir && q.trackedCwd == Some(dir) && q.conversation.None?)
      && Fenced(q) && ClaimsNothing(p, q)
  {}

  /** The task's own agent is nudged where it is, if it still shows the task when the nudge is due; else nothing happens. */
  lemma ResumeTable(p: Pane, req: Request, o: Outcome)
    requires Fenced(p) && Undisturbed(o) && req.resume && ShowsTask(p, req, o.preflight)
    ensures var r := WithClear(p, req, o);
      var goes := o.stamped && o.ready && o.idle && ShowsTask(p, req, o.recheck) && !o.delivery.NotSent?;
      && r.log == (if goes then [Nudge(req, p.(runOnMain := req.runOnMain))] else [])
      && (r.ok <==> goes && o.delivery.Delivered?)
      && r.pane == (if o.stamped then p.(runOnMain := req.runOnMain) else p)
  {
    Unpaused(o);
    hide Pause;
  }

  /** A dispatch that pastes nothing leaves the conversation as it is, or empty, and claims no new one. */
  lemma NothingPasted(p: Pane, req: Request, o: Outcome)
    requires Fenced(p) && Undisturbed(o) && WithClear(p, req, o).log == []
    ensures ClaimsNothing(p, WithClear(p, req, o).pane)
  {
    hide WithClear, Fenced, ShowsTask;
    if req.resume && ShowsTask(p, req, o.preflight) {
      ResumeTable(p, req, o);
    } else {
      DispatchTable(p, req, o);
    }
  }

  /** A restart that the preflight detects is remembered, however the dispatch ends. */
  lemma RestartForgotten(p: Pane, req: Request, o: Outcome)
    requires Fenced(p) && Undisturbed(o) && req.resume && o.preflight.pid
    requires p.clearReadyPid.Some? && p.clearReadyPid.value != p.pid
    ensures var r := WithClear(p, req, o); r.ok || (!r.pane.clearReady && r.pane.clearReadyPid.None?)
  {
    Unpaused(o);
    var q := ResetClearReady(p);
    assert Probed(p, o.preflight) == q && Fenced(q);
    if req.workingDir.Some? {
      DirReset(q, req.workingDir.value, o.dir);
      FullReset(EnsureWorkingDir(q, req.workingDir.value, o.dir).0, req, o);
    } else {
      FullReset(q, req, o);
    }
    hide Pause, FullDispatch, EnsureWorkingDir, Fenced, Probed;
  }

  lemma DirReset(p: Pane, dir: Path, o: DirOutcome)
    requires Fenced(p) && !p.clearReady && p.clearReadyPid.None? && o.settling == []
    ensures var q := EnsureWorkingDir(p, dir, o).0; Fenced(q) && !q.clearReady && q.clearReadyPid.None?
  {}

  lemma FullReset(p: Pane, req: Request, o: Outcome)
    requires Fenced(p) && Undisturbed(o) && !p.clearReady && p.clearReadyPid.None?
    ensures var r := FullDispatch(p, req, o); r.ok || (!r.pane.clearReady && r.pane.clearReadyPid.None?)
  {
    Unpaused(o);
    hide Pause;
  }

  /** After an interrupt with a confirmed /clear no request resumes: the conversation is gone and so is the marker. */
  lemma InterruptedIsNotResumed(p: Pane, req: Request, seen: Probes)
    ensures var q := Act(p, Interrupt(true)).pane; q.conversation.None? && !ShowsTask(q, req, seen)
    ensures Act(p, Interrupt(false)).pane == p && Act(p, Interrupt(true)).log == []
  {}

  /** A launch that comes up late is an agent with an empty conversation that is not known to be ready. */
  lemma LateLaunchIsFresh(p: Pane)
    requires !p.agent
    ensures var (q, running) := EnsureRunning(p, Late); var r := Drift(q, [LateStart]);
      !running && !q.agent && r.agent && r.conversation.None? && !r.clearReady && r.cwd == p.cwd
  {
    var q := EnsureRunning(p, Late).0;
    assert [LateStart][0] == LateStart && [LateStart][1..] == [];
    assert Drift(Disturb(q, LateStart), []) == Disturb(q, LateStart);
  }
}
