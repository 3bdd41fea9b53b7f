/**
 The executor of one worker pane, in the form the daemon has: each step reads or
 writes the pane, and the steps of a dispatch follow one another with pauses in
 which the pane may change under it.
 */
module PaneExecutor {
  import opened Common
  import opened PaneModel
  import opened PaneFencing

  class Executor {
    var pane: Pane
    var transcript: seq<Paste>

    constructor (p: Pane)
      ensures pane == p && transcript == []
    {
      pane, transcript := p, [];
    }

    /** The pane did what `r` says. */
    twostate predicate Did(r: Result)
      reads this
    {
      pane == r.pane && transcript == old(transcript) + r.log
    }

    method Elapse(o: Outcome, i: nat)
      modifies this
      ensures Did(Result(Pause(old(pane), o, i), [], true))
    {
      if i < |o.gaps| {
        for k := 0 to |o.gaps[i]|
          invariant Drift(pane, o.gaps[i][k..]) == Drift(old(pane), o.gaps[i])
          invariant transcript == old(transcript)
        {
          pane := Disturb(pane, o.gaps[i][k]);
        }
      }
    }

    method StampRunOnMain(on: bool, o: Outcome) returns (ok: bool)
      modifies this
      ensures ok == o.stamped
      ensures Did(Result(if ok then old(pane).(runOnMain := on) else old(pane), [], ok))
    {
      if o.stamped {
        pane := pane.(runOnMain := on);
      }
      ok := o.stamped;
    }

    /** DetectProcessRestart and the other reads of the resume probe. */
    method ProbeResume(req: Request, o: Probes) returns (ok: bool)
      modifies this
      ensures ok == CanResume(old(pane), req, o)
      ensures Did(Result(Probed(old(pane), o), [], ok))
    {
      if !o.pid {
        return false;
      }
      if pane.clearReadyPid.Some? && pane.clearReadyPid.value != pane.pid {
        pane := ResetClearReady(pane);
        return false;
      }
      if pane.clearReadyPid.None? || !pane.clearReady {
        return false;
      }
      if !o.command || !pane.agent {
        return false;
      }
      if pane.lastTask == "" || pane.lastTask != req.task {
        return false;
      }
      if req.workingDir.Some? {
        if !o.path {
          return false;
        }
        if req.runOnMain {
          return pane.cwd == req.workingDir.value;
        }
        return req.workingDir.value <= pane.cwd;
      }
      ok := true;
    }

    method EnsureClaudeRunning(how: Launch) returns (ok: bool)
      modifies this
      ensures Did(Result(EnsureRunning(old(pane), how).0, [], ok)) && ok == EnsureRunning(old(pane), how).1
    {
      if pane.agent {
        return true;
      }
      pane := ResetClearReady(pane);
      pane := Launched(pane, how);
      ok := how.Up?;
    }

    method EnsureDir(dir: Path, o: DirOutcome) returns (ok: bool)
      modifies this
      ensures Did(Result(EnsureWorkingDir(old(pane), dir, o).0, [], ok)) && ok == EnsureWorkingDir(old(pane), dir, o).1
    {
      if pane.trackedCwd == Some(dir) && o.exists_ {
        return true;
      }
      if !o.respawned {
        return false;
      }
      pane := Respawned(pane, dir);
      pane := Drift(pane, o.settling);
      if !o.shellSeen {
        pane := pane.(trackedCwd := None);
        return false;
      }
      pane := ResetClearReady(pane);
      pane := Launched(pane, o.launch);
      if !o.launch.Up? {
        pane := pane.(trackedCwd := None);
        return false;
      }
      pane := pane.(trackedCwd := Some(dir));
      ok := true;
    }

    method SendAndConfirm(req: Request, cleared: bool, o: Outcome) returns (ok: bool)
      modifies this
      ensures var d := Deliver(old(pane), req, cleared, o); Did(d) && ok == d.ok
    {
      if !pane.agent {
        return false;
      }
      if o.delivery.NotSent? {
        return false;
      }
      transcript := transcript + [Envelope(req, pane, cleared)];
      pane := pane.(conversation := Some(req.task));
      Elapse(o, 6);
      ok := o.delivery.Delivered?;
    }

    method ExecResumeNudge(req: Request, o: Outcome) returns (ok: bool)
      modifies this
      ensures var r := ResumeNudge(old(pane), req, o); Did(r) && ok == r.ok
    {
      ok := StampRunOnMain(req.runOnMain, o);
      if !ok {
        return;
      }
      Elapse(o, 1);
      if !o.ready || !o.idle {
        return false;
      }
      ghost var before := pane;
      ok := ProbeResume(req, o.recheck);
      if !ok {
        return;
      }
      assert pane == before;
      if o.delivery.NotSent? {
        return false;
      }
      transcript := transcript + [Nudge(req, pane)];
      Elapse(o, 6);
      ok := o.delivery.Delivered?;
    }

    method ExecFirstDispatch(req: Request, pid: nat, o: Outcome) returns (ok: bool)
      modifies this
      ensures var r := FirstDispatch(old(pane), req, pid, o); Did(r) && ok == r.ok
    {
      if !o.ready {
        return false;
      }
      Elapse(o, 5);
      ok := SendAndConfirm(req, false, o);
      if ok {
        pane := SetClearReady(pane, pid);
        pane := StampLastTask(pane, req.task);
      }
    }

    method ExecClearAndDeliver(req: Request, o: Outcome) returns (ok: bool)
      modifies this
      ensures var r := ClearAndDeliver(old(pane), req, o); Did(r) && ok == r.ok
    {
      if !o.ready {
        return false;
      }
      Elapse(o, 4);
      if !o.clearConfirmed {
        pane := ResetClearReady(pane);
        return false;
      }
      pane := Cleared(pane);
      Elapse(o, 5);
      if !o.idle {
        return false;
      }
      ok := SendAndConfirm(req, true, o);
      if ok {
        pane := StampLastTask(pane, req.task);
      }
    }

    method ExecWithClear(req: Request, o: Outcome) returns (ok: bool)
      modifies this
      ensures var r := WithClear(old(pane), req, o); Did(r) && ok == r.ok
    {
      hide Pause, FullDispatch, ResumeNudge, EnsureWorkingDir;
      if req.resume {
        ghost var before := pane;
        var resumable := ProbeResume(req, o.preflight);
        if resumable {
          assert pane == before;
          ok := ExecResumeNudge(req, o);
          return;
        }
      }
      Elapse(o, 0);
      if req.workingDir.Some? {
        ok := EnsureDir(req.workingDir.value, o.dir);
        if !ok {
          return;
        }
      }
      ok := ExecFullDispatch(req, o);
    }

    method ExecFullDispatch(req: Request, o: Outcome) returns (ok: bool)
      modifies this
      ensures var r := FullDispatch(old(pane), req, o); Did(r) && ok == r.ok
    {
      hide Pause, FirstDispatch, ClearAndDeliver;
      ok := StampRunOnMain(req.runOnMain, o);
      if !ok {
        return;
      }
      Elapse(o, 2);
      ok := EnsureClaudeRunning(o.launch);
      if !ok {
        return;
      }
      if !o.pidRead {
        return false;
      }
      Elapse(o, 3);
      if pane.clearReadyPid.Some? && pane.clearReadyPid.value != pane.pid {
        pane := ResetClearReady(pane);
      }
      if pane.clearReady {
        ok := ExecClearAndDeliver(req, o);
      } else {
        ok := ExecFirstDispatch(req, pane.pid, o);
      }
    }

    method Perform(a: Action)
      modifies this
      ensures Did(Act(old(pane), a))
    {
      hide WithClear, Drift;
      match a {
        case Dispatch(req, o) =>
          var _ := ExecWithClear(req, o);
        case Interrupt(confirmed) =>
          if confirmed {
            pane := Cleared(pane);
          }
        case Wait(es) =>
          pane := Drift(pane, es);
      }
    }

    /** Serves any sequence of requests; every paste it makes is safe. */
    method Serve(actions: seq<Action>)
      requires Fenced(pane) && AllNamed(actions)
      modifies this
      ensures Did(Run(old(pane), actions))
      ensures Fenced(pane) && forall x | x in transcript[|old(transcript)|..] :: Safe(x)
    {
      hide Safe, Fenced, AllNamed, Act;
      RunFenced(pane, actions);
      ghost var p0, t0 := pane, transcript;
      assert actions[0..] == actions;
      for i := 0 to |actions|
        invariant Run(pane, actions[i..]).pane == Run(p0, actions).pane
        invariant transcript + Run(pane, actions[i..]).log == t0 + Run(p0, actions).log
      {
        ghost var p, t := pane, transcript;
        Unroll(pane, actions, i);
        Perform(actions[i]);
        assert transcript + Run(pane, actions[i + 1..]).log == t + Run(p, actions[i..]).log;
      }
    }
  }

  lemma Unroll(p: Pane, actions: seq<Action>, i: nat)
    requires i < |actions|
    ensures var first := Act(p, actions[i]);
      var rest := Run(first.pane, actions[i + 1..]);
      Run(p, actions[i..]).pane == rest.pane && Run(p, actions[i..]).log == first.log + rest.log
  {
    hide Act;
    assert actions[i..][1..] == actions[i + 1..];
  }
}
