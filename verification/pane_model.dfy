/**
 One worker pane and the dispatcher that drives it.  The pane variables are what
 the dispatcher can read and write; `agent`, `pid`, `cwd` and `conversation` are
 the truth they are supposed to track.  Between any two steps of a dispatch the
 agent may crash to the shell, a late launch may come up, or the pane may be
 respawned; every probe, wait, clear and delivery may fail.
 */
module PaneModel {
  import opened Common

  type TaskId = string  // "" when a request or a variable carries no task
  type Path = seq<string>

  datatype Pane = Pane(
    // what is really there
    pid: nat,                      // root process of the pane; never reused
    agent: bool,                   // an agent runs in the foreground, not the shell
    pending: bool,                 // a launch command was typed and has not come up yet
    cwd: Path,
    conversation: Option<TaskId>,  // last envelope pasted to this agent with no confirmed /clear since
    // tmux user variables
    clearReady: bool,
    clearReadyPid: Option<nat>,
    lastTask: TaskId,
    runOnMain: bool,
    trackedCwd: Option<Path>)

  datatype Request = Request(task: TaskId, resume: bool, runOnMain: bool, workingDir: Option<Path>)

  /** A paste into the pane, together with the pane as it was at that moment. */
  datatype Paste = Envelope(req: Request, at: Pane, cleared: bool) | Nudge(req: Request, at: Pane)

  // ---------- the environment ----------

  datatype Disturbance = Crash | LateStart | Respawn(cwd: Path) | Evict(root: Path)

  function Respawned(p: Pane, cwd: Path): Pane {
    p.(pid := p.pid + 1, agent := false, pending := false, cwd := cwd, conversation := None)
  }

  function ResetClearReady(p: Pane): Pane {
    p.(clearReady := false, clearReadyPid := None)
  }

  function Disturb(p: Pane, e: Disturbance): Pane {
    match e
    case Crash => p.(agent := false, conversation := None)
    case LateStart => if p.pending then p.(agent := true, pending := false, conversation := None) else p
    case Respawn(cwd) => Respawned(p, cwd)
    case Evict(root) => ResetClearReady(Respawned(p, root).(trackedCwd := None))  // respawnToProjectRoot
  }

  function Drift(p: Pane, es: seq<Disturbance>): Pane
    decreases |es|
  {
    if es == [] then p else Drift(Disturb(p, es[0]), es[1..])
  }

  // ---------- process management ----------

  datatype Launch = Up | Late | Unseen  // up and ready; typed but not up; up, but readiness was not observed

  /** SendCommand of the launch line; an agent that is already there just reads it as input. */
  function Launched(p: Pane, how: Launch): Pane {
    if p.agent then p
    else if how.Late? then p.(pending := true)
    else p.(agent := true, pending := false, conversation := None)
  }

  /** ensureClaudeRunning */
  function EnsureRunning(p: Pane, how: Launch): (Pane, bool) {
    if p.agent then (p, true) else (Launched(ResetClearReady(p), how), how.Up?)
  }

  datatype DirOutcome = DirOutcome(exists_: bool, respawned: bool, settling: seq<Disturbance>, shellSeen: bool, launch: Launch)

  /** ensureWorkingDir */
  function EnsureWorkingDir(p: Pane, dir: Path, o: DirOutcome): (Pane, bool) {
    if p.trackedCwd == Some(dir) && o.exists_ then (p, true)
    else if !o.respawned then (p, false)
    else
      var q := Drift(Respawned(p, dir), o.settling);
      if !o.shellSeen then (q.(trackedCwd := None), false)
      else
        var r := Launched(ResetClearReady(q), o.launch);
        if o.launch.Up? then (r.(trackedCwd := Some(dir)), true) else (r.(trackedCwd := None), false)
  }

  // ---------- the resume probe ----------

  datatype Probes = Probes(pid: bool, command: bool, path: bool)  // which reads succeed

  predicate InWorkingDir(p: Pane, req: Request) {
    req.workingDir.Some? ==>
      if req.runOnMain then p.cwd == req.workingDir.value else req.workingDir.value <= p.cwd
  }

  predicate Restarted(p: Pane) {
    p.clearReadyPid.Some? && p.clearReadyPid.value != p.pid
  }

  /** DetectProcessRestart */
  function DetectRestart(p: Pane): Pane {
    if Restarted(p) then ResetClearReady(p) else p
  }

  /** canResumeInPlace */
  predicate CanResume(p: Pane, req: Request, o: Probes) {
    && o.pid && !Restarted(p) && p.clearReadyPid.Some? && p.clearReady
    && o.command && p.agent
    && p.lastTask != "" && p.lastTask == req.task
    && (req.workingDir.Some? ==> o.path) && InWorkingDir(p, req)
  }

  /** The pane after the probe, which resets the variables when it detects a restart. */
  function Probed(p: Pane, o: Probes): Pane {
    if o.pid then DetectRestart(p) else p
  }

  // ---------- one dispatch ----------

  datatype Delivery =
    | NotSent      // refused or failed before anything reached the pane
    | Unconfirmed  // pasted, but the submit probe did not confirm it
    | Delivered

  datatype Outcome = Outcome(
    preflight: Probes,
    dir: DirOutcome,
    stamped: bool,        // @run_on_main written and read back
    launch: Launch,
    pidRead: bool,
    ready: bool,          // prompt readiness before the paste or the /clear
    clearConfirmed: bool,
    idle: bool,           // busy detection
    recheck: Probes,
    delivery: Delivery,
    gaps: seq<seq<Disturbance>>)

  /** What happens to the pane in the i-th pause of the dispatch. */
  function Pause(p: Pane, o: Outcome, i: nat): Pane {
    if i < |o.gaps| then Drift(p, o.gaps[i]) else p
  }

  datatype Result = Result(pane: Pane, log: seq<Paste>, ok: bool)

  function StampLastTask(p: Pane, task: TaskId): Pane {
    if task == "" then p else p.(lastTask := task)
  }

  function SetClearReady(p: Pane, pid: nat): Pane {
    p.(clearReady := true, clearReadyPid := Some(pid))
  }

  /** A confirmed /clear empties the conversation and invalidates the resume marker. */
  function Cleared(p: Pane): Pane {
    p.(conversation := None, lastTask := "")
  }

  /** sendAndConfirm of a task envelope: the shell guard and the paste are one step. */
  function Deliver(p: Pane, req: Request, cleared: bool, o: Outcome): Result {
    if !p.agent || o.delivery.NotSent? then Result(p, [], false)
    else Result(Pause(p.(conversation := Some(req.task)), o, 6), [Envelope(req, p, cleared)], o.delivery.Delivered?)
  }

  /** execResumeNudge: the final probe and the paste are one step. */
  function ResumeNudge(p: Pane, req: Request, o: Outcome): Result {
    if !o.stamped then Result(p, [], false)
    else
      var q := Pause(p.(runOnMain := req.runOnMain), o, 1);
      if !o.ready || !o.idle then Result(q, [], false)
      else if !CanResume(q, req, o.recheck) then Result(Probed(q, o.recheck), [], false)
      else if o.delivery.NotSent? then Result(q, [], false)
      else Result(Pause(q, o, 6), [Nudge(req, q)], o.delivery.Delivered?)
  }

  /** execFirstDispatch */
  function FirstDispatch(p: Pane, req: Request, pid: nat, o: Outcome): Result {
    if !o.ready then Result(p, [], false)
    else
      var d := Deliver(Pause(p, o, 5), req, false, o);
      if d.ok then d.(pane := StampLastTask(SetClearReady(d.pane, pid), req.task)) else d
  }

  /** execClearAndDeliver */
  function ClearAndDeliver(p: Pane, req: Request, o: Outcome): Result {
    if !o.ready then Result(p, [], false)
    else
      var q := Pause(p, o, 4);
      if !o.clearConfirmed then Result(ResetClearReady(q), [], false)
      else
        var r := Pause(Cleared(q), o, 5);
        if !o.idle then Result(r, [], false)
        else
          var d := Deliver(r, req, true, o);
          if d.ok then d.(pane := StampLastTask(d.pane, req.task)) else d
  }

  /** execWithClear after the working directory is settled */
  function FullDispatch(p: Pane, req: Request, o: Outcome): Result {
    if !o.stamped then Result(p, [], false)
    else
      var (q, running) := EnsureRunning(Pause(p.(runOnMain := req.runOnMain), o, 2), o.launch);
      if !running || !o.pidRead then Result(q, [], false)
      else
        var r := Pause(q, o, 3);
        var s := DetectRestart(r);
        if s.clearReady then ClearAndDeliver(s, req, o) else FirstDispatch(s, req, s.pid, o)
  }

  /** execWithClear */
  function WithClear(p: Pane, req: Request, o: Outcome): Result {
    if req.resume && CanResume(p, req, o.preflight) then ResumeNudge(p, req, o)
    else
      var q := Pause(if req.resume then Probed(p, o.preflight) else p, o, 0);
      match req.workingDir
      case None => FullDispatch(q, req, o)
      case Some(dir) =>
        var (r, settled) := EnsureWorkingDir(q, dir, o.dir);
        if settled then FullDispatch(r, req, o) else Result(r, [], false)
  }

  // ---------- runs ----------

  datatype Action =
    | Dispatch(req: Request, o: Outcome)
    | Interrupt(confirmed: bool)  // C-c and /clear; nothing changes unless the /clear is confirmed
    | Wait(es: seq<Disturbance>)

  function Act(p: Pane, a: Action): Result {
    match a
    case Dispatch(req, o) => WithClear(p, req, o)
    case Interrupt(confirmed) => Result(if confirmed then Cleared(p) else p, [], confirmed)
    case Wait(es) => Result(Drift(p, es), [], true)
  }

  function Run(p: Pane, actions: seq<Action>): Result
    decreases |actions|
  {
    if actions == [] then Result(p, [], true)
    else
      var first := Act(p, actions[0]);
      var rest := Run(first.pane, actions[1..]);
      rest.(log := first.log + rest.log)
  }
}
