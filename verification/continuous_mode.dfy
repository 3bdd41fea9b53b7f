/**
 Continuous mode: the gate that counts command results and stops or pauses the loop.
 A result counts when the mode is running and the command is not the one counted last.
 */
module ContinuousMode {
  import opened Common

  type CommandId = string

  datatype Status = Running | Paused | Stopped

  datatype Reason = MaxConsecutiveFailuresReached | TaskFailure | MaxIterationsReached

  datatype Notice = Notice(status: Status, command: CommandId, iteration: int, reason: Reason)

  datatype Config = Config(pauseOnFailure: bool, maxConsecutiveFailures: int)

  datatype State = State(
    status: Status,
    iteration: int,
    maxIterations: int,
    failures: int,
    lastCommand: Option<CommandId>,
    reason: Option<Reason>)

  /** A command result, and whether the state and the notification could be written. */
  datatype Event = Event(command: CommandId, failed: bool, saved: bool, notified: bool)

  /** The durable state and the notifications queued so far. */
  datatype World = World(state: State, notices: seq<Notice>)

  predicate Counts(s: State, e: Event) {
    s.status.Running? && s.lastCommand != Some(e.command) && e.saved
  }

  // ---------- what the history of counted results says ----------

  /** The number of failures at the end. */
  function TrailingFailures(h: seq<Event>): (k: nat)
    ensures k <= |h|
    ensures forall i | |h| - k <= i < |h| :: h[i].failed
    ensures k < |h| ==> !h[|h| - k - 1].failed
  {
    if h == [] || !h[|h| - 1].failed then 0 else 1 + TrailingFailures(h[..|h| - 1])
  }

  /** Why the loop ends after the results h; the failure stop beats the pause, which beats the iteration cap. */
  function EndReason(cfg: Config, maxIterations: int, h: seq<Event>): Option<Reason> {
    if h == [] then None
    else if cfg.maxConsecutiveFailures > 0 && TrailingFailures(h) >= cfg.maxConsecutiveFailures
    then Some(MaxConsecutiveFailuresReached)
    else if cfg.pauseOnFailure && h[|h| - 1].failed then Some(TaskFailure)
    else if maxIterations > 0 && |h| >= maxIterations then Some(MaxIterationsReached)
    else None
  }

  function StatusFor(r: Option<Reason>): Status {
    match r
    case None => Running
    case Some(TaskFailure) => Paused
    case Some(_) => Stopped
  }

  /** The state and the notifications that the counted results h lead to from a fresh start. */
  ghost predicate Explains(cfg: Config, maxIterations: int, h: seq<Event>, w: World) {
    var end := EndReason(cfg, maxIterations, h);
    && w.state == State(StatusFor(end), |h|, maxIterations, TrailingFailures(h),
                        if h == [] then None else Some(h[|h| - 1].command), end)
    && w.notices == (if end.Some? && h[|h| - 1].notified
                     then [Notice(StatusFor(end), h[|h| - 1].command, |h|, end.value)] else [])
  }

  /** The loop ends with the last counted result, not earlier. */
  ghost predicate EndsLast(cfg: Config, maxIterations: int, h: seq<Event>) {
    forall k | 0 <= k < |h| :: EndReason(cfg, maxIterations, h[..k]).None?
  }

  function Fresh(maxIterations: int): World {
    World(State(Running, 0, maxIterations, 0, None, None), [])
  }

  lemma OneMore(h: seq<Event>, e: Event)
    ensures TrailingFailures(h + [e]) == if e.failed then TrailingFailures(h) + 1 else 0
  {
    assert (h + [e])[..|h|] == h;
  }

  lemma NoEarlierEnd(cfg: Config, maxIterations: int, h: seq<Event>, e: Event)
    requires EndReason(cfg, maxIterations, h).None? && EndsLast(cfg, maxIterations, h)
    ensures EndsLast(cfg, maxIterations, h + [e])
  {
    forall k | 0 <= k <= |h|
      ensures EndReason(cfg, maxIterations, (h + [e])[..k]).None?
    {
      assert (h + [e])[..k] == if k < |h| then h[..k] else h;
    }
  }

  // ---------- runs ----------

  /** CheckAndAdvance */
  function Advance(cfg: Config, w: World, e: Event): World {
    var s := w.state;
    if !Counts(s, e) then w
    else
      var failures := if e.failed then s.failures + 1 else 0;
      var reason :=
        if cfg.maxConsecutiveFailures > 0 && failures >= cfg.maxConsecutiveFailures then Some(MaxConsecutiveFailuresReached)
        else if cfg.pauseOnFailure && e.failed then Some(TaskFailure)
        else if s.maxIterations > 0 && s.iteration + 1 >= s.maxIterations then Some(MaxIterationsReached)
        else None;
      var t := s.(iteration := s.iteration + 1, lastCommand := Some(e.command), failures := failures,
                  status := StatusFor(reason), reason := if reason.Some? then reason else s.reason);
      World(t, w.notices + if reason.Some? && e.notified
                           then [Notice(t.status, e.command, t.iteration, reason.value)] else [])
  }

  function Run(cfg: Config, w: World, es: seq<Event>): World
    decreases |es|
  {
    if es == [] then w else Run(cfg, Advance(cfg, w, es[0]), es[1..])
  }

  /**
   The results that count, of those that arrive after the counted results h: while the
   loop has not ended, each saved result of another command than the one counted last.
   */
  function Counted(cfg: Config, maxIterations: int, h: seq<Event>, es: seq<Event>): seq<Event>
    decreases |es|
  {
    if es == [] then h
    else if EndReason(cfg, maxIterations, h).None? && (h == [] || h[|h| - 1].command != es[0].command) && es[0].saved
    then Counted(cfg, maxIterations, h + [es[0]], es[1..])
    else Counted(cfg, maxIterations, h, es[1..])
  }

  lemma AdvanceExplained(cfg: Config, maxIterations: int, h: seq<Event>, w: World, e: Event)
    requires Explains(cfg, maxIterations, h, w) && EndsLast(cfg, maxIterations, h)
    ensures Counts(w.state, e) <==>
      EndReason(cfg, maxIterations, h).None? && (h == [] || h[|h| - 1].command != e.command) && e.saved
    ensures var h' := if Counts(w.state, e) then h + [e] else h;
      Explains(cfg, maxIterations, h', Advance(cfg, w, e)) && EndsLast(cfg, maxIterations, h')
  {
    OneMore(h, e);
    if Counts(w.state, e) {
      NoEarlierEnd(cfg, maxIterations, h, e);
    }
    hide EndsLast;
  }

  /** Over every sequence of results the state and the notifications are exactly what the counted results say. */
  lemma {:induction false} RunExplained(cfg: Config, maxIterations: int, h: seq<Event>, w: World, es: seq<Event>)
    requires Explains(cfg, maxIterations, h, w) && EndsLast(cfg, maxIterations, h)
    ensures var c := Counted(cfg, maxIterations, h, es);
      Explains(cfg, maxIterations, c, Run(cfg, w, es)) && EndsLast(cfg, maxIterations, c)
    decreases |es|
  {
    if es == [] {
    } else {
      AdvanceExplained(cfg, maxIterations, h, w, es[0]);
      hide Explains, Advance, Counts, EndReason, EndsLast;
      RunExplained(cfg, maxIterations, if Counts(w.state, es[0]) then h + [es[0]] else h, Advance(cfg, w, es[0]), es[1..]);
    }
  }

  /** While the mode runs it is below both caps; it never counts past a positive maximum; it notifies at most once. */
  lemma Bounds(cfg: Config, maxIterations: int, es: seq<Event>)
    ensures var w := Run(cfg, Fresh(maxIterations), es);
      && (maxIterations > 0 ==> w.state.iteration <= maxIterations)
      && |w.notices| <= 1
      && (w.state.status.Running? ==>
            && (maxIterations > 0 ==> w.state.iteration < maxIterations)
            && (cfg.maxConsecutiveFailures > 0 ==> w.state.failures < cfg.maxConsecutiveFailures)
            && (cfg.pauseOnFailure ==> w.state.failures == 0))
  {
    RunExplained(cfg, maxIterations, [], Fresh(maxIterations), es);
    var h := Counted(cfg, maxIterations, [], es);
    if h != [] {
      assert EndReason(cfg, maxIterations, h[..|h| - 1]).None?;
    }
    hide Run, Counted;
  }

  /** When the loop is paused and when it is stopped, from the counted results alone. */
  lemma StatusExactly(cfg: Config, maxIterations: int, es: seq<Event>)
    ensures var h := Counted(cfg, maxIterations, [], es); var status := Run(cfg, Fresh(maxIterations), es).state.status;
      var failing := h != [] && cfg.maxConsecutiveFailures > 0 && TrailingFailures(h) >= cfg.maxConsecutiveFailures;
      var pausing := h != [] && cfg.pauseOnFailure && h[|h| - 1].failed;
      var full := h != [] && maxIterations > 0 && |h| >= maxIterations;
      && (status.Paused? <==> pausing && !failing)
      && (status.Stopped? <==> failing || (full && !pausing))
  {
    RunExplained(cfg, maxIterations, [], Fresh(maxIterations), es);
    hide Run, Counted;
  }

  /** A paused or stopped loop stays as it is, whatever arrives. */
  lemma {:induction false} Absorbing(cfg: Config, w: World, es: seq<Event>)
    requires !w.state.status.Running?
    ensures Run(cfg, w, es) == w
    decreases |es|
  {
    if es != [] {
      Absorbing(cfg, w, es[1..]);
    }
  }

  // ---------- the handler ----------

  class ContinuousHandler {
    const cfg: Config
    var world: World

    constructor (c: Config, maxIterations: int)
      ensures cfg == c && world == Fresh(maxIterations)
    {
      cfg := c;
      world := Fresh(maxIterations);
    }

    method CheckAndAdvance(e: Event)
      modifies this
      ensures world == Advance(cfg, old(world), e)
    {
      var s := world.state;
      if !s.status.Running? {
        return;
      }
      if s.lastCommand.Some? && s.lastCommand.value == e.command {
        return;
      }
      var newIteration := s.iteration + 1;
      var newFailures := s.failures;
      if e.failed {
        newFailures := newFailures + 1;
      } else {
        newFailures := 0;
      }
      var newStatus, newReason := Running, None;
      if cfg.maxConsecutiveFailures > 0 && newFailures >= cfg.maxConsecutiveFailures {
        newStatus, newReason := Stopped, Some(MaxConsecutiveFailuresReached);
      }
      if newStatus.Running? && cfg.pauseOnFailure && e.failed {
        newStatus, newReason := Paused, Some(TaskFailure);
      }
      if newStatus.Running? && s.maxIterations > 0 && newIteration >= s.maxIterations {
        newStatus, newReason := Stopped, Some(MaxIterationsReached);
      }
      if !e.saved {
        return;
      }
      world := world.(state := s.(iteration := newIteration, lastCommand := Some(e.command), failures := newFailures,
                                  status := newStatus, reason := if newReason.Some? then newReason else s.reason));
      if !newStatus.Running? {
        if e.notified {
          world := world.(notices := world.notices + [Notice(newStatus, e.command, newIteration, newReason.value)]);
        }
      }
    }
  }
}
