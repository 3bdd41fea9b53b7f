/**
 The debounce controller as a timed concurrent system.  Trigger is two steps, the
 unlocked read of `running` and the locked section; a timer callback is a fire, a
 compare-and-swap, the locked reset, and the end of the scan; any number of
 triggers and callbacks interleave.  Timers are punctual: time does not pass a
 deadline, nor a callback that has fired and not reached its compare-and-swap.
 Times are in milliseconds.
 */
module Debounce {
  import opened Common

  type TriggerId = nat

  const MAX_DEBOUNCE := 5000
  const DEFAULT_DEBOUNCE: nat := 500

  /** One call that found no scan running: when it looked, when it held the lock, which scan start served it. */
  datatype Call = Call(seenAt: int, lockedAt: Option<int>, servedBy: Option<int>)

  datatype State = State(
    now: int,
    firstTrigger: Option<int>,
    timer: Option<int>,  // deadline of the armed timer
    running: bool,
    fired: nat,          // callbacks before their compare-and-swap
    resetting: nat,      // callbacks that won it and have not reset firstTrigger yet
    scanning: nat,       // callbacks inside the scan
    calls: map<TriggerId, Call>,
    starts: seq<int>)    // when each scan started

  const INITIAL := State(0, None, None, false, 0, 0, 0, map[], [])

  datatype Step =
    | Look(id: TriggerId)
    | Lock(id: TriggerId)
    | Fire
    | Claim
    | Reset
    | Finish
    | Tick(elapsed: nat)

  predicate Enabled(s: State, step: Step) {
    match step
    case Look(id) => id !in s.calls
    case Lock(id) => id in s.calls && s.calls[id].lockedAt.None?
    case Fire => s.timer.Some? && s.now >= s.timer.value
    case Claim => s.fired > 0
    case Reset => s.resetting > 0
    case Finish => s.scanning > 0
    case Tick(elapsed) => s.fired == 0 && (s.timer.Some? ==> s.now + elapsed <= s.timer.value)
  }

  /** How long the locked section of Trigger defers the scan. */
  function Delay(s: State, delay: nat): nat {
    var first := if s.firstTrigger.None? then s.now else s.firstTrigger.value;
    if s.now - first >= MAX_DEBOUNCE then 0 else delay
  }

  function Served(s: State): map<TriggerId, Call> {
    map id | id in s.calls :: if s.calls[id].servedBy.Some? then s.calls[id] else s.calls[id].(servedBy := Some(s.now))
  }

  function Apply(s: State, step: Step, delay: nat): State
    requires Enabled(s, step)
  {
    match step
    case Look(id) => if s.running then s else s.(calls := s.calls[id := Call(s.now, None, None)])
    case Lock(id) =>
      s.(firstTrigger := if s.firstTrigger.None? then Some(s.now) else s.firstTrigger,
         timer := Some(s.now + Delay(s, delay)),
         calls := s.calls[id := s.calls[id].(lockedAt := Some(s.now))])
    case Fire => s.(timer := None, fired := s.fired + 1)
    case Claim =>
      if s.running then s.(fired := s.fired - 1)
      else s.(fired := s.fired - 1, running := true, resetting := s.resetting + 1,
              starts := s.starts + [s.now], calls := Served(s))
    case Reset => s.(firstTrigger := None, resetting := s.resetting - 1, scanning := s.scanning + 1)
    case Finish => s.(running := false, scanning := s.scanning - 1)
    case Tick(elapsed) => s.(now := s.now + elapsed)
  }

  ghost predicate Possible(s: State, steps: seq<Step>, delay: nat)
    decreases |steps|
  {
    steps != [] ==> Enabled(s, steps[0]) && Possible(Apply(s, steps[0], delay), steps[1..], delay)
  }

  function Run(s: State, steps: seq<Step>, delay: nat): State
    requires Possible(s, steps, delay)
    decreases |steps|
  {
    if steps == [] then s else Run(Apply(s, steps[0], delay), steps[1..], delay)
  }

  // ---------- the invariant ----------

  /** The time by which a call that held the lock at t must have been followed by a scan start. */
  function Limit(t: int, delay: nat): int {
    t + MAX_DEBOUNCE + delay
  }

  ghost predicate CallSound(s: State, c: Call, delay: nat) {
    && c.seenAt <= s.now
    && (c.lockedAt.Some? ==> c.seenAt <= c.lockedAt.value <= s.now)
    && (c.servedBy.Some? ==> c.servedBy.value in s.starts && c.seenAt <= c.servedBy.value)
    && (c.servedBy.Some? && c.lockedAt.Some? ==> c.servedBy.value <= Limit(c.lockedAt.value, delay))
    && (c.servedBy.None? ==> !s.running)
    && (c.servedBy.None? && c.lockedAt.Some? ==>
          && s.firstTrigger.Some? && s.firstTrigger.value <= c.lockedAt.value
          && s.now <= Limit(c.lockedAt.value, delay)
          && (s.fired > 0 || (s.timer.Some? && s.timer.value <= Limit(c.lockedAt.value, delay))))
  }

  ghost predicate Inv(s: State, delay: nat) {
    && s.resetting + s.scanning == (if s.running then 1 else 0)
    && (s.timer.Some? ==> s.now <= s.timer.value)
    && (s.firstTrigger.Some? ==> s.firstTrigger.value <= s.now)
    && (forall t | t in s.starts :: t <= s.now)
    && forall id | id in s.calls :: CallSound(s, s.calls[id], delay)
  }

  lemma StepKeepsInv(s: State, step: Step, delay: nat)
    requires Inv(s, delay) && Enabled(s, step)
    ensures Inv(Apply(s, step, delay), delay)
  {
    var t := Apply(s, step, delay);
    forall id | id in t.calls
      ensures CallSound(t, t.calls[id], delay)
    {
      if id in s.calls {
        assert CallSound(s, s.calls[id], delay);
        CallStep(s, step, delay, id);
      }
    }
  }

  lemma CallStep(s: State, step: Step, delay: nat, id: TriggerId)
    requires Inv(s, delay) && Enabled(s, step) && id in s.calls
    ensures var t := Apply(s, step, delay); id in t.calls && CallSound(t, t.calls[id], delay)
  {
    assert CallSound(s, s.calls[id], delay);
    if step.Claim? {
      assert s.now in s.starts + [s.now];
    }
  }

  lemma {:induction false} RunKeepsInv(s: State, steps: seq<Step>, delay: nat)
    requires Inv(s, delay) && Possible(s, steps, delay)
    ensures Inv(Run(s, steps, delay), delay)
    decreases |steps|
  {
    if steps == [] {
    } else {
      StepKeepsInv(s, steps[0], delay);
      RunKeepsInv(Apply(s, steps[0], delay), steps[1..], delay);
    }
  }

  // ---------- the guarantees ----------

  /** At most one scan at a time, in every reachable state. */
  lemma OneScan(steps: seq<Step>, delay: nat)
    requires Possible(INITIAL, steps, delay)
    ensures var s := Run(INITIAL, steps, delay); s.resetting + s.scanning <= 1
  {
    RunKeepsInv(INITIAL, steps, delay);
  }

  /**
   No starvation: whatever the interleaving, a call that took the lock is followed,
   within the debounce cap plus one delay, by the start of a scan that began no
   earlier than the moment the call looked.
   */
  lemma NoStarvation(steps: seq<Step>, delay: nat, id: TriggerId)
    requires Possible(INITIAL, steps, delay)
    ensures var s := Run(INITIAL, steps, delay);
      id in s.calls && s.calls[id].lockedAt.Some? && s.now > Limit(s.calls[id].lockedAt.value, delay) ==>
        exists t | t in s.starts :: s.calls[id].seenAt <= t <= Limit(s.calls[id].lockedAt.value, delay)
  {
    RunKeepsInv(INITIAL, steps, delay);
    var s := Run(INITIAL, steps, delay);
    if id in s.calls {
      assert CallSound(s, s.calls[id], delay);
    }
  }

  /** The punctuality of timers never stops time. */
  lemma TimeCanPass(s: State, delay: nat)
    requires Inv(s, delay)
    ensures Enabled(s, Claim) || Enabled(s, Fire) || Enabled(s, Tick(1))
  {}

  /** A call is turned away only while a scan that started earlier is still running. */
  lemma RejectedWhileScanning(s: State, id: TriggerId, delay: nat)
    requires Inv(s, delay) && Enabled(s, Look(id))
    ensures id !in Apply(s, Look(id), delay).calls <==> s.resetting + s.scanning == 1
  {}

  // ---------- a scan after the lock ----------

  /** A scan has started since `known` starts were on record, at or after t and within the limit. */
  predicate StartedSince(s: State, known: nat, t: int, delay: nat) {
    exists i :: known <= i < |s.starts| && t <= s.starts[i] <= Limit(t, delay)
  }

  /** Until a scan starts, a callback or a timer that will start one is pending within the limit. */
  ghost predicate Owed(s: State, known: nat, t: int, delay: nat) {
    && |s.starts| >= known
    && (|s.starts| > known ==> t <= s.starts[known] <= Limit(t, delay))
    && (|s.starts| == known ==>
          && !s.running && t <= s.now <= Limit(t, delay)
          && s.firstTrigger.Some? && s.firstTrigger.value <= t
          && (s.fired > 0 || (s.timer.Some? && s.timer.value <= Limit(t, delay))))
  }

  lemma {:induction false} RunKeepsOwed(s: State, steps: seq<Step>, known: nat, t: int, delay: nat)
    requires Inv(s, delay) && Owed(s, known, t, delay) && Possible(s, steps, delay)
    ensures Inv(Run(s, steps, delay), delay) && Owed(Run(s, steps, delay), known, t, delay)
    decreases |steps|
  {
    if steps == [] {
    } else {
      StepKeepsInv(s, steps[0], delay);
      StepKeepsOwed(s, steps[0], known, t, delay);
      hide Apply, Enabled, Inv, Owed;
      RunKeepsOwed(Apply(s, steps[0], delay), steps[1..], known, t, delay);
    }
  }

  lemma StepKeepsOwed(s: State, step: Step, known: nat, t: int, delay: nat)
    requires Inv(s, delay) && Owed(s, known, t, delay) && Enabled(s, step)
    ensures Owed(Apply(s, step, delay), known, t, delay)
  {
    hide CallSound;
  }

  /** Every continuation of the lock that passes the limit has a scan start after the lock and within the limit. */
  ghost predicate AlwaysFollowed(s: State, id: TriggerId, delay: nat)
    requires Enabled(s, Lock(id))
  {
    var locked := Apply(s, Lock(id), delay);
    forall steps | Possible(locked, steps, delay) && Run(locked, steps, delay).now > Limit(s.now, delay) ::
      StartedSince(Run(locked, steps, delay), |s.starts|, s.now, delay)
  }

  lemma IdleLockIsFollowed(s: State, id: TriggerId, delay: nat, steps: seq<Step>)
    requires Inv(s, delay) && Enabled(s, Lock(id)) && !s.running
    requires Possible(Apply(s, Lock(id), delay), steps, delay)
    requires Run(Apply(s, Lock(id), delay), steps, delay).now > Limit(s.now, delay)
    ensures StartedSince(Run(Apply(s, Lock(id), delay), steps, delay), |s.starts|, s.now, delay)
  {
    var locked := Apply(s, Lock(id), delay);
    StepKeepsInv(s, Lock(id), delay);
    RunKeepsOwed(locked, steps, |s.starts|, s.now, delay);
    hide Run, Possible;
  }

  lemma {:induction false} RunAppend(s: State, a: seq<Step>, b: seq<Step>, delay: nat)
    requires Possible(s, a, delay) && Possible(Run(s, a, delay), b, delay)
    ensures Possible(s, a + b, delay) && Run(s, a + b, delay) == Run(Run(s, a, delay), b, delay)
    decreases |a|
  {
    hide Apply, Enabled;
    if a == [] {
      assert a + b == b;
    } else {
      assert (a + b)[1..] == a[1..] + b;
      RunAppend(Apply(s, a[0], delay), a[1..], b, delay);
    }
  }

  /** While a scan runs, every callback that has fired is skipped. */
  lemma {:induction false} SkipCallbacks(s: State, delay: nat) returns (steps: seq<Step>)
    requires s.running
    ensures Possible(s, steps, delay) && Run(s, steps, delay) == s.(fired := 0)
    decreases s.fired
  {
    steps := [];
    if s.fired > 0 {
      var rest := SkipCallbacks(Apply(s, Claim, delay), delay);
      steps := [Claim] + rest;
    }
  }

  /** A scan that outlasts the limit: all callbacks are skipped, the scan ends, and nothing is pending. */
  lemma RunningLockIsNotFollowed(s: State, id: TriggerId, delay: nat) returns (steps: seq<Step>)
    requires Inv(s, delay) && Enabled(s, Lock(id)) && s.running
    ensures Possible(Apply(s, Lock(id), delay), steps, delay)
    ensures var e := Run(Apply(s, Lock(id), delay), steps, delay);
      && e.now > Limit(s.now, delay) && e.starts == s.starts
      && e.timer.None? && e.fired == 0 && !e.running
  {
    var s1 := Apply(s, Lock(id), delay);
    var skips := SkipCallbacks(s1, delay);
    var s2 := Run(s1, skips, delay);
    var middle := [Tick(Delay(s, delay)), Fire, Claim, Tick(MAX_DEBOUNCE + delay + 1)];
    var s3 := WaitOut(s2, Delay(s, delay), delay);
    RunAppend(s1, skips, middle, delay);
    var last := if s.resetting > 0 then [Reset, Finish] else [Finish];
    ScanEnds(s3, delay);
    RunAppend(s1, skips + middle, last, delay);
    steps := skips + middle + last;
  }

  lemma WaitOut(s: State, wait: nat, delay: nat) returns (e: State)
    requires s.running && s.fired == 0 && s.timer == Some(s.now + wait)
    ensures var steps := [Tick(wait), Fire, Claim, Tick(MAX_DEBOUNCE + delay + 1)];
      && Possible(s, steps, delay) && e == Run(s, steps, delay)
      && e == s.(now := s.now + wait + MAX_DEBOUNCE + delay + 1, timer := None)
  {
    var s1 := Apply(s, Tick(wait), delay);
    var s2 := Apply(s1, Fire, delay);
    var s3 := Apply(s2, Claim, delay);
    var long := Tick(MAX_DEBOUNCE + delay + 1);
    e := Apply(s3, long, delay);
    assert Possible(e, [], delay) && Run(e, [], delay) == e;
    assert [long][1..] == [] && [Claim, long][1..] == [long] && [Fire, Claim, long][1..] == [Claim, long];
    assert [Tick(wait), Fire, Claim, long][1..] == [Fire, Claim, long];
    assert Possible(s3, [long], delay) && Run(s3, [long], delay) == e;
    assert Possible(s2, [Claim, long], delay) && Run(s2, [Claim, long], delay) == e;
    assert Possible(s1, [Fire, Claim, long], delay) && Run(s1, [Fire, Claim, long], delay) == e;
  }

  lemma ScanEnds(s: State, delay: nat)
    requires s.running && s.resetting + s.scanning == 1
    ensures var last := if s.resetting > 0 then [Reset, Finish] else [Finish];
      && Possible(s, last, delay)
      && var e := Run(s, last, delay);
        e.now == s.now && e.starts == s.starts && e.timer == s.timer && e.fired == s.fired && !e.running
  {
    if s.resetting > 0 {
      var s1 := Apply(s, Reset, delay);
      assert [Reset, Finish][1..] == [Finish] && [Finish][1..] == [];
      assert Possible(s1, [Finish], delay) && Run(s1, [Finish], delay) == Apply(s1, Finish, delay);
    }
  }

  /**
   The guarantee counts from the moment the call looks, not from the moment it holds
   the lock: a scan start after the lock is certain if and only if no scan is running
   when the lock is taken.
   */
  lemma ScanAfterLockExactly(s: State, id: TriggerId, delay: nat)
    requires Inv(s, delay) && Enabled(s, Lock(id))
    ensures AlwaysFollowed(s, id, delay) <==> !s.running
  {
    var locked := Apply(s, Lock(id), delay);
    if s.running {
      var steps := RunningLockIsNotFollowed(s, id, delay);
      assert !StartedSince(Run(locked, steps, delay), |s.starts|, s.now, delay);
    } else {
      forall steps | Possible(locked, steps, delay) && Run(locked, steps, delay).now > Limit(s.now, delay)
        ensures StartedSince(Run(locked, steps, delay), |s.starts|, s.now, delay)
      {
        IdleLockIsFollowed(s, id, delay, steps);
      }
    }
    hide Run, Possible, Apply, StartedSince, Inv;
  }

  /** A call can indeed hold the lock while a scan is running that started after the call looked. */
  lemma LockedAfterTheScanStarted(delay: nat)
    ensures var steps := [Look(1), Lock(1), Look(2), Tick(delay), Fire, Claim, Reset];
      && Possible(INITIAL, steps, delay)
      && var s := Run(INITIAL, steps, delay);
        && Inv(s, delay) && Enabled(s, Lock(2)) && s.running && !AlwaysFollowed(s, 2, delay)
        && s.calls[2].seenAt == 0 && s.starts == [delay]
  {
    var s1 := Apply(INITIAL, Look(1), delay);
    var s2 := Apply(s1, Lock(1), delay);
    var s3 := Apply(s2, Look(2), delay);
    var s4 := Apply(s3, Tick(delay), delay);
    var e := ScanStarts(s4, delay);
    assert Enabled(e, Lock(2)) && e.calls[2].seenAt == 0;
    var last := [Fire, Claim, Reset];
    Unroll(s3, Tick(delay), last, delay);
    Unroll(s2, Look(2), [Tick(delay)] + last, delay);
    Unroll(s1, Lock(1), [Look(2)] + ([Tick(delay)] + last), delay);
    Unroll(INITIAL, Look(1), [Lock(1)] + ([Look(2)] + ([Tick(delay)] + last)), delay);
    hide Apply, Run, Possible, Enabled;
    var steps := [Look(1), Lock(1), Look(2), Tick(delay), Fire, Claim, Reset];
    assert [Look(1)] + ([Lock(1)] + ([Look(2)] + ([Tick(delay)] + last))) == steps;
    RunKeepsInv(INITIAL, steps, delay);
    ScanAfterLockExactly(e, 2, delay);
  }

  lemma Unroll(s: State, step: Step, rest: seq<Step>, delay: nat)
    requires Enabled(s, step)
    ensures Possible(s, [step] + rest, delay) <==> Possible(Apply(s, step, delay), rest, delay)
    ensures Possible(s, [step] + rest, delay) ==>
      Run(s, [step] + rest, delay) == Run(Apply(s, step, delay), rest, delay)
  {
    hide Apply, Enabled;
    assert ([step] + rest)[1..] == rest;
  }

  lemma ScanStarts(s: State, delay: nat) returns (e: State)
    requires Enabled(s, Fire) && !s.running && s.fired == 0 && s.resetting == 0
    ensures Possible(s, [Fire, Claim, Reset], delay) && e == Run(s, [Fire, Claim, Reset], delay)
    ensures e == s.(timer := None, running := true, firstTrigger := None, scanning := s.scanning + 1,
                    starts := s.starts + [s.now], calls := Served(s))
  {
    var s1 := Apply(s, Fire, delay);
    var s2 := Apply(s1, Claim, delay);
    e := Apply(s2, Reset, delay);
    assert [Fire, Claim, Reset][1..] == [Claim, Reset] && [Claim, Reset][1..] == [Reset] && [Reset][1..] == [];
    assert Possible(s2, [Reset], delay) && Run(s2, [Reset], delay) == e;
    assert Possible(s1, [Claim, Reset], delay) && Run(s1, [Claim, Reset], delay) == e;
  }

  // ---------- the controller ----------

  /** The controller; each method is one atomic section of Trigger or of the timer callback. */
  class DebounceController {
    const delay: nat
    var s: State

    constructor (debounce: int)
      ensures Inv(s, delay) && s == INITIAL
      ensures delay == if debounce <= 0 then DEFAULT_DEBOUNCE else debounce
    {
      delay := if debounce <= 0 then DEFAULT_DEBOUNCE else debounce;
      s := INITIAL;
    }

    /** Trigger, before the lock. */
    method LookForScan(id: TriggerId) returns (accepted: bool)
      requires Inv(s, delay) && Enabled(s, Look(id))
      modifies this
      ensures Inv(s, delay) && s == Apply(old(s), Look(id), delay) && accepted == !old(s).running
    {
      StepKeepsInv(s, Look(id), delay);
      if s.running {
        return false;
      }
      s := s.(calls := s.calls[id := Call(s.now, None, None)]);
      accepted := true;
    }

    /** Trigger, under the lock. */
    method ArmTimer(id: TriggerId)
      requires Inv(s, delay) && Enabled(s, Lock(id))
      modifies this
      ensures Inv(s, delay) && s == Apply(old(s), Lock(id), delay)
    {
      StepKeepsInv(s, Lock(id), delay);
      var now := s.now;
      if s.firstTrigger.None? {
        s := s.(firstTrigger := Some(now));
      }
      var elapsed := now - s.firstTrigger.value;
      var wait := delay;
      if elapsed >= MAX_DEBOUNCE {
        wait := 0;
      }
      s := s.(timer := None);
      s := s.(timer := Some(now + wait), calls := s.calls[id := s.calls[id].(lockedAt := Some(now))]);
    }

    /** executeDebouncedScan up to its compare-and-swap. */
    method ClaimScan() returns (won: bool)
      requires Inv(s, delay) && Enabled(s, Claim)
      modifies this
      ensures Inv(s, delay) && s == Apply(old(s), Claim, delay) && won == !old(s).running
    {
      StepKeepsInv(s, Claim, delay);
      if s.running {
        s := s.(fired := s.fired - 1);
        return false;
      }
      s := s.(running := true, fired := s.fired - 1, resetting := s.resetting + 1,
              starts := s.starts + [s.now], calls := Served(s));
      won := true;
    }

    /** The locked reset of the debounce window. */
    method ResetWindow()
      requires Inv(s, delay) && Enabled(s, Reset)
      modifies this
      ensures Inv(s, delay) && s == Apply(old(s), Reset, delay)
    {
      StepKeepsInv(s, Reset, delay);
      s := s.(firstTrigger := None, resetting := s.resetting - 1, scanning := s.scanning + 1);
    }

    /** The scan returned or panicked. */
    method EndScan()
      requires Inv(s, delay) && Enabled(s, Finish)
      modifies this
      ensures Inv(s, delay) && s == Apply(old(s), Finish, delay)
    {
      StepKeepsInv(s, Finish, delay);
      s := s.(scanning := s.scanning - 1, running := false);
    }
  }
}
