/**
 The timer of the debounce controller, read off the list of steps: when each call
 arms it for, and when it fires.
 */
module DebounceTimer {
  import opened Common
  import opened Debounce

  /** The time at which the steps end. */
  function Time(steps: seq<Step>): int {
    if steps == [] then 0
    else Time(steps[..|steps| - 1]) + (if steps[|steps| - 1].Tick? then steps[|steps| - 1].elapsed else 0)
  }

  /** Step i is a call that took the lock, and the window has not been reset since. */
  ghost predicate InWindow(steps: seq<Step>, i: nat) {
    i < |steps| && steps[i].Lock? && forall j: nat | i < j < |steps| :: !steps[j].Reset?
  }

  /** Some call of the open window took the lock at least the cap ago. */
  ghost predicate AtCap(steps: seq<Step>) {
    exists i: nat :: InWindow(steps, i) && Time(steps) - Time(steps[..i]) >= MAX_DEBOUNCE
  }

  /** Step k is the last call that took the lock, and the timer has not fired since. */
  ghost predicate Armed(steps: seq<Step>, k: nat) {
    k < |steps| && steps[k].Lock? && forall j: nat | k < j < |steps| :: !steps[j].Lock? && !steps[j].Fire?
  }

  /** What call k arms the timer for. */
  ghost function ArmedFor(steps: seq<Step>, k: nat, delay: nat): int
    requires k < |steps|
  {
    Time(steps[..k]) + (if AtCap(steps[..k]) then 0 else delay)
  }

  // ---------- one more step ----------

  lemma {:induction false} OneMore(steps: seq<Step>, step: Step, delay: nat)
    requires Possible(INITIAL, steps + [step], delay)
    ensures Possible(INITIAL, steps, delay) && Enabled(Run(INITIAL, steps, delay), step)
    ensures Run(INITIAL, steps + [step], delay) == Apply(Run(INITIAL, steps, delay), step, delay)
  {
    OneMoreFrom(INITIAL, steps, step, delay);
  }

  lemma {:induction false} OneMoreFrom(s: State, steps: seq<Step>, step: Step, delay: nat)
    requires Possible(s, steps + [step], delay)
    ensures Possible(s, steps, delay) && Enabled(Run(s, steps, delay), step)
    ensures Run(s, steps + [step], delay) == Apply(Run(s, steps, delay), step, delay)
    decreases |steps|
  {
    hide Apply, Enabled;
    var all := steps + [step];
    if steps == [] {
      assert all[1..] == [];
    } else {
      assert all[1..] == steps[1..] + [step];
      OneMoreFrom(Apply(s, steps[0], delay), steps[1..], step, delay);
    }
  }

  lemma TimeNext(steps: seq<Step>, step: Step)
    ensures Time(steps + [step]) == Time(steps) + (if step.Tick? then step.elapsed else 0)
  {
    assert (steps + [step])[..|steps|] == steps;
  }

  lemma {:induction false} TimeGrows(steps: seq<Step>, i: nat)
    requires i <= |steps|
    ensures Time(steps[..i]) <= Time(steps)
  {
    if i < |steps| {
      TimeGrows(steps[..|steps| - 1], i);
      assert steps[..|steps| - 1][..i] == steps[..i];
    } else {
      assert steps[..i] == steps;
    }
  }

  // ---------- the window ----------

  /** The recorded first trigger is the earliest call of the open window. */
  ghost predicate WindowIs(steps: seq<Step>, s: State) {
    && s.now == Time(steps)
    && (s.firstTrigger.None? ==> forall i: nat :: !InWindow(steps, i))
    && (s.firstTrigger.Some? ==>
          && (exists i: nat :: InWindow(steps, i) && Time(steps[..i]) == s.firstTrigger.value)
          && (forall i: nat | InWindow(steps, i) :: Time(steps[..i]) >= s.firstTrigger.value))
  }

  lemma InWindowNext(steps: seq<Step>, step: Step, i: nat)
    ensures InWindow(steps + [step], i) <==> (InWindow(steps, i) && !step.Reset?) || (i == |steps| && step.Lock?)
    ensures i <= |steps| ==> (steps + [step])[..i] == steps[..i]
  {
    var all := steps + [step];
    assert forall j: nat | j < |steps| :: all[j] == steps[j];
    if InWindow(all, i) && i < |steps| {
      assert forall j: nat | i < j < |steps| :: !all[j].Reset?;
      assert !all[|steps|].Reset?;
    }
  }

  lemma WindowNext(steps: seq<Step>, step: Step, s: State, delay: nat)
    requires WindowIs(steps, s) && Enabled(s, step)
    ensures WindowIs(steps + [step], Apply(s, step, delay))
  {
    var all, t := steps + [step], Apply(s, step, delay);
    TimeNext(steps, step);
    forall i: nat
      ensures InWindow(all, i) <==> (InWindow(steps, i) && !step.Reset?) || (i == |steps| && step.Lock?)
      ensures i <= |steps| ==> all[..i] == steps[..i]
    {
      InWindowNext(steps, step, i);
    }
    assert InWindow(all, |steps|) <==> step.Lock?;
    forall i: nat | InWindow(steps, i)
      ensures Time(steps[..i]) <= Time(steps)
    {
      TimeGrows(steps, i);
    }
    assert steps[..|steps|] == steps;
    if s.firstTrigger.Some? && !step.Reset? {
      var i: nat :| InWindow(steps, i) && Time(steps[..i]) == s.firstTrigger.value;
      assert InWindow(all, i) && Time(all[..i]) == s.firstTrigger.value;
    }
    hide Time, InWindow;
  }

  lemma {:induction false} WindowExactly(steps: seq<Step>, delay: nat)
    requires Possible(INITIAL, steps, delay)
    ensures WindowIs(steps, Run(INITIAL, steps, delay))
    decreases |steps|
  {
    if steps != [] {
      var n := |steps| - 1;
      assert steps == steps[..n] + [steps[n]];
      OneMore(steps[..n], steps[n], delay);
      WindowExactly(steps[..n], delay);
      WindowNext(steps[..n], steps[n], Run(INITIAL, steps[..n], delay), delay);
    }
    hide Run, Possible;
  }

  // ---------- the timer ----------

  ghost predicate TimerIs(steps: seq<Step>, s: State, delay: nat) {
    && (s.timer.None? ==> forall k: nat :: !Armed(steps, k))
    && (s.timer.Some? ==> exists k: nat :: Armed(steps, k) && s.timer.value == ArmedFor(steps, k, delay))
  }

  lemma ArmedNext(steps: seq<Step>, step: Step, k: nat)
    ensures Armed(steps + [step], k) <==> (Armed(steps, k) && !step.Lock? && !step.Fire?) || (k == |steps| && step.Lock?)
    ensures k <= |steps| ==> (steps + [step])[..k] == steps[..k]
  {
    var all := steps + [step];
    assert forall j: nat | j < |steps| :: all[j] == steps[j];
    if Armed(all, k) && k < |steps| {
      assert !all[|steps|].Lock? && !all[|steps|].Fire?;
    }
  }

  /** A call arms the timer for the moment that the list of steps says. */
  lemma LockArms(steps: seq<Step>, id: TriggerId, delay: nat)
    requires Possible(INITIAL, steps + [Lock(id)], delay)
    ensures Run(INITIAL, steps + [Lock(id)], delay).timer == Some(Time(steps) + (if AtCap(steps) then 0 else delay))
  {
    OneMore(steps, Lock(id), delay);
    WindowExactly(steps, delay);
    var s := Run(INITIAL, steps, delay);
    hide Run, Possible, InWindow, Time;
    if s.firstTrigger.Some? {
      var i: nat :| InWindow(steps, i) && Time(steps[..i]) == s.firstTrigger.value;
      assert s.now - s.firstTrigger.value >= MAX_DEBOUNCE ==> AtCap(steps);
    }
  }

  lemma {:induction false} TimerExactly(steps: seq<Step>, delay: nat)
    requires Possible(INITIAL, steps, delay)
    ensures TimerIs(steps, Run(INITIAL, steps, delay), delay)
    decreases |steps|
  {
    if steps != [] {
      var n := |steps| - 1;
      var before, step := steps[..n], steps[n];
      assert steps == before + [step];
      OneMore(before, step, delay);
      TimerExactly(before, delay);
      forall k: nat
        ensures Armed(steps, k) <==> (Armed(before, k) && !step.Lock? && !step.Fire?) || (k == n && step.Lock?)
        ensures k <= n ==> steps[..k] == before[..k]
      {
        ArmedNext(before, step, k);
      }
      if step.Lock? {
        LockArms(before, step.id, delay);
        assert Armed(steps, n);
      }
      hide Run, Possible, Armed, AtCap, Time;
    }
  }

  lemma OneArmed(steps: seq<Step>, k: nat, l: nat)
    requires Armed(steps, k) && Armed(steps, l)
    ensures k == l
  {
    assert k < l || l < k || k == l;
  }

  /**
   The timer fires exactly at the moment for which the last call armed it: one delay
   after that call, unless the window had reached the cap by then.
   */
  lemma FiresExactly(steps: seq<Step>, delay: nat)
    requires Possible(INITIAL, steps + [Fire], delay)
    ensures exists k: nat :: Armed(steps, k) && Time(steps) == ArmedFor(steps, k, delay)
  {
    OneMore(steps, Fire, delay);
    TimerExactly(steps, delay);
    WindowExactly(steps, delay);
    RunKeepsInv(INITIAL, steps, delay);
    hide Run, Possible, Armed, ArmedFor, Time;
  }

  /** No call is followed by the timer in less than the delay, unless the window is at the cap when the last call locks. */
  lemma NeverEarly(steps: seq<Step>, delay: nat, i: nat)
    requires Possible(INITIAL, steps + [Fire], delay) && i < |steps| && steps[i].Lock?
    ensures exists k: nat :: i <= k && Armed(steps, k) && (AtCap(steps[..k]) || Time(steps) >= Time(steps[..i]) + delay)
  {
    FiresExactly(steps, delay);
    var k: nat :| Armed(steps, k) && Time(steps) == ArmedFor(steps, k, delay);
    assert i <= k;
    TimeGrows(steps[..k], i);
    assert steps[..k][..i] == steps[..i];
    hide Time, AtCap;
  }

  /** Two calls a short time apart: the second one puts the scan off. */
  lemma SecondCallDefers(delay: nat, gap: nat)
    requires gap < delay && gap < MAX_DEBOUNCE
    ensures var steps := [Look(1), Lock(1), Look(2), Tick(gap), Lock(2)];
      Possible(INITIAL, steps, delay) && Run(INITIAL, steps, delay).timer == Some(gap + delay)
  {
    var s1 := Apply(INITIAL, Look(1), delay);
    var s2 := Apply(s1, Lock(1), delay);
    var s3 := Apply(s2, Look(2), delay);
    var s4 := Apply(s3, Tick(gap), delay);
    Unroll(s4, Lock(2), [], delay);
    Unroll(s3, Tick(gap), [Lock(2)], delay);
    Unroll(s2, Look(2), [Tick(gap)] + [Lock(2)], delay);
    Unroll(s1, Lock(1), [Look(2)] + ([Tick(gap)] + [Lock(2)]), delay);
    Unroll(INITIAL, Look(1), [Lock(1)] + ([Look(2)] + ([Tick(gap)] + [Lock(2)])), delay);
    assert [Look(1)] + ([Lock(1)] + ([Look(2)] + ([Tick(gap)] + [Lock(2)]))) == [Look(1), Lock(1), Look(2), Tick(gap), Lock(2)];
    assert [Lock(2)] + [] == [Lock(2)];
  }
}
