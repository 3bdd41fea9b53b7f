/**
 How the deliverer decides that a /clear was processed and that a paste was
 submitted, from successive captures of the pane.  A capture is abstracted to what
 the code computes from it: the hash of its normalized text, the number of
 non-blank normalized lines, and the markers it looks for.
 */
module DeliveryConfirm {
  import opened Common

  type Hash = string

  datatype Capture =
    | CaptureFailed
    | Seen(hash: Hash, lines: nat, clearText: bool, placeholder: bool, apiError: bool, activity: bool)

  // ---------- what the captures of a /clear say ----------

  const MAX_CAPTURE_ERRORS := 3

  /** A capture that counts towards stability. */
  predicate Clean(c: Capture) {
    c.Seen? && !c.clearText
  }

  predicate SameText(a: Capture, b: Capture) {
    Clean(a) && Clean(b) && a.hash == b.hash
  }

  /** The last k captures are clean and show the same text. */
  ghost predicate StableFor(h: seq<Capture>, k: nat) {
    k <= |h| && forall i | |h| - k <= i < |h| :: SameText(h[i], h[|h| - 1])
  }

  /** The number of failed captures at the end. */
  function FailuresAtEnd(h: seq<Capture>): (k: nat)
    ensures k <= |h|
    ensures forall i | |h| - k <= i < |h| :: h[i].CaptureFailed?
    ensures k < |h| ==> !h[|h| - k - 1].CaptureFailed?
  {
    if h == [] || !h[|h| - 1].CaptureFailed? then 0 else 1 + FailuresAtEnd(h[..|h| - 1])
  }

  /** Some clean capture since the last failed one differs from the text before the /clear. */
  ghost predicate Changed(h: seq<Capture>, before: Hash) {
    exists i :: 0 <= i < |h| && Clean(h[i]) && h[i].hash != before && forall j | i < j < |h| :: h[j].Seen?
  }

  ghost predicate Emptied(h: seq<Capture>) {
    h != [] && Clean(h[|h| - 1]) && h[|h| - 1].lines == 0
  }

  /** What the code takes as proof that the /clear was processed. */
  ghost predicate ClearProcessed(h: seq<Capture>, before: Option<Hash>) {
    match before
    case Some(hash) => StableFor(h, 2) && (Changed(h, hash) || Emptied(h))
    case None => StableFor(h, 3)
  }

  ghost predicate GivesUp(h: seq<Capture>) {
    FailuresAtEnd(h) >= MAX_CAPTURE_ERRORS
  }

  // ---------- the poller ----------

  datatype Poll = Waiting | Confirmed | TooManyErrors | Interrupted

  datatype PollState = PollState(
    stableCount: nat,
    hashChanged: bool,
    substantiveEmpty: bool,
    prevHash: Option<Hash>,
    captureErrors: nat)

  /** The poller's fields are what the whole history of captures says. */
  ghost predicate Tracks(s: PollState, h: seq<Capture>, before: Option<Hash>) {
    && StableFor(h, s.stableCount) && !StableFor(h, s.stableCount + 1)
    && s.captureErrors == FailuresAtEnd(h)
    && s.prevHash == (if h != [] && h[|h| - 1].Seen? then Some(h[|h| - 1].hash) else None)
    && (s.hashChanged <==> before.Some? && Changed(h, before.value))
    && (s.stableCount > 0 ==> (s.substantiveEmpty <==> h[|h| - 1].lines == 0))
  }

  class ClearConfirmationPoller {
    const before: Option<Hash>  // hash of the pane before the /clear, when it could be captured
    var state: PollState
    ghost var history: seq<Capture>

    ghost predicate Valid()
      reads this
    {
      Tracks(state, history, before)
    }

    constructor (pre: Capture)
      ensures Valid() && history == []
      ensures before == if pre.Seen? then Some(pre.hash) else None
    {
      before := if pre.Seen? then Some(pre.hash) else None;
      state := PollState(0, false, false, None, 0);
      history := [];
    }

    method Poll(c: Capture) returns (r: Poll)
      requires Valid()
      modifies this
      ensures Valid() && history == old(history) + [c]
      ensures r == if GivesUp(history) then TooManyErrors else if ClearProcessed(history, before) then Confirmed else Waiting
    {
      hide Tracks, GivesUp, ClearProcessed;
      if c.CaptureFailed? {
        FailedTracked(state, history, c, before);
        state := PollState(0, false, false, None, state.captureErrors + 1);
        history := history + [c];
        TracksDecides(state, history, before);
        if state.captureErrors >= MAX_CAPTURE_ERRORS {
          return TooManyErrors;
        }
        return Waiting;
      }
      if c.clearText {
        VisibleTracked(state, history, c, before);
        state := state.(captureErrors := 0, substantiveEmpty := c.lines == 0, stableCount := 0, prevHash := Some(c.hash));
        history := history + [c];
        TracksDecides(state, history, before);
        return Waiting;
      }
      CleanTracked(state, history, c, before);
      if before.Some? && c.hash != before.value {
        state := state.(hashChanged := true);
      }
      if state.prevHash.Some? && c.hash == state.prevHash.value {
        state := state.(stableCount := state.stableCount + 1);
      } else {
        state := state.(stableCount := 1);
      }
      state := state.(captureErrors := 0, substantiveEmpty := c.lines == 0, prevHash := Some(c.hash));
      history := history + [c];
      TracksDecides(state, history, before);
      r := if IsConfirmed(state, before) then Confirmed else Waiting;
    }
  }

  // ---------- one window of captures ----------

  function Reference(pre: Capture): Option<Hash> {
    if pre.Seen? then Some(pre.hash) else None
  }

  /** None of the first n captures decides. */
  ghost predicate OpenUpTo(cs: seq<Capture>, before: Option<Hash>, n: nat)
    requires n <= |cs|
  {
    forall m: nat | m <= n :: !ClearProcessed(cs[..m], before) && !GivesUp(cs[..m])
  }

  /** The captures up to the n-th prove the /clear processed, and none before decides. */
  ghost predicate ProvenAt(cs: seq<Capture>, before: Option<Hash>, n: nat) {
    0 < n <= |cs| && ClearProcessed(cs[..n], before) && OpenUpTo(cs, before, n - 1)
  }

  /** The n-th capture is the one after which the poller gives up, and none before decides. */
  ghost predicate GivenUpAt(cs: seq<Capture>, before: Option<Hash>, n: nat) {
    0 < n <= |cs| && GivesUp(cs[..n]) && OpenUpTo(cs, before, n - 1)
  }

  /** pollUntilTimeout over the captures that its window admits, until the context is cancelled if `cut`. */
  method PollUntilTimeout(pre: Capture, cs: seq<Capture>, cut: bool) returns (r: Poll)
    ensures r.Confirmed? <==> exists n: nat :: ProvenAt(cs, Reference(pre), n)
    ensures r.TooManyErrors? <==> exists n: nat :: GivenUpAt(cs, Reference(pre), n)
    ensures r.Waiting? <==> OpenUpTo(cs, Reference(pre), |cs|) && !cut
    ensures r.Interrupted? <==> OpenUpTo(cs, Reference(pre), |cs|) && cut
  {
    var poller := new ClearConfirmationPoller(pre);
    hide GivesUp, ClearProcessed;
    NothingYet(cs, Reference(pre));
    for k := 0 to |cs|
      invariant poller.Valid() && poller.before == Reference(pre) && poller.history == cs[..k]
      invariant OpenUpTo(cs, Reference(pre), k)
      invariant fresh(poller)
    {
      r := poller.Poll(cs[k]);
      assert cs[..k] + [cs[k]] == cs[..k + 1];
      if !r.Waiting? {
        OneAnswer(cs, Reference(pre), k + 1);
        return;
      }
    }
    StillOpen(cs, Reference(pre));
    r := if cut then Interrupted else Waiting;
  }

  lemma NothingYet(cs: seq<Capture>, before: Option<Hash>)
    ensures OpenUpTo(cs, before, 0) && cs[..0] == []
  {}

  lemma StillOpen(cs: seq<Capture>, before: Option<Hash>)
    requires OpenUpTo(cs, before, |cs|)
    ensures forall n: nat :: !ProvenAt(cs, before, n) && !GivenUpAt(cs, before, n)
  {
    hide GivesUp, ClearProcessed;
  }

  /** A decisive capture leaves exactly one answer. */
  lemma OneAnswer(cs: seq<Capture>, before: Option<Hash>, n: nat)
    requires 0 < n <= |cs| && OpenUpTo(cs, before, n - 1) && (ClearProcessed(cs[..n], before) || GivesUp(cs[..n]))
    ensures !OpenUpTo(cs, before, |cs|)
    ensures ClearProcessed(cs[..n], before) <==> !GivesUp(cs[..n])
    ensures (exists m: nat :: ProvenAt(cs, before, m)) <==> ClearProcessed(cs[..n], before)
    ensures (exists m: nat :: GivenUpAt(cs, before, m)) <==> GivesUp(cs[..n])
  {
    NotBoth(cs[..n], before);
    hide GivesUp, ClearProcessed;
    if exists m: nat :: ProvenAt(cs, before, m) {
      var m: nat :| ProvenAt(cs, before, m);
      assert m < n || n < m || m == n;
    }
    if exists m: nat :: GivenUpAt(cs, before, m) {
      var m: nat :| GivenUpAt(cs, before, m);
      assert m < n || n < m || m == n;
    }
    assert ClearProcessed(cs[..n], before) ==> ProvenAt(cs, before, n);
    assert GivesUp(cs[..n]) ==> GivenUpAt(cs, before, n);
  }

  lemma NotBoth(h: seq<Capture>, before: Option<Hash>)
    requires h != []
    ensures !(ClearProcessed(h, before) && GivesUp(h))
  {
    if GivesUp(h) {
      assert h[|h| - 1].CaptureFailed?;
    }
    hide GivesUp, Changed, Emptied;
  }

  /** The same clean text over and over: when it proves the /clear, and when it never does. */
  lemma SteadyTextProves(cs: seq<Capture>, before: Option<Hash>, c: Capture, n: nat)
    requires Clean(c) && forall i | 0 <= i < |cs| :: cs[i] == c
    ensures ProvenAt(cs, before, n) <==>
      n <= |cs| && if before.None? then n == 3 else n == 2 && (c.hash != before.value || c.lines == 0)
  {
    forall m: nat | m <= |cs|
      ensures !GivesUp(cs[..m])
      ensures ClearProcessed(cs[..m], before) <==>
        if before.None? then m >= 3 else m >= 2 && (c.hash != before.value || c.lines == 0)
    {
      SteadyPrefix(cs[..m], before, c);
    }
    hide ClearProcessed, GivesUp;
    if 0 < n <= |cs| {
      var least: nat := if before.None? then 3 else 2;
      assert n > least && ClearProcessed(cs[..n], before) ==> ClearProcessed(cs[..least], before) && !OpenUpTo(cs, before, n - 1);
    }
  }

  lemma SteadyPrefix(h: seq<Capture>, before: Option<Hash>, c: Capture)
    requires Clean(c) && forall i | 0 <= i < |h| :: h[i] == c
    ensures !GivesUp(h)
    ensures ClearProcessed(h, before) <==>
      if before.None? then |h| >= 3 else |h| >= 2 && (c.hash != before.value || c.lines == 0)
  {
    if h != [] && before.Some? && c.hash != before.value {
      assert Clean(h[|h| - 1]) && h[|h| - 1].hash != before.value;
    }
    assert forall k: nat | k <= |h| :: StableFor(h, k);
  }

  /** Three failed captures in a row, and no fewer, make the poller give up. */
  lemma FailuresGiveUp(cs: seq<Capture>, before: Option<Hash>, n: nat)
    requires forall i | 0 <= i < |cs| :: cs[i].CaptureFailed?
    ensures GivenUpAt(cs, before, n) <==> n == 3 && n <= |cs|
  {
    forall m: nat | m <= |cs|
      ensures GivesUp(cs[..m]) <==> m >= 3
      ensures !ClearProcessed(cs[..m], before)
    {
      FailedPrefix(cs[..m], before);
    }
    hide ClearProcessed, GivesUp;
    assert 3 < n <= |cs| ==> GivesUp(cs[..3]) && !OpenUpTo(cs, before, n - 1);
  }

  lemma FailedPrefix(h: seq<Capture>, before: Option<Hash>)
    requires forall i | 0 <= i < |h| :: h[i].CaptureFailed?
    ensures GivesUp(h) <==> |h| >= 3
    ensures !ClearProcessed(h, before)
  {
    var k := FailuresAtEnd(h);
    assert k == |h|;
  }

  // ---------- clearAndConfirm ----------

  /** What one attempt meets: cancellation before it, the first capture, the send, the window and its cancellation. */
  datatype Attempt = Attempt(cancelled: bool, pre: Capture, sent: bool, captures: seq<Capture>, cut: bool)

  datatype ClearEnd = ClearConfirmed | ClearNotConfirmed | ClearSendFailed | CaptureGaveUp | ClearCancelled

  ghost predicate Undecided(a: Attempt) {
    OpenUpTo(a.captures, Reference(a.pre), |a.captures|)
  }

  /** The attempt makes way for the next one: its /clear was not sent, or its whole window decided nothing. */
  ghost predicate GoesOn(a: Attempt) {
    !a.cancelled && (a.sent ==> Undecided(a) && !a.cut)
  }

  ghost predicate ConfirmedBy(a: Attempt) {
    !a.cancelled && a.sent && exists n: nat :: ProvenAt(a.captures, Reference(a.pre), n)
  }

  ghost predicate GivenUpBy(a: Attempt) {
    !a.cancelled && a.sent && exists n: nat :: GivenUpAt(a.captures, Reference(a.pre), n)
  }

  ghost predicate CancelledIn(a: Attempt) {
    a.cancelled || (a.sent && Undecided(a) && a.cut)
  }

  /** Every attempt before k makes way for the next one. */
  ghost predicate Reaches(attempts: seq<Attempt>, k: nat) {
    k <= |attempts| && forall j: nat | j < k :: GoesOn(attempts[j])
  }

  ghost predicate Exhausts(attempts: seq<Attempt>) {
    Reaches(attempts, |attempts|)
  }

  /**
   One element of `attempts` for each of the configured maximum of attempts.  The
   first attempt that does not make way for the next one decides the end; when all
   do, the last one does.
   */
  method ClearAndConfirm(attempts: seq<Attempt>) returns (end: ClearEnd, sends: nat)
    ensures end.ClearConfirmed? <==> exists k: nat :: k < |attempts| && Reaches(attempts, k) && ConfirmedBy(attempts[k])
    ensures end.CaptureGaveUp? <==> exists k: nat :: k < |attempts| && Reaches(attempts, k) && GivenUpBy(attempts[k])
    ensures end.ClearCancelled? <==> exists k: nat :: k < |attempts| && Reaches(attempts, k) && CancelledIn(attempts[k])
    ensures end.ClearSendFailed? <==> Exhausts(attempts) && attempts != [] && !attempts[|attempts| - 1].sent
    ensures end.ClearNotConfirmed? <==> Exhausts(attempts) && (attempts == [] || attempts[|attempts| - 1].sent)
    ensures Exhausts(attempts) ==> sends == |attempts|
    ensures forall k: nat | k < |attempts| && Reaches(attempts, k) && !GoesOn(attempts[k]) ::
      sends == if attempts[k].cancelled then k else k + 1
  {
    hide OpenUpTo, ProvenAt, GivenUpAt;
    end, sends := ClearNotConfirmed, 0;
    for i := 0 to |attempts|
      invariant Reaches(attempts, i) && sends == i
      invariant end == if i > 0 && !attempts[i - 1].sent then ClearSendFailed else ClearNotConfirmed
    {
      var a := attempts[i];
      if a.cancelled {
        OnlyEnd(attempts, i);
        return ClearCancelled, sends;
      }
      sends := sends + 1;
      if !a.sent {
        end := ClearSendFailed;
        continue;
      }
      var r := PollUntilTimeout(a.pre, a.captures, a.cut);
      match r {
        case Confirmed =>
          OnlyEnd(attempts, i);
          return ClearConfirmed, sends;
        case TooManyErrors =>
          OnlyEnd(attempts, i);
          return CaptureGaveUp, sends;
        case Interrupted =>
          OnlyEnd(attempts, i);
          return ClearCancelled, sends;
        case Waiting => end := ClearNotConfirmed;
      }
    }
    AllWentOn(attempts);
  }

  /** An attempt ends the loop in exactly one way, or makes way for the next one. */
  lemma OneWay(a: Attempt)
    ensures GoesOn(a) <==> !ConfirmedBy(a) && !GivenUpBy(a) && !CancelledIn(a)
    ensures !(ConfirmedBy(a) && GivenUpBy(a)) && !(ConfirmedBy(a) && CancelledIn(a)) && !(GivenUpBy(a) && CancelledIn(a))
  {
    var cs, before := a.captures, Reference(a.pre);
    if Undecided(a) {
      StillOpen(cs, before);
    } else {
      var n := FirstDecisive(cs, before);
      OneAnswer(cs, before, n);
    }
    hide OpenUpTo, ProvenAt, GivenUpAt, GivesUp, ClearProcessed;
  }

  lemma FirstDecisive(cs: seq<Capture>, before: Option<Hash>) returns (n: nat)
    requires !OpenUpTo(cs, before, |cs|)
    ensures 0 < n <= |cs| && OpenUpTo(cs, before, n - 1) && (ClearProcessed(cs[..n], before) || GivesUp(cs[..n]))
  {
    hide ClearProcessed, GivesUp;
    NothingYet(cs, before);
    n := 1;
    while OpenUpTo(cs, before, n)
      invariant 0 < n <= |cs| && OpenUpTo(cs, before, n - 1)
      decreases |cs| - n
    {
      n := n + 1;
    }
  }

  /** No other attempt is reached and does not go on. */
  lemma OnlyEnd(attempts: seq<Attempt>, i: nat)
    requires i < |attempts| && Reaches(attempts, i) && !GoesOn(attempts[i])
    ensures !Exhausts(attempts)
    ensures forall k: nat | k < |attempts| && Reaches(attempts, k) && !GoesOn(attempts[k]) :: k == i
    ensures forall k: nat | k < |attempts| && Reaches(attempts, k)
      && (ConfirmedBy(attempts[k]) || GivenUpBy(attempts[k]) || CancelledIn(attempts[k])) :: k == i
    ensures !(ConfirmedBy(attempts[i]) && GivenUpBy(attempts[i])) && !(ConfirmedBy(attempts[i]) && CancelledIn(attempts[i]))
      && !(GivenUpBy(attempts[i]) && CancelledIn(attempts[i]))
  {
    hide GoesOn, ConfirmedBy, GivenUpBy, CancelledIn;
    forall k: nat | k < |attempts|
      ensures GoesOn(attempts[k]) <==> !ConfirmedBy(attempts[k]) && !GivenUpBy(attempts[k]) && !CancelledIn(attempts[k])
    {
      OneWay(attempts[k]);
    }
    OneWay(attempts[i]);
  }

  lemma AllWentOn(attempts: seq<Attempt>)
    requires Exhausts(attempts)
    ensures forall k: nat | k < |attempts| ::
      GoesOn(attempts[k]) && !ConfirmedBy(attempts[k]) && !GivenUpBy(attempts[k]) && !CancelledIn(attempts[k])
  {
    hide GoesOn, ConfirmedBy, GivenUpBy, CancelledIn;
    forall k: nat | k < |attempts|
      ensures GoesOn(attempts[k]) && !ConfirmedBy(attempts[k]) && !GivenUpBy(attempts[k]) && !CancelledIn(attempts[k])
    {
      OneWay(attempts[k]);
    }
  }

  // ---------- the fields of the poller ----------

  predicate IsConfirmed(s: PollState, before: Option<Hash>) {
    if before.Some? then (s.hashChanged || s.substantiveEmpty) && s.stableCount >= 2 else s.stableCount >= 3
  }

  /** The fields decide exactly what the history says. */
  lemma TracksDecides(s: PollState, h: seq<Capture>, before: Option<Hash>)
    requires Tracks(s, h, before)
    ensures GivesUp(h) <==> s.captureErrors >= MAX_CAPTURE_ERRORS
    ensures ClearProcessed(h, before) <==> IsConfirmed(s, before)
  {
    StableExactly(h, s.stableCount);
    hide StableFor, Changed, FailuresAtEnd;
  }

  /** A longest stable run determines which runs are stable. */
  lemma StableExactly(h: seq<Capture>, n: nat)
    requires StableFor(h, n) && !StableFor(h, n + 1)
    ensures forall k: nat :: StableFor(h, k) <==> k <= n
  {}

  lemma FailedTracked(s: PollState, h: seq<Capture>, c: Capture, before: Option<Hash>)
    requires Tracks(s, h, before) && c.CaptureFailed?
    ensures Tracks(PollState(0, false, false, None, s.captureErrors + 1), h + [c], before)
  {
    StableNext(h, c, s.stableCount);
    FailuresNext(h, c);
    if before.Some? {
      ChangedNext(h, c, before.value);
    }
    hide StableFor, Changed, FailuresAtEnd;
  }

  lemma VisibleTracked(s: PollState, h: seq<Capture>, c: Capture, before: Option<Hash>)
    requires Tracks(s, h, before) && c.Seen? && c.clearText
    ensures Tracks(
      s.(captureErrors := 0, substantiveEmpty := c.lines == 0, stableCount := 0, prevHash := Some(c.hash)), h + [c], before)
  {
    StableNext(h, c, s.stableCount);
    FailuresNext(h, c);
    if before.Some? {
      ChangedNext(h, c, before.value);
    }
    hide StableFor, Changed, FailuresAtEnd;
  }

  lemma CleanTracked(s: PollState, h: seq<Capture>, c: Capture, before: Option<Hash>)
    requires Tracks(s, h, before) && Clean(c)
    ensures Tracks(
      PollState(
        if s.prevHash == Some(c.hash) then s.stableCount + 1 else 1,
        s.hashChanged || (before.Some? && c.hash != before.value),
        c.lines == 0, Some(c.hash), 0),
      h + [c], before)
  {
    StableNext(h, c, s.stableCount);
    FailuresNext(h, c);
    if before.Some? {
      ChangedNext(h, c, before.value);
    }
    assert s.prevHash == Some(c.hash) && s.stableCount == 0 ==> !Clean(h[|h| - 1]);
    hide Changed, FailuresAtEnd;
  }

  lemma StableNext(h: seq<Capture>, c: Capture, k: nat)
    requires StableFor(h, k) && !StableFor(h, k + 1)
    ensures var t := h + [c];
      var n := if !Clean(c) then 0
               else if k > 0 && SameText(h[|h| - 1], c) then k + 1
               else 1;
      StableFor(t, n) && !StableFor(t, n + 1)
  {
    var t := h + [c];
    assert t[|t| - 1] == c;
    assert forall i | 0 <= i < |h| :: t[i] == h[i];
    if Clean(c) && h != [] {
      assert t[|t| - 2] == h[|h| - 1];
    }
  }

  lemma FailuresNext(h: seq<Capture>, c: Capture)
    ensures FailuresAtEnd(h + [c]) == if c.CaptureFailed? then FailuresAtEnd(h) + 1 else 0
  {
    assert (h + [c])[..|h|] == h;
  }

  lemma ChangedNext(h: seq<Capture>, c: Capture, before: Hash)
    ensures Changed(h + [c], before) <==> c.Seen? && (Changed(h, before) || (Clean(c) && c.hash != before))
  {
    var t := h + [c];
    assert forall i | 0 <= i < |h| :: t[i] == h[i];
    assert t[|h|] == c;
    if c.Seen? && Changed(h, before) {
      var i :| 0 <= i < |h| && Clean(h[i]) && h[i].hash != before && forall j | i < j < |h| :: h[j].Seen?;
      assert Clean(t[i]) && t[i].hash != before && forall j | i < j < |t| :: t[j].Seen?;
    }
    if Changed(t, before) {
      var i :| 0 <= i < |t| && Clean(t[i]) && t[i].hash != before && forall j | i < j < |t| :: t[j].Seen?;
      assert i < |h| ==> Clean(h[i]) && forall j | i < j < |h| :: h[j].Seen?;
    }
  }

  // ---------- the submit probe ----------

  datatype Baseline = Baseline(hash: Hash, lines: nat)

  datatype Probe = Submitted | Resubmitted | AgentError | ProbeCaptureFailed | Exhausted | ResendFailed

  datatype ProbeResult = ProbeResult(status: Probe, attempts: nat, resends: nat)

  /** Growth beyond the baseline: other text, and more of it. */
  predicate Grew(c: Capture, base: Option<Baseline>) {
    c.Seen? && base.Some? && c.hash != base.value.hash && c.lines > base.value.lines
  }

  /** A sample that leaves the question open. */
  predicate Quiet(c: Capture, base: Option<Baseline>) {
    c.Seen? && !c.placeholder && !c.apiError && !c.activity && !Grew(c, base)
  }

  /** The baseline in force when sample i is taken. */
  ghost function BaselineAt(pre: Option<Baseline>, samples: seq<Capture>, i: nat): Option<Baseline>
    requires i <= |samples|
  {
    if i == 0 then pre
    else
      var c := samples[i - 1];
      if c.CaptureFailed? || c.placeholder then None
      else
        var base := BaselineAt(pre, samples, i - 1);
        if base.Some? then base else Some(Baseline(c.hash, c.lines))
  }

  /** The samples before i neither decide nor fail; the Enter sent for each placeholder gets through. */
  ghost predicate Open(pre: Option<Baseline>, samples: seq<Capture>, enterOk: seq<bool>, i: nat)
    requires i <= |samples| <= |enterOk|
  {
    forall j | 0 <= j < i ::
      samples[j].Seen? && if samples[j].placeholder then enterOk[j] else Quiet(samples[j], BaselineAt(pre, samples, j))
  }

  function Placeholders(samples: seq<Capture>): (n: nat)
    ensures n <= |samples|
    ensures n == 0 <==> forall c | c in samples :: c.Seen? ==> !c.placeholder
  {
    if samples == [] then 0
    else
      var c := samples[|samples| - 1];
      var n := Placeholders(samples[..|samples| - 1]);
      assert samples == samples[..|samples| - 1] + [c];
      if c.Seen? && c.placeholder then n + 1 else n
  }

  /** Positive evidence: neither the placeholder nor the error banner, and activity or growth over the baseline. */
  predicate Confirms(c: Capture, base: Option<Baseline>) {
    c.Seen? && !c.placeholder && !c.apiError && (c.activity || Grew(c, base))
  }

  /** The probe ended at sample i, having resent Enter for every placeholder before it. */
  ghost predicate EndedAt(pre: Option<Baseline>, samples: seq<Capture>, enterOk: seq<bool>, r: ProbeResult, i: nat)
    requires i <= |samples| <= |enterOk|
  {
    Open(pre, samples, enterOk, i) && r.resends == Placeholders(samples[..i])
  }

  /** What the deciding sample shows for each way the probe can end early. */
  predicate Decides(status: Probe, c: Capture, enterOk: bool, base: Option<Baseline>, resends: nat) {
    match status
    case ProbeCaptureFailed => c.CaptureFailed?
    case ResendFailed => c.Seen? && c.placeholder && !enterOk
    case AgentError => c.Seen? && !c.placeholder && c.apiError
    case Submitted => Confirms(c, base) && resends == 0
    case Resubmitted => Confirms(c, base) && resends > 0
    case Exhausted => false
  }

  ghost predicate ProbeSound(pre: Option<Baseline>, samples: seq<Capture>, enterOk: seq<bool>, r: ProbeResult)
    requires |samples| <= |enterOk|
  {
    if r.status.Exhausted? then r.attempts == |samples| && EndedAt(pre, samples, enterOk, r, |samples|)
    else
      && 0 < r.attempts <= |samples|
      && var i := r.attempts - 1;
      && EndedAt(pre, samples, enterOk, r, i)
      && Decides(r.status, samples[i], enterOk[i], BaselineAt(pre, samples, i), r.resends)
  }

  lemma EndsHere(pre: Option<Baseline>, samples: seq<Capture>, enterOk: seq<bool>, i: nat, status: Probe, resends: nat)
    requires i < |samples| <= |enterOk| && Open(pre, samples, enterOk, i) && resends == Placeholders(samples[..i])
    requires Decides(status, samples[i], enterOk[i], BaselineAt(pre, samples, i), resends)
    ensures ProbeSound(pre, samples, enterOk, ProbeResult(status, i + 1, resends))
  {
    hide Open, Placeholders, BaselineAt;
  }

  lemma OpenNext(pre: Option<Baseline>, samples: seq<Capture>, enterOk: seq<bool>, i: nat)
    requires i < |samples| <= |enterOk| && Open(pre, samples, enterOk, i)
    requires var c := samples[i];
      c.Seen? && if c.placeholder then enterOk[i] else Quiet(c, BaselineAt(pre, samples, i))
    ensures Open(pre, samples, enterOk, i + 1)
  {
    hide Quiet, BaselineAt;
  }

  lemma BaselineNext(pre: Option<Baseline>, samples: seq<Capture>, i: nat)
    requires i < |samples|
    ensures BaselineAt(pre, samples, i + 1) ==
      var c := samples[i];
      if c.CaptureFailed? || c.placeholder then None
      else if BaselineAt(pre, samples, i).Some? then BaselineAt(pre, samples, i)
      else Some(Baseline(c.hash, c.lines))
  {}

  lemma PlaceholdersNext(samples: seq<Capture>, i: nat)
    requires i < |samples|
    ensures Placeholders(samples[..i + 1]) ==
      Placeholders(samples[..i]) + (if samples[i].Seen? && samples[i].placeholder then 1 else 0)
  {
    assert samples[..i + 1][..i] == samples[..i];
  }

  /** confirmClaudeSubmittedOrRetry; one sample for each of the configured attempts. */
  method ConfirmSubmitted(pre: Option<Baseline>, samples: seq<Capture>, enterOk: seq<bool>) returns (r: ProbeResult)
    requires |samples| <= |enterOk|
    ensures ProbeSound(pre, samples, enterOk, r)
  {
    var retried := false;
    var haveBaseline := pre.Some?;
    var baseline := if pre.Some? then pre.value else Baseline("", 0);
    var sentEnters: nat := 0;
    for i := 0 to |samples|
      invariant Open(pre, samples, enterOk, i)
      invariant BaselineAt(pre, samples, i) == if haveBaseline then Some(baseline) else None
      invariant sentEnters == Placeholders(samples[..i]) && (retried <==> sentEnters > 0)
    {
      hide Open, Placeholders, BaselineAt, ProbeSound;
      var c := samples[i];
      PlaceholdersNext(samples, i);
      BaselineNext(pre, samples, i);
      if c.CaptureFailed? {
        EndsHere(pre, samples, enterOk, i, ProbeCaptureFailed, sentEnters);
        return ProbeResult(ProbeCaptureFailed, i + 1, sentEnters);
      }
      if c.placeholder {
        if !enterOk[i] {
          EndsHere(pre, samples, enterOk, i, ResendFailed, sentEnters);
          return ProbeResult(ResendFailed, i + 1, sentEnters);
        }
        sentEnters := sentEnters + 1;
        retried := true;
        haveBaseline := false;
        OpenNext(pre, samples, enterOk, i);
        continue;
      }
      if c.apiError {
        EndsHere(pre, samples, enterOk, i, AgentError, sentEnters);
        return ProbeResult(AgentError, i + 1, sentEnters);
      }
      var success := if retried then Resubmitted else Submitted;
      if c.activity {
        EndsHere(pre, samples, enterOk, i, success, sentEnters);
        return ProbeResult(success, i + 1, sentEnters);
      }
      if !haveBaseline {
        baseline := Baseline(c.hash, c.lines);
        haveBaseline := true;
        OpenNext(pre, samples, enterOk, i);
        continue;
      }
      if c.hash != baseline.hash && c.lines > baseline.lines {
        EndsHere(pre, samples, enterOk, i, success, sentEnters);
        return ProbeResult(success, i + 1, sentEnters);
      }
      OpenNext(pre, samples, enterOk, i);
    }
    assert samples[..|samples|] == samples;
    r := ProbeResult(Exhausted, |samples|, sentEnters);
  }

  lemma OpenBefore(pre: Option<Baseline>, samples: seq<Capture>, enterOk: seq<bool>, i: nat)
    requires 0 < i <= |samples| <= |enterOk| && Open(pre, samples, enterOk, i)
    ensures samples[i - 1].Seen? && Open(pre, samples, enterOk, i - 1)
  {
    hide Quiet, BaselineAt;
  }

  lemma BaselineStart(pre: Option<Baseline>, samples: seq<Capture>)
    ensures BaselineAt(pre, samples, 0) == pre
  {}

  /**
   Where the baseline comes from: after the last Enter it is the first sample taken
   since; without an Enter it is the capture before the paste, or else the first sample.
   */
  lemma {:induction false} BaselineOrigin(
      pre: Option<Baseline>, samples: seq<Capture>, enterOk: seq<bool>, i: nat, start: nat)
    requires start <= i <= |samples| <= |enterOk| && Open(pre, samples, enterOk, i)
    requires forall j | start <= j < i :: samples[j].Seen? ==> !samples[j].placeholder
    requires start > 0 ==> samples[start - 1].Seen? && samples[start - 1].placeholder
    ensures start < i ==> samples[start].Seen?
    ensures var base := BaselineAt(pre, samples, i);
      if start == 0 && pre.Some? then base == pre
      else if i == start then base.None?
      else base == Some(Baseline(samples[start].hash, samples[start].lines))
    decreases i
  {
    hide Open, BaselineAt, Quiet;
    BaselineStart(pre, samples);
    if i > 0 {
      OpenBefore(pre, samples, enterOk, i);
      BaselineNext(pre, samples, i - 1);
      if i > start {
        BaselineOrigin(pre, samples, enterOk, i - 1, start);
      }
    }
  }
}
