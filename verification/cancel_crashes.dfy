/**
 Synthetic results over whole runs with crashes.  Queue files and result files are
 separate writes, one per worker: pending tasks have their results written before
 the queues are flushed, collected tasks after.  An exact account of what a crash
 in between leaves behind, and of the runs that it leaves unharmed.
 */
module CancelCrashes {
  import opened Common
  import opened CancelModel
  import opened CancelSafety

  /** Of each worker in `flushed` the rows after, of all others the rows before. */
  function Mixed(rows: seq<Task>, after: seq<Task>, flushed: set<WorkerId>): (r: seq<Task>)
    requires |after| == |rows|
    ensures |r| == |rows|
  {
    seq(|rows|, i requires 0 <= i < |rows| => if rows[i].worker in flushed then after[i] else rows[i])
  }

  /** The result of one row, if it gets cancelled and the result file of its worker is written. */
  function Part(t: Task, u: Task, written: set<WorkerId>): multiset<Synthetic> {
    if !t.status.Cancelled? && u.status.Cancelled? && u.worker in written then ResultOf(u) else multiset{}
  }

  /** The results of the rows that get cancelled, in the result files of these workers. */
  ghost function Gain(rows: seq<Task>, after: seq<Task>, written: set<WorkerId>): multiset<Synthetic>
    requires |after| == |rows|
  {
    if rows == [] then multiset{}
    else
      var n := |rows| - 1;
      Gain(rows[..n], after[..n], written) + Part(rows[n], after[n], written)
  }

  ghost predicate GainedBy(rows: seq<Task>, after: seq<Task>, written: set<WorkerId>, i: nat, x: Synthetic)
    requires |after| == |rows|
  {
    i < |rows| && x in Part(rows[i], after[i], written)
  }

  lemma {:induction false} GainMember(rows: seq<Task>, after: seq<Task>, written: set<WorkerId>, x: Synthetic)
    requires |after| == |rows|
    ensures x in Gain(rows, after, written) <==> exists i: nat :: GainedBy(rows, after, written, i, x)
  {
    hide Part;
    if rows == [] {
    } else {
      var n := |rows| - 1;
      var rest, restAfter := rows[..n], after[..n];
      GainMember(rest, restAfter, written, x);
      if exists i: nat :: GainedBy(rest, restAfter, written, i, x) {
        var i: nat :| GainedBy(rest, restAfter, written, i, x);
        assert GainedBy(rows, after, written, i, x);
      }
      if exists i: nat :: GainedBy(rows, after, written, i, x) {
        var i: nat :| GainedBy(rows, after, written, i, x);
        assert i < n ==> GainedBy(rest, restAfter, written, i, x);
      }
      assert x in Part(rows[n], after[n], written) ==> GainedBy(rows, after, written, n, x);
    }
  }

  lemma SumsBalance<T>(a: multiset<T>, b: multiset<T>, c: multiset<T>, d: multiset<T>,
                       p: multiset<T>, q: multiset<T>, r: multiset<T>, s: multiset<T>)
    requires a + b == c + d && p + q == r + s
    ensures (a + p) + (b + q) == (c + r) + (d + s)
  {
    assert (a + p) + (b + q) == (a + b) + (p + q);
    assert (c + r) + (d + s) == (c + d) + (r + s);
  }

  /** What is in the queues and not in the results, and the other way round. */
  lemma {:induction false} GainBalance(rows: seq<Task>, after: seq<Task>, flushed: set<WorkerId>, written: set<WorkerId>)
    requires |after| == |rows|
    ensures Gain(rows, after, written) + Gain(rows, after, flushed - written)
         == Gain(rows, after, flushed) + Gain(rows, after, written - flushed)
  {
    if rows != [] {
      var n := |rows| - 1;
      var f, w := flushed, written;
      GainBalance(rows[..n], after[..n], f, w);
      SumsBalance(
        Gain(rows[..n], after[..n], w), Gain(rows[..n], after[..n], f - w), Gain(rows[..n], after[..n], f), Gain(rows[..n], after[..n], w - f),
        Part(rows[n], after[n], w), Part(rows[n], after[n], f - w), Part(rows[n], after[n], f), Part(rows[n], after[n], w - f));
    }
  }

  /** Cancelled rows stay what they are, and no row changes its worker. */
  ghost predicate KeepsCancelled(rows: seq<Task>, after: seq<Task>) {
    && |after| == |rows|
    && forall i | 0 <= i < |rows| ::
         after[i].worker == rows[i].worker && (rows[i].status.Cancelled? ==> after[i] == rows[i])
  }

  lemma {:induction false} MixedShown(rows: seq<Task>, after: seq<Task>, flushed: set<WorkerId>)
    requires KeepsCancelled(rows, after)
    ensures Shown(Mixed(rows, after, flushed)) == Shown(rows) + Gain(rows, after, flushed)
  {
    hide Part, Shown, Mixed, Gain;
    if rows == [] {
      MixedNone(after, flushed);
    } else {
      var n := |rows| - 1;
      MixedShown(rows[..n], after[..n], flushed);
      MixedNext(rows, after, flushed);
    }
  }

  lemma MixedNone(after: seq<Task>, flushed: set<WorkerId>)
    requires after == []
    ensures Shown(Mixed([], after, flushed)) == Shown([]) + Gain([], after, flushed)
  {
    assert Mixed([], after, flushed) == [];
  }

  lemma MixedNext(rows: seq<Task>, after: seq<Task>, flushed: set<WorkerId>)
    requires KeepsCancelled(rows, after) && rows != []
    ensures var n := |rows| - 1; var p := Part(rows[n], after[n], flushed);
      && Shown(rows) == Shown(rows[..n]) + ShownAt(rows[n])
      && Gain(rows, after, flushed) == Gain(rows[..n], after[..n], flushed) + p
      && Shown(Mixed(rows, after, flushed)) == Shown(Mixed(rows[..n], after[..n], flushed)) + (ShownAt(rows[n]) + p)
  {
    var n := |rows| - 1;
    var mixed := Mixed(rows, after, flushed);
    assert mixed[..n] == Mixed(rows[..n], after[..n], flushed);
    MixedAt(rows, after, flushed, n);
    hide Mixed;
    assert ShownAt(mixed[n]) == ShownAt(rows[n]) + Part(rows[n], after[n], flushed);
  }

  function ShownAt(t: Task): multiset<Synthetic> {
    if t.status.Cancelled? then ResultOf(t) else multiset{}
  }

  lemma MixedAt(rows: seq<Task>, after: seq<Task>, flushed: set<WorkerId>, i: nat)
    requires |after| == |rows| && i < |rows|
    ensures Mixed(rows, after, flushed)[i] == if rows[i].worker in flushed then after[i] else rows[i]
  {}

  function Workers(rows: seq<Task>): set<WorkerId> {
    set t | t in rows :: t.worker
  }

  // ---------- runs ----------

  /** A cut scan names the workers whose queue file is flushed and those whose result file is written. */
  datatype Event =
    | ScanEvent(cmd: CommandId, between: seq<Move>)
    | CutInPhaseA(cmd: CommandId, written: set<WorkerId>, flushed: set<WorkerId>)
    | CutInPhaseC(cmd: CommandId, between: seq<Move>, flushed: set<WorkerId>, written: set<WorkerId>)
    | MoveEvent(m: Move)

  function Met(s: State, cmd: CommandId, between: seq<Move>): seq<Task> {
    MoveAll(CancelPending(s, cmd).rows, between)
  }

  ghost function Step(s: State, e: Event): (r: State)
    ensures |r.rows| == |s.rows|
  {
    match e
    case ScanEvent(cmd, between) => CancelScan(s, cmd, between)
    case CutInPhaseA(cmd, written, flushed) =>
      var after := CancelPending(s, cmd).rows;
      State(Mixed(s.rows, after, flushed), {}, s.results + Gain(s.rows, after, written))
    case CutInPhaseC(cmd, between, flushed, written) =>
      var met, after := Met(s, cmd, between), CancelScan(s, cmd, between).rows;
      State(Mixed(met, after, flushed), {}, CancelPending(s, cmd).results + Gain(met, after, written))
    case MoveEvent(m) => s.(rows := MoveRows(s.rows, m))
  }

  /** The order of the writes: in phase A all results come before the queues, in phase C all queues before the results. */
  ghost predicate Possible(s: State, e: Event) {
    match e
    case CutInPhaseA(_, written, flushed) => flushed != {} ==> Workers(s.rows) <= written
    case CutInPhaseC(_, _, flushed, written) => written != {} ==> Workers(s.rows) <= flushed
    case _ => true
  }

  /** Results written for tasks that the queues do not show cancelled. */
  ghost function Extra(s: State, e: Event): multiset<Synthetic> {
    if e.CutInPhaseA? then Gain(s.rows, CancelPending(s, e.cmd).rows, e.written - e.flushed) else multiset{}
  }

  /** Results not written for tasks that the queues do show cancelled. */
  ghost function Missing(s: State, e: Event): multiset<Synthetic> {
    if e.CutInPhaseC?
    then Gain(Met(s, e.cmd, e.between), CancelScan(s, e.cmd, e.between).rows, e.flushed - e.written) else multiset{}
  }

  ghost function Run(s: State, es: seq<Event>): State
    decreases |es|
  {
    if es == [] then s else Run(Step(s, es[0]), es[1..])
  }

  ghost predicate PossibleRun(s: State, es: seq<Event>)
    decreases |es|
  {
    es != [] ==> Possible(s, es[0]) && PossibleRun(Step(s, es[0]), es[1..])
  }

  ghost function RunExtra(s: State, es: seq<Event>): multiset<Synthetic>
    decreases |es|
  {
    if es == [] then multiset{} else Extra(s, es[0]) + RunExtra(Step(s, es[0]), es[1..])
  }

  ghost function RunMissing(s: State, es: seq<Event>): multiset<Synthetic>
    decreases |es|
  {
    if es == [] then multiset{} else Missing(s, es[0]) + RunMissing(Step(s, es[0]), es[1..])
  }

  // ---------- rows ----------

  /** What any event may do to a row: no epoch goes back, no terminal row changes, and running needs a new epoch. */
  ghost predicate RowStep(t: Task, u: Task) {
    && SameRow(u, t) && u.epoch >= t.epoch
    && (IsTerminal(t.status) ==> u == t)
    && (u.status.InProgress? && u.epoch == t.epoch ==> t.status.InProgress?)
  }

  /** One row at the start of a scan, when its mark is applied, and at the end. */
  lemma ScanSteps(s: State, cmd: CommandId, between: seq<Move>, i: nat)
    requires UniqueIds(s.rows) && i < |s.rows|
    ensures var t := s.rows[i];
      var met := Met(s, cmd, between)[i];
      var u := CancelScan(s, cmd, between).rows[i];
      && RowStep(t, met) && RowStep(t, u) && SameRow(u, met) && (met.status.Cancelled? ==> u == met)
      && (u.status.Cancelled? && !met.status.Cancelled? ==>
            u.epoch == t.epoch && t.status.InProgress? && t.command == cmd)
      && (Hit(t, met, cmd) ==> u.status.Cancelled? && u.epoch == met.epoch)
      && (u.status.Cancelled? && !met.status.Cancelled? ==> Hit(t, met, cmd))
  {
    ScanRow(s, cmd, between, i);
    MovedRow(CancelPending(s, cmd).rows, between, i);
    hide CancelScan, MoveAll, UniqueIds;
  }

  /** The mark collected for t applies to met: the same dispatch, running or released. */
  predicate Hit(t: Task, met: Task, cmd: CommandId) {
    t.command == cmd && t.status.InProgress? && !IsTerminal(met.status) && met.epoch == t.epoch
  }

  lemma StepRow(s: State, e: Event, i: nat)
    requires UniqueIds(s.rows) && i < |s.rows|
    ensures RowStep(s.rows[i], Step(s, e).rows[i])
  {
    match e
    case ScanEvent(cmd, between) =>
      ScanSteps(s, cmd, between, i);
    case CutInPhaseA(cmd, written, flushed) =>
      MixedAt(s.rows, CancelPending(s, cmd).rows, flushed, i);
    case CutInPhaseC(cmd, between, flushed, written) =>
      ScanSteps(s, cmd, between, i);
      MixedAt(Met(s, cmd, between), CancelScan(s, cmd, between).rows, flushed, i);
      hide Mixed, CancelScan, Met;
    case MoveEvent(m) =>
  }

  lemma StepUnique(s: State, e: Event)
    requires UniqueIds(s.rows)
    ensures UniqueIds(Step(s, e).rows)
  {
    forall i | 0 <= i < |s.rows|
      ensures Step(s, e).rows[i].id == s.rows[i].id
    {
      StepRow(s, e, i);
    }
    hide Step;
  }

  // ---------- the account ----------

  /** The queues before and after, and the results before and after, balance up to what is extra and what is missing. */
  ghost predicate Balanced(s: State, r: State, missing: multiset<Synthetic>, extra: multiset<Synthetic>) {
    r.results + missing + Shown(s.rows) == s.results + Shown(r.rows) + extra
  }

  lemma BalancedTwice(s: State, r: State, q: State, m: multiset<Synthetic>, x: multiset<Synthetic>,
                      n: multiset<Synthetic>, y: multiset<Synthetic>)
    requires Balanced(s, r, m, x) && Balanced(r, q, n, y)
    ensures Balanced(s, q, m + n, x + y)
  {
    hide Shown;
    forall z: Synthetic
      ensures (q.results + (m + n) + Shown(s.rows))[z] == (s.results + Shown(q.rows) + (x + y))[z]
    {
      assert (r.results + m + Shown(s.rows))[z] == (s.results + Shown(r.rows) + x)[z];
      assert (q.results + n + Shown(r.rows))[z] == (r.results + Shown(q.rows) + y)[z];
    }
  }

  /** Flushing some queue files and writing some result files, on the way from rows to after. */
  lemma CutBalanced(s: State, after: seq<Task>, flushed: set<WorkerId>, written: set<WorkerId>, r: State)
    requires KeepsCancelled(s.rows, after)
    requires r.rows == Mixed(s.rows, after, flushed) && r.results == s.results + Gain(s.rows, after, written)
    ensures Balanced(s, r, Gain(s.rows, after, flushed - written), Gain(s.rows, after, written - flushed))
  {
    MixedShown(s.rows, after, flushed);
    GainBalance(s.rows, after, flushed, written);
    hide Mixed, Shown, Gain;
    var g, h := Gain(s.rows, after, written), Gain(s.rows, after, flushed - written);
    var f, k := Gain(s.rows, after, flushed), Gain(s.rows, after, written - flushed);
    assert r.results + h + Shown(s.rows) == s.results + (g + h) + Shown(s.rows);
    assert s.results + Shown(r.rows) + k == s.results + (f + k) + Shown(s.rows);
  }

  /** Only what lacks a worker's file can be gained for no worker. */
  lemma NothingLeft(rows: seq<Task>, after: seq<Task>, ws: set<WorkerId>)
    requires KeepsCancelled(rows, after) && Workers(rows) !! ws
    ensures Gain(rows, after, ws) == multiset{}
  {
    forall x: Synthetic
      ensures x !in Gain(rows, after, ws)
    {
      GainMember(rows, after, ws, x);
      forall i: nat | i < |rows|
        ensures x !in Part(rows[i], after[i], ws)
      {
        assert rows[i] in rows && rows[i].worker in Workers(rows);
      }
    }
  }

  lemma PendingKeepsCancelled(s: State, cmd: CommandId)
    ensures KeepsCancelled(s.rows, CancelPending(s, cmd).rows)
  {}

  lemma ScanKeepsCancelled(s: State, cmd: CommandId, between: seq<Move>)
    requires UniqueIds(s.rows)
    ensures KeepsCancelled(Met(s, cmd, between), CancelScan(s, cmd, between).rows)
  {
    forall i | 0 <= i < |s.rows|
      ensures var met, u := Met(s, cmd, between)[i], CancelScan(s, cmd, between).rows[i];
        u.worker == met.worker && (met.status.Cancelled? ==> u == met)
    {
      ScanSteps(s, cmd, between, i);
    }
    hide Met, CancelScan;
  }

  /** Meeting the rows to which the marks will be applied. */
  lemma MetBalanced(s: State, cmd: CommandId, between: seq<Move>, b: State)
    requires b.rows == Met(s, cmd, between) && b.results == CancelPending(s, cmd).results
    ensures Balanced(s, b, multiset{}, multiset{})
  {
    CancelPendingConserved(s, cmd);
    MovesConserved(CancelPending(s, cmd), between);
    hide Shown, MoveAll;
  }

  lemma SameWorkers(rows: seq<Task>, after: seq<Task>)
    requires |after| == |rows| && forall i | 0 <= i < |rows| :: after[i].worker == rows[i].worker
    ensures Workers(after) <= Workers(rows)
  {
    forall w | w in Workers(after)
      ensures w in Workers(rows)
    {
      var i :| 0 <= i < |after| && after[i].worker == w;
      assert rows[i] in rows;
    }
  }

  lemma PhaseCBalanced(s: State, e: Event)
    requires e.CutInPhaseC? && UniqueIds(s.rows) && Possible(s, e)
    ensures Balanced(s, Step(s, e), Missing(s, e), Extra(s, e))
  {
    var CutInPhaseC(cmd, between, flushed, written) := e;
    var met, after := Met(s, cmd, between), CancelScan(s, cmd, between).rows;
    var b := State(met, {}, CancelPending(s, cmd).results);
    MetBalanced(s, cmd, between, b);
    ScanKeepsCancelled(s, cmd, between);
    CutBalanced(b, after, flushed, written, Step(s, e));
    forall i | 0 <= i < |s.rows|
      ensures met[i].worker == s.rows[i].worker
    {
      ScanSteps(s, cmd, between, i);
    }
    SameWorkers(s.rows, met);
    hide Met, CancelScan, Shown, Balanced, Mixed, UniqueIds, CancelPending, Gain, Workers;
    NothingLeft(met, after, written - flushed);
    BalancedTwice(s, b, Step(s, e), multiset{}, multiset{}, Missing(s, e), multiset{});
  }

  lemma PhaseABalanced(s: State, e: Event)
    requires e.CutInPhaseA? && Possible(s, e)
    ensures Balanced(s, Step(s, e), Missing(s, e), Extra(s, e))
  {
    var CutInPhaseA(cmd, written, flushed) := e;
    var after := CancelPending(s, cmd).rows;
    PendingKeepsCancelled(s, cmd);
    CutBalanced(s, after, flushed, written, Step(s, e));
    hide CancelPending, Shown, Balanced, Mixed, Gain, Workers;
    NothingLeft(s.rows, after, flushed - written);
  }

  lemma StepBalanced(s: State, e: Event)
    requires UniqueIds(s.rows) && Possible(s, e)
    ensures Balanced(s, Step(s, e), Missing(s, e), Extra(s, e))
  {
    match e
    case ScanEvent(cmd, between) =>
      ScanConserved(s, cmd, between);
      hide CancelScan, Shown;
    case CutInPhaseA(_, _, _) => PhaseABalanced(s, e);
    case CutInPhaseC(_, _, _, _) => PhaseCBalanced(s, e);
    case MoveEvent(m) =>
      MovesConserved(s, [m]);
      assert MoveAll(s.rows, [m]) == MoveRows(s.rows, m);
      hide Shown, MoveRows;
  }

  /** Over every run with crashes: results and queues balance up to exactly what the cuts left extra and missing. */
  lemma {:induction false} Account(s: State, es: seq<Event>)
    requires UniqueIds(s.rows) && PossibleRun(s, es)
    ensures UniqueIds(Run(s, es).rows)
    ensures Balanced(s, Run(s, es), RunMissing(s, es), RunExtra(s, es))
    decreases |es|
  {
    if es == [] {
    } else {
      var r := Step(s, es[0]);
      StepBalanced(s, es[0]);
      StepUnique(s, es[0]);
      Account(r, es[1..]);
      hide Step, Balanced, UniqueIds, Possible, Extra, Missing;
      BalancedTwice(s, r, Run(s, es), Missing(s, es[0]), Extra(s, es[0]), RunMissing(r, es[1..]), RunExtra(r, es[1..]));
    }
  }

  // ---------- extra and missing never cancel out ----------

  /** The row can no longer be cancelled as the dispatch that x names. */
  predicate Spent(t: Task, x: Synthetic) {
    t.id == x.id ==> t.epoch > x.epoch || (t.epoch == x.epoch && !t.status.InProgress?)
  }

  predicate Dead(t: Task, y: Synthetic) {
    t.id == y.id ==> t.status.Cancelled?
  }

  ghost predicate Apart(s: State, missing: multiset<Synthetic>, extra: multiset<Synthetic>) {
    && UniqueIds(s.rows)
    && (forall x, i | x in extra && 0 <= i < |s.rows| :: Spent(s.rows[i], x))
    && (forall y, i | y in missing && 0 <= i < |s.rows| :: Dead(s.rows[i], y))
    && (forall x, y | x in extra && y in missing :: x != y)
  }

  /** An extra result is that of a task still pending. */
  lemma ExtraFrom(s: State, e: Event, x: Synthetic) returns (i: nat)
    requires x in Extra(s, e)
    ensures i < |s.rows| && s.rows[i].status.Pending? && x == Synthetic(s.rows[i].id, s.rows[i].worker, s.rows[i].epoch)
    ensures Step(s, e).rows[i] == s.rows[i]
    ensures e.CutInPhaseA? && s.rows[i].command == e.cmd && s.rows[i].worker in e.written - e.flushed && s.rows[i].worker != ""
  {
    var after := CancelPending(s, e.cmd).rows;
    GainMember(s.rows, after, e.written - e.flushed, x);
    i :| GainedBy(s.rows, after, e.written - e.flushed, i, x);
    MixedAt(s.rows, after, e.flushed, i);
    hide Mixed, Gain;
  }

  /** A missing result is that of a task that was running and is cancelled now. */
  lemma MissingFrom(s: State, e: Event, y: Synthetic) returns (i: nat)
    requires UniqueIds(s.rows) && y in Missing(s, e)
    ensures i < |s.rows| && s.rows[i].status.InProgress? && y == Synthetic(s.rows[i].id, s.rows[i].worker, s.rows[i].epoch)
    ensures Step(s, e).rows[i].status.Cancelled?
    ensures e.CutInPhaseC? && Hit(s.rows[i], Met(s, e.cmd, e.between)[i], e.cmd)
      && s.rows[i].worker in e.flushed - e.written && s.rows[i].worker != ""
  {
    var met, after := Met(s, e.cmd, e.between), CancelScan(s, e.cmd, e.between).rows;
    GainMember(met, after, e.flushed - e.written, y);
    i :| GainedBy(met, after, e.flushed - e.written, i, y);
    ScanSteps(s, e.cmd, e.between, i);
    MixedAt(met, after, e.flushed, i);
    hide Mixed, Gain, Met, CancelScan, UniqueIds;
  }

  lemma SpentStays(t: Task, u: Task, x: Synthetic)
    requires RowStep(t, u)
    ensures Spent(t, x) ==> Spent(u, x)
    ensures Dead(t, x) ==> Dead(u, x)
  {}

  lemma OneRow(rows: seq<Task>, i: nat, j: nat)
    requires UniqueIds(rows) && i < |rows| && j < |rows| && rows[i].id == rows[j].id
    ensures i == j
  {
    assert i < j || j < i || i == j;
  }

  lemma NewExtraApart(s: State, e: Event, missing: multiset<Synthetic>, extra: multiset<Synthetic>, x: Synthetic)
    requires Apart(s, missing, extra) && x in Extra(s, e)
    ensures x !in missing && forall j | 0 <= j < |s.rows| :: Spent(Step(s, e).rows[j], x)
  {
    var i := ExtraFrom(s, e, x);
    assert x in missing ==> Dead(s.rows[i], x);
    forall j | 0 <= j < |s.rows|
      ensures Spent(Step(s, e).rows[j], x)
    {
      StepRow(s, e, j);
      if s.rows[j].id == x.id {
        OneRow(s.rows, i, j);
      }
    }
    hide Step, Extra, UniqueIds;
  }

  lemma NewMissingApart(s: State, e: Event, missing: multiset<Synthetic>, extra: multiset<Synthetic>, y: Synthetic)
    requires Apart(s, missing, extra) && y in Missing(s, e)
    ensures y !in extra && forall j | 0 <= j < |s.rows| :: Dead(Step(s, e).rows[j], y)
  {
    var i := MissingFrom(s, e, y);
    assert y in extra ==> Spent(s.rows[i], y);
    forall j | 0 <= j < |s.rows|
      ensures Dead(Step(s, e).rows[j], y)
    {
      StepRow(s, e, j);
      if s.rows[j].id == y.id {
        OneRow(s.rows, i, j);
      }
    }
    hide Step, Missing, UniqueIds;
  }

  lemma StepApart(s: State, e: Event, missing: multiset<Synthetic>, extra: multiset<Synthetic>)
    requires Apart(s, missing, extra)
    ensures Apart(Step(s, e), missing + Missing(s, e), extra + Extra(s, e))
  {
    var r := Step(s, e);
    StepUnique(s, e);
    forall x, i | x in extra + Extra(s, e) && 0 <= i < |s.rows|
      ensures Spent(r.rows[i], x)
    {
      if x in Extra(s, e) {
        NewExtraApart(s, e, missing, extra, x);
      } else {
        StepRow(s, e, i);
        SpentStays(s.rows[i], r.rows[i], x);
      }
    }
    forall y, i | y in missing + Missing(s, e) && 0 <= i < |s.rows|
      ensures Dead(r.rows[i], y)
    {
      if y in Missing(s, e) {
        NewMissingApart(s, e, missing, extra, y);
      } else {
        StepRow(s, e, i);
        SpentStays(s.rows[i], r.rows[i], y);
      }
    }
    forall x, y | x in extra + Extra(s, e) && y in missing + Missing(s, e)
      ensures x != y
    {
      if x in Extra(s, e) {
        NewExtraApart(s, e, missing, extra, x);
      }
      if y in Missing(s, e) {
        NewMissingApart(s, e, missing, extra, y);
      }
      assert Extra(s, e) == multiset{} || Missing(s, e) == multiset{};
    }
    hide Step, Extra, Missing, UniqueIds, Spent, Dead;
  }

  lemma {:induction false} RunApart(s: State, es: seq<Event>, missing: multiset<Synthetic>, extra: multiset<Synthetic>)
    requires Apart(s, missing, extra)
    ensures Apart(Run(s, es), missing + RunMissing(s, es), extra + RunExtra(s, es))
    decreases |es|
  {
    hide Step, Extra, Missing, Apart;
    if es == [] {
      assert missing + multiset{} == missing && extra + multiset{} == extra;
    } else {
      var r := Step(s, es[0]);
      var m, x := missing + Missing(s, es[0]), extra + Extra(s, es[0]);
      StepApart(s, es[0], missing, extra);
      RunApart(r, es[1..], m, x);
      assert m + RunMissing(r, es[1..]) == missing + RunMissing(s, es);
      assert x + RunExtra(r, es[1..]) == extra + RunExtra(s, es);
    }
  }

  // ---------- the runs that keep the results exact ----------

  /** The cut of a scan that nothing falls into: no task is due in a file on one side of the cut only. */
  ghost predicate Harmless(s: State, e: Event) {
    match e
    case CutInPhaseA(cmd, written, flushed) =>
      forall t | t in s.rows :: !(t.command == cmd && t.status.Pending? && t.worker in written - flushed && t.worker != "")
    case CutInPhaseC(cmd, between, flushed, written) =>
      forall i | 0 <= i < |s.rows| ::
        !(Hit(s.rows[i], Met(s, cmd, between)[i], cmd) && s.rows[i].worker in flushed - written && s.rows[i].worker != "")
    case _ => true
  }

  ghost predicate HarmlessRun(s: State, es: seq<Event>)
    decreases |es|
  {
    es != [] ==> Harmless(s, es[0]) && HarmlessRun(Step(s, es[0]), es[1..])
  }

  lemma HarmlessExactly(s: State, e: Event)
    requires UniqueIds(s.rows)
    ensures Harmless(s, e) <==> Extra(s, e) == multiset{} && Missing(s, e) == multiset{}
  {
    if Extra(s, e) != multiset{} {
      var x :| x in Extra(s, e);
      var i := ExtraFrom(s, e, x);
      assert s.rows[i] in s.rows;
    }
    if Missing(s, e) != multiset{} {
      var y :| y in Missing(s, e);
      var i := MissingFrom(s, e, y);
    }
    if !Harmless(s, e) && e.CutInPhaseA? {
      HarmfulInPhaseA(s, e);
    }
    if !Harmless(s, e) && e.CutInPhaseC? {
      HarmfulInPhaseC(s, e);
    }
    hide Extra, Missing, Met, UniqueIds;
  }

  lemma HarmfulInPhaseA(s: State, e: Event)
    requires e.CutInPhaseA? && !Harmless(s, e)
    ensures Extra(s, e) != multiset{}
  {
    var t :| t in s.rows && t.command == e.cmd && t.status.Pending? && t.worker in e.written - e.flushed && t.worker != "";
    var i :| 0 <= i < |s.rows| && s.rows[i] == t;
    var x := Synthetic(t.id, t.worker, t.epoch);
    var after := CancelPending(s, e.cmd).rows;
    assert GainedBy(s.rows, after, e.written - e.flushed, i, x);
    GainMember(s.rows, after, e.written - e.flushed, x);
  }

  lemma HarmfulInPhaseC(s: State, e: Event)
    requires UniqueIds(s.rows) && e.CutInPhaseC? && !Harmless(s, e)
    ensures Missing(s, e) != multiset{}
  {
    var met, after := Met(s, e.cmd, e.between), CancelScan(s, e.cmd, e.between).rows;
    var i :| 0 <= i < |s.rows| && Hit(s.rows[i], met[i], e.cmd)
      && s.rows[i].worker in e.flushed - e.written && s.rows[i].worker != "";
    ScanSteps(s, e.cmd, e.between, i);
    hide Met, CancelScan, UniqueIds;
    var x := Synthetic(after[i].id, after[i].worker, after[i].epoch);
    assert GainedBy(met, after, e.flushed - e.written, i, x);
    GainMember(met, after, e.flushed - e.written, x);
  }

  lemma {:induction false} HarmlessRunExactly(s: State, es: seq<Event>)
    requires UniqueIds(s.rows)
    ensures HarmlessRun(s, es) <==> RunExtra(s, es) == multiset{} && RunMissing(s, es) == multiset{}
    decreases |es|
  {
    if es != [] {
      HarmlessExactly(s, es[0]);
      StepUnique(s, es[0]);
      hide Step, Harmless, Extra, Missing, UniqueIds;
      HarmlessRunExactly(Step(s, es[0]), es[1..]);
    }
  }

  /** How often a result is there, after any run from a state whose results are exact. */
  lemma CountExactly(s: State, es: seq<Event>, x: Synthetic)
    requires UniqueIds(s.rows) && ResultsExact(s) && PossibleRun(s, es)
    ensures var r := Run(s, es);
      && UniqueIds(r.rows)
      && r.results[x] + RunMissing(s, es)[x] == Shown(r.rows)[x] + RunExtra(s, es)[x]
      && (RunMissing(s, es)[x] == 0 || RunExtra(s, es)[x] == 0)
  {
    Account(s, es);
    RunApart(s, es, multiset{}, multiset{});
    var r := Run(s, es);
    hide Run, RunMissing, RunExtra, Shown, UniqueIds;
    assert (r.results + RunMissing(s, es) + Shown(s.rows))[x] == (s.results + Shown(r.rows) + RunExtra(s, es))[x];
    assert x in RunMissing(s, es) ==> x in multiset{} + RunMissing(s, es);
    assert x in RunExtra(s, es) ==> x in multiset{} + RunExtra(s, es);
  }

  /**
   Exactly the runs in which nothing falls into a cut end with exact results: what a
   crash leaves extra or missing is never made up for.
   */
  lemma RunExactly(s: State, es: seq<Event>)
    requires UniqueIds(s.rows) && ResultsExact(s) && PossibleRun(s, es)
    ensures ResultsExact(Run(s, es)) <==> HarmlessRun(s, es)
  {
    HarmlessRunExactly(s, es);
    var r := Run(s, es);
    var m, e := RunMissing(s, es), RunExtra(s, es);
    forall x: Synthetic
      ensures r.results[x] + m[x] == Shown(r.rows)[x] + e[x] && (m[x] == 0 || e[x] == 0)
    {
      CountExactly(s, es, x);
    }
    hide Run, RunMissing, RunExtra, HarmlessRun, PossibleRun, Shown, UniqueIds;
    if r.results == Shown(r.rows) {
      forall x: Synthetic
        ensures m[x] == 0 && e[x] == 0
      {
        assert r.results[x] + m[x] == Shown(r.rows)[x] + e[x];
      }
      assert m == multiset{} && e == multiset{};
    }
    if m == multiset{} && e == multiset{} {
      assert forall x: Synthetic :: r.results[x] == Shown(r.rows)[x];
      assert r.results == Shown(r.rows);
    }
  }

  /** A result left out by a crash is never written, although its task stays cancelled. */
  lemma MissingForever(s: State, es: seq<Event>, y: Synthetic)
    requires UniqueIds(s.rows) && ResultsExact(s) && PossibleRun(s, es) && y in RunMissing(s, es)
    ensures y !in Run(s, es).results && Backed(Run(s, es).rows, y)
  {
    CountExactly(s, es, y);
    ShownExactly(Run(s, es).rows, y);
    hide Run, RunMissing, RunExtra, Shown, UniqueIds, Backed;
  }

  /** A result written before a crash stays: twice once its task is cancelled under the same lease, else without such a task. */
  lemma ExtraForever(s: State, es: seq<Event>, x: Synthetic)
    requires UniqueIds(s.rows) && ResultsExact(s) && PossibleRun(s, es) && x in RunExtra(s, es)
    ensures Run(s, es).results[x] == RunExtra(s, es)[x] + if Backed(Run(s, es).rows, x) then 1 else 0
  {
    CountExactly(s, es, x);
    ShownExactly(Run(s, es).rows, x);
    hide Run, RunMissing, RunExtra, Shown, UniqueIds, Backed;
  }

  // ---------- without crashes, and after one ----------

  lemma FullCut(s: State, r: State, ws: set<WorkerId>)
    requires Conserved(s, r) && KeepsCancelled(s.rows, r.rows) && Workers(s.rows) <= ws
    ensures Mixed(s.rows, r.rows, ws) == r.rows && s.results + Gain(s.rows, r.rows, ws) == r.results
  {
    forall i | 0 <= i < |s.rows|
      ensures s.rows[i].worker in ws
    {
      assert s.rows[i] in s.rows && s.rows[i].worker in Workers(s.rows);
    }
    assert Mixed(s.rows, r.rows, ws) == r.rows;
    MixedShown(s.rows, r.rows, ws);
    hide Shown, Gain, Mixed;
    forall x: Synthetic
      ensures (s.results + Gain(s.rows, r.rows, ws))[x] == r.results[x]
    {
      assert (r.results + Shown(s.rows))[x] == (s.results + Shown(r.rows))[x];
    }
  }

  /** Cut behind the last write, a phase has done what a complete one does. */
  lemma CompleteCuts(s: State, cmd: CommandId, between: seq<Move>, ws: set<WorkerId>)
    requires UniqueIds(s.rows) && Workers(s.rows) <= ws
    ensures var a := Step(s, CutInPhaseA(cmd, ws, ws)); var p := CancelPending(s, cmd);
      a.rows == p.rows && a.results == p.results
    ensures var c := Step(s, CutInPhaseC(cmd, between, ws, ws)); var r := CancelScan(s, cmd, between);
      c.rows == r.rows && c.results == r.results
  {
    CancelPendingConserved(s, cmd);
    PendingKeepsCancelled(s, cmd);
    FullCut(s, CancelPending(s, cmd), ws);
    ScanKeepsCancelled(s, cmd, between);
    var p := CancelPending(s, cmd);
    var b := p.(rows := MoveAll(p.rows, between));
    ApplyMarksConserved(b, Marks(p.rows, cmd));
    assert CancelScan(s, cmd, between) == ApplyMarks(b, Marks(p.rows, cmd));
    forall i | 0 <= i < |s.rows|
      ensures b.rows[i].worker == s.rows[i].worker
    {
      ScanSteps(s, cmd, between, i);
    }
    SameWorkers(s.rows, b.rows);
    hide CancelPending, CancelScan, MoveAll, Marks, ApplyMarks, Workers, UniqueIds, Conserved;
    FullCut(b, CancelScan(s, cmd, between), ws);
  }

  lemma GainOnce(rows: seq<Task>, after: seq<Task>, ws: set<WorkerId>, x: Synthetic)
    requires UniqueIds(rows) && KeepsCancelled(rows, after)
    requires forall i | 0 <= i < |rows| :: after[i].id == rows[i].id
    ensures Gain(rows, after, ws)[x] <= 1
  {
    MixedShown(rows, after, ws);
    ShownExactly(Mixed(rows, after, ws), x);
    hide Shown, Gain, KeepsCancelled, Backed;
  }

  lemma {:induction false} UncutIsHarmless(s: State, es: seq<Event>)
    requires forall e | e in es :: e.ScanEvent? || e.MoveEvent?
    ensures HarmlessRun(s, es) && PossibleRun(s, es)
    decreases |es|
  {
    hide Step;
    if es != [] {
      assert es[0] in es;
      UncutIsHarmless(Step(s, es[0]), es[1..]);
    }
  }

  /** Over every run of complete scans, synthetic results stay exactly those of the cancelled tasks. */
  lemma RunExact(s: State, es: seq<Event>)
    requires UniqueIds(s.rows) && ResultsExact(s)
    requires forall e | e in es :: e.ScanEvent? || e.MoveEvent?
    ensures UniqueIds(Run(s, es).rows) && ResultsExact(Run(s, es))
  {
    UncutIsHarmless(s, es);
    Account(s, es);
    RunExactly(s, es);
    hide Run, UniqueIds, ResultsExact;
  }

  /** After a harmless run no task has both its worker's result and a synthetic one, and no cancelled task of a worker has none. */
  lemma ReportedNeverSynthetic(s: State, es: seq<Event>, t: Task)
    requires UniqueIds(s.rows) && ResultsExact(s) && PossibleRun(s, es) && HarmlessRun(s, es) && t in Run(s, es).rows
    ensures t.status.Completed? || t.status.Failed? ==> forall r | r in Run(s, es).results :: r.id != t.id
    ensures t.status.Cancelled? && t.worker != "" ==> Run(s, es).results[Synthetic(t.id, t.worker, t.epoch)] == 1
  {
    Account(s, es);
    RunExactly(s, es);
    var e := Run(s, es);
    hide Run, HarmlessRun, PossibleRun, Shown;
    ShownExactly(e.rows, Synthetic(t.id, t.worker, t.epoch));
    forall r | r in e.results && r.id == t.id
      ensures t.status.Cancelled?
    {
      ShownExactly(e.rows, r);
      var u :| u in e.rows && u.status.Cancelled? && u.worker != "" && r == Synthetic(u.id, u.worker, u.epoch);
      var i :| 0 <= i < |e.rows| && e.rows[i] == u;
      var j :| 0 <= j < |e.rows| && e.rows[j] == t;
      OneRow(e.rows, i, j);
    }
  }

  lemma TwoSteps(s: State, a: Event, b: Event)
    ensures Run(s, [a, b]) == Step(Step(s, a), b)
    ensures PossibleRun(s, [a, b]) <==> Possible(s, a) && Possible(Step(s, a), b)
    ensures RunExtra(s, [a, b]) == Extra(s, a) + Extra(Step(s, a), b)
    ensures RunMissing(s, [a, b]) == Missing(s, a) + Missing(Step(s, a), b)
  {
    hide Step, Extra, Missing, Possible;
    var r := Step(s, a);
    assert [a, b][1..] == [b] && [b][1..] == [];
    assert Run(r, [b]) == Step(r, b) && (PossibleRun(r, [b]) <==> Possible(r, b));
    assert RunExtra(r, [b]) == Extra(r, b) && RunMissing(r, [b]) == Missing(r, b);
  }

  lemma CutLeavesPending(s: State, cmd: CommandId, written: set<WorkerId>, i: nat)
    requires UniqueIds(s.rows) && i < |s.rows|
    requires s.rows[i].command == cmd && s.rows[i].status.Pending? && s.rows[i].worker in written && s.rows[i].worker != ""
    ensures var cut := CutInPhaseA(cmd, written, {});
      Step(s, cut).rows[i] == s.rows[i] && Extra(s, cut)[Synthetic(s.rows[i].id, s.rows[i].worker, s.rows[i].epoch)] == 1
  {
    var x := Synthetic(s.rows[i].id, s.rows[i].worker, s.rows[i].epoch);
    var after := CancelPending(s, cmd).rows;
    MixedAt(s.rows, after, {}, i);
    assert GainedBy(s.rows, after, written, i, x);
    PendingKeepsCancelled(s, cmd);
    assert forall j | 0 <= j < |s.rows| :: after[j].id == s.rows[j].id;
    hide CancelPending, UniqueIds, KeepsCancelled, Mixed, Gain;
    assert written - {} == written;
    GainMember(s.rows, after, written, x);
    GainOnce(s.rows, after, written, x);
  }

  lemma ScanCancelsPending(s: State, cmd: CommandId, between: seq<Move>, i: nat)
    requires UniqueIds(s.rows) && i < |s.rows|
    requires s.rows[i].command == cmd && s.rows[i].status.Pending? && s.rows[i].worker != ""
    ensures Backed(CancelScan(s, cmd, between).rows, Synthetic(s.rows[i].id, s.rows[i].worker, s.rows[i].epoch))
  {
    var t := CancelPending(s, cmd).rows[i];
    ScanRow(s, cmd, between, i);
    MovedRow(CancelPending(s, cmd).rows, between, i);
    hide CancelScan, UniqueIds, MoveAll;
    assert t in CancelScan(s, cmd, between).rows;
  }

  /** A crash before the queue flush: the next scan writes every result again that had been written. */
  lemma WrittenAgain(s: State, cmd: CommandId, written: set<WorkerId>, between: seq<Move>, i: nat)
    requires UniqueIds(s.rows) && ResultsExact(s) && i < |s.rows|
    requires s.rows[i].command == cmd && s.rows[i].status.Pending? && s.rows[i].worker in written && s.rows[i].worker != ""
    ensures var x := Synthetic(s.rows[i].id, s.rows[i].worker, s.rows[i].epoch);
      Run(s, [CutInPhaseA(cmd, written, {}), ScanEvent(cmd, between)]).results[x] == 2
  {
    var cut, scan := CutInPhaseA(cmd, written, {}), ScanEvent(cmd, between);
    var x := Synthetic(s.rows[i].id, s.rows[i].worker, s.rows[i].epoch);
    var c := Step(s, cut);
    CutLeavesPending(s, cmd, written, i);
    StepUnique(s, cut);
    TwoSteps(s, cut, scan);
    assert Extra(c, scan) == multiset{} && Step(c, scan) == CancelScan(c, cmd, between);
    assert Possible(s, cut) && Possible(c, scan);
    hide Step, CancelScan, Extra, Missing, Run, RunExtra, RunMissing, UniqueIds, ResultsExact, Backed, Possible;
    ScanCancelsPending(c, cmd, between, i);
    ExtraForever(s, [cut, scan], x);
  }

  /** Concrete inputs: one task, pending at a crash before the queue flush, or running at a crash before the results. */
  lemma CrashInputs()
    ensures var t := Task("t", "c", "w", Pending, 1, false);
      var pending, running := State([t], {}, multiset{}), State([t.(status := InProgress, leased := true)], {}, multiset{});
      var early, late := CutInPhaseA("c", {"w"}, {}), CutInPhaseC("c", [], {"w"}, {});
      && ResultsExact(pending) && Possible(pending, early) && !ResultsExact(Step(pending, early))
      && ResultsExact(running) && Possible(running, late) && !ResultsExact(Step(running, late))
  {
    var t := Task("t", "c", "w", Pending, 1, false);
    var pending, running := State([t], {}, multiset{}), State([t.(status := InProgress, leased := true)], {}, multiset{});
    var early, late := CutInPhaseA("c", {"w"}, {}), CutInPhaseC("c", [], {"w"}, {});
    assert pending.rows[..0] == [] && running.rows[..0] == [];
    assert t in pending.rows && "w" in {"w"} - {} && !Harmless(pending, early);
    assert Hit(running.rows[0], Met(running, "c", [])[0], "c") && !Harmless(running, late);
    assert Workers(pending.rows) == {"w"};
    assert ResultsExact(pending) && ResultsExact(running);
    OneStep(pending, early);
    OneStep(running, late);
  }

  lemma OneStep(s: State, e: Event)
    requires UniqueIds(s.rows) && ResultsExact(s) && Possible(s, e)
    ensures ResultsExact(Step(s, e)) <==> Harmless(s, e)
  {
    RunExactly(s, [e]);
    hide Step, Possible, Harmless, ResultsExact, UniqueIds;
    assert [e][1..] == [];
    assert Run(Step(s, e), []) == Step(s, e);
    assert PossibleRun(Step(s, e), []) && HarmlessRun(Step(s, e), []);
    assert PossibleRun(s, [e]);
  }
}
