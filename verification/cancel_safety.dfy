/**
 Safety of the cancel protocol: whatever happens while the workers are being
 interrupted, a worker's own result is never overwritten, a newer dispatch is never
 cancelled, a synthetic result exists exactly for the cancelled tasks; and without
 redispatch one scan settles the command.
 */
module CancelSafety {
  import opened Common
  import opened CancelModel

  // ---------- marks ----------

  lemma {:induction false} MarksExactly(rows: seq<Task>, cmd: CommandId, m: Mark)
    ensures m in Marks(rows, cmd) <==>
      exists i :: 0 <= i < |rows| && rows[i].command == cmd && rows[i].status.InProgress?
        && m == Mark(rows[i].id, rows[i].worker, rows[i].epoch)
  {
    if rows == [] {
    } else {
      var n := |rows| - 1;
      var rest := rows[..n];
      MarksExactly(rest, cmd, m);
      if m in Marks(rest, cmd) {
        var i :| 0 <= i < n && rest[i].command == cmd && rest[i].status.InProgress?
          && m == Mark(rest[i].id, rest[i].worker, rest[i].epoch);
        assert rows[i] == rest[i];
      }
      if exists i :: 0 <= i < n && rows[i].command == cmd && rows[i].status.InProgress?
          && m == Mark(rows[i].id, rows[i].worker, rows[i].epoch) {
        var i :| 0 <= i < n && rows[i].command == cmd && rows[i].status.InProgress?
          && m == Mark(rows[i].id, rows[i].worker, rows[i].epoch);
        assert rest[i] == rows[i];
      }
    }
  }

  /** Exactly the workers that hold a lease on a running task of the command are interrupted. */
  lemma {:induction false} InterruptsExactly(rows: seq<Task>, cmd: CommandId, m: Mark)
    ensures m in Interrupts(rows, cmd) <==>
      exists i :: 0 <= i < |rows| && rows[i].command == cmd && rows[i].status.InProgress? && rows[i].leased
        && m.worker != "" && m == Mark(rows[i].id, rows[i].worker, rows[i].epoch)
  {
    if rows != [] {
      var n := |rows| - 1;
      var rest := rows[..n];
      InterruptsExactly(rest, cmd, m);
      assert rows == rest + [rows[n]];
      if exists i :: 0 <= i < n && rows[i].command == cmd && rows[i].status.InProgress? && rows[i].leased
          && m.worker != "" && m == Mark(rows[i].id, rows[i].worker, rows[i].epoch) {
        var i :| 0 <= i < n && rows[i].command == cmd && rows[i].status.InProgress? && rows[i].leased
          && m.worker != "" && m == Mark(rows[i].id, rows[i].worker, rows[i].epoch);
        assert rest[i] == rows[i];
      }
      if m in Interrupts(rest, cmd) {
        var i :| 0 <= i < n && rest[i].command == cmd && rest[i].status.InProgress? && rest[i].leased
          && m.worker != "" && m == Mark(rest[i].id, rest[i].worker, rest[i].epoch);
        assert rows[i] == rest[i];
      }
    }
  }

  // ---------- moves ----------

  /** Moves keep a row's identity and never take an epoch back or a terminal status away. */
  lemma {:induction false} MovedRow(rows: seq<Task>, ms: seq<Move>, i: nat)
    requires i < |rows|
    ensures var t := MoveAll(rows, ms)[i];
      && t.id == rows[i].id && t.command == rows[i].command && t.worker == rows[i].worker
      && t.epoch >= rows[i].epoch
      && (IsTerminal(rows[i].status) ==> t == rows[i])
      && (t.status.Cancelled? ==> t == rows[i])
      && (t.status.InProgress? && t.epoch == rows[i].epoch ==> rows[i].status.InProgress?)
      && ((forall m | m in ms :: !(m.Redispatch? && m.id == rows[i].id)) ==> t.epoch == rows[i].epoch)
    decreases |ms|
  {
    if ms == [] {
    } else {
      MovedRow(MoveRows(rows, ms[0]), ms[1..], i);
    }
  }

  // ---------- applying ----------

  lemma ApplyMarkRow(s: State, m: Mark, i: nat)
    requires UniqueIds(s.rows) && i < |s.rows|
    ensures var r := ApplyMark(s, m);
      && |r.rows| == |s.rows| && UniqueIds(r.rows) && r.blocked == s.blocked
      && r.rows[i] == if Applies(s.rows[i], m) then s.rows[i].(status := Cancelled, leased := false) else s.rows[i]
  {
    var k := FindRow(s.rows, m);
    if k < |s.rows| && i != k {
      assert i < k || k < i;
    }
  }

  /** Exactly the rows that still are the dispatch of some mark are cancelled. */
  lemma {:induction false} ApplyMarksRow(s: State, marks: seq<Mark>, i: nat)
    requires UniqueIds(s.rows) && i < |s.rows|
    ensures var r := ApplyMarks(s, marks);
      && |r.rows| == |s.rows| && UniqueIds(r.rows) && r.blocked == s.blocked
      && r.rows[i] == if exists m | m in marks :: Applies(s.rows[i], m)
                      then s.rows[i].(status := Cancelled, leased := false) else s.rows[i]
    decreases |marks|
  {
    if marks == [] {
    } else {
      ApplyMarkRow(s, marks[0], i);
      ApplyMarksRow(ApplyMark(s, marks[0]), marks[1..], i);
      assert marks == [marks[0]] + marks[1..];
    }
  }

  // ---------- one scan ----------

  /** Of all the marks, only a row's own can apply to it. */
  lemma OwnMark(rows: seq<Task>, cmd: CommandId, i: nat, met: Task)
    requires UniqueIds(rows) && i < |rows| && met.id == rows[i].id && met.worker == rows[i].worker
    ensures (exists m | m in Marks(rows, cmd) :: Applies(met, m)) <==>
      rows[i].command == cmd && rows[i].status.InProgress?
      && (met.status.InProgress? || met.status.Pending?) && met.epoch == rows[i].epoch
  {
    var own := Mark(rows[i].id, rows[i].worker, rows[i].epoch);
    forall m
      ensures m in Marks(rows, cmd) && m.id == rows[i].id ==>
        m == own && rows[i].command == cmd && rows[i].status.InProgress?
    {
      MarksExactly(rows, cmd, m);
    }
    MarksExactly(rows, cmd, own);
    hide Marks;
  }

  lemma UniqueAfterMoves(rows: seq<Task>, ms: seq<Move>)
    requires UniqueIds(rows)
    ensures UniqueIds(MoveAll(rows, ms))
  {
    forall i | 0 <= i < |rows|
      ensures MoveAll(rows, ms)[i].id == rows[i].id
    {
      MovedRow(rows, ms, i);
    }
    hide MoveAll;
  }

  ghost predicate SameRow(t: Task, u: Task) {
    t.id == u.id && t.command == u.command && t.worker == u.worker
  }

  /** The row of one task when the marks are collected, when they are applied, and after the scan. */
  lemma ScanRow(s: State, cmd: CommandId, between: seq<Move>, i: nat)
    requires UniqueIds(s.rows) && i < |s.rows|
    ensures var collected := CancelPending(s, cmd).rows[i];
      var met := MoveAll(CancelPending(s, cmd).rows, between)[i];
      var r := CancelScan(s, cmd, between);
      && UniqueIds(r.rows) && SameRow(r.rows[i], s.rows[i]) && SameRow(met, s.rows[i])
      && r.rows[i] ==
        (if collected.command == cmd && collected.status.InProgress? && !IsTerminal(met.status) && met.epoch == collected.epoch
         then met.(status := Cancelled, leased := false) else met)
  {
    var a := CancelPending(s, cmd);
    assert UniqueIds(a.rows);
    assert SameRow(a.rows[i], s.rows[i]);
    hide CancelPending;
    var b := a.(rows := MoveAll(a.rows, between));
    UniqueAfterMoves(a.rows, between);
    MovedRow(a.rows, between, i);
    ApplyMarksRow(b, Marks(a.rows, cmd), i);
    OwnMark(a.rows, cmd, i, b.rows[i]);
    hide MoveAll, Marks, ApplyMarks, UniqueIds, Applies;
  }

  /**
   Fencing: what the apply step changes is a task of this command that is not
   terminal and still is the dispatch that was collected.
   */
  lemma NeverOverwrites(s: State, cmd: CommandId, between: seq<Move>, i: nat)
    requires UniqueIds(s.rows) && i < |s.rows|
    ensures var collected := CancelPending(s, cmd).rows[i];
      var met := MoveAll(CancelPending(s, cmd).rows, between)[i];
      var r := CancelScan(s, cmd, between).rows[i];
      && (IsTerminal(met.status) || met.epoch != collected.epoch || met.command != cmd ==> r == met)
      && (r != met ==> r.status.Cancelled? && r.epoch == collected.epoch)
  {
    ScanRow(s, cmd, between, i);
    hide CancelScan, MoveAll;
  }

  /** A task of the command survives a scan only under a lease that is newer than the one collected. */
  lemma SurvivorsAreNewer(s: State, cmd: CommandId, between: seq<Move>, i: nat)
    requires UniqueIds(s.rows) && i < |s.rows| && s.rows[i].command == cmd
    ensures var r := CancelScan(s, cmd, between).rows[i];
      && (!IsTerminal(r.status) ==> r.epoch > s.rows[i].epoch)
      && ((forall m | m in between :: !(m.Redispatch? && m.id == s.rows[i].id)) ==> IsTerminal(r.status))
  {
    ScanRow(s, cmd, between, i);
    MovedRow(CancelPending(s, cmd).rows, between, i);
    hide CancelScan, MoveAll;
  }

  /** While dispatch of the command is blocked, one scan makes all its tasks terminal. */
  lemma OneScanSettles(s: State, cmd: CommandId, between: seq<Move>)
    requires UniqueIds(s.rows)
    requires forall m, t | m in between && t in s.rows && t.command == cmd :: !(m.Redispatch? && m.id == t.id)
    ensures Settled(CancelScan(s, cmd, between).rows, cmd)
    ensures HasTask(CancelScan(s, cmd, between).rows, cmd) <==> HasTask(s.rows, cmd)
  {
    var r := CancelScan(s, cmd, between);
    forall i | 0 <= i < |s.rows|
      ensures SameRow(r.rows[i], s.rows[i])
      ensures r.rows[i].command == cmd ==> IsTerminal(r.rows[i].status)
    {
      ScanRow(s, cmd, between, i);
      if s.rows[i].command == cmd {
        assert s.rows[i] in s.rows;
        SurvivorsAreNewer(s, cmd, between, i);
      }
    }
    hide CancelScan;
    if HasTask(s.rows, cmd) {
      var i :| 0 <= i < |s.rows| && s.rows[i].command == cmd;
      assert r.rows[i] in r.rows;
    }
    if HasTask(r.rows, cmd) {
      var i :| 0 <= i < |r.rows| && r.rows[i].command == cmd;
      assert s.rows[i] in s.rows;
    }
  }

  // ---------- synthetic results ----------

  /** The results that the rows call for: one for each cancelled task in a worker's queue. */
  ghost function Shown(rows: seq<Task>): multiset<Synthetic> {
    if rows == [] then multiset{}
    else
      var t := rows[|rows| - 1];
      Shown(rows[..|rows| - 1]) + (if t.status.Cancelled? then ResultOf(t) else multiset{})
  }

  /** The synthetic results are exactly those that the rows call for. */
  ghost predicate ResultsExact(s: State) {
    s.results == Shown(s.rows)
  }

  ghost predicate Backed(rows: seq<Task>, r: Synthetic) {
    exists t | t in rows :: t.status.Cancelled? && t.worker != "" && r == Synthetic(t.id, t.worker, t.epoch)
  }

  /** Each cancelled task of a worker calls for one result, and nothing else does. */
  lemma {:induction false} ShownExactly(rows: seq<Task>, r: Synthetic)
    requires UniqueIds(rows)
    ensures Shown(rows)[r] == if Backed(rows, r) then 1 else 0
  {
    if rows == [] {
    } else {
      var n := |rows| - 1;
      var rest, t := rows[..n], rows[n];
      assert UniqueIds(rest);
      ShownExactly(rest, r);
      assert rows == rest + [t];
      if Backed(rest, r) {
        var u :| u in rest && u.status.Cancelled? && u.worker != "" && r == Synthetic(u.id, u.worker, u.epoch);
        var i :| 0 <= i < n && rest[i] == u;
        assert rows[i].id != t.id;
        assert u in rows;
      }
    }
  }

  lemma {:induction false} ShownSame(rows: seq<Task>, later: seq<Task>)
    requires |later| == |rows|
    requires forall i | 0 <= i < |rows| ::
      later[i] == rows[i] || (!rows[i].status.Cancelled? && !later[i].status.Cancelled?)
    ensures Shown(later) == Shown(rows)
  {
    if rows != [] {
      ShownSame(rows[..|rows| - 1], later[..|rows| - 1]);
    }
  }

  lemma {:induction false} ShownUpdate(rows: seq<Task>, k: nat, u: Task)
    requires k < |rows| && !rows[k].status.Cancelled? && u.status.Cancelled?
    ensures Shown(rows[k := u]) == Shown(rows) + ResultOf(u)
  {
    var n := |rows| - 1;
    if k < n {
      ShownUpdate(rows[..n], k, u);
      assert rows[k := u][..n] == rows[..n][k := u];
    } else {
      assert rows[k := u][..n] == rows[..n];
    }
  }

  /** Results are written exactly as rows come to call for them. */
  ghost predicate Conserved(s: State, r: State) {
    r.results + Shown(s.rows) == s.results + Shown(r.rows)
  }

  lemma ConservedTwice(s: State, r: State, q: State)
    requires Conserved(s, r) && Conserved(r, q)
    ensures Conserved(s, q)
  {
    hide Shown;
    forall x: Synthetic
      ensures (q.results + Shown(s.rows))[x] == (s.results + Shown(q.rows))[x]
    {
      assert (r.results + Shown(s.rows))[x] == (s.results + Shown(r.rows))[x];
      assert (q.results + Shown(r.rows))[x] == (r.results + Shown(q.rows))[x];
    }
  }

  lemma CancelledRowConserved(s: State, k: nat, u: Task)
    requires k < |s.rows| && !s.rows[k].status.Cancelled?
    requires u.status.Cancelled? && u.id == s.rows[k].id && u.worker == s.rows[k].worker && u.epoch == s.rows[k].epoch
    ensures Conserved(s, s.(rows := s.rows[k := u], results := s.results + ResultOf(s.rows[k])))
  {
    ShownUpdate(s.rows, k, u);
  }

  /** The first n rows have been through CancelPendingTasks. */
  function PartlyCancelled(s: State, cmd: CommandId, n: nat): (r: State)
    requires n <= |s.rows|
    ensures |r.rows| == |s.rows|
  {
    s.(rows := seq(|s.rows|, i requires 0 <= i < |s.rows| => if i < n then PendingCancelled(s.rows[i], cmd) else s.rows[i]),
       results := s.results + PendingResults(s.rows[..n], cmd))
  }

  lemma PartlyCancelledNext(s: State, cmd: CommandId, n: nat)
    requires n < |s.rows|
    ensures var p, t := PartlyCancelled(s, cmd, n), s.rows[n];
      && p.rows[n] == t
      && PartlyCancelled(s, cmd, n + 1) ==
        if t.command == cmd && t.status.Pending?
        then p.(rows := p.rows[n := t.(status := Cancelled)], results := p.results + ResultOf(t)) else p
  {
    assert s.rows[..n + 1][..n] == s.rows[..n];
    var p, q, t := PartlyCancelled(s, cmd, n), PartlyCancelled(s, cmd, n + 1), s.rows[n];
    if t.command == cmd && t.status.Pending? {
      assert q.rows == p.rows[n := t.(status := Cancelled)];
    } else {
      assert q.rows == p.rows;
    }
  }

  lemma PartlyCancelledStart(s: State, cmd: CommandId)
    ensures PartlyCancelled(s, cmd, 0) == s
  {
    assert s.rows[..0] == [];
  }

  lemma PartlyCancelledEnd(s: State, cmd: CommandId)
    ensures CancelPending(s, cmd) == PartlyCancelled(s.(blocked := s.blocked + {cmd}), cmd, |s.rows|)
  {
    assert s.rows[..|s.rows|] == s.rows;
    assert CancelPending(s, cmd).rows == PartlyCancelled(s, cmd, |s.rows|).rows;
  }

  lemma {:induction false} PartlyCancelledConserved(s: State, cmd: CommandId, n: nat)
    requires n <= |s.rows|
    ensures Conserved(s, PartlyCancelled(s, cmd, n))
  {
    hide PartlyCancelled, Shown;
    if n == 0 {
      PartlyCancelledStart(s, cmd);
    } else {
      PartlyCancelledConserved(s, cmd, n - 1);
      PartlyCancelledNext(s, cmd, n - 1);
      hide Conserved;
      var t := s.rows[n - 1];
      if t.command == cmd && t.status.Pending? {
        CancelledRowConserved(PartlyCancelled(s, cmd, n - 1), n - 1, t.(status := Cancelled));
        ConservedTwice(s, PartlyCancelled(s, cmd, n - 1), PartlyCancelled(s, cmd, n));
      }
    }
  }

  lemma CancelPendingConserved(s: State, cmd: CommandId)
    ensures Conserved(s, CancelPending(s, cmd))
  {
    PartlyCancelledConserved(s.(blocked := s.blocked + {cmd}), cmd, |s.rows|);
    PartlyCancelledEnd(s, cmd);
    hide CancelPending, PartlyCancelled, Shown;
  }

  lemma {:induction false} ApplyMarksConserved(s: State, marks: seq<Mark>)
    ensures Conserved(s, ApplyMarks(s, marks))
    decreases |marks|
  {
    hide Shown;
    if marks == [] {
    } else {
      var k := FindRow(s.rows, marks[0]);
      if k < |s.rows| && Applies(s.rows[k], marks[0]) {
        CancelledRowConserved(s, k, s.rows[k].(status := Cancelled, leased := false));
      }
      ApplyMarksConserved(ApplyMark(s, marks[0]), marks[1..]);
      ConservedTwice(s, ApplyMark(s, marks[0]), ApplyMarks(s, marks));
    }
  }

  /** Workers, leases and dispatches neither make nor unmake a cancelled task. */
  lemma MovesConserved(s: State, ms: seq<Move>)
    ensures Shown(MoveAll(s.rows, ms)) == Shown(s.rows)
  {
    forall i | 0 <= i < |s.rows|
      ensures var t := MoveAll(s.rows, ms)[i]; t == s.rows[i] || (!s.rows[i].status.Cancelled? && !t.status.Cancelled?)
    {
      MovedRow(s.rows, ms, i);
    }
    ShownSame(s.rows, MoveAll(s.rows, ms));
  }

  /** A complete scan writes exactly the results of the rows it cancels, whatever happens in between. */
  lemma ScanConserved(s: State, cmd: CommandId, between: seq<Move>)
    ensures Conserved(s, CancelScan(s, cmd, between))
  {
    var a := CancelPending(s, cmd);
    var b := a.(rows := MoveAll(a.rows, between));
    CancelPendingConserved(s, cmd);
    MovesConserved(a, between);
    ApplyMarksConserved(b, Marks(a.rows, cmd));
    hide CancelPending, Shown, ApplyMarks, MoveAll, Marks;
    ConservedTwice(s, a, b);
    ConservedTwice(s, b, CancelScan(s, cmd, between));
  }

  lemma ScanExact(s: State, cmd: CommandId, between: seq<Move>)
    requires UniqueIds(s.rows) && ResultsExact(s)
    ensures UniqueIds(CancelScan(s, cmd, between).rows) && ResultsExact(CancelScan(s, cmd, between))
  {
    var r := CancelScan(s, cmd, between);
    ScanConserved(s, cmd, between);
    forall i | 0 <= i < |s.rows|
      ensures r.rows[i].id == s.rows[i].id
    {
      ScanRow(s, cmd, between, i);
    }
    hide CancelScan, Shown;
    forall x: Synthetic
      ensures r.results[x] == Shown(r.rows)[x]
    {
      assert (r.results + Shown(s.rows))[x] == (s.results + Shown(r.rows))[x];
    }
  }
}
