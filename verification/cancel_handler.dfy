/**
 The cancel handler, in the form the daemon has: loops over the queue rows that
 change them in place, and re-validation of every mark before it is applied.
 */
module CancelHandler {
  import opened Common
  import opened CancelModel
  import opened CancelSafety

  datatype CommandStatus = CommandPending | CommandInProgress | CommandCompleted | CommandFailed | CommandCancelled | CommandDeadLetter

  predicate CommandTerminal(s: CommandStatus) {
    !s.CommandPending? && !s.CommandInProgress?
  }

  lemma MarksNext(rows: seq<Task>, cmd: CommandId, i: nat)
    requires i < |rows|
    ensures var mine := rows[i].command == cmd && rows[i].status.InProgress?;
      var m := Mark(rows[i].id, rows[i].worker, rows[i].epoch);
      && Marks(rows[..i + 1], cmd) == (if mine then Marks(rows[..i], cmd) + [m] else Marks(rows[..i], cmd))
      && Interrupts(rows[..i + 1], cmd) ==
        (if mine && rows[i].leased && rows[i].worker != "" then Interrupts(rows[..i], cmd) + [m] else Interrupts(rows[..i], cmd))
  {
    assert rows[..i + 1][..i] == rows[..i];
  }

  class Handler {
    var s: State

    constructor (rows: seq<Task>)
      ensures s == State(rows, {}, multiset{})
    {
      s := State(rows, {}, multiset{});
    }

    method CancelPendingTasks(cmd: CommandId)
      modifies this
      ensures s == CancelPending(old(s), cmd)
    {
      PartlyCancelledEnd(s, cmd);
      s := s.(blocked := s.blocked + {cmd});
      ghost var before := s;
      PartlyCancelledStart(s, cmd);
      hide CancelPending, PartlyCancelled;
      var n := |s.rows|;
      for i := 0 to n
        invariant |s.rows| == n == |before.rows|
        invariant s == PartlyCancelled(before, cmd, i)
      {
        PartlyCancelledNext(before, cmd, i);
        var t := s.rows[i];
        if t.command != cmd || !t.status.Pending? || !LegalMove(t.status, Cancelled) {
          continue;
        }
        s := s.(rows := s.rows[i := t.(status := Cancelled)], results := s.results + ResultOf(t));
      }
    }

    /** Changes no task: a worker that finishes before the interrupt still reports its own result. */
    method CollectCancelInterruptItems(cmd: CommandId) returns (marks: seq<Mark>, interrupts: seq<Mark>)
      modifies this
      ensures s == old(s).(blocked := old(s).blocked + {cmd})
      ensures marks == Marks(s.rows, cmd) && interrupts == Interrupts(s.rows, cmd)
    {
      s := s.(blocked := s.blocked + {cmd});
      var rows := s.rows;
      marks, interrupts := [], [];
      for i := 0 to |rows|
        invariant marks == Marks(rows[..i], cmd) && interrupts == Interrupts(rows[..i], cmd)
        invariant s == old(s).(blocked := old(s).blocked + {cmd})
      {
        MarksNext(rows, cmd, i);
        hide Marks, Interrupts;
        var t := rows[i];
        if t.command != cmd || !t.status.InProgress? || !LegalMove(t.status, Cancelled) {
          continue;
        }
        if t.leased && t.worker != "" {
          interrupts := interrupts + [Mark(t.id, t.worker, t.epoch)];
        }
        marks := marks + [Mark(t.id, t.worker, t.epoch)];
      }
      assert rows[..|rows|] == rows;
    }

    method FindTask(m: Mark) returns (k: nat)
      ensures k == FindRow(s.rows, m)
    {
      k := 0;
      while k < |s.rows|
        invariant k <= |s.rows|
        invariant FindRow(s.rows, m) == k + FindRow(s.rows[k..], m)
      {
        if s.rows[k].id == m.id && s.rows[k].worker == m.worker {
          return;
        }
        assert s.rows[k..][1..] == s.rows[k + 1..];
        k := k + 1;
      }
    }

    method ApplyCancelMark(m: Mark) returns (applied: bool)
      modifies this
      ensures s == ApplyMark(old(s), m)
      ensures applied <==> s != old(s)
    {
      var k := FindTask(m);
      if k == |s.rows| {
        return false;
      }
      var t := s.rows[k];
      if !t.status.InProgress? && !t.status.Pending? {
        return false;
      }
      if t.epoch != m.epoch {
        return false;
      }
      if !LegalMove(t.status, Cancelled) {
        return false;
      }
      s := s.(rows := s.rows[k := t.(status := Cancelled, leased := false)], results := s.results + ResultOf(t));
      assert s.rows[k] != old(s).rows[k];
      applied := true;
    }

    /** Phase C: applies the collected marks to the queue as it is by now. */
    method ApplyCancelMarks(marks: seq<Mark>)
      modifies this
      ensures s == ApplyMarks(old(s), marks)
    {
      for i := 0 to |marks|
        invariant ApplyMarks(s, marks[i..]) == ApplyMarks(old(s), marks)
      {
        assert marks[i..][1..] == marks[i + 1..];
        var _ := ApplyCancelMark(marks[i]);
      }
    }

    /** Completes a cancelled command exactly when it has tasks and all of them are terminal. */
    method AutoCompleteCancelledCommand(cmd: CommandId, status: CommandStatus) returns (r: CommandStatus)
      ensures r == if !CommandTerminal(status) && HasTask(s.rows, cmd) && Settled(s.rows, cmd) then CommandCancelled else status
    {
      if CommandTerminal(status) {
        return status;
      }
      var count := 0;
      for i := 0 to |s.rows|
        invariant count > 0 <==> HasTask(s.rows[..i], cmd)
        invariant Settled(s.rows[..i], cmd)
        invariant count >= 0
      {
        var t := s.rows[i];
        assert s.rows[..i + 1] == s.rows[..i] + [t];
        assert t in s.rows;
        if t.command != cmd {
          continue;
        }
        count := count + 1;
        if !IsTerminal(t.status) {
          return status;
        }
      }
      assert s.rows[..|s.rows|] == s.rows;
      if count == 0 {
        return status;
      }
      r := CommandCancelled;
    }

    /**
     The cancellation of one command, from its first scan to its completion in the
     next one: when dispatch stays blocked, the command ends cancelled if and only if
     it has a task.
     */
    method CancelCommand(cmd: CommandId, status: CommandStatus, between: seq<Move>) returns (r: CommandStatus)
      requires UniqueIds(s.rows) && ResultsExact(s) && !CommandTerminal(status)
      requires forall m, t | m in between && t in s.rows && t.command == cmd :: !(m.Redispatch? && m.id == t.id)
      modifies this
      ensures s == CancelScan(old(s), cmd, between)
      ensures ResultsExact(s) && Settled(s.rows, cmd)
      ensures r == if HasTask(old(s).rows, cmd) then CommandCancelled else status
    {
      hide UniqueIds, ResultsExact, Settled, HasTask;
      OneScanSettles(s, cmd, between);
      ScanExact(s, cmd, between);
      CancelPendingTasks(cmd);
      var marks, _ := CollectCancelInterruptItems(cmd);
      assert s == CancelPending(old(s), cmd);
      s := s.(rows := MoveAll(s.rows, between));
      ApplyCancelMarks(marks);
      r := AutoCompleteCancelledCommand(cmd, status);
    }
  }
}
