/**
 CPU time of a process tree, from one snapshot of (pid, ppid, cpu) rows.  The rows
 may repeat a pid and the parent links may form cycles; the traversal ends all the
 same and counts every process that is reachable from the root exactly once.
 */
module ProcessTree {
  import opened Common

  datatype ProcessInfo = ProcessInfo(pid: int, ppid: int, cpuSeconds: real)

  // ---------- what is to be computed ----------

  predicate IsChild(procs: seq<ProcessInfo>, parent: int, child: int) {
    exists p | p in procs :: p.ppid == parent && p.pid == child
  }

  ghost predicate Path(procs: seq<ProcessInfo>, path: seq<int>) {
    path != [] && forall i | 0 < i < |path| :: IsChild(procs, path[i - 1], path[i])
  }

  ghost predicate Reaches(procs: seq<ProcessInfo>, root: int, pid: int) {
    exists path :: Path(procs, path) && path[0] == root && path[|path| - 1] == pid
  }

  function Pids(procs: seq<ProcessInfo>): set<int> {
    set p | p in procs :: p.pid
  }

  /** The root and every descendant, listed in the snapshot or not. */
  ghost function Tree(procs: seq<ProcessInfo>, root: int): set<int> {
    set pid | pid in Pids(procs) + {root} && Reaches(procs, root, pid)
  }

  /** The last row of each pid in s, summed. */
  function CpuOf(procs: seq<ProcessInfo>, s: set<int>): real {
    if procs == [] then 0.0
    else
      var p := procs[0];
      CpuOf(procs[1..], s) + (if p.pid in s && p.pid !in Pids(procs[1..]) then p.cpuSeconds else 0.0)
  }

  // ---------- the two indexes ----------

  function Children(procs: seq<ProcessInfo>, parent: int): seq<int> {
    if procs == [] then []
    else
      var p := procs[|procs| - 1];
      Children(procs[..|procs| - 1], parent) + (if p.ppid == parent then [p.pid] else [])
  }

  /** The row that wins when a pid occurs more than once. */
  function LastRow(procs: seq<ProcessInfo>, pid: int): Option<ProcessInfo> {
    if procs == [] then None
    else if procs[|procs| - 1].pid == pid then Some(procs[|procs| - 1])
    else LastRow(procs[..|procs| - 1], pid)
  }

  lemma {:induction false} ChildrenExactly(procs: seq<ProcessInfo>, parent: int)
    ensures forall c :: c in Children(procs, parent) <==> IsChild(procs, parent, c)
  {
    if procs == [] {
    } else {
      var rest, p := procs[..|procs| - 1], procs[|procs| - 1];
      assert procs == rest + [p];
      ChildrenExactly(rest, parent);
    }
  }

  /** Row k is the last one of its process. */
  lemma {:induction false} LastRowExactly(procs: seq<ProcessInfo>, k: nat)
    requires k < |procs| && forall j | k < j < |procs| :: procs[j].pid != procs[k].pid
    ensures LastRow(procs, procs[k].pid) == Some(procs[k])
  {
    var n := |procs| - 1;
    if k < n {
      LastRowExactly(procs[..n], k);
    }
  }

  lemma {:induction false} LastRowPrepend(p: ProcessInfo, rest: seq<ProcessInfo>, pid: int)
    ensures LastRow([p] + rest, pid) ==
      if LastRow(rest, pid).Some? then LastRow(rest, pid) else if p.pid == pid then Some(p) else None
    ensures LastRow(rest, pid).Some? <==> pid in Pids(rest)
    decreases |rest|
  {
    var t := [p] + rest;
    if rest == [] {
      assert t == [p] && t[..0] == [];
      assert LastRow(t[..0], pid) == None;
    } else {
      var n := |rest| - 1;
      assert t[..|t| - 1] == [p] + rest[..n] && t[|t| - 1] == rest[n];
      assert rest == rest[..n] + [rest[n]];
      LastRowPrepend(p, rest[..n], pid);
    }
  }

  function CpuOfRow(r: Option<ProcessInfo>): real {
    if r.Some? then r.value.cpuSeconds else 0.0
  }

  /** One more process adds the cpu time of its last row, or nothing when it has none. */
  lemma {:induction false} CpuOfOneMore(procs: seq<ProcessInfo>, s: set<int>, pid: int)
    requires pid !in s
    ensures CpuOf(procs, s + {pid}) == CpuOf(procs, s) + CpuOfRow(LastRow(procs, pid))
  {
    if procs == [] {
    } else {
      var p, rest := procs[0], procs[1..];
      assert procs == [p] + rest;
      CpuOfOneMore(rest, s, pid);
      LastRowPrepend(p, rest, pid);
    }
  }

  // ---------- closure ----------

  lemma {:induction false} ClosedContainsPath(procs: seq<ProcessInfo>, s: set<int>, path: seq<int>)
    requires Path(procs, path) && path[0] in s
    requires forall v, c :: v in s && IsChild(procs, v, c) ==> c in s
    ensures path[|path| - 1] in s
  {
    hide IsChild;
    if |path| > 1 {
      ClosedContainsPath(procs, s, path[..|path| - 1]);
    }
  }

  lemma ReachesChild(procs: seq<ProcessInfo>, root: int, v: int, c: int)
    requires Reaches(procs, root, v) && IsChild(procs, v, c)
    ensures Reaches(procs, root, c) && c in Pids(procs)
  {
    var path :| Path(procs, path) && path[0] == root && path[|path| - 1] == v;
    assert Path(procs, path + [c]) by {
      hide IsChild;
    }
    assert (path + [c])[0] == root && (path + [c])[|path + [c]| - 1] == c;
  }

  // ---------- the traversal ----------

  /** What the loop knows: only tree members are queued, and a visited process has all its children on record. */
  ghost predicate Frontier(procs: seq<ProcessInfo>, root: int, visited: set<int>, queue: seq<int>) {
    && (forall v | v in visited :: v in Tree(procs, root))
    && (forall v | v in queue :: v in Tree(procs, root))
    && (root in visited || root in queue)
    && (forall v, c :: v in visited && IsChild(procs, v, c) ==> c in visited || c in queue)
  }

  lemma FrontierStart(procs: seq<ProcessInfo>, root: int)
    ensures Frontier(procs, root, {}, [root])
  {
    assert Path(procs, [root]);
    assert Reaches(procs, root, root);
  }

  lemma FrontierSkip(procs: seq<ProcessInfo>, root: int, visited: set<int>, queue: seq<int>)
    requires Frontier(procs, root, visited, queue) && queue != [] && queue[0] in visited
    ensures Frontier(procs, root, visited, queue[1..])
  {
    hide IsChild, Tree;
    assert queue == [queue[0]] + queue[1..];
  }

  lemma FrontierVisit(procs: seq<ProcessInfo>, root: int, visited: set<int>, queue: seq<int>)
    requires Frontier(procs, root, visited, queue) && queue != []
    ensures Frontier(procs, root, visited + {queue[0]}, queue[1..] + Children(procs, queue[0]))
  {
    var v := queue[0];
    assert v in queue && Reaches(procs, root, v);
    ChildrenExactly(procs, v);
    forall c | IsChild(procs, v, c)
      ensures c in Tree(procs, root)
    {
      ReachesChild(procs, root, v, c);
    }
    hide IsChild, Tree, Children;
    assert queue == [v] + queue[1..];
  }

  lemma FrontierDone(procs: seq<ProcessInfo>, root: int, visited: set<int>, queue: seq<int>)
    requires Frontier(procs, root, visited, queue) && queue == []
    ensures visited == Tree(procs, root)
  {
    forall v | v in Tree(procs, root)
      ensures v in visited
    {
      assert Reaches(procs, root, v);
      var path :| Path(procs, path) && path[0] == root && path[|path| - 1] == v;
      ClosedContainsPath(procs, visited, path);
    }
    assert forall v | v in visited :: v in Tree(procs, root);
    hide Tree;
  }

  function KidsIn(m: map<int, seq<int>>, parent: int): seq<int> {
    if parent in m then m[parent] else []
  }

  function RowIn(m: map<int, ProcessInfo>, pid: int): Option<ProcessInfo> {
    if pid in m then Some(m[pid]) else None
  }

  lemma ChildrenNext(procs: seq<ProcessInfo>, i: nat, parent: int)
    requires i < |procs|
    ensures Children(procs[..i + 1], parent) ==
      if procs[i].ppid == parent then Children(procs[..i], parent) + [procs[i].pid] else Children(procs[..i], parent)
  {
    assert procs[..i + 1][..i] == procs[..i];
  }

  lemma LastRowNext(procs: seq<ProcessInfo>, i: nat, pid: int)
    requires i < |procs|
    ensures LastRow(procs[..i + 1], pid) == if procs[i].pid == pid then Some(procs[i]) else LastRow(procs[..i], pid)
  {
    assert procs[..i + 1][..i] == procs[..i];
  }

  ghost predicate IndexesChildren(m: map<int, seq<int>>, procs: seq<ProcessInfo>) {
    forall p :: KidsIn(m, p) == Children(procs, p)
  }

  ghost predicate IndexesRows(m: map<int, ProcessInfo>, procs: seq<ProcessInfo>) {
    forall p :: RowIn(m, p) == LastRow(procs, p)
  }

  lemma KidsNext(m: map<int, seq<int>>, procs: seq<ProcessInfo>, i: nat)
    requires i < |procs| && IndexesChildren(m, procs[..i])
    ensures IndexesChildren(m[procs[i].ppid := KidsIn(m, procs[i].ppid) + [procs[i].pid]], procs[..i + 1])
  {
    var n := m[procs[i].ppid := KidsIn(m, procs[i].ppid) + [procs[i].pid]];
    forall p
      ensures KidsIn(n, p) == Children(procs[..i + 1], p)
    {
      ChildrenNext(procs, i, p);
      hide Children;
    }
  }

  lemma RowsNext(m: map<int, ProcessInfo>, procs: seq<ProcessInfo>, i: nat)
    requires i < |procs| && IndexesRows(m, procs[..i])
    ensures IndexesRows(m[procs[i].pid := procs[i]], procs[..i + 1])
  {
    var n := m[procs[i].pid := procs[i]];
    forall p
      ensures RowIn(n, p) == LastRow(procs[..i + 1], p)
    {
      LastRowNext(procs, i, p);
      hide LastRow;
    }
  }

  method BuildIndexes(procs: seq<ProcessInfo>) returns (childrenOf: map<int, seq<int>>, byPid: map<int, ProcessInfo>)
    ensures IndexesChildren(childrenOf, procs) && IndexesRows(byPid, procs)
  {
    childrenOf, byPid := map[], map[];
    for i := 0 to |procs|
      invariant IndexesChildren(childrenOf, procs[..i])
      invariant IndexesRows(byPid, procs[..i])
    {
      hide IndexesChildren, IndexesRows;
      var p := procs[i];
      KidsNext(childrenOf, procs, i);
      RowsNext(byPid, procs, i);
      childrenOf := childrenOf[p.ppid := KidsIn(childrenOf, p.ppid) + [p.pid]];
      byPid := byPid[p.pid := p];
    }
    assert procs[..|procs|] == procs;
  }

  method SumDescendantCpuSeconds(root: int, procs: seq<ProcessInfo>) returns (total: real)
    ensures total == CpuOf(procs, Tree(procs, root))
  {
    var childrenOf, byPid := BuildIndexes(procs);
    total := 0.0;
    var visited: set<int> := {};
    var queue := [root];
    FrontierStart(procs, root);
    CpuOfNone(procs);
    while |queue| > 0
      invariant Frontier(procs, root, visited, queue)
      invariant total == CpuOf(procs, visited)
      decreases |Tree(procs, root) - visited|, |queue|
    {
      hide Frontier, Tree, Children, LastRow, CpuOf;
      var pid := queue[0];
      if pid in visited {
        FrontierSkip(procs, root, visited, queue);
        queue := queue[1..];
        continue;
      }
      FrontierVisit(procs, root, visited, queue);
      QueuedInTree(procs, root, visited, queue);
      Shrinks(Tree(procs, root), visited, pid);
      CpuOfOneMore(procs, visited, pid);
      visited := visited + {pid};
      if pid in byPid {
        total := total + byPid[pid].cpuSeconds;
      }
      queue := queue[1..] + KidsIn(childrenOf, pid);
    }
    FrontierDone(procs, root, visited, queue);
  }

  lemma {:induction false} CpuOfNone(procs: seq<ProcessInfo>)
    ensures CpuOf(procs, {}) == 0.0
  {
    if procs != [] {
      CpuOfNone(procs[1..]);
    }
  }

  lemma QueuedInTree(procs: seq<ProcessInfo>, root: int, visited: set<int>, queue: seq<int>)
    requires Frontier(procs, root, visited, queue) && queue != []
    ensures queue[0] in Tree(procs, root)
  {
    var v := queue[0];
    assert v in queue && Reaches(procs, root, v);
  }

  lemma Shrinks(all: set<int>, seen: set<int>, pid: int)
    requires pid in all && pid !in seen
    ensures |all - (seen + {pid})| < |all - seen|
  {
    assert all - (seen + {pid}) < all - seen;
    assert all - seen == (all - (seen + {pid})) + {pid};
  }
}
