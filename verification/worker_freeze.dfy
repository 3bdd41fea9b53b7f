/**
 The worker freeze that protects an unresolved A/B race: which workers may only
 receive which tasks, computed from the queue rows and the readable command states.
 */
module WorkerFreeze {
  import opened Common

  type WorkerId = string
  type TaskId = string
  type CommandId = string
  type GroupId = string  // "" for a row that belongs to no group

  datatype Row = Row(task: TaskId, command: CommandId, group: GroupId)

  datatype QueueFile = QueueFile(worker: WorkerId, rows: seq<Row>)

  /** The candidate groups of a command whose state could be read, with whether each is unresolved. */
  type States = map<CommandId, map<GroupId, bool>>

  type Freeze = map<WorkerId, set<TaskId>>

  // ---------- what the freeze is ----------

  /** The race of the row is known to be over. */
  predicate Released(states: States, r: Row) {
    r.command in states && r.group in states[r.command] && !states[r.command][r.group]
  }

  predicate Holds(queues: seq<QueueFile>, w: WorkerId, r: Row) {
    exists q | q in queues :: q.worker == w && r in q.rows
  }

  /** Some tagged row in w's queue is not known to be over. */
  ghost predicate Racing(queues: seq<QueueFile>, states: States, w: WorkerId, r: Row) {
    Holds(queues, w, r) && r.group != "" && !Released(states, r)
  }

  /** w is frozen, and t may reach it. */
  predicate Frozen(f: Freeze, w: WorkerId, t: TaskId) {
    w in f && t in f[w]
  }

  /** Exactly the workers with such a row are frozen, and exactly such rows' tasks may reach them. */
  ghost predicate FreezeExact(queues: seq<QueueFile>, states: States, f: Freeze) {
    && (forall w :: w in f <==> exists r :: Racing(queues, states, w, r))
    && (forall w, t :: Frozen(f, w, t) <==> exists r :: Racing(queues, states, w, r) && r.task == t)
  }

  /** The dispatch gate. */
  predicate MayDispatch(f: Freeze, w: WorkerId, t: TaskId) {
    w in f ==> t in f[w]
  }

  /** A racing worker receives nothing but the tasks of races it takes part in. */
  lemma NoForeignDispatch(queues: seq<QueueFile>, states: States, f: Freeze, w: WorkerId, r: Row, t: TaskId)
    requires FreezeExact(queues, states, f) && Racing(queues, states, w, r)
    ensures MayDispatch(f, w, t) <==> exists own :: Racing(queues, states, w, own) && own.task == t
  {
    hide Racing;
    assert w in f;
    assert Frozen(f, w, t) <==> MayDispatch(f, w, t);
  }

  /** A worker whose tagged rows all belong to races that are readably over is free to receive anything. */
  lemma FinishedIsFree(queues: seq<QueueFile>, states: States, f: Freeze, w: WorkerId, t: TaskId)
    requires FreezeExact(queues, states, f)
    requires forall q, r | q in queues && q.worker == w && r in q.rows && r.group != "" ::
      r.command in states && r.group in states[r.command] && !states[r.command][r.group]
    ensures MayDispatch(f, w, t)
  {
    forall r
      ensures !Racing(queues, states, w, r)
    {}
  }

  /** One tagged row of an unreadable or unresolved race is enough to keep foreign tasks away. */
  lemma UnknownIsFrozen(queues: seq<QueueFile>, states: States, f: Freeze, q: QueueFile, r: Row, t: TaskId)
    requires FreezeExact(queues, states, f) && q in queues && r in q.rows && r.group != ""
    requires r.command in states && r.group in states[r.command] ==> states[r.command][r.group]
    requires forall p, x | p in queues && p.worker == q.worker && x in p.rows && x.group != "" :: x.task != t
    ensures !MayDispatch(f, q.worker, t) && MayDispatch(f, q.worker, r.task)
  {
    assert Racing(queues, states, q.worker, r);
    forall x
      ensures !(Racing(queues, states, q.worker, x) && x.task == t)
    {}
    assert !Frozen(f, q.worker, t);
    assert Frozen(f, q.worker, r.task);
  }

  // ---------- how it is computed ----------

  datatype AbRow = AbRow(worker: WorkerId, row: Row)

  function TaggedIn(w: WorkerId, rows: seq<Row>): seq<AbRow> {
    if rows == [] then []
    else
      var r := rows[|rows| - 1];
      TaggedIn(w, rows[..|rows| - 1]) + (if r.group == "" then [] else [AbRow(w, r)])
  }

  lemma {:induction false} TaggedInExactly(w: WorkerId, rows: seq<Row>, x: AbRow)
    ensures x in TaggedIn(w, rows) <==> x.worker == w && x.row in rows && x.row.group != ""
  {
    if rows == [] {
    } else {
      var rest, r := rows[..|rows| - 1], rows[|rows| - 1];
      assert rows == rest + [r];
      TaggedInExactly(w, rest, x);
    }
  }

  method CollectRows(queues: seq<QueueFile>) returns (rows: seq<AbRow>)
    ensures forall x :: x in rows <==> Holds(queues, x.worker, x.row) && x.row.group != ""
  {
    rows := [];
    for i := 0 to |queues|
      invariant forall x :: x in rows <==> Holds(queues[..i], x.worker, x.row) && x.row.group != ""
    {
      var q := queues[i];
      ghost var before := rows;
      for j := 0 to |q.rows|
        invariant rows == before + TaggedIn(q.worker, q.rows[..j])
      {
        assert q.rows[..j + 1][..j] == q.rows[..j];
        if q.rows[j].group == "" {
          continue;
        }
        rows := rows + [AbRow(q.worker, q.rows[j])];
      }
      assert q.rows[..|q.rows|] == q.rows;
      forall x
        ensures x in rows <==> Holds(queues[..i + 1], x.worker, x.row) && x.row.group != ""
      {
        TaggedInExactly(q.worker, q.rows, x);
        HoldsNext(queues, i, x.worker, x.row);
        hide Holds, TaggedIn;
      }
    }
    assert queues[..|queues|] == queues;
  }

  lemma HoldsNext(queues: seq<QueueFile>, i: nat, w: WorkerId, r: Row)
    requires i < |queues|
    ensures Holds(queues[..i + 1], w, r) <==> Holds(queues[..i], w, r) || (queues[i].worker == w && r in queues[i].rows)
  {
    assert queues[..i + 1] == queues[..i] + [queues[i]];
  }

  /** commandID + "/" + groupID */
  function Key(r: Row): string {
    r.command + "/" + r.group
  }

  function SlashAt(s: string): nat {
    if s == "" || s[0] == '/' then 0 else 1 + SlashAt(s[1..])
  }

  lemma {:induction false} SlashAfter(c: CommandId, g: GroupId)
    requires '/' !in c
    ensures SlashAt(c + "/" + g) == |c|
  {
    if c == "" {
      assert c + "/" + g == "/" + g;
    } else {
      assert (c + "/" + g)[1..] == c[1..] + "/" + g;
      SlashAfter(c[1..], g);
    }
  }

  /** A command id has no '/', so the key determines the row's command and group. */
  lemma KeyDetermines(c: CommandId, g: GroupId, d: CommandId, h: GroupId)
    requires '/' !in c && '/' !in d && c + "/" + g == d + "/" + h
    ensures c == d && g == h
  {
    SlashAfter(c, g);
    SlashAfter(d, h);
    var k := c + "/" + g;
    assert c == k[..|c|] && d == k[..|d|];
    assert g == k[|c| + 1..] && h == k[|d| + 1..];
  }

  method ResolvedKeys(states: States, rows: seq<AbRow>) returns (resolved: set<string>)
    requires forall c | c in states :: '/' !in c
    requires forall x | x in rows :: '/' !in x.row.command
    ensures forall x | x in rows :: Key(x.row) in resolved <==> Released(states, x.row)
  {
    resolved := {};
    var checked: set<CommandId> := {};
    for i := 0 to |rows|
      invariant forall x | x in rows[..i] :: x.row.command in checked
      invariant forall k | k in resolved :: exists r :: Released(states, r) && k == Key(r)
      invariant forall r | Released(states, r) && r.command in checked :: Key(r) in resolved
    {
      var c := rows[i].row.command;
      if c in checked {
        continue;
      }
      checked := checked + {c};
      if c !in states {
        continue;
      }
      var over := set g | g in states[c] && !states[c][g] :: c + "/" + g;
      forall k | k in over
        ensures exists r :: Released(states, r) && k == Key(r)
      {
        var g :| g in states[c] && !states[c][g] && k == c + "/" + g;
        assert Released(states, Row("", c, g)) && Key(Row("", c, g)) == k;
      }
      resolved := resolved + over;
    }
    assert rows[..|rows|] == rows;
    forall x | x in rows
      ensures Key(x.row) in resolved <==> Released(states, x.row)
    {
      if Key(x.row) in resolved {
        var r :| Released(states, r) && Key(x.row) == Key(r);
        KeyDetermines(r.command, r.group, x.row.command, x.row.group);
      }
    }
  }

  /** computeABFreeze; the empty map stands for "nothing frozen". */
  method ComputeFreeze(queues: seq<QueueFile>, states: States) returns (f: Freeze)
    requires forall c | c in states :: '/' !in c
    requires forall q | q in queues :: forall r | r in q.rows :: '/' !in r.command
    ensures FreezeExact(queues, states, f)
  {
    var rows := CollectRows(queues);
    forall x | x in rows
      ensures '/' !in x.row.command
    {
      assert Holds(queues, x.worker, x.row);
    }
    var resolved := ResolvedKeys(states, rows);
    f := map[];
    for i := 0 to |rows|
      invariant forall w, t :: Frozen(f, w, t) <==> Unreleased(states, rows[..i], w, t)
      invariant forall w | w in f :: f[w] != {}
    {
      var x := rows[i];
      assert x in rows;
      UnreleasedNext(states, rows, i);
      hide Unreleased;
      ghost var before := f;
      if Key(x.row) in resolved {
        continue;
      }
      var own := if x.worker in f then f[x.worker] else {};
      f := f[x.worker := own + {x.row.task}];
      assert forall w, t :: Frozen(f, w, t) <==> Frozen(before, w, t) || (w == x.worker && t == x.row.task);
    }
    assert rows[..|rows|] == rows;
    FreezeFromRows(queues, states, rows, f);
  }

  predicate Unreleased(states: States, rows: seq<AbRow>, w: WorkerId, t: TaskId) {
    exists x | x in rows :: x.worker == w && x.row.task == t && !Released(states, x.row)
  }

  lemma UnreleasedNextAt(states: States, rows: seq<AbRow>, i: nat, w: WorkerId, t: TaskId)
    requires i < |rows|
    ensures Unreleased(states, rows[..i + 1], w, t) <==>
      Unreleased(states, rows[..i], w, t)
      || (rows[i].worker == w && rows[i].row.task == t && !Released(states, rows[i].row))
  {
    hide Released;
    var before, after := rows[..i], rows[..i + 1];
    assert after == before + [rows[i]];
    if Unreleased(states, before, w, t) {
      var x :| x in before && x.worker == w && x.row.task == t && !Released(states, x.row);
      assert x in after;
    }
    if rows[i].worker == w && rows[i].row.task == t && !Released(states, rows[i].row) {
      assert after[i] in after;
    }
    if Unreleased(states, after, w, t) {
      var x :| x in after && x.worker == w && x.row.task == t && !Released(states, x.row);
      assert x in before || x == rows[i];
    }
  }

  lemma UnreleasedNext(states: States, rows: seq<AbRow>, i: nat)
    requires i < |rows|
    ensures forall w, t :: Unreleased(states, rows[..i + 1], w, t) <==>
      Unreleased(states, rows[..i], w, t)
      || (rows[i].worker == w && rows[i].row.task == t && !Released(states, rows[i].row))
  {
    hide Released, Unreleased;
    forall w, t
      ensures Unreleased(states, rows[..i + 1], w, t) <==>
        Unreleased(states, rows[..i], w, t)
        || (rows[i].worker == w && rows[i].row.task == t && !Released(states, rows[i].row))
    {
      UnreleasedNextAt(states, rows, i, w, t);
    }
  }

  lemma RacingRows(queues: seq<QueueFile>, states: States, rows: seq<AbRow>, w: WorkerId, t: TaskId)
    requires forall x :: x in rows <==> Holds(queues, x.worker, x.row) && x.row.group != ""
    ensures Unreleased(states, rows, w, t) <==> exists r :: Racing(queues, states, w, r) && r.task == t
  {
    hide Holds, Released;
    if Unreleased(states, rows, w, t) {
      var x :| x in rows && x.worker == w && x.row.task == t && !Released(states, x.row);
      assert Racing(queues, states, w, x.row);
    }
    if exists r :: Racing(queues, states, w, r) && r.task == t {
      var r :| Racing(queues, states, w, r) && r.task == t;
      assert Holds(queues, AbRow(w, r).worker, AbRow(w, r).row);
      assert AbRow(w, r) in rows;
    }
  }

  lemma FreezeFromRows(queues: seq<QueueFile>, states: States, rows: seq<AbRow>, f: Freeze)
    requires forall x :: x in rows <==> Holds(queues, x.worker, x.row) && x.row.group != ""
    requires forall w, t :: Frozen(f, w, t) <==> Unreleased(states, rows, w, t)
    requires forall w | w in f :: f[w] != {}
    ensures FreezeExact(queues, states, f)
  {
    forall w, t
      ensures Frozen(f, w, t) <==> exists r :: Racing(queues, states, w, r) && r.task == t
    {
      RacingRows(queues, states, rows, w, t);
    }
    hide Holds, Released, Racing, Unreleased;
    forall w
      ensures w in f <==> exists r :: Racing(queues, states, w, r)
    {
      if w in f {
        var t :| t in f[w];
        assert Frozen(f, w, t);
      }
      if exists r :: Racing(queues, states, w, r) {
        var r :| Racing(queues, states, w, r);
        assert Frozen(f, w, r.task);
      }
    }
  }

  // ---------- runs ----------

  /** The queues, what can be read of the command states, and the races that are really over. */
  datatype World = World(queues: seq<QueueFile>, states: States, over: set<(CommandId, GroupId)>)

  datatype Event =
    | Change(next: World)                                   // anything but a dispatch
    | Dispatch(freeze: Freeze, worker: WorkerId, task: TaskId)  // through the gate, with this scan's freeze

  /** A command state that can be read shows a race as over only if it is. */
  ghost predicate Truthful(w: World) {
    forall c, g | c in w.states && g in w.states[c] && !w.states[c][g] :: (c, g) in w.over
  }

  /** Tagged rows stay queued until their race is over, and what is over stays over. */
  ghost predicate RowsStay(w: World, next: World) {
    && w.over <= next.over
    && forall worker, r | Holds(w.queues, worker, r) && r.group != "" && (r.command, r.group) !in next.over ::
         Holds(next.queues, worker, r)
  }

  ghost predicate Allowed(w: World, e: Event) {
    match e
    case Change(next) => Truthful(next) && RowsStay(w, next)
    case Dispatch(f, worker, task) => FreezeExact(w.queues, w.states, f) && MayDispatch(f, worker, task)
  }

  function After(w: World, e: Event): World {
    if e.Change? then e.next else w
  }

  function AfterAll(w: World, es: seq<Event>): World
    decreases |es|
  {
    if es == [] then w else AfterAll(After(w, es[0]), es[1..])
  }

  ghost predicate AllAllowed(w: World, es: seq<Event>)
    decreases |es|
  {
    es != [] ==> Allowed(w, es[0]) && AllAllowed(After(w, es[0]), es[1..])
  }

  /** As long as its race is not over, a tagged row keeps its worker racing. */
  lemma {:induction false} StaysRacing(w: World, es: seq<Event>, worker: WorkerId, r: Row)
    requires Truthful(w) && AllAllowed(w, es) && Holds(w.queues, worker, r) && r.group != ""
    requires (r.command, r.group) !in AfterAll(w, es).over
    ensures Truthful(AfterAll(w, es)) && Racing(AfterAll(w, es).queues, AfterAll(w, es).states, worker, r)
    decreases |es|
  {
    hide Holds;
    if es == [] {
    } else {
      if (r.command, r.group) in After(w, es[0]).over {
        OverStaysOver(After(w, es[0]), es[1..], (r.command, r.group));
        assert false;
      }
      StaysRacing(After(w, es[0]), es[1..], worker, r);
    }
  }

  lemma {:induction false} OverStaysOver(w: World, es: seq<Event>, race: (CommandId, GroupId))
    requires AllAllowed(w, es) && race in w.over
    ensures race in AfterAll(w, es).over
    decreases |es|
  {
    if es != [] {
      OverStaysOver(After(w, es[0]), es[1..], race);
    }
  }

  /**
   Over every run: from the moment a candidate row is tagged until its race is over,
   whatever is dispatched to its worker is the task of a race the worker takes part in.
   */
  lemma NeverForeignDispatch(w: World, es: seq<Event>, e: Event, worker: WorkerId, r: Row)
    requires Truthful(w) && AllAllowed(w, es) && Holds(w.queues, worker, r) && r.group != ""
    requires (r.command, r.group) !in AfterAll(w, es).over
    requires e.Dispatch? && e.worker == worker && Allowed(AfterAll(w, es), e)
    ensures var now := AfterAll(w, es);
      exists own :: Racing(now.queues, now.states, worker, own) && own.task == e.task
  {
    StaysRacing(w, es, worker, r);
    var now := AfterAll(w, es);
    NoForeignDispatch(now.queues, now.states, e.freeze, worker, r, e.task);
  }
}
