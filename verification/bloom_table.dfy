/**
 The table that carries a task's Bloom level from dispatch to reward: a map with
 generation tags, a first-in first-out order list whose stale entries are deleted
 lazily, and an in-place compaction.  It is proved to be a plain bounded FIFO map.
 */
module BloomTable {
  type Id = string

  const CAPACITY: nat := 4096

  /** bloomBucket: levels outside 1..6 have no bucket. */
  predicate HasBucket(level: int) {
    1 <= level <= 6
  }

  // ---------- the plain bounded FIFO map ----------

  datatype Record = Record(id: Id, level: int)

  /** Position of id, or the length when absent. */
  function IndexOf(s: seq<Record>, id: Id): (k: nat)
    ensures k <= |s|
    ensures k < |s| ==> s[k].id == id
    ensures forall i | 0 <= i < k :: s[i].id != id
  {
    if s == [] || s[0].id == id then 0 else 1 + IndexOf(s[1..], id)
  }

  function FifoRecord(s: seq<Record>, id: Id, level: int): seq<Record> {
    var k := IndexOf(s, id);
    if id == "" || !HasBucket(level) then s
    else if k < |s| then s[k := Record(id, level)]
    else (if |s| >= CAPACITY then s[1..] else s) + [Record(id, level)]
  }

  function FifoConsume(s: seq<Record>, id: Id): seq<Record> {
    var k := IndexOf(s, id);
    if k < |s| then s[..k] + s[k + 1..] else s
  }

  /** 0 stands for "no bucket". */
  function FifoLevel(s: seq<Record>, id: Id): int {
    var k := IndexOf(s, id);
    if k < |s| then s[k].level else 0
  }

  ghost predicate Distinct(s: seq<Record>) {
    forall i, j | 0 <= i < j < |s| :: s[i].id != s[j].id
  }

  datatype Op = Put(id: Id, level: int) | Take(id: Id)

  function Apply(s: seq<Record>, op: Op): seq<Record> {
    match op
    case Put(id, level) => FifoRecord(s, id, level)
    case Take(id) => FifoConsume(s, id)
  }

  function ApplyAll(s: seq<Record>, ops: seq<Op>): seq<Record>
    decreases |ops|
  {
    if ops == [] then s else ApplyAll(Apply(s, ops[0]), ops[1..])
  }

  ghost predicate WellFormed(s: seq<Record>) {
    |s| <= CAPACITY && Distinct(s) && forall i | 0 <= i < |s| :: s[i].id != "" && HasBucket(s[i].level)
  }

  lemma WithoutWellFormed(s: seq<Record>, k: nat)
    requires WellFormed(s) && k < |s|
    ensures WellFormed(s[..k] + s[k + 1..])
  {
    var t := s[..k] + s[k + 1..];
    hide HasBucket;
    forall i, j | 0 <= i < j < |t|
      ensures t[i].id != t[j].id
    {
      var i', j' := if i < k then i else i + 1, if j < k then j else j + 1;
      assert t[i] == s[i'] && t[j] == s[j'];
    }
    forall i | 0 <= i < |t|
      ensures t[i].id != "" && HasBucket(t[i].level)
    {
      assert t[i] == s[if i < k then i else i + 1];
    }
  }

  lemma UpdatedWellFormed(s: seq<Record>, k: nat, level: int)
    requires WellFormed(s) && k < |s| && HasBucket(level)
    ensures WellFormed(s[k := Record(s[k].id, level)])
  {
    hide HasBucket;
  }

  lemma AppendedWellFormed(s: seq<Record>, r: Record)
    requires WellFormed(s) && |s| < CAPACITY && r.id != "" && HasBucket(r.level)
    requires forall i | 0 <= i < |s| :: s[i].id != r.id
    ensures WellFormed(s + [r])
  {
    hide HasBucket;
  }

  /** At most CAPACITY records, one per task, each with a bucket. */
  lemma ApplyKeepsWellFormed(s: seq<Record>, op: Op)
    requires WellFormed(s)
    ensures WellFormed(Apply(s, op))
  {
    var k := IndexOf(s, op.id);
    hide IndexOf, WellFormed;
    if op.Take? {
      if k < |s| {
        WithoutWellFormed(s, k);
      }
    } else if op.id != "" && HasBucket(op.level) {
      if k < |s| {
        UpdatedWellFormed(s, k, op.level);
      } else if |s| >= CAPACITY {
        WithoutWellFormed(s, 0);
        assert s[..0] + s[1..] == s[1..];
        AtCapacity(s);
        AppendedWellFormed(s[1..], Record(op.id, op.level));
      } else {
        AppendedWellFormed(s, Record(op.id, op.level));
      }
    }
  }

  // ---------- what each operation does to the levels ----------

  lemma LevelIs(s: seq<Record>, k: nat)
    requires Distinct(s) && k < |s|
    ensures FifoLevel(s, s[k].id) == s[k].level
  {
    var j := IndexOf(s, s[k].id);
    assert j < k || k < j || j == k;
  }

  lemma NoLevel(s: seq<Record>, id: Id)
    requires forall i | 0 <= i < |s| :: s[i].id != id
    ensures FifoLevel(s, id) == 0
  {}

  /** The record with the same id, or none, in another list. */
  lemma SameLevel(s: seq<Record>, t: seq<Record>, id: Id)
    requires Distinct(s) && Distinct(t)
    requires forall i | 0 <= i < |s| :: s[i].id == id ==> s[i] in t
    requires forall j | 0 <= j < |t| :: t[j].id == id ==> t[j] in s
    ensures FifoLevel(t, id) == FifoLevel(s, id)
  {
    var i, j := IndexOf(s, id), IndexOf(t, id);
    hide IndexOf;
    if i < |s| {
      var k :| 0 <= k < |t| && t[k] == s[i];
      LevelIs(t, k);
      LevelIs(s, i);
    } else {
      assert forall l | 0 <= l < |t| :: t[l].id == id ==> t[l] in s;
    }
  }

  /** Recording sets the level of its task; of the others only the oldest can lose its level, when the table is full. */
  lemma PutExactly(s: seq<Record>, id: Id, level: int, x: Id)
    requires WellFormed(s)
    ensures var t := Apply(s, Put(id, level));
      FifoLevel(t, x) ==
        if id == "" || !(1 <= level <= 6) then FifoLevel(s, x)
        else if x == id then level
        else if |s| == 4096 && FifoLevel(s, id) == 0 && x == s[0].id then 0
        else FifoLevel(s, x)
  {
    ApplyKeepsWellFormed(s, Put(id, level));
    var t := Apply(s, Put(id, level));
    var k := IndexOf(s, id);
    if id != "" && HasBucket(level) {
      if k < |s| {
        LevelIs(s, k);
      } else {
        NoLevel(s, id);
      }
      hide IndexOf, HasBucket;
      if x == id {
        LevelIs(t, if k < |s| then k else |t| - 1);
      } else if k == |s| && |s| >= CAPACITY && x == s[0].id {
        NoLevel(t, x);
      } else {
        PutKeeps(s, t, k, Record(id, level), x);
      }
    }
  }

  lemma PutKeeps(s: seq<Record>, t: seq<Record>, k: nat, r: Record, x: Id)
    requires Distinct(s) && Distinct(t) && x != r.id && k <= |s|
    requires k < |s| ==> s[k].id == r.id && t == s[k := r]
    requires k == |s| ==> t == s + [r] || (s != [] && s[0].id != x && t == s[1..] + [r])
    ensures FifoLevel(t, x) == FifoLevel(s, x)
  {
    forall i | 0 <= i < |s| && s[i].id == x
      ensures s[i] in t
    {
      if k == |s| && t != s + [r] {
        assert t[i - 1] == s[i];
      } else {
        assert t[i] == s[i];
      }
    }
    hide Distinct;
    SameLevel(s, t, x);
  }

  /** Taking removes the record of its task and of no other. */
  lemma TakeExactly(s: seq<Record>, id: Id, x: Id)
    requires WellFormed(s)
    ensures FifoLevel(Apply(s, Take(id)), x) == if x == id then 0 else FifoLevel(s, x)
  {
    ApplyKeepsWellFormed(s, Take(id));
    var t := Apply(s, Take(id));
    var k := IndexOf(s, id);
    hide IndexOf;
    if k < |s| {
      assert forall i | 0 <= i < |t| :: t[i] == if i < k then s[i] else s[i + 1];
      if x == id {
        NoLevel(t, id);
      } else {
        forall i | 0 <= i < |s| && s[i].id == x
          ensures s[i] in t
        {
          assert t[if i < k then i else i - 1] == s[i];
        }
        SameLevel(s, t, x);
      }
    } else if x == id {
      NoLevel(s, id);
    }
  }

  /** ops[k] records this level for id, and nothing after it concerns id. */
  ghost predicate LastPut(ops: seq<Op>, k: nat, id: Id, level: int) {
    k < |ops| && ops[k] == Put(id, level)
    && forall j: nat | k < j < |ops| && ops[j].id == id :: ops[j].Put? && !(1 <= ops[j].level <= 6)
  }

  lemma {:induction false} ApplyAllSnoc(s: seq<Record>, ops: seq<Op>, op: Op)
    ensures ApplyAll(s, ops + [op]) == Apply(ApplyAll(s, ops), op)
    decreases |ops|
  {
    if ops == [] {
      assert ([op])[1..] == [];
    } else {
      assert (ops + [op])[1..] == ops[1..] + [op];
      ApplyAllSnoc(Apply(s, ops[0]), ops[1..], op);
    }
    hide Apply;
  }

  /** Over every run from the empty table, a level that is there is the one recorded last, and not taken since. */
  lemma {:induction false} LevelExplained(ops: seq<Op>, id: Id)
    requires FifoLevel(ApplyAll([], ops), id) != 0
    ensures WellFormed(ApplyAll([], ops))
    ensures exists k: nat :: LastPut(ops, k, id, FifoLevel(ApplyAll([], ops), id))
    decreases |ops|
  {
    var n := |ops| - 1;
    AllWellFormed(ops);
    assert ops != [];
    var before, op := ops[..n], ops[n];
    AllWellFormed(before);
    var s, level := ApplyAll([], before), FifoLevel(ApplyAll([], ops), id);
    assert ops == before + [op];
    ApplyAllSnoc([], before, op);
    hide ApplyAll, Apply, FifoLevel, WellFormed;
    if op.Put? {
      PutExactly(s, op.id, op.level, id);
    } else {
      TakeExactly(s, op.id, id);
    }
    if op.Put? && op.id == id && 1 <= op.level <= 6 && id != "" {
      assert LastPut(ops, n, id, level);
    } else {
      LevelExplained(before, id);
      var k: nat :| LastPut(before, k, id, level);
      assert LastPut(ops, k, id, level);
    }
  }

  lemma {:induction false} AllWellFormed(ops: seq<Op>)
    ensures WellFormed(ApplyAll([], ops))
    decreases |ops|
  {
    if ops != [] {
      var n := |ops| - 1;
      AllWellFormed(ops[..n]);
      assert ops == ops[..n] + [ops[n]];
      ApplyAllSnoc([], ops[..n], ops[n]);
      ApplyKeepsWellFormed(ApplyAll([], ops[..n]), ops[n]);
    }
    hide Apply;
  }

  lemma AtCapacity(s: seq<Record>)
    requires WellFormed(s)
    ensures |s| <= CAPACITY
  {}

  lemma IndexIs(s: seq<Record>, id: Id, k: nat)
    requires k < |s| && s[k].id == id && forall i | 0 <= i < k :: s[i].id != id
    ensures IndexOf(s, id) == k && FifoLevel(s, id) == s[k].level
  {}

  lemma TakeKeepsRecord(s: seq<Record>, other: Id, id: Id)
    requires other != id && IndexOf(s, id) < |s|
    ensures var t := FifoConsume(s, other);
      && IndexOf(t, id) < |t| && FifoLevel(t, id) == FifoLevel(s, id)
      && |t| - IndexOf(t, id) <= |s| - IndexOf(s, id)
  {
    var k, j := IndexOf(s, id), IndexOf(s, other);
    if j < |s| {
      IndexIs(FifoConsume(s, other), id, if j < k then k - 1 else k);
    }
  }

  lemma PutKeepsRecord(s: seq<Record>, other: Id, level: int, id: Id)
    requires other != id && IndexOf(s, id) < |s| <= CAPACITY
    requires 1 <= IndexOf(s, id) || |s| < CAPACITY
    ensures var t := FifoRecord(s, other, level);
      && IndexOf(t, id) < |t| && FifoLevel(t, id) == FifoLevel(s, id)
      && |t| - IndexOf(t, id) <= |s| - IndexOf(s, id) + 1
  {
    var k, j := IndexOf(s, id), IndexOf(s, other);
    var t := FifoRecord(s, other, level);
    if t == s {
    } else if j < |s| {
      IndexIs(t, id, k);
    } else if |s| >= CAPACITY {
      assert t[k - 1] == s[k] && forall i | 0 <= i < k - 1 :: t[i] == s[i + 1];
      IndexIs(t, id, k - 1);
    } else {
      IndexIs(t, id, k);
    }
  }

  /** An operation on other tasks moves a record at most one place towards eviction. */
  lemma ApplyKeepsRecord(s: seq<Record>, op: Op, id: Id)
    requires op.id != id && IndexOf(s, id) < |s| <= CAPACITY
    requires 1 <= IndexOf(s, id) || |s| < CAPACITY
    ensures var t := Apply(s, op);
      && IndexOf(t, id) < |t| && FifoLevel(t, id) == FifoLevel(s, id)
      && |t| - IndexOf(t, id) <= |s| - IndexOf(s, id) + 1
  {
    match op {
      case Put(other, level) => PutKeepsRecord(s, other, level, id);
      case Take(other) => TakeKeepsRecord(s, other, id);
    }
  }

  /** A recorded level survives any 4095 operations on other tasks. */
  lemma {:induction false} Retained(s: seq<Record>, ops: seq<Op>, id: Id)
    requires WellFormed(s) && IndexOf(s, id) < |s|
    requires forall op | op in ops :: op.id != id
    requires |s| - IndexOf(s, id) + |ops| <= CAPACITY
    ensures FifoLevel(ApplyAll(s, ops), id) == FifoLevel(s, id) != 0
    decreases |ops|
  {
    var k := IndexOf(s, id);
    assert s[k] in s;
    if ops == [] {
    } else {
      ApplyKeepsRecord(s, ops[0], id);
      ApplyKeepsWellFormed(s, ops[0]);
      Retained(Apply(s, ops[0]), ops[1..], id);
    }
  }

  lemma RecordThenConsume(s: seq<Record>, id: Id, level: int, ops: seq<Op>)
    requires WellFormed(s) && id != "" && HasBucket(level) && IndexOf(s, id) == |s|
    requires |ops| < CAPACITY && forall op | op in ops :: op.id != id
    ensures FifoLevel(ApplyAll(FifoRecord(s, id, level), ops), id) == level
  {
    var t := FifoRecord(s, id, level);
    assert Apply(s, Put(id, level)) == t;
    ApplyKeepsWellFormed(s, Put(id, level));
    assert t[|t| - 1] == Record(id, level);
    assert IndexOf(t, id) == |t| - 1;
    Retained(t, ops, id);
  }

  // ---------- the table itself ----------

  datatype Entry = Entry(level: int, generation: nat)
  datatype Slot = Slot(id: Id, generation: nat)

  /** The slot is the one its task was recorded in; otherwise it is stale. */
  predicate Current(entries: map<Id, Entry>, slot: Slot) {
    slot.id in entries && entries[slot.id].generation == slot.generation
  }

  function Kept(entries: map<Id, Entry>, order: seq<Slot>): seq<Slot> {
    if order == [] then []
    else
      var rest, slot := order[..|order| - 1], order[|order| - 1];
      Kept(entries, rest) + (if Current(entries, slot) then [slot] else [])
  }

  /** The live records, oldest first. */
  function Live(entries: map<Id, Entry>, order: seq<Slot>): seq<Record> {
    if order == [] then []
    else
      var slot := order[|order| - 1];
      Live(entries, order[..|order| - 1])
      + (if Current(entries, slot) then [Record(slot.id, entries[slot.id].level)] else [])
  }

  ghost predicate Increasing(order: seq<Slot>, last: nat) {
    && (forall i, j | 0 <= i < j < |order| :: order[i].generation < order[j].generation)
    && (forall i | 0 <= i < |order| :: order[i].generation <= last)
  }

  /** Every live record occurs in the order list; being strictly increasing, the list holds it once. */
  ghost predicate Ordered(entries: map<Id, Entry>, order: seq<Slot>) {
    forall id | id in entries :: Slot(id, entries[id].generation) in order
  }

  lemma {:induction false} LiveConcat(entries: map<Id, Entry>, a: seq<Slot>, b: seq<Slot>)
    ensures Live(entries, a + b) == Live(entries, a) + Live(entries, b)
  {
    if b == [] {
      assert a + b == a;
    } else {
      assert (a + b)[..|a + b| - 1] == a + b[..|b| - 1];
      LiveConcat(entries, a, b[..|b| - 1]);
    }
  }

  /** The live records depend only on which slots are current, and on their levels. */
  lemma {:induction false} LiveSame(m: map<Id, Entry>, n: map<Id, Entry>, order: seq<Slot>)
    requires forall slot | slot in order ::
      (Current(m, slot) <==> Current(n, slot)) && (Current(m, slot) ==> m[slot.id].level == n[slot.id].level)
    ensures Live(m, order) == Live(n, order)
  {
    if order == [] {
    } else {
      LiveSame(m, n, order[..|order| - 1]);
    }
  }

  lemma {:induction false} LiveFromSlot(m: map<Id, Entry>, order: seq<Slot>, r: Record)
    requires r in Live(m, order)
    ensures r.id in m && Slot(r.id, m[r.id].generation) in order
  {
    var rest := order[..|order| - 1];
    if r in Live(m, rest) {
      LiveFromSlot(m, rest, r);
    }
  }

  /** No slot of the task among these is current. */
  ghost predicate Stale(m: map<Id, Entry>, slots: seq<Slot>, id: Id) {
    forall slot | slot in slots :: slot.id == id ==> !Current(m, slot)
  }

  /** Where a task's record sits, and that nothing else in the list concerns the task. */
  lemma Locate(m: map<Id, Entry>, order: seq<Slot>, last: nat, id: Id) returns (i: nat)
    requires Increasing(order, last) && Ordered(m, order) && id in m
    ensures i < |order| && order[i] == Slot(id, m[id].generation)
    ensures Live(m, order) == Live(m, order[..i]) + [Record(id, m[id].level)] + Live(m, order[i + 1..])
    ensures IndexOf(Live(m, order), id) == |Live(m, order[..i])|
    ensures Stale(m, order[..i], id) && Stale(m, order[i + 1..], id)
  {
    i :| 0 <= i < |order| && order[i] == Slot(id, m[id].generation);
    SplitAt(m, order, i);
    var a := Live(m, order[..i]);
    forall r | r in a
      ensures r.id != id
    {
      LiveFromSlot(m, order[..i], r);
    }
    var s := Live(m, order);
    assert s[|a|] == Record(id, m[id].level);
    assert forall k | 0 <= k < |a| :: s[k] == a[k] && a[k] in a;
  }

  lemma SplitAt(m: map<Id, Entry>, order: seq<Slot>, i: nat)
    requires i < |order|
    ensures Live(m, order) == Live(m, order[..i])
      + (if Current(m, order[i]) then [Record(order[i].id, m[order[i].id].level)] else []) + Live(m, order[i + 1..])
  {
    assert order == order[..i] + ([order[i]] + order[i + 1..]);
    LiveConcat(m, order[..i], [order[i]] + order[i + 1..]);
    LiveConcat(m, [order[i]], order[i + 1..]);
    assert [order[i]][..0] == [];
    assert Live(m, [order[i]]) == Live(m, []) + (if Current(m, order[i]) then [Record(order[i].id, m[order[i].id].level)] else []);
  }

  /** What the three variables keep between calls. */
  ghost predicate Good(m: map<Id, Entry>, order: seq<Slot>, last: nat) {
    && Increasing(order, last) && Ordered(m, order) && |Live(m, order)| == |m|
    && Valued(m)
  }

  ghost predicate Valued(m: map<Id, Entry>) {
    forall id | id in m :: id != "" && HasBucket(m[id].level)
  }

  lemma Around<T>(a: seq<T>, x: T, b: seq<T>, y: T)
    ensures var s := a + [x] + b;
      s[|a|] == x && s[|a| := y] == a + [y] + b && s[..|a|] + s[|a| + 1..] == a + b
  {}

  lemma WithoutSame(m: map<Id, Entry>, slots: seq<Slot>, id: Id)
    requires Stale(m, slots, id)
    ensures Live(m - {id}, slots) == Live(m, slots)
  {
    LiveSame(m, m - {id}, slots);
  }

  lemma WithSame(m: map<Id, Entry>, slots: seq<Slot>, id: Id, level: int)
    requires id in m && Stale(m, slots, id)
    ensures Live(m[id := m[id].(level := level)], slots) == Live(m, slots)
  {
    LiveSame(m, m[id := m[id].(level := level)], slots);
  }

  /** With the level refreshed, only the record at the task's slot is another one. */
  lemma LiveWith(m: map<Id, Entry>, order: seq<Slot>, i: nat, id: Id, level: int)
    requires id in m && i < |order| && order[i] == Slot(id, m[id].generation)
    requires Stale(m, order[..i], id) && Stale(m, order[i + 1..], id)
    ensures Live(m[id := m[id].(level := level)], order)
      == Live(m, order[..i]) + [Record(id, level)] + Live(m, order[i + 1..])
  {
    hide Live, Stale;
    SplitAt(m[id := m[id].(level := level)], order, i);
    WithSame(m, order[..i], id, level);
    WithSame(m, order[i + 1..], id, level);
  }

  lemma RefreshedLive(m: map<Id, Entry>, order: seq<Slot>, last: nat, id: Id, level: int)
    requires Increasing(order, last) && Ordered(m, order) && id in m
    ensures var n := m[id := m[id].(level := level)];
      var s := Live(m, order);
      IndexOf(s, id) < |s| && Live(n, order) == s[IndexOf(s, id) := Record(id, level)]
  {
    var i := Locate(m, order, last, id);
    hide Increasing, Ordered, IndexOf, Live, Current, Stale;
    LiveWith(m, order, i, id, level);
    Around(Live(m, order[..i]), Record(id, m[id].level), Live(m, order[i + 1..]), Record(id, level));
  }

  /** Refreshing the level of a live task, keeping its place. */
  lemma Refreshed(m: map<Id, Entry>, order: seq<Slot>, last: nat, id: Id, level: int)
    requires Good(m, order, last) && id in m && HasBucket(level)
    ensures var n := m[id := m[id].(level := level)];
      var s := Live(m, order);
      && Good(n, order, last) && IndexOf(s, id) < |s|
      && Live(n, order) == s[IndexOf(s, id) := Record(id, level)]
  {
    RefreshedLive(m, order, last, id, level);
    hide Live, Increasing, IndexOf;
    var n := m[id := m[id].(level := level)];
    assert n.Keys == m.Keys;
    assert |n| == |n.Keys| && |m| == |m.Keys|;
  }

  /** Without the task, the records before and after its slot are left. */
  lemma LiveWithout(m: map<Id, Entry>, order: seq<Slot>, i: nat, id: Id)
    requires i < |order| && order[i].id == id
    requires Stale(m, order[..i], id) && Stale(m, order[i + 1..], id)
    ensures Live(m - {id}, order) == Live(m, order[..i]) + Live(m, order[i + 1..])
  {
    hide Live, Stale;
    SplitAt(m - {id}, order, i);
    WithoutSame(m, order[..i], id);
    WithoutSame(m, order[i + 1..], id);
  }

  lemma DeletedLive(m: map<Id, Entry>, order: seq<Slot>, last: nat, id: Id)
    requires Increasing(order, last) && Ordered(m, order) && id in m
    ensures var s := Live(m, order);
      && IndexOf(s, id) < |s| && s[IndexOf(s, id)] == Record(id, m[id].level)
      && Live(m - {id}, order) == s[..IndexOf(s, id)] + s[IndexOf(s, id) + 1..]
  {
    var i := Locate(m, order, last, id);
    hide Increasing, Ordered, IndexOf, Live, Current, Stale;
    LiveWithout(m, order, i, id);
    var rec := Record(id, m[id].level);
    Around(Live(m, order[..i]), rec, Live(m, order[i + 1..]), rec);
  }

  /** Deleting a live task. */
  lemma Deleted(m: map<Id, Entry>, order: seq<Slot>, last: nat, id: Id)
    requires Good(m, order, last) && id in m
    ensures var n := m - {id};
      var s := Live(m, order);
      && Good(n, order, last) && |n| == |m| - 1 && IndexOf(s, id) < |s|
      && s[IndexOf(s, id)] == Record(id, m[id].level)
      && Live(n, order) == s[..IndexOf(s, id)] + s[IndexOf(s, id) + 1..]
  {
    DeletedLive(m, order, last, id);
    hide Live, Increasing, IndexOf;
    var n := m - {id};
    assert n.Keys == m.Keys - {id};
    assert |n| == |n.Keys| && |m| == |m.Keys|;
  }

  lemma Unknown(m: map<Id, Entry>, order: seq<Slot>, id: Id)
    requires id !in m
    ensures IndexOf(Live(m, order), id) == |Live(m, order)|
  {
    var k := IndexOf(Live(m, order), id);
    if k < |Live(m, order)| {
      LiveFromSlot(m, order, Live(m, order)[k]);
    }
  }

  lemma FirstSlot(m: map<Id, Entry>, order: seq<Slot>)
    requires order != []
    ensures !Current(m, order[0]) ==> Live(m, order) == Live(m, order[1..])
    ensures Current(m, order[0]) ==> Live(m, order) != [] && IndexOf(Live(m, order), order[0].id) == 0
  {
    assert order[..0] == [];
    SplitAt(m, order, 0);
  }

  lemma TailOrdered(m: map<Id, Entry>, order: seq<Slot>, last: nat)
    requires Increasing(order, last) && Ordered(m, order) && order != [] && !Current(m, order[0])
    ensures Increasing(order[1..], last) && Ordered(m, order[1..])
  {
    assert order == [order[0]] + order[1..];
  }

  /** Dropping a stale slot changes nothing. */
  lemma StaleDropped(m: map<Id, Entry>, order: seq<Slot>, last: nat)
    requires Good(m, order, last) && order != [] && !Current(m, order[0])
    ensures Good(m, order[1..], last) && Live(m, order[1..]) == Live(m, order)
  {
    FirstSlot(m, order);
    TailOrdered(m, order, last);
    hide Live, Increasing, Ordered, IndexOf, Valued, Current;
  }

  /** Dropping a current slot, and its record, drops the oldest live record. */
  lemma OldestDropped(m: map<Id, Entry>, order: seq<Slot>, last: nat)
    requires Good(m, order, last) && order != [] && Current(m, order[0])
    ensures var n := m - {order[0].id};
      && Good(n, order[1..], last) && |n| == |m| - 1
      && Live(m, order) != [] && Live(n, order[1..]) == Live(m, order)[1..]
  {
    FirstSlot(m, order);
    Deleted(m, order, last, order[0].id);
    StaleDropped(m - {order[0].id}, order, last);
    hide Live, Increasing, Ordered, IndexOf, Valued, Good;
  }

  lemma AppendedLive(m: map<Id, Entry>, order: seq<Slot>, last: nat, id: Id, level: int)
    requires Increasing(order, last) && id !in m
    ensures var n := m[id := Entry(level, last + 1)];
      Live(n, order + [Slot(id, last + 1)]) == Live(m, order) + [Record(id, level)]
  {
    var n := m[id := Entry(level, last + 1)];
    var t := order + [Slot(id, last + 1)];
    assert t[..|t| - 1] == order;
    LiveSame(m, n, order);
  }

  lemma AppendedOrder(m: map<Id, Entry>, order: seq<Slot>, last: nat, id: Id, level: int)
    requires Increasing(order, last) && Ordered(m, order)
    ensures var t := order + [Slot(id, last + 1)];
      Increasing(t, last + 1) && Ordered(m[id := Entry(level, last + 1)], t)
  {
    var t := order + [Slot(id, last + 1)];
    assert t[|order|] == Slot(id, last + 1);
    assert forall slot | slot in order :: slot in t;
  }

  lemma AppendedValues(m: map<Id, Entry>, id: Id, e: Entry)
    requires Valued(m) && id !in m && id != "" && HasBucket(e.level)
    ensures Valued(m[id := e]) && |m[id := e]| == |m| + 1
  {
    var n := m[id := e];
    assert n.Keys == m.Keys + {id};
    assert |n| == |n.Keys| && |m| == |m.Keys|;
  }

  /** Recording a new task at the end. */
  lemma Appended(m: map<Id, Entry>, order: seq<Slot>, last: nat, id: Id, level: int)
    requires Good(m, order, last) && id !in m && id != "" && HasBucket(level)
    ensures var n := m[id := Entry(level, last + 1)];
      var t := order + [Slot(id, last + 1)];
      Good(n, t, last + 1) && |n| == |m| + 1 && Live(n, t) == Live(m, order) + [Record(id, level)]
  {
    AppendedLive(m, order, last, id, level);
    AppendedOrder(m, order, last, id, level);
    AppendedValues(m, id, Entry(level, last + 1));
    hide Live, Increasing, Ordered, Valued, HasBucket;
  }

  lemma {:induction false} KeptCurrent(m: map<Id, Entry>, order: seq<Slot>)
    ensures forall slot :: slot in Kept(m, order) <==> slot in order && Current(m, slot)
    ensures |Kept(m, order)| == |Live(m, order)|
  {
    if order == [] {
    } else {
      var rest, slot := order[..|order| - 1], order[|order| - 1];
      assert order == rest + [slot];
      KeptCurrent(m, rest);
    }
  }

  lemma {:induction false} KeptIncreasing(m: map<Id, Entry>, order: seq<Slot>, last: nat)
    requires Increasing(order, last)
    ensures Increasing(Kept(m, order), last)
  {
    if order == [] {
    } else {
      var rest, slot := order[..|order| - 1], order[|order| - 1];
      KeptIncreasing(m, rest, last);
      KeptCurrent(m, rest);
      var t := Kept(m, rest);
      forall i | 0 <= i < |t|
        ensures t[i].generation < slot.generation
      {
        assert t[i] in rest;
      }
    }
  }

  lemma {:induction false} KeptLive(m: map<Id, Entry>, order: seq<Slot>)
    ensures Live(m, Kept(m, order)) == Live(m, order)
  {
    if order == [] {
    } else {
      var rest, slot := order[..|order| - 1], order[|order| - 1];
      KeptLive(m, rest);
      var t := Kept(m, order);
      if Current(m, slot) {
        assert t[..|t| - 1] == Kept(m, rest);
      } else {
        assert t == Kept(m, rest);
      }
    }
  }

  /** Compaction keeps every live slot, in order. */
  lemma Compacted(m: map<Id, Entry>, order: seq<Slot>, last: nat)
    requires Good(m, order, last)
    ensures var t := Kept(m, order);
      Good(m, t, last) && Live(m, t) == Live(m, order) && |t| == |m|
  {
    KeptCurrent(m, order);
    KeptIncreasing(m, order, last);
    KeptLive(m, order);
    hide Kept, Live, Increasing;
  }

  lemma KeptNext(m: map<Id, Entry>, order: seq<Slot>, i: nat)
    requires i < |order|
    ensures Kept(m, order[..i + 1]) == Kept(m, order[..i]) + (if Current(m, order[i]) then [order[i]] else [])
  {
    assert order[..i + 1][..i] == order[..i];
  }

  lemma GoodSize(m: map<Id, Entry>, order: seq<Slot>, last: nat)
    requires Good(m, order, last)
    ensures |Live(m, order)| == |m| && (order == [] ==> |m| == 0)
  {}

  class PhaseCManager {
    const enabled: bool
    var entries: map<Id, Entry>
    var order: seq<Slot>
    var lastGeneration: nat

    ghost predicate Valid()
      reads this
    {
      && Good(entries, order, lastGeneration)
      && |order| <= 2 * CAPACITY && |entries| <= CAPACITY
    }

    ghost function Contents(): seq<Record>
      reads this
    {
      Live(entries, order)
    }

    constructor (on: bool)
      ensures Valid() && Contents() == [] && enabled == on
    {
      enabled := on;
      entries, order, lastGeneration := map[], [], 0;
    }

    method RecordTaskBloom(id: Id, level: int)
      requires Valid()
      modifies this
      ensures Valid()
      ensures Contents() == if enabled then FifoRecord(old(Contents()), id, level) else old(Contents())
    {
      hide Good, Live;
      if !enabled || id == "" || !HasBucket(level) {
        return;
      }
      if id in entries {
        Refreshed(entries, order, lastGeneration, id, level);
        entries := entries[id := entries[id].(level := level)];
        return;
      }
      Unknown(entries, order, id);
      GoodSize(entries, order, lastGeneration);
      Evict(id);
      if |order| >= 2 * CAPACITY {
        Compact();
      }
      Appended(entries, order, lastGeneration, id, level);
      lastGeneration := lastGeneration + 1;
      entries := entries[id := Entry(level, lastGeneration)];
      order := order + [Slot(id, lastGeneration)];
    }

    /** Makes room for one record by dropping the oldest live one. */
    method Evict(id: Id)
      requires Valid() && id !in entries
      modifies this`entries, this`order
      ensures Valid() && id !in entries && |entries| < CAPACITY
      ensures Contents() == if |old(Contents())| >= CAPACITY then old(Contents())[1..] else old(Contents())
    {
      GoodSize(entries, order, lastGeneration);
      while |entries| >= CAPACITY && |order| > 0
        invariant Valid() && id !in entries
        invariant |Contents()| == |entries|
        invariant Contents() == old(Contents())
          || (|entries| < CAPACITY && |old(Contents())| >= CAPACITY && Contents() == old(Contents())[1..])
        decreases |order|
      {
        hide Live, Good;
        DropOldest();
        GoodSize(entries, order, lastGeneration);
      }
    }

    method DropOldest()
      requires Good(entries, order, lastGeneration) && order != []
      modifies this`entries, this`order
      ensures Good(entries, order, lastGeneration) && |order| == |old(order)| - 1
      ensures forall id | id in entries :: id in old(entries)
      ensures if Current(old(entries), old(order)[0])
        then old(Contents()) != [] && Contents() == old(Contents())[1..] && |entries| == |old(entries)| - 1
        else Contents() == old(Contents()) && entries == old(entries)
    {
      hide Good, Live;
      var oldest := order[0];
      if Current(entries, oldest) {
        OldestDropped(entries, order, lastGeneration);
      } else {
        StaleDropped(entries, order, lastGeneration);
      }
      order := order[1..];
      if oldest.id in entries && entries[oldest.id].generation == oldest.generation {
        entries := entries - {oldest.id};
      }
    }

    /** Filters the order list in place: the write index never passes the read index. */
    method Compact()
      requires Valid() && |entries| < CAPACITY
      modifies this`order
      ensures Valid() && Contents() == old(Contents()) && |order| < CAPACITY
    {
      hide Live, Good;
      var slots := order;
      Compacted(entries, slots, lastGeneration);
      var buffer := slots;
      var live := 0;
      for i := 0 to |slots|
        invariant live <= i && |buffer| == |slots|
        invariant buffer[..live] == Kept(entries, slots[..i])
        invariant buffer[i..] == slots[i..]
        invariant order == slots
      {
        KeptNext(entries, slots, i);
        var slot := buffer[i];
        assert slot == slots[i];
        if slot.id in entries && entries[slot.id].generation == slot.generation {
          ghost var before := buffer;
          buffer := buffer[live := slot];
          assert buffer[..live + 1] == before[..live] + [slot];
          live := live + 1;
        }
      }
      assert slots[..|slots|] == slots;
      order := buffer[..live];
    }

    method ConsumeTaskBloom(id: Id) returns (level: int)
      requires Valid()
      modifies this`entries
      ensures Valid()
      ensures level == FifoLevel(old(Contents()), id)
      ensures Contents() == FifoConsume(old(Contents()), id)
    {
      if id == "" || id !in entries {
        Unknown(entries, order, id);
        return 0;
      }
      Deleted(entries, order, lastGeneration, id);
      level := entries[id].level;
      entries := entries - {id};
    }
  }
}
