/**
 Warm-up of the contextual bandit.  Every reward goes to the global selector and,
 when its difficulty is known, also to one bucket; statistics survive restarts in a
 snapshot, over a possibly changed set of models.
 */
module BanditWarmup {
  import opened Common

  type Model = string

  const BUCKETS: nat := 3

  /** Pull counts of the registered arms. */
  type Pulls = map<Model, nat>

  datatype Selectors = Selectors(global: Pulls, buckets: seq<Pulls>)

  /** bloomBucket */
  function BucketOf(level: int): Option<nat> {
    if 1 <= level <= 2 then Some(0)
    else if 3 <= level <= 4 then Some(1)
    else if 5 <= level <= 6 then Some(2)
    else None
  }

  function Registered(arms: set<Model>): Pulls {
    map a | a in arms :: 0
  }

  /** newBanditModelSelector: all selectors rank the same arms. */
  function Initial(arms: set<Model>): Selectors {
    Selectors(Registered(arms), seq(BUCKETS, _ => Registered(arms)))
  }

  /** UpdateReward; a model that is not registered is ignored. */
  function Pulled(p: Pulls, a: Model): Pulls {
    if a in p then p[a := p[a] + 1] else p
  }

  /** RecordResult */
  function Record(s: Selectors, a: Model, level: int): Selectors {
    var b := BucketOf(level);
    if a == "" then s
    else
      s.(global := Pulled(s.global, a),
         buckets := if b.Some? && b.value < |s.buckets| then s.buckets[b.value := Pulled(s.buckets[b.value], a)] else s.buckets)
  }

  /** RestoreState: only registered arms, and only those that the snapshot has. */
  function Restored(p: Pulls, snapshot: Pulls): Pulls {
    map a | a in p :: if a in snapshot then snapshot[a] else p[a]
  }

  /** LoadState */
  function Load(s: Selectors, snapshot: Selectors): Selectors {
    Selectors(
      Restored(s.global, snapshot.global),
      seq(|s.buckets|, i requires 0 <= i < |s.buckets| =>
        if i < |snapshot.buckets| then Restored(s.buckets[i], snapshot.buckets[i]) else s.buckets[i]))
  }

  // ---------- warm-up ----------

  function Count(p: Pulls, a: Model): nat {
    if a in p then p[a] else 0
  }

  function PullsIn(buckets: seq<Pulls>, a: Model): nat {
    if buckets == [] then 0 else Count(buckets[0], a) + PullsIn(buckets[1..], a)
  }

  ghost function Total(p: Pulls): nat
    decreases |p|
  {
    if p == map[] then 0
    else
      var a :| a in p;
      p[a] + Total(p - {a})
  }

  ghost predicate WarmedUp(p: Pulls, traceReq: int, minSamples: int) {
    Total(p) >= traceReq && forall a | a in p :: p[a] >= minSamples
  }

  lemma {:induction false} TotalWithout(p: Pulls, a: Model)
    requires a in p
    ensures Total(p) == p[a] + Total(p - {a})
    decreases |p|
  {
    var b :| b in p && Total(p) == p[b] + Total(p - {b});
    if a != b {
      assert |p - {b}| < |p| && |p - {a}| < |p| by {
        assert (p - {b}).Keys == p.Keys - {b} && (p - {a}).Keys == p.Keys - {a};
      }
      TotalWithout(p - {b}, a);
      TotalWithout(p - {a}, b);
      assert p - {a} - {b} == p - {b} - {a};
    }
  }

  lemma {:induction false} TotalMonotone(p: Pulls, q: Pulls)
    requires p.Keys == q.Keys && forall a | a in p :: p[a] <= q[a]
    ensures Total(p) <= Total(q)
    decreases |p|
  {
    if p == map[] {
      assert q == map[];
    } else {
      var a :| a in p;
      TotalWithout(p, a);
      TotalWithout(q, a);
      assert (p - {a}).Keys == p.Keys - {a} == (q - {a}).Keys;
      TotalMonotone(p - {a}, q - {a});
    }
  }

  // ---------- the invariant ----------

  /** One arm set; and per arm, the buckets together have been pulled no more often than the global selector. */
  ghost predicate Dominated(s: Selectors) {
    && |s.buckets| == BUCKETS
    && (forall i | 0 <= i < |s.buckets| :: s.buckets[i].Keys == s.global.Keys)
    && forall a | a in s.global :: PullsIn(s.buckets, a) <= s.global[a]
  }

  lemma {:induction false} PullsInUpdate(buckets: seq<Pulls>, b: nat, p: Pulls, a: Model)
    requires b < |buckets|
    ensures PullsIn(buckets[b := p], a) == PullsIn(buckets, a) - Count(buckets[b], a) + Count(p, a)
    decreases b
  {
    if b == 0 {
      assert buckets[0 := p][1..] == buckets[1..];
    } else {
      assert buckets[b := p][1..] == buckets[1..][b - 1 := p];
      PullsInUpdate(buckets[1..], b - 1, p, a);
    }
  }

  lemma {:induction false} PullsInSame(x: seq<Pulls>, y: seq<Pulls>, a: Model)
    requires |x| == |y| && forall i | 0 <= i < |x| :: Count(x[i], a) == Count(y[i], a)
    ensures PullsIn(x, a) == PullsIn(y, a)
  {
    if x != [] {
      PullsInSame(x[1..], y[1..], a);
    }
  }

  lemma {:induction false} PullsInBound(buckets: seq<Pulls>, i: nat, a: Model)
    requires i < |buckets|
    ensures Count(buckets[i], a) <= PullsIn(buckets, a)
  {
    if i > 0 {
      PullsInBound(buckets[1..], i - 1, a);
    }
  }

  lemma {:induction false} PullsInZero(buckets: seq<Pulls>, a: Model)
    requires forall i | 0 <= i < |buckets| :: Count(buckets[i], a) == 0
    ensures PullsIn(buckets, a) == 0
  {
    if buckets != [] {
      PullsInZero(buckets[1..], a);
    }
  }

  lemma InitialDominated(arms: set<Model>)
    ensures Dominated(Initial(arms))
  {
    var s := Initial(arms);
    forall a | a in s.global
      ensures PullsIn(s.buckets, a) == 0
    {
      PullsInZero(s.buckets, a);
    }
  }

  lemma RecordDominated(s: Selectors, a: Model, level: int)
    requires Dominated(s)
    ensures Dominated(Record(s, a, level))
  {
    var b := BucketOf(level);
    if b.Some? {
      forall x {
        PullsInUpdate(s.buckets, b.value, Pulled(s.buckets[b.value], a), x);
      }
    }
    hide PullsIn;
  }

  /** Restoring into fresh selectors, whatever models are configured by now. */
  lemma LoadDominated(arms: set<Model>, snapshot: Selectors)
    requires Dominated(snapshot)
    ensures Dominated(Load(Initial(arms), snapshot))
  {
    var s := Load(Initial(arms), snapshot);
    forall a | a in s.global
      ensures PullsIn(s.buckets, a) <= s.global[a]
    {
      if a in snapshot.global {
        PullsInSame(s.buckets, snapshot.buckets, a);
      } else {
        PullsInZero(s.buckets, a);
      }
    }
  }

  // ---------- runs ----------

  datatype Event =
    | Reward(arm: Model, level: int)
    | Save
    | Restart(arms: set<Model>)  // with the models configured by then; the snapshot is restored when there is one

  datatype World = World(live: Selectors, disk: Option<Selectors>)

  function Step(w: World, e: Event): World {
    match e
    case Reward(arm, level) => w.(live := Record(w.live, arm, level))
    case Save => w.(disk := Some(w.live))
    case Restart(arms) => w.(live := if w.disk.Some? then Load(Initial(arms), w.disk.value) else Initial(arms))
  }

  function Run(w: World, es: seq<Event>): World
    decreases |es|
  {
    if es == [] then w else Run(Step(w, es[0]), es[1..])
  }

  lemma {:induction false} RunDominated(w: World, es: seq<Event>)
    requires Dominated(w.live) && (w.disk.Some? ==> Dominated(w.disk.value))
    ensures Dominated(Run(w, es).live)
    decreases |es|
  {
    if es != [] {
      match es[0] {
        case Reward(arm, level) => RecordDominated(w.live, arm, level);
        case Save =>
        case Restart(arms) =>
          InitialDominated(arms);
          if w.disk.Some? {
            LoadDominated(arms, w.disk.value);
          }
      }
      hide Dominated, Record, Load, Initial;
      RunDominated(Step(w, es[0]), es[1..]);
    }
  }

  /** A bucket never activates before the global selector. */
  lemma BucketWarmImpliesGlobalWarm(arms: set<Model>, es: seq<Event>, i: nat, traceReq: int, minSamples: int)
    requires i < BUCKETS
    ensures var s := Run(World(Initial(arms), None), es).live;
      i < |s.buckets| && (WarmedUp(s.buckets[i], traceReq, minSamples) ==> WarmedUp(s.global, traceReq, minSamples))
  {
    InitialDominated(arms);
    RunDominated(World(Initial(arms), None), es);
    var s := Run(World(Initial(arms), None), es).live;
    hide Run, Initial;
    forall a | a in s.global
      ensures s.buckets[i][a] <= s.global[a]
    {
      PullsInBound(s.buckets, i, a);
    }
    TotalMonotone(s.buckets[i], s.global);
  }

  // ---------- single rewards and restarts ----------

  /** A reward adds one pull of its arm to the global selector and to the bucket of its level, and nothing else. */
  lemma RewardExactly(s: Selectors, a: Model, level: int, x: Model, i: nat)
    requires Dominated(s) && i < BUCKETS
    ensures var r := Record(s, a, level);
      && r.global.Keys == s.global.Keys && r.buckets[i].Keys == s.buckets[i].Keys
      && Count(r.global, x) == Count(s.global, x) + (if x == a && a != "" && a in s.global then 1 else 0)
      && Count(r.buckets[i], x) ==
        Count(s.buckets[i], x) + (if x == a && a != "" && a in s.global && 2 * i < level <= 2 * i + 2 then 1 else 0)
  {}

  lemma LoadCounts(arms: set<Model>, snapshot: Selectors, x: Model, i: nat)
    requires |snapshot.buckets| == BUCKETS && i < BUCKETS
    ensures var s := Load(Initial(arms), snapshot);
      && |s.buckets| == BUCKETS && s.global.Keys == arms == s.buckets[i].Keys
      && Count(s.global, x) == (if x in arms then Count(snapshot.global, x) else 0)
      && Count(s.buckets[i], x) == (if x in arms then Count(snapshot.buckets[i], x) else 0)
  {}

  lemma {:induction false} RewardsKeepDisk(w: World, es: seq<Event>)
    requires forall e | e in es :: e.Reward?
    ensures Run(w, es).disk == w.disk
    decreases |es|
  {
    if es != [] {
      assert es[0] in es;
      RewardsKeepDisk(Step(w, es[0]), es[1..]);
    }
  }

  /**
   After a save, any rewards and a restart, every model that is still configured has
   exactly the pulls that were saved, in the global selector and in each bucket; and
   a model that is new has none.
   */
  lemma RestartRestores(w: World, rewards: seq<Event>, arms: set<Model>, x: Model, i: nat)
    requires Dominated(w.live) && i < BUCKETS && forall e | e in rewards :: e.Reward?
    ensures var s := Step(Run(Step(w, Save), rewards), Restart(arms)).live;
      && s.global.Keys == arms && |s.buckets| == BUCKETS && s.buckets[i].Keys == arms
      && Count(s.global, x) == (if x in arms then Count(w.live.global, x) else 0)
      && Count(s.buckets[i], x) == (if x in arms then Count(w.live.buckets[i], x) else 0)
  {
    RewardsKeepDisk(Step(w, Save), rewards);
    LoadCounts(arms, w.live, x, i);
    hide Run, Load, Initial;
  }

  // ---------- the selector ----------

  class BanditModelSelector {
    var s: Selectors

    constructor (arms: set<Model>)
      ensures s == Initial(arms) && Dominated(s)
    {
      InitialDominated(arms);
      s := Initial(arms);
    }

    /** Whether the selector has enough pulls in all, and enough of every arm. */
    method CheckWarmedUp(p: Pulls, traceReq: int, minSamples: int) returns (warm: bool)
      ensures warm <==> WarmedUp(p, traceReq, minSamples)
    {
      var total, rest := 0, p;
      while rest != map[]
        invariant rest.Keys <= p.Keys && forall a | a in rest :: rest[a] == p[a]
        invariant total + Total(rest) == Total(p)
        decreases |rest|
      {
        var a :| a in rest;
        TotalWithout(rest, a);
        assert (rest - {a}).Keys == rest.Keys - {a};
        total := total + rest[a];
        rest := rest - {a};
      }
      if total < traceReq {
        return false;
      }
      rest := p;
      while rest != map[]
        invariant rest.Keys <= p.Keys && forall a | a in rest :: rest[a] == p[a]
        invariant forall a | a in p && a !in rest :: p[a] >= minSamples
        decreases |rest|
      {
        var a :| a in rest;
        if rest[a] < minSamples {
          return false;
        }
        assert (rest - {a}).Keys == rest.Keys - {a};
        rest := rest - {a};
      }
      warm := true;
    }

    method UpdateReward(p: Pulls, a: Model) returns (q: Pulls)
      ensures q == Pulled(p, a)
    {
      if a !in p {
        return p;
      }
      q := p[a := p[a] + 1];
    }

    method RecordResult(a: Model, level: int)
      requires Dominated(s)
      modifies this
      ensures s == Record(old(s), a, level) && Dominated(s)
    {
      RecordDominated(s, a, level);
      if a == "" {
        return;
      }
      var global := UpdateReward(s.global, a);
      s := s.(global := global);
      var b := BucketOf(level);
      if b.Some? && b.value < |s.buckets| {
        var bucket := UpdateReward(s.buckets[b.value], a);
        s := s.(buckets := s.buckets[b.value := bucket]);
      }
    }

    /** Restores a snapshot into selectors that have just been set up. */
    method LoadState(arms: set<Model>, snapshot: Selectors)
      requires s == Initial(arms) && Dominated(snapshot)
      modifies this
      ensures s == Load(old(s), snapshot) && Dominated(s)
    {
      LoadDominated(arms, snapshot);
      var initial := s;
      s := s.(global := Restored(s.global, snapshot.global));
      for i := 0 to |initial.buckets|
        invariant |s.buckets| == |initial.buckets| && s.global == Load(initial, snapshot).global
        invariant forall j | 0 <= j < i :: s.buckets[j] == Load(initial, snapshot).buckets[j]
        invariant forall j | i <= j < |s.buckets| :: s.buckets[j] == initial.buckets[j]
      {
        if i < |snapshot.buckets| {
          s := s.(buckets := s.buckets[i := Restored(s.buckets[i], snapshot.buckets[i])]);
        }
      }
      assert s.buckets == Load(initial, snapshot).buckets;
    }
  }
}
