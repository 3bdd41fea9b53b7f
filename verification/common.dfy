/** Optional values, and chains of states related step by step. */
module Common {
  datatype Option<+T> = None | Some(value: T)

  /** The last state of a trace that starts at d. */
  function Last<T>(d: T, t: seq<T>): T {
    if t == [] then d else t[|t| - 1]
  }

  /** The state just before step i of a trace that starts at d. */
  function Before<T>(d: T, t: seq<T>, i: nat): T
    requires i <= |t|
  {
    if i == 0 then d else t[i - 1]
  }

  ghost predicate Chain<T(!new)>(r: (T, T) -> bool, d: T, t: seq<T>) {
    forall i | 0 <= i < |t| :: r(Before(d, t, i), t[i])
  }

  lemma ChainCompose<T(!new)>(r: (T, T) -> bool, d: T, a: seq<T>, b: seq<T>)
    requires Chain(r, d, a) && Chain(r, Last(d, a), b)
    ensures Chain(r, d, a + b)
    ensures Last(d, a + b) == Last(Last(d, a), b)
  {
    var t := a + b;
    forall i | 0 <= i < |t|
      ensures r(Before(d, t, i), t[i])
    {
      if i < |a| {
        assert t[i] == a[i] && Before(d, t, i) == Before(d, a, i);
      } else {
        assert t[i] == b[i - |a|] && Before(d, t, i) == Before(Last(d, a), b, i - |a|);
      }
    }
  }

  lemma ChainSuffix<T(!new)>(r: (T, T) -> bool, d: T, t: seq<T>, n: nat)
    requires Chain(r, d, t) && n <= |t|
    ensures Chain(r, Last(d, t[..n]), t[n..])
  {
    forall i | 0 <= i < |t| - n
      ensures r(Before(Last(d, t[..n]), t[n..], i), t[n..][i])
    {
      assert r(Before(d, t, n + i), t[n + i]);
    }
  }

  lemma ChainPrefix<T(!new)>(r: (T, T) -> bool, d: T, t: seq<T>, n: nat)
    requires Chain(r, d, t) && n <= |t|
    ensures Chain(r, d, t[..n])
  {
    forall i | 0 <= i < n
      ensures r(Before(d, t[..n], i), t[..n][i])
    {
      assert r(Before(d, t, i), t[i]);
    }
  }

  /** Writing a and then b is writing a + b. */
  lemma WrittenTwice<T>(w0: seq<T>, d: T, a: seq<T>, b: seq<T>)
    ensures w0 + a + b == w0 + (a + b)
    ensures Last(Last(d, a), b) == Last(d, a + b)
  {}
}
