/**
 * Sums over the entries of a map, in no particular order: the specification of the running
 * totals the aggregator and the worker keep, which Java computes by iterating a HashMap.
 */
module Summation {

  /** A non-empty set has an element. */
  lemma HasElement<T>(s: set<T>)
    requires s != {}
    ensures exists x :: x in s
  {
    if forall x :: x !in s {
      assert false;
    }
  }

  /** Some key of a non-empty map: the entry a summation takes first. */
  ghost function Pick<K, V>(m: map<K, V>): (k: K)
    requires |m| > 0
    ensures k in m
  {
    HasElement(m.Keys);
    var k :| k in m; k
  }

  /** The sum of `f` over the values of `m`. */
  ghost function SumBy<K, V>(m: map<K, V>, f: V -> int): int
    decreases |m|
  {
    if |m| == 0 then 0
    else
      var k := Pick(m);
      f(m[k]) + SumBy(m - {k}, f)
  }

  /** The same, for real-valued `f`. */
  ghost function SumByReal<K, V>(m: map<K, V>, f: V -> real): real
    decreases |m|
  {
    if |m| == 0 then 0.0
    else
      var k := Pick(m);
      f(m[k]) + SumByReal(m - {k}, f)
  }

  function Identity(x: int): int
  {
    x
  }

  function Zero(x: int): int
  {
    0
  }

  /** The sum of the values of an integer map. */
  ghost function Sum<K>(m: map<K, int>): int
  {
    SumBy(m, Identity)
  }

  /** A sum of values that are not negative is not negative. */
  lemma SumNonNegative<K>(m: map<K, int>)
    requires forall k :: k in m ==> m[k] >= 0
    ensures Sum(m) >= 0
  {
    SumByZero(m, Zero);
    SumByMonotone(m, Zero, Identity);
  }

  /** The order of summation does not matter: any entry can be taken out first. */
  lemma {:induction false} SumByRemove<K, V>(m: map<K, V>, k: K, f: V -> int)
    requires k in m
    ensures SumBy(m, f) == f(m[k]) + SumBy(m - {k}, f)
    decreases |m|
  {
    var c := Pick(m);
    if c != k {
      SumByRemove(m - {c}, k, f);
      SumByRemove(m - {k}, c, f);
      assert m - {c} - {k} == m - {k} - {c};
    }
  }

  lemma {:induction false} SumByRealRemove<K, V>(m: map<K, V>, k: K, f: V -> real)
    requires k in m
    ensures SumByReal(m, f) == f(m[k]) + SumByReal(m - {k}, f)
    decreases |m|
  {
    var c := Pick(m);
    if c != k {
      SumByRealRemove(m - {c}, k, f);
      SumByRealRemove(m - {k}, c, f);
      assert m - {c} - {k} == m - {k} - {c};
    }
  }

  /** Adding a new entry adds its term. */
  lemma SumByInsert<K, V>(m: map<K, V>, k: K, v: V, f: V -> int)
    requires k !in m
    ensures SumBy(m[k := v], f) == SumBy(m, f) + f(v)
  {
    SumByRemove(m[k := v], k, f);
    assert m[k := v] - {k} == m;
  }

  lemma SumByRealInsert<K, V>(m: map<K, V>, k: K, v: V, f: V -> real)
    requires k !in m
    ensures SumByReal(m[k := v], f) == SumByReal(m, f) + f(v)
  {
    SumByRealRemove(m[k := v], k, f);
    assert m[k := v] - {k} == m;
  }

  /** Replacing an entry replaces its term. */
  lemma SumByUpdate<K, V>(m: map<K, V>, k: K, v: V, f: V -> int)
    requires k in m
    ensures SumBy(m[k := v], f) == SumBy(m, f) - f(m[k]) + f(v)
  {
    SumByRemove(m, k, f);
    SumByRemove(m[k := v], k, f);
    assert m[k := v] - {k} == m - {k};
  }

  /** A sum of terms that are all zero is zero. */
  lemma {:induction false} SumByZero<K, V>(m: map<K, V>, f: V -> int)
    requires forall k :: k in m ==> f(m[k]) == 0
    ensures SumBy(m, f) == 0
    decreases |m|
  {
    if |m| > 0 {
      var k := Pick(m);
      SumByRemove(m, k, f);
      SumByZero(m - {k}, f);
    }
  }

  /** Sums are monotone in their terms. */
  lemma {:induction false} SumByMonotone<K, V>(m: map<K, V>, f: V -> int, g: V -> int)
    requires forall k :: k in m ==> f(m[k]) <= g(m[k])
    ensures SumBy(m, f) <= SumBy(m, g)
    decreases |m|
  {
    if |m| > 0 {
      var k := Pick(m);
      SumByRemove(m, k, f);
      SumByRemove(m, k, g);
      SumByMonotone(m - {k}, f, g);
    }
  }

  lemma {:induction false} SumByRealMonotone<K, V>(m: map<K, V>, f: V -> real, g: V -> real)
    requires forall k :: k in m ==> f(m[k]) <= g(m[k])
    ensures SumByReal(m, f) <= SumByReal(m, g)
    decreases |m|
  {
    if |m| > 0 {
      var k := Pick(m);
      SumByRealRemove(m, k, f);
      SumByRealRemove(m, k, g);
      SumByRealMonotone(m - {k}, f, g);
    }
  }

  /** A real sum of integer terms is the integer sum, converted. */
  lemma {:induction false} SumByRealOfInt<K, V>(m: map<K, V>, f: V -> int, g: V -> real)
    requires forall k :: k in m ==> g(m[k]) == f(m[k]) as real
    ensures SumByReal(m, g) == SumBy(m, f) as real
    decreases |m|
  {
    if |m| > 0 {
      var k := Pick(m);
      SumByRemove(m, k, f);
      SumByRealRemove(m, k, g);
      SumByRealOfInt(m - {k}, f, g);
    }
  }

  /** Negating every term negates the sum. */
  lemma {:induction false} SumByRealNegate<K, V>(m: map<K, V>, f: V -> real, g: V -> real)
    requires forall k :: k in m ==> g(m[k]) == -f(m[k])
    ensures SumByReal(m, g) == -SumByReal(m, f)
    decreases |m|
  {
    if |m| > 0 {
      var k := Pick(m);
      SumByRealRemove(m, k, f);
      SumByRealRemove(m, k, g);
      SumByRealNegate(m - {k}, f, g);
    }
  }

  /** The entries of `m` whose key satisfies `p` (`keep`) or fails it (`!keep`). */
  function Restrict<K, V>(m: map<K, V>, p: K -> bool, keep: bool): map<K, V>
  {
    map k | k in m && p(k) == keep :: m[k]
  }

  lemma RestrictRemove<K, V>(m: map<K, V>, p: K -> bool, keep: bool, k: K)
    requires k in m
    ensures p(k) == keep ==> k in Restrict(m, p, keep) && Restrict(m, p, keep)[k] == m[k] &&
                             Restrict(m, p, keep) - {k} == Restrict(m - {k}, p, keep)
    ensures p(k) != keep ==> Restrict(m, p, keep) == Restrict(m - {k}, p, keep)
  {
  }

  /** A sum splits into the part whose keys satisfy `p` and the rest. */
  lemma {:induction false} SumBySplit<K, V>(m: map<K, V>, p: K -> bool, f: V -> int)
    ensures SumBy(m, f) == SumBy(Restrict(m, p, true), f) + SumBy(Restrict(m, p, false), f)
    decreases |m|
  {
    if |m| == 0 {
      assert Restrict(m, p, true) == map[] && Restrict(m, p, false) == map[];
    } else {
      var k := Pick(m);
      SumByRemove(m, k, f);
      SumBySplit(m - {k}, p, f);
      RestrictRemove(m, p, true, k);
      RestrictRemove(m, p, false, k);
      SumByRemove(Restrict(m, p, p(k)), k, f);
    }
  }

}
