/** Sums over finite maps. */
module Sums {

  /** A missing key counts zero. */
  function Get<K>(m: map<K, int>, k: K): int {
    if k in m then m[k] else 0
  }

  ghost function Sum<K(!new)>(m: map<K, int>): int {
    if m == map[] then 0 else
    var k :| k in m;
    m[k] + Sum(m - {k})
  }

  lemma {:induction false} SumWithout<K(!new)>(m: map<K, int>, k: K)
    requires k in m
    ensures Sum(m) == m[k] + Sum(m - {k})
    decreases |m|
  {
    var c :| c in m && Sum(m) == m[c] + Sum(m - {c});
    if c != k {
      SumWithout(m - {c}, k);
      SumWithout(m - {k}, c);
      assert m - {c} - {k} == m - {k} - {c};
    }
  }

  lemma SumUpdate<K(!new)>(m: map<K, int>, k: K, v: int)
    ensures Sum(m[k := v]) == Sum(m) + v - if k in m then m[k] else 0
  {
    SumWithout(m[k := v], k);
    if k in m {
      SumWithout(m, k);
      assert m[k := v] - {k} == m - {k};
    } else {
      assert m[k := v] - {k} == m;
    }
  }

  lemma {:induction false} SumBounds<K(!new)>(m: map<K, int>, k: K)
    requires forall j | j in m :: m[j] >= 0
    ensures Sum(m) >= 0
    ensures k in m ==> m[k] <= Sum(m)
    decreases |m|
  {
    if m != map[] {
      var c := if k in m then k else var c :| c in m; c;
      SumWithout(m, c);
      SumBounds(m - {c}, c);
    }
  }

  lemma {:induction false} ZeroSum<K(!new)>(m: map<K, int>)
    requires forall k | k in m :: m[k] == 0
    ensures Sum(m) == 0
    decreases |m|
  {
    if m != map[] {
      var k :| k in m;
      SumWithout(m, k);
      ZeroSum(m - {k});
    }
  }

  /** A map that is pointwise the sum of three others sums to the three sums. */
  lemma {:induction false} SumOfThree<K(!new)>(m: map<K, int>, a: map<K, int>, b: map<K, int>, c: map<K, int>)
    requires a.Keys <= m.Keys && b.Keys <= m.Keys && c.Keys <= m.Keys
    requires forall k | k in m :: m[k] == Get(a, k) + Get(b, k) + Get(c, k)
    ensures Sum(m) == Sum(a) + Sum(b) + Sum(c)
    decreases |m|
  {
    if m == map[] {
      assert a == map[] && b == map[] && c == map[];
    } else {
      var k :| k in m;
      SumWithout(m, k);
      SumLess(a, k);
      SumLess(b, k);
      SumLess(c, k);
      SumOfThree(m - {k}, a - {k}, b - {k}, c - {k});
    }
  }

  lemma SumLess<K(!new)>(m: map<K, int>, k: K)
    ensures Sum(m - {k}) == Sum(m) - Get(m, k)
  {
    if k in m {
      SumWithout(m, k);
    } else {
      assert m - {k} == m;
    }
  }
}
