/** Sums of a quantity over the values of a map. */
module Sums {

  ghost function Sum<K(!new), V(!new)>(m: map<K, V>, f: V -> int): int
    decreases |m|
  {
    if m == map[] then 0
    else
      var k :| k in m;
      f(m[k]) + Sum(m - {k}, f)
  }

  /** Any key may be summed first. */
  lemma {:induction false} SumTake<K(!new), V(!new)>(m: map<K, V>, f: V -> int, k: K)
    requires k in m
    ensures Sum(m, f) == f(m[k]) + Sum(m - {k}, f)
    decreases |m|
  {
    var j :| j in m && Sum(m, f) == f(m[j]) + Sum(m - {j}, f);
    if j != k {
      SumTake(m - {j}, f, k);
      SumTake(m - {k}, f, j);
      assert m - {j} - {k} == m - {k} - {j};
    }
  }

  /** Writing one entry changes the sum by the difference of the two values. */
  lemma {:induction false} SumUpdate<K(!new), V(!new)>(m: map<K, V>, f: V -> int, k: K, v: V)
    ensures Sum(m[k := v], f) == Sum(m, f) - (if k in m then f(m[k]) else 0) + f(v)
  {
    SumTake(m[k := v], f, k);
    if k in m {
      SumTake(m, f, k);
      assert m[k := v] - {k} == m - {k};
    } else {
      assert m[k := v] - {k} == m;
    }
  }

  lemma {:induction false} SumNonnegative<K(!new), V(!new)>(m: map<K, V>, f: V -> int)
    requires forall v :: f(v) >= 0
    ensures Sum(m, f) >= 0
    decreases |m|
  {
    if m != map[] {
      var k :| k in m;
      SumTake(m, f, k);
      SumNonnegative(m - {k}, f);
    }
  }

  /** One entry is at most the sum. */
  lemma {:induction false} SumCovers<K(!new), V(!new)>(m: map<K, V>, f: V -> int, k: K)
    requires k in m && forall v :: f(v) >= 0
    ensures 0 <= f(m[k]) <= Sum(m, f)
  {
    SumTake(m, f, k);
    SumNonnegative(m - {k}, f);
  }

  lemma {:induction false} SumZero<K(!new), V(!new)>(m: map<K, V>, f: V -> int)
    requires forall k | k in m :: f(m[k]) == 0
    ensures Sum(m, f) == 0
    decreases |m|
  {
    if m != map[] {
      var k :| k in m;
      SumTake(m, f, k);
      SumZero(m - {k}, f);
    }
  }
}
