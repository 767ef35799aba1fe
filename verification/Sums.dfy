/** Sums over finite maps: order plays no part in them. */
module Sums {

  ghost function Sum<T>(m: map<T, nat>): nat
    decreases |m|
  {
    if m == map[] then 0
    else
      var k :| k in m;
      m[k] + Sum(m - {k})
  }

  /** Any key can be taken out first. */
  lemma {:induction false} SumRemove<T>(m: map<T, nat>, k: T)
    requires k in m
    ensures Sum(m) == m[k] + Sum(m - {k})
    decreases |m|
  {
    var j :| j in m && Sum(m) == m[j] + Sum(m - {j});
    if j != k {
      SumRemove(m - {j}, k);
      SumRemove(m - {k}, j);
      assert m - {j} - {k} == m - {k} - {j};
    }
  }

  lemma SumAdd<T>(m: map<T, nat>, k: T, w: nat)
    requires k !in m
    ensures Sum(m[k := w]) == Sum(m) + w
  {
    SumRemove(m[k := w], k);
    assert m[k := w] - {k} == m;
  }

  /** Pointwise addition adds sums; keys missing from `b` add nothing. */
  lemma {:induction false} SumPointwise<T>(a: map<T, nat>, b: map<T, nat>, c: map<T, nat>)
    requires c.Keys == a.Keys && b.Keys <= a.Keys
    requires forall k :: k in a ==> c[k] == a[k] + (if k in b then b[k] else 0)
    ensures Sum(c) == Sum(a) + Sum(b)
    decreases |a|
  {
    if a == map[] {
      assert b == map[] && c == map[];
    } else {
      var k :| k in a;
      SumPointwise(a - {k}, b - {k}, c - {k});
      SumRemove(a, k);
      SumRemove(c, k);
      if k in b { SumRemove(b, k); } else { assert b - {k} == b; }
    }
  }

  lemma {:induction false} SumSplit<T>(m: map<T, nat>, s: set<T>)
    ensures Sum(m) == Sum(m - s) + Sum(m - (m.Keys - s))
    decreases |m|
  {
    var inside := m - (m.Keys - s);
    if m != map[] {
      var k :| k in m;
      SumSplit(m - {k}, s);
      SumRemove(m, k);
      if k in s {
        SumRemove(inside, k);
        assert inside - {k} == (m - {k}) - ((m - {k}).Keys - s);
        assert m - s == m - {k} - s;
      } else {
        SumRemove(m - s, k);
        assert m - s - {k} == m - {k} - s;
        assert inside == (m - {k}) - ((m - {k}).Keys - s);
      }
    } else {
      assert m - s == map[] && inside == map[];
    }
  }

  ghost predicate Below<T>(a: map<T, nat>, b: map<T, nat>) {
    a.Keys <= b.Keys && forall k :: k in a ==> a[k] <= b[k]
  }

  lemma {:induction false} SumMonotone<T>(a: map<T, nat>, b: map<T, nat>)
    requires Below(a, b)
    ensures Sum(a) <= Sum(b)
    decreases |a|
  {
    if a != map[] {
      var k :| k in a;
      SumMonotone(a - {k}, b - {k});
      SumRemove(a, k);
      SumRemove(b, k);
    }
  }

  /** Some summand reaches the average from above: here, is not negative. */
  lemma {:induction false} SomeNotBelow<T>(a: map<T, nat>, b: map<T, nat>) returns (k: T)
    requires a.Keys == b.Keys && a != map[] && Sum(a) >= Sum(b)
    ensures k in a && a[k] >= b[k]
    decreases |a|
  {
    k :| k in a;
    if a[k] < b[k] {
      SumRemove(a, k);
      SumRemove(b, k);
      k := SomeNotBelow(a - {k}, b - {k});
    }
  }
}
