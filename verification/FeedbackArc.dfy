/** Weighted digraphs, the weight that points backward in a vertex order, and the
    steps by which an order is grown from both ends. */
module FeedbackArc {
  import opened Sums

  /** Both edge maps of a digraph: `out[u][v]` and `inn[v][u]` are the weight of u -> v. */
  datatype Digraph<T(==)> = Digraph(out: map<T, map<T, nat>>, inn: map<T, map<T, nat>>)

  ghost predicate Mirrored<T>(a: map<T, map<T, nat>>, b: map<T, map<T, nat>>) {
    forall u, v :: u in a && v in a[u] ==> v in b && u in b[v] && b[v][u] == a[u][v]
  }

  ghost predicate Loopless<T>(a: map<T, map<T, nat>>) {
    forall u :: u in a ==> u !in a[u]
  }

  ghost predicate Consistent<T>(g: Digraph<T>) {
    && g.out.Keys == g.inn.Keys
    && Mirrored(g.out, g.inn) && Mirrored(g.inn, g.out)
    && Loopless(g.out) && Loopless(g.inn)
  }

  ghost function Keep<T>(m: map<T, nat>, s: set<T>): map<T, nat> {
    m - (m.Keys - s)
  }

  ghost function KeepRows<T>(a: map<T, map<T, nat>>, s: set<T>): map<T, map<T, nat>> {
    map u | u in a && u in s :: Keep(a[u], s)
  }

  ghost function Restrict<T>(g: Digraph<T>, s: set<T>): Digraph<T> {
    Digraph(KeepRows(g.out, s), KeepRows(g.inn, s))
  }

  ghost function RowSums<T>(a: map<T, map<T, nat>>): map<T, nat> {
    map u | u in a :: Sum(a[u])
  }

  /** The total weight of the edges. */
  ghost function Weight<T>(g: Digraph<T>): nat {
    Sum(RowSums(g.out))
  }

  lemma RestrictConsistent<T>(g: Digraph<T>, s: set<T>)
    requires Consistent(g)
    ensures Consistent(Restrict(g, s))
  {
  }

  lemma RestrictTwice<T>(g: Digraph<T>, s: set<T>, u: T)
    requires Consistent(g)
    ensures Restrict(Restrict(g, s), s - {u}) == Restrict(g, s - {u})
  {
    KeepRowsTwice(g.out, s, u);
    KeepRowsTwice(g.inn, s, u);
  }

  lemma KeepRowsTwice<T>(a: map<T, map<T, nat>>, s: set<T>, u: T)
    ensures KeepRows(KeepRows(a, s), s - {u}) == KeepRows(a, s - {u})
  {
    forall v | v in a && v in s - {u}
      ensures Keep(Keep(a[v], s), s - {u}) == Keep(a[v], s - {u})
    {
    }
  }

  lemma RowWithout<T>(m: map<T, nat>, all: set<T>, v: T)
    requires m.Keys <= all
    ensures Sum(m) == Sum(Keep(m, all - {v})) + (if v in m then m[v] else 0)
  {
    if v in m {
      SumRemove(m, v);
      KeepAllBut(m, all, v);
    } else {
      KeepAll(m, all - {v});
    }
  }

  lemma KeepAll<T>(m: map<T, nat>, s: set<T>)
    requires m.Keys <= s
    ensures Keep(m, s) == m
  {
  }

  lemma KeepAllBut<T>(m: map<T, nat>, all: set<T>, v: T)
    requires m.Keys <= all
    ensures Keep(m, all - {v}) == m - {v}
  {
  }

  lemma KeepSame<T>(m: map<T, nat>, s: set<T>, t: set<T>)
    requires m.Keys * s == m.Keys * t
    ensures Keep(m, s) == Keep(m, t)
  {
    assert m.Keys - s == m.Keys - (m.Keys * s);
    assert m.Keys - t == m.Keys - (m.Keys * t);
  }

  /** Taking a vertex out of one edge map loses its row and its column. */
  lemma RowsWithout<T>(a: map<T, map<T, nat>>, b: map<T, map<T, nat>>, v: T)
    requires a.Keys == b.Keys && Mirrored(a, b) && Mirrored(b, a) && Loopless(b) && v in a
    ensures Sum(RowSums(a)) == Sum(RowSums(KeepRows(a, a.Keys - {v}))) + Sum(a[v]) + Sum(b[v])
  {
    hide Mirrored, Loopless, Keep, KeepRows, Sum;
    var rest, col := KeepRows(a, a.Keys - {v}), b[v];
    SumRemove(RowSums(a), v);
    ColumnWithin(a, b, v);
    forall u | u in a && u != v
      ensures Sum(a[u]) == Sum(rest[u]) + (if u in col then col[u] else 0)
    {
      RowOf(a, b, v, u);
      RowWithout(a[u], a.Keys, v);
    }
    SumPointwise(RowSums(rest), col, RowSums(a) - {v});
  }

  lemma ColumnWithin<T>(a: map<T, map<T, nat>>, b: map<T, map<T, nat>>, v: T)
    requires a.Keys == b.Keys && Mirrored(b, a) && Loopless(b) && v in a
    ensures KeepRows(a, a.Keys - {v}).Keys == a.Keys - {v}
    ensures b[v].Keys <= a.Keys - {v}
  {
  }

  /** What row `u` has for `v` is what column `v` has for `u`. */
  lemma RowOf<T>(a: map<T, map<T, nat>>, b: map<T, map<T, nat>>, v: T, u: T)
    requires a.Keys == b.Keys && Mirrored(a, b) && Mirrored(b, a) && v in a && u in a && u != v
    ensures a[u].Keys <= a.Keys && KeepRows(a, a.Keys - {v})[u] == Keep(a[u], a.Keys - {v})
    ensures (v in a[u] <==> u in b[v]) && (v in a[u] ==> b[v][u] == a[u][v])
  {
  }

  lemma WeightRemove<T>(g: Digraph<T>, v: T)
    requires Consistent(g) && v in g.out
    ensures Weight(g) == Weight(Restrict(g, g.out.Keys - {v})) + Sum(g.out[v]) + Sum(g.inn[v])
  {
    RowsWithout(g.out, g.inn, v);
  }

  /** Counting the edges by head gives what counting them by tail does. */
  lemma {:induction false} WeightByHead<T>(g: Digraph<T>)
    requires Consistent(g)
    ensures Sum(RowSums(g.inn)) == Weight(g)
    decreases |g.out|
  {
    if g.out == map[] {
      assert g.inn.Keys == {};
      assert RowSums(g.inn) == map[] == RowSums(g.out);
    } else {
      var v :| v in g.out;
      var r := Restrict(g, g.out.Keys - {v});
      RestrictConsistent(g, g.out.Keys - {v});
      assert r.out.Keys == g.out.Keys - {v};
      WeightByHead(r);
      RowsWithout(g.out, g.inn, v);
      RowsWithout(g.inn, g.out, v);
    }
  }

  ghost function Score<T>(g: Digraph<T>, u: T): int
    requires u in g.out && u in g.inn
  {
    Sum(g.out[u]) - Sum(g.inn[u])
  }

  /** Scores cancel over the whole graph, so the best one is not negative. */
  lemma BestScore<T>(g: Digraph<T>, u: T)
    requires Consistent(g) && u in g.out
    requires forall v :: v in g.out ==> Score(g, v) <= Score(g, u)
    ensures Score(g, u) >= 0
  {
    WeightByHead(g);
    var v := SomeNotBelow(RowSums(g.out), RowSums(g.inn));
    assert Score(g, v) >= 0;
  }

  ghost function Members<T>(s: seq<T>): set<T> {
    set x | x in s
  }

  ghost predicate Distinct<T>(s: seq<T>) {
    forall i, j :: 0 <= i < j < |s| ==> s[i] != s[j]
  }

  lemma MembersConcat<T>(s: seq<T>, t: seq<T>)
    ensures Members(s + t) == Members(s) + Members(t)
  {
    forall x ensures x in s + t <==> x in s || x in t {
    }
  }

  lemma TakeOne<T>(s: seq<T>, n: nat)
    requires n < |s|
    ensures Members(s[..n + 1]) == Members(s[..n]) + {s[n]}
  {
    assert s[..n + 1] == s[..n] + [s[n]];
    MembersConcat(s[..n], [s[n]]);
  }

  lemma DistinctConcat<T>(s: seq<T>, t: seq<T>)
    requires Distinct(s) && Distinct(t) && Members(s) !! Members(t)
    ensures Distinct(s + t)
  {
    forall i, j | 0 <= i < j < |s + t| ensures (s + t)[i] != (s + t)[j] {
      if i < |s| <= j {
        assert s[i] in Members(s) && t[j - |s|] in Members(t);
      }
    }
  }

  /** The weight of the edges that leave a vertex of `s` or of `after` for an earlier vertex of `s`. */
  ghost function Backward<T>(inn: map<T, map<T, nat>>, s: seq<T>, after: set<T>): nat
    requires Members(s) <= inn.Keys
  {
    if s == [] then 0
    else
      assert s[0] in Members(s);
      assert Members(s[1..]) <= Members(s);
      Sum(Keep(inn[s[0]], Members(s[1..]) + after)) + Backward(inn, s[1..], after)
  }

  lemma {:induction false} BackwardConcat<T>(inn: map<T, map<T, nat>>, s: seq<T>, t: seq<T>, after: set<T>)
    requires Members(s) <= inn.Keys && Members(t) <= inn.Keys
    ensures Members(s + t) <= inn.Keys
    ensures Backward(inn, s + t, after) == Backward(inn, s, Members(t) + after) + Backward(inn, t, after)
  {
    MembersConcat(s, t);
    if s == [] {
      assert s + t == t;
    } else {
      assert (s + t)[0] == s[0] && (s + t)[1..] == s[1..] + t;
      assert Members(s[1..]) <= Members(s);
      MembersConcat(s[1..], t);
      BackwardConcat(inn, s[1..], t, after);
      assert Members(s[1..] + t) + after == Members(s[1..]) + (Members(t) + after);
    }
  }

  /** Every vertex is in the front, still open, or in the back, and only once. */
  ghost predicate Parted<T>(all: set<T>, rest: set<T>, s1: seq<T>, s2: seq<T>) {
    && Distinct(s1) && Distinct(s2)
    && Members(s1) !! rest && Members(s1) !! Members(s2) && rest !! Members(s2)
    && Members(s1) + rest + Members(s2) == all
  }

  ghost predicate NoneInto<T>(inn: map<T, map<T, nat>>, s: seq<T>, rest: set<T>) {
    forall x, w :: x in rest && x in inn && w in s ==> w !in inn[x]
  }

  /** How far an order has been grown: `s1` from the left, `s2` from the right, `rest` still open.
      What already points backward is paid for by the edges that are gone. */
  ghost predicate Progress<T>(g: Digraph<T>, rest: set<T>, s1: seq<T>, s2: seq<T>) {
    && Consistent(g)
    && Parted(g.out.Keys, rest, s1, s2)
    && NoneInto(g.inn, s2, rest)
    && Backward(g.inn, s2, {}) == 0
    && Paid(g, rest, s1, rest + Members(s2))
  }

  ghost predicate Paid<T>(g: Digraph<T>, rest: set<T>, s1: seq<T>, after: set<T>)
    requires Members(s1) <= g.inn.Keys
  {
    2 * Backward(g.inn, s1, after) + Weight(Restrict(g, rest)) <= Weight(g)
  }

  lemma ProgressStart<T>(g: Digraph<T>)
    requires Consistent(g)
    ensures Progress(g, g.out.Keys, [], [])
  {
    var all := g.out.Keys;
    forall u | u in g.out ensures Keep(g.out[u], all) == g.out[u] {
    }
    assert KeepRows(g.out, all) == g.out;
  }

  lemma RestrictDrop<T>(g: Digraph<T>, rest: set<T>, u: T)
    requires Consistent(g) && u in rest && rest <= g.out.Keys
    ensures Weight(Restrict(g, rest)) == Weight(Restrict(g, rest - {u}))
         + Sum(Keep(g.out[u], rest)) + Sum(Keep(g.inn[u], rest))
  {
    var r := Restrict(g, rest);
    RestrictConsistent(g, rest);
    assert r.out.Keys == rest;
    WeightRemove(r, u);
    RestrictTwice(g, rest, u);
  }

  lemma BackwardCons<T>(inn: map<T, map<T, nat>>, u: T, s: seq<T>)
    requires u in inn && Members(s) <= inn.Keys
    requires forall w :: w in s ==> w !in inn[u]
    ensures Members([u] + s) <= inn.Keys
    ensures Backward(inn, [u] + s, {}) == Backward(inn, s, {})
  {
    var t := [u] + s;
    assert t[0] == u && t[1..] == s;
    assert Keep(inn[u], Members(s) + {}) == map[];
  }

  lemma PartLast<T>(all: set<T>, rest: set<T>, s1: seq<T>, s2: seq<T>, u: T)
    requires Parted(all, rest, s1, s2) && u in rest
    ensures Parted(all, rest - {u}, s1, [u] + s2)
    ensures rest - {u} + Members([u] + s2) == rest + Members(s2)
  {
    MembersConcat([u], s2);
    DistinctConcat([u], s2);
    assert Members([u] + s2) == {u} + Members(s2);
  }

  lemma PartNext<T>(all: set<T>, rest: set<T>, s1: seq<T>, s2: seq<T>, u: T)
    requires Parted(all, rest, s1, s2) && u in rest
    ensures Parted(all, rest - {u}, s1 + [u], s2)
  {
    MembersConcat(s1, [u]);
    DistinctConcat(s1, [u]);
    assert Members(s1 + [u]) == Members(s1) + {u};
  }

  lemma NoneIntoCons<T>(g: Digraph<T>, u: T, s: seq<T>, rest: set<T>)
    requires Consistent(g) && u in g.out && NoneInto(g.inn, s, rest) && Keep(g.out[u], rest) == map[]
    ensures NoneInto(g.inn, [u] + s, rest)
  {
    forall x | x in rest && x in g.inn ensures u !in g.inn[x] {
      assert x !in Keep(g.out[u], rest);
    }
  }

  /** A vertex without outgoing edges may close the order. */
  lemma PutLast<T>(g: Digraph<T>, rest: set<T>, s1: seq<T>, s2: seq<T>, u: T)
    requires Progress(g, rest, s1, s2) && u in rest && Keep(g.out[u], rest) == map[]
    ensures Progress(g, rest - {u}, s1, [u] + s2)
  {
    PartLast(g.out.Keys, rest, s1, s2, u);
    NoneIntoCons(g, u, s2, rest);
    RestrictDrop(g, rest, u);
    BackwardCons(g.inn, u, s2);
  }

  lemma BackwardSnoc<T>(inn: map<T, map<T, nat>>, s: seq<T>, u: T, after: set<T>)
    requires u in inn && Members(s) <= inn.Keys
    ensures Members(s + [u]) <= inn.Keys
    ensures Backward(inn, s + [u], after) == Backward(inn, s, {u} + after) + Sum(Keep(inn[u], after))
  {
    MembersConcat(s, [u]);
    BackwardConcat(inn, s, [u], after);
    assert [u][1..] == [] && Members([]) + after == after;
    assert Members([u]) == {u};
  }

  lemma IncomingOpen<T>(inn: map<T, map<T, nat>>, rest: set<T>, s: seq<T>, u: T)
    requires Loopless(inn) && u in inn && u in rest && NoneInto(inn, s, rest)
    ensures Keep(inn[u], rest - {u} + Members(s)) == Keep(inn[u], rest)
  {
    var after := rest - {u} + Members(s);
    forall w | w in inn[u].Keys ensures w in after <==> w in rest {
    }
    KeepSame(inn[u], after, rest);
  }

  lemma Regroup<T>(rest: set<T>, tail: set<T>, u: T)
    requires u in rest
    ensures {u} + (rest - {u} + tail) == rest + tail
  {
  }

  lemma PaidNext<T>(g: Digraph<T>, rest: set<T>, s1: seq<T>, u: T, after: set<T>)
    requires Consistent(g) && Members(s1) <= g.inn.Keys && u in rest && rest <= g.out.Keys
    requires Paid(g, rest, s1, {u} + after)
    requires Keep(g.inn[u], after) == Keep(g.inn[u], rest)
    requires Sum(Keep(g.inn[u], rest)) <= Sum(Keep(g.out[u], rest))
    ensures Members(s1 + [u]) <= g.inn.Keys && Paid(g, rest - {u}, s1 + [u], after)
  {
    RestrictDrop(g, rest, u);
    BackwardSnoc(g.inn, s1, u, after);
  }

  /** A vertex whose outgoing weight covers its incoming weight may extend the front. */
  lemma PutNext<T>(g: Digraph<T>, rest: set<T>, s1: seq<T>, s2: seq<T>, u: T)
    requires Progress(g, rest, s1, s2) && u in rest
    requires Sum(Keep(g.inn[u], rest)) <= Sum(Keep(g.out[u], rest))
    ensures Progress(g, rest - {u}, s1 + [u], s2)
  {
    var after := rest - {u} + Members(s2);
    PartNext(g.out.Keys, rest, s1, s2, u);
    IncomingOpen(g.inn, rest, s2, u);
    Regroup(rest, Members(s2), u);
    PaidNext(g, rest, s1, u, after);
  }

  /** A complete order keeps the backward weight within half of the total. */
  lemma ProgressDone<T>(g: Digraph<T>, s1: seq<T>, s2: seq<T>)
    requires Progress(g, {}, s1, s2)
    ensures Distinct(s1 + s2) && Members(s1 + s2) == g.out.Keys
    ensures 2 * Backward(g.inn, s1 + s2, {}) <= Weight(g)
  {
    MembersConcat(s1, s2);
    DistinctConcat(s1, s2);
    BackwardConcat(g.inn, s1, s2, {});
    assert {} + Members(s2) == Members(s2) + {};
  }

  // Orders in which nothing points backward.

  ghost predicate NoBackward<T>(inn: map<T, map<T, nat>>, s: seq<T>) {
    forall i, j :: 0 <= i < j < |s| && s[i] in inn ==> s[j] !in inn[s[i]]
  }

  /** So far nothing points backward, whatever the order of the rest. */
  ghost predicate Forward<T>(inn: map<T, map<T, nat>>, rest: set<T>, s1: seq<T>, s2: seq<T>) {
    && NoBackward(inn, s1) && NoBackward(inn, s2)
    && forall w, x :: w in s1 && w in inn && (x in rest || x in s2) ==> x !in inn[w]
  }

  /** Every edge leads to a higher rank, so there is no cycle. */
  ghost predicate RankedBy<T>(g: Digraph<T>, rank: map<T, nat>) {
    g.out.Keys <= rank.Keys && forall u, v :: u in g.out && v in g.out[u] ==> v in rank && rank[u] < rank[v]
  }

  lemma ForwardLast<T>(g: Digraph<T>, rest: set<T>, s1: seq<T>, s2: seq<T>, u: T)
    requires Consistent(g) && Forward(g.inn, rest, s1, s2) && u in rest && u in g.out && NoneInto(g.inn, s2, rest)
    ensures Forward(g.inn, rest - {u}, s1, [u] + s2)
  {
    var t := [u] + s2;
    forall i, j | 0 <= i < j < |t| && t[i] in g.inn ensures t[j] !in g.inn[t[i]] {
      assert t[j] in s2;
    }
  }

  lemma ForwardNext<T>(g: Digraph<T>, rest: set<T>, s1: seq<T>, s2: seq<T>, u: T)
    requires Consistent(g) && Forward(g.inn, rest, s1, s2) && u in rest && u in g.inn && NoneInto(g.inn, s2, rest)
    requires Keep(g.inn[u], rest) == map[]
    ensures Forward(g.inn, rest - {u}, s1 + [u], s2)
  {
    var t := s1 + [u];
    forall i, j | 0 <= i < j < |t| && t[i] in g.inn ensures t[j] !in g.inn[t[i]] {
      if j == |s1| {
        assert t[i] in s1;
      }
    }
    forall x | x in rest ensures x !in g.inn[u] {
      assert x !in Keep(g.inn[u], rest);
    }
  }

  lemma ForwardDone<T>(inn: map<T, map<T, nat>>, s1: seq<T>, s2: seq<T>)
    requires Forward(inn, {}, s1, s2)
    ensures NoBackward(inn, s1 + s2)
  {
    var t := s1 + s2;
    forall i, j | 0 <= i < j < |t| && t[i] in inn ensures t[j] !in inn[t[i]] {
      if i < |s1| <= j {
        assert t[i] in s1 && t[j] in s2;
      }
    }
  }

  lemma {:induction false} LowestRank<T>(rest: set<T>, rank: map<T, nat>) returns (u: T)
    requires rest != {} && rest <= rank.Keys
    ensures u in rest && forall v :: v in rest ==> rank[u] <= rank[v]
  {
    var x :| x in rest;
    var others := rest - {x};
    assert rest == others + {x};
    u := x;
    if others != {} {
      var v := LowestRank(others, rank);
      u := if rank[v] < rank[x] then v else x;
    }
  }

  /** Without cycles some open vertex has no open predecessor. */
  lemma SourceLeft<T>(g: Digraph<T>, rest: set<T>, rank: map<T, nat>) returns (u: T)
    requires Consistent(g) && RankedBy(g, rank) && rest <= g.out.Keys && rest != {}
    ensures u in rest && u in g.inn && Keep(g.inn[u], rest) == map[]
  {
    u := LowestRank(rest, rank);
    forall v | v in g.inn[u] ensures v !in rest {
      assert u in g.out[v];
    }
  }
}
