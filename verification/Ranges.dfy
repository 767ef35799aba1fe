/** Block range sets and the images they are read from.

    A range set is the finite set of block numbers it denotes; every reader walks
    it in increasing order, which `Sorted` makes explicit. */
module Ranges {

  type RangeSet = set<nat>

  type Block = seq<bv8>

  /** An image, or the contents of a partition: one entry a block. */
  type Image = seq<Block>

  const BLOCK_SIZE: nat := 4096

  ghost function ZeroBlock(): Block {
    seq(BLOCK_SIZE, _ => 0 as bv8)
  }

  ghost predicate IsMax(s: RangeSet, m: nat) {
    m in s && forall x :: x in s ==> x <= m
  }

  lemma MaxExists(s: RangeSet) returns (m: nat)
    requires s != {}
    ensures IsMax(s, m)
  {
    m :| m in s;
    var rest := s - {m};
    assert s == rest + {m};
    if rest != {} {
      var n := MaxExists(rest);
      if n > m {
        m := n;
      }
    }
  }

  function Max(s: RangeSet): (m: nat)
    requires s != {}
    ensures IsMax(s, m)
  {
    assert exists m :: IsMax(s, m) by {
      var _ := MaxExists(s);
    }
    var m :| m in s && forall x :: x in s ==> x <= m;
    m
  }

  /** The blocks of `s` in increasing order. */
  function Sorted(s: RangeSet): (q: seq<nat>)
    ensures |q| == |s|
  {
    if s == {} then [] else Sorted(s - {Max(s)}) + [Max(s)]
  }

  ghost predicate Increasing(q: seq<nat>) {
    forall i, j :: 0 <= i < j < |q| ==> q[i] < q[j]
  }

  ghost function Elements(q: seq<nat>): RangeSet {
    set x | x in q
  }

  lemma AppendLargest(q: seq<nat>, m: nat)
    requires Increasing(q) && forall x :: x in Elements(q) ==> x < m
    ensures Increasing(q + [m])
    ensures Elements(q + [m]) == Elements(q) + {m}
  {
    var r := q + [m];
    forall i, j | 0 <= i < j < |r| ensures r[i] < r[j] {
      if j == |q| { assert q[i] in Elements(q); }
    }
    forall x ensures x in r <==> x in q || x == m {
    }
  }

  lemma {:induction false} SortedIncreasing(s: RangeSet)
    ensures Increasing(Sorted(s)) && Elements(Sorted(s)) == s
  {
    if s == {} {
      assert Sorted(s) == [];
    } else {
      var m := Max(s);
      SortedIncreasing(s - {m});
      AppendLargest(Sorted(s - {m}), m);
      assert s == s - {m} + {m};
    }
  }

  lemma SortedElement(s: RangeSet, k: nat)
    requires k < |s|
    ensures Sorted(s)[k] in s
  {
    SortedIncreasing(s);
    assert Sorted(s)[k] in Elements(Sorted(s));
  }

  lemma DropLastElements(q: seq<nat>)
    requires q != [] && Increasing(q)
    ensures q[|q| - 1] in Elements(q)
    ensures Elements(q[..|q| - 1]) == Elements(q) - {q[|q| - 1]}
    ensures IsMax(Elements(q), q[|q| - 1])
  {
    var p, m := q[..|q| - 1], q[|q| - 1];
    assert q == p + [m];
    forall x ensures x in q <==> x in p || x == m {
    }
    assert m !in p;
  }

  /** A strictly increasing enumeration is the sorted list of its elements. */
  lemma {:induction false} SortedUnique(q: seq<nat>)
    requires Increasing(q)
    ensures q == Sorted(Elements(q))
  {
    hide IsMax, Max;
    if q == [] {
      assert Elements(q) == {};
    } else {
      var p, m := q[..|q| - 1], q[|q| - 1];
      DropLastElements(q);
      SortedUnique(p);
      MaxIs(Elements(q), m);
      assert q == p + [m];
    }
  }

  lemma MaxIs(s: RangeSet, m: nat)
    requires IsMax(s, m)
    ensures Max(s) == m && Sorted(s) == Sorted(s - {m}) + [m]
  {
  }

  /** How many blocks of `s` come before `x`. */
  function Rank(s: RangeSet, x: nat): nat {
    |Below(s, x)|
  }

  function Below(s: RangeSet, x: nat): RangeSet {
    set y | y in s && y < x
  }

  /** Position and rank are inverse: the k-th block has rank k. */
  lemma {:induction false} SortedRank(s: RangeSet, k: nat)
    requires k < |s|
    ensures Rank(s, Sorted(s)[k]) == k
  {
    var m := Max(s);
    var r := s - {m};
    if k == |r| {
      assert Sorted(s)[k] == m;
      assert Below(s, m) == r;
    } else {
      SortedRank(r, k);
      SortedElement(r, k);
      var x := Sorted(r)[k];
      assert Below(s, x) == Below(r, x);
    }
  }

  lemma RankSorted(s: RangeSet, x: nat)
    requires x in s
    ensures Rank(s, x) < |s| && Sorted(s)[Rank(s, x)] == x
  {
    SortedIncreasing(s);
    assert x in Elements(Sorted(s));
    var k :| 0 <= k < |s| && Sorted(s)[k] == x;
    SortedRank(s, k);
  }

  lemma RankMonotone(s: RangeSet, x: nat, y: nat)
    requires x in s && x < y
    ensures Rank(s, x) < Rank(s, y)
  {
    SubsetSize(Below(s, x) + {x}, Below(s, y));
  }

  lemma SubsetSize<T>(a: set<T>, b: set<T>)
    requires a <= b
    ensures |a| <= |b|
    ensures |a| == |b| ==> a == b
  {
    assert |b| == |a| + |b - a| by {
      assert a + (b - a) == b;
    }
  }

  /** Everything in `a` lies before everything in `b`. */
  ghost predicate Before(a: RangeSet, b: RangeSet) {
    forall x, y :: x in a && y in b ==> x < y
  }

  lemma IncreasingConcat(p: seq<nat>, q: seq<nat>)
    requires Increasing(p) && Increasing(q) && Before(Elements(p), Elements(q))
    ensures Increasing(p + q)
    ensures Elements(p + q) == Elements(p) + Elements(q)
  {
    forall i, j | 0 <= i < j < |p + q| ensures (p + q)[i] < (p + q)[j] {
      if i < |p| <= j {
        assert p[i] in Elements(p) && q[j - |p|] in Elements(q);
      }
    }
  }

  lemma SortedConcat(a: RangeSet, b: RangeSet)
    requires Before(a, b)
    ensures Sorted(a + b) == Sorted(a) + Sorted(b)
  {
    SortedIncreasing(a);
    SortedIncreasing(b);
    IncreasingConcat(Sorted(a), Sorted(b));
    SortedUnique(Sorted(a) + Sorted(b));
  }

  /** The `n` lowest blocks of `s`, or all of them. */
  function First(s: RangeSet, n: nat): (f: RangeSet)
    ensures f <= s && |f| == (if |s| <= n then |s| else n)
    ensures Before(f, s - f)
  {
    if |s| <= n then s
    else
      FirstPrefix(s, n);
      Lowest(s, n)
  }

  function Lowest(s: RangeSet, n: nat): (f: RangeSet)
    ensures f <= s
  {
    set x | x in s && Rank(s, x) < n
  }

  lemma FirstPrefix(s: RangeSet, n: nat)
    requires n <= |s|
    ensures Lowest(s, n) == Elements(Sorted(s)[..n])
    ensures |Lowest(s, n)| == n
    ensures Before(Lowest(s, n), s - Lowest(s, n))
  {
    SortedIncreasing(s);
    var q := Sorted(s)[..n];
    assert Elements(q) == Lowest(s, n) by {
      forall x { FirstMember(s, n, x); }
    }
    SortedUnique(q);
    forall x, y | x in Lowest(s, n) && y in s - Lowest(s, n) ensures x < y {
      if y < x { RankMonotone(s, y, x); }
    }
  }

  lemma FirstMember(s: RangeSet, n: nat, x: nat)
    requires n <= |s|
    ensures x in Sorted(s)[..n] <==> x in s && Rank(s, x) < n
  {
    var q := Sorted(s);
    if x in s { RankSorted(s, x); }
    if k :| 0 <= k < n && q[k] == x {
      SortedRank(s, k);
      SortedElement(s, k);
    }
  }

  /** The blocks 0 to n - 1. */
  function Upto(n: nat): (r: RangeSet)
    ensures forall k: nat :: k in r <==> k < n
  {
    if n == 0 then {} else Upto(n - 1) + {n - 1}
  }

  /** Where the blocks of `t` land when those of `s` are packed from zero. */
  function MapWithin(s: RangeSet, t: RangeSet): RangeSet {
    set x | x in t :: Rank(s, x)
  }

  lemma RankImageSize(s: RangeSet, t: RangeSet)
    requires t <= s
    ensures |MapWithin(s, t)| == |t|
  {
    if t != {} {
      var m := Max(t);
      RankImageSize(s, t - {m});
      forall x | x in t - {m} ensures Rank(s, x) != Rank(s, m) {
        RankMonotone(s, x, m);
      }
      assert MapWithin(s, t) == MapWithin(s, t - {m}) + {Rank(s, m)};
    }
  }

  /** Packing keeps the order, so it keeps ranks. */
  lemma MapWithinRank(s: RangeSet, t: RangeSet, x: nat)
    requires t <= s && x in t
    ensures Rank(MapWithin(s, t), Rank(s, x)) == Rank(t, x)
  {
    var below := Below(t, x);
    RankImageSize(s, below);
    forall z ensures z in MapWithin(s, below) <==> z in MapWithin(s, t) && z < Rank(s, x) {
      if z in MapWithin(s, below) {
        var y :| y in below && Rank(s, y) == z;
        RankMonotone(s, y, x);
      }
      if z in MapWithin(s, t) && z < Rank(s, x) {
        var y :| y in t && Rank(s, y) == z;
        if x < y { RankMonotone(s, x, y); }
        assert y in below;
      }
    }
    assert MapWithin(s, below) == Below(MapWithin(s, t), Rank(s, x));
  }

  lemma MapWithinMember(s: RangeSet, t: RangeSet, x: nat)
    requires t <= s && x in s
    ensures Rank(s, x) in MapWithin(s, t) <==> x in t
  {
    if Rank(s, x) in MapWithin(s, t) {
      var y :| y in t && Rank(s, y) == Rank(s, x);
      if x < y { RankMonotone(s, x, y); } else if y < x { RankMonotone(s, y, x); }
    }
  }

  ghost predicate Fits(s: RangeSet, img: Image) {
    forall x :: x in s ==> x < |img|
  }

  /** The blocks of `s`, in order. */
  function Read(img: Image, s: RangeSet): (d: seq<Block>)
    requires Fits(s, img)
    ensures |d| == |s|
  {
    seq(|s|, k requires 0 <= k < |s| => SortedElement(s, k); img[Sorted(s)[k]])
  }

  lemma ReadAt(img: Image, s: RangeSet, x: nat)
    requires Fits(s, img) && x in s
    ensures Rank(s, x) < |s| && Read(img, s)[Rank(s, x)] == img[x]
  {
    RankSorted(s, x);
  }

  lemma ReadConcat(img: Image, a: RangeSet, b: RangeSet)
    requires Fits(a, img) && Fits(b, img) && Before(a, b)
    ensures Fits(a + b, img)
    ensures Read(img, a + b) == Read(img, a) + Read(img, b)
  {
    SortedConcat(a, b);
    var l, r := Read(img, a + b), Read(img, a) + Read(img, b);
    assert |l| == |Sorted(a + b)| == |r|;
    forall k | 0 <= k < |l| ensures l[k] == r[k] {
      assert Sorted(a + b)[k] == (Sorted(a) + Sorted(b))[k];
    }
  }

  lemma ReadAgrees(img: Image, other: Image, s: RangeSet)
    requires Fits(s, img) && Fits(s, other)
    requires forall x :: x in s ==> img[x] == other[x]
    ensures Read(img, s) == Read(other, s)
  {
    forall k | 0 <= k < |s| ensures Read(img, s)[k] == Read(other, s)[k] {
      SortedElement(s, k);
    }
  }

  /** `data` laid over the blocks of `s`, in order. */
  ghost function Write(img: Image, s: RangeSet, data: seq<Block>): (r: Image)
    requires Fits(s, img) && |data| == |s|
    ensures |r| == |img|
  {
    seq(|img|, i requires 0 <= i < |img| =>
      if i in s then RankSorted(s, i); data[Rank(s, i)] else img[i])
  }

  lemma WriteRead(img: Image, s: RangeSet, other: Image, x: nat)
    requires Fits(s, img) && Fits(s, other) && x < |img|
    ensures Write(img, s, Read(other, s))[x] == if x in s then other[x] else img[x]
  {
    if x in s { ReadAt(other, s, x); }
  }
}
