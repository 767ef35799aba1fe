/** Cluster chains in a FAT16 table. */
module FatChains {
  import opened FatLayout

  /** The clusters of `c` follow one another in the table, and the last one ends the chain. */
  ghost predicate Linked(t: Table, c: seq<nat>) {
    && c != [] && (forall i :: 0 <= i < |c| ==> 2 <= c[i] < |t|)
    && (forall i :: 0 <= i < |c| - 1 ==> t[c[i]] == c[i + 1])
    && t[c[|c| - 1]] == END_OF_CHAIN
  }

  ghost predicate NoRepeat(c: seq<nat>) {
    forall i, j :: 0 <= i < j < |c| ==> c[i] != c[j]
  }

  ghost function Cells(c: seq<nat>): set<nat> {
    set x | x in c
  }

  ghost function Used(cs: set<seq<nat>>): set<nat> {
    set c, x | c in cs && x in Cells(c) :: x
  }

  ghost function Free(t: Table): set<nat> {
    set x: nat | 2 <= x < |t| && t[x] == 0
  }

  /** The table is a set of chains that do not meet; every other entry is free. */
  ghost predicate WellFormed(t: Table, cs: set<seq<nat>>) {
    && 2 <= |t| <= MAX_CLUSTER_ID + 1
    && (forall c :: c in cs ==> Linked(t, c) && NoRepeat(c))
    && (forall c, d :: c in cs && d in cs && c != d ==> Cells(c) !! Cells(d))
    && (forall x :: 2 <= x < |t| && t[x] != 0 ==> x in Used(cs))
  }

  /** Two chains with the same head are the same chain. */
  lemma HeadDecides(t: Table, cs: set<seq<nat>>, c: seq<nat>, d: seq<nat>)
    requires WellFormed(t, cs) && c in cs && d in cs && c[0] == d[0]
    ensures c == d
  {
    assert c[0] in Cells(c) && d[0] in Cells(d);
  }

  /** The cluster numbers below `n`. */
  ghost function Upto(n: nat): (r: set<nat>)
    ensures forall x: nat :: x in r <==> 2 <= x < n
  {
    if n <= 2 then {} else Upto(n - 1) + {n - 1}
  }

  lemma {:induction false} UptoSize(n: nat)
    requires n >= 2
    ensures |Upto(n)| == n - 2
  {
    if n > 2 {
      UptoSize(n - 1);
    }
  }

  lemma UsedNotFree(t: Table, cs: set<seq<nat>>)
    requires WellFormed(t, cs)
    ensures Used(cs) !! Free(t)
    ensures Used(cs) + Free(t) == Upto(|t|)
  {
    forall x | x in Used(cs) ensures 2 <= x < |t| && t[x] != 0 {
      var c :| c in cs && x in Cells(c);
      var i :| 0 <= i < |c| && c[i] == x;
      assert i < |c| - 1 ==> t[c[i]] == c[i + 1] && c[i + 1] >= 2;
    }
  }

  /** Clusters are never lost: those in chains and the free ones are all there are. */
  lemma Conserved(t: Table, cs: set<seq<nat>>)
    requires WellFormed(t, cs)
    ensures |Used(cs)| + |Free(t)| == |t| - 2
  {
    UsedNotFree(t, cs);
    UptoSize(|t|);
  }

  // Changing the table.

  /** A table that agrees with `t` outside the clusters of `c`. */
  ghost predicate SameOutside(t: Table, t': Table, c: seq<nat>) {
    |t'| == |t| && forall x :: 0 <= x < |t| && x !in Cells(c) ==> t'[x] == t[x]
  }

  lemma StillLinked(t: Table, t': Table, c: seq<nat>, d: seq<nat>)
    requires Linked(t, d) && SameOutside(t, t', c) && Cells(c) !! Cells(d)
    ensures Linked(t', d)
  {
    forall i | 0 <= i < |d| ensures t'[d[i]] == t[d[i]] {
      assert d[i] in Cells(d);
    }
  }

  ghost predicate AllFree(t: Table, c: seq<nat>) {
    forall x :: x in Cells(c) ==> x in Free(t)
  }

  /** A chain made of free clusters joins the others. */
  lemma AddChain(t: Table, cs: set<seq<nat>>, t': Table, c: seq<nat>)
    requires WellFormed(t, cs) && SameOutside(t, t', c) && AllFree(t, c) && Linked(t', c) && NoRepeat(c)
    ensures WellFormed(t', cs + {c}) && c !in cs
    ensures Free(t') == Free(t) - Cells(c)
  {
    hide Linked, NoRepeat;
    UsedNotFree(t, cs);
    forall d | d in cs ensures Cells(d) !! Cells(c) && Linked(t', d) {
      forall x | x in Cells(d) ensures x !in Cells(c) {
        assert x in Used(cs);
      }
      StillLinked(t, t', c, d);
    }
    assert c !in cs by { LinkedCells(t', c); }
    forall x | 2 <= x < |t'| && t'[x] != 0 ensures x in Used(cs + {c}) {
      if x !in Cells(c) {
        assert x in Used(cs);
        var d :| d in cs && x in Cells(d);
        assert d in cs + {c};
      } else {
        assert c in cs + {c};
      }
    }
    assert Free(t') == Free(t) - Cells(c) by {
      forall x | x in Cells(c) ensures x !in Free(t') {
        CellsNotFree(t', c, x);
      }
    }
  }

  lemma LinkedCells(t: Table, c: seq<nat>)
    requires Linked(t, c)
    ensures c[0] in Cells(c)
  {
  }

  lemma CellsNotFree(t: Table, c: seq<nat>, x: nat)
    requires Linked(t, c) && x in Cells(c)
    ensures 2 <= x < |t| && t[x] != 0
  {
    var i :| 0 <= i < |c| && c[i] == x;
    assert i < |c| - 1 ==> t[c[i]] == c[i + 1] && c[i + 1] >= 2;
  }

  lemma CellsConcat(a: seq<nat>, b: seq<nat>)
    ensures Cells(a + b) == Cells(a) + Cells(b)
  {
  }

  lemma JoinLinked(t: Table, a: seq<nat>, b: seq<nat>)
    requires |t| <= MAX_CLUSTER_ID + 1 && Linked(t, a) && Linked(t, b)
    requires NoRepeat(a) && NoRepeat(b) && Cells(a) !! Cells(b)
    ensures b[0] < 0x10000 && Linked(t[a[|a| - 1] := b[0]], a + b) && NoRepeat(a + b)
  {
    NoRepeatConcat(a, b);
    assert 2 <= b[0] < |t|;
    var last := a[|a| - 1];
    var t' := t[last := b[0]];
    var c := a + b;
    forall x | x in a ensures x !in b {
      assert x in Cells(a) && x !in Cells(b);
    }
    forall i | 0 <= i < |c| - 1 ensures t'[c[i]] == c[i + 1] {
      if i < |a| - 1 {
        assert a[i] != last;
      } else if i >= |a| {
        assert c[i] == b[i - |a|] && b[i - |a|] in b && last in a;
      }
    }
    assert b[|b| - 1] in b && last in a;
  }

  /** Pointing the end of one chain at the head of another makes one chain of the two. */
  lemma JoinChains(t: Table, cs: set<seq<nat>>, a: seq<nat>, b: seq<nat>)
    requires WellFormed(t, cs) && a in cs && b in cs && a != b
    ensures a[|a| - 1] < |t| && b[0] < 0x10000
    ensures WellFormed(t[a[|a| - 1] := b[0]], cs - {a, b} + {a + b})
    ensures Free(t[a[|a| - 1] := b[0]]) == Free(t)
    ensures forall d :: d in cs - {a, b} ==> Cells(d) !! Cells(a + b)
  {
    hide Linked, NoRepeat;
    LinkedLast(t, a);
    LinkedLast(t, b);
    JoinLinked(t, a, b);
    var last := a[|a| - 1];
    var t' := t[last := b[0]];
    var cs' := cs - {a, b} + {a + b};
    CellsConcat(a, b);
    forall d | d in cs - {a, b} ensures Linked(t', d) && Cells(d) !! Cells(a + b) {
      assert SameOutside(t, t', a);
      StillLinked(t, t', a, d);
    }
    forall x | 2 <= x < |t'| && t'[x] != 0 ensures x in Used(cs') {
      UsedJoined(t, cs, a, b, x);
    }
  }

  lemma UsedJoined(t: Table, cs: set<seq<nat>>, a: seq<nat>, b: seq<nat>, x: nat)
    requires x in Used(cs)
    ensures x in Used(cs - {a, b} + {a + b})
  {
    var cs' := cs - {a, b} + {a + b};
    CellsConcat(a, b);
    var d :| d in cs && x in Cells(d);
    if d == a || d == b {
      assert a + b in cs' && x in Cells(a + b);
    } else {
      assert d in cs';
    }
  }

  lemma LinkedLast(t: Table, a: seq<nat>)
    requires Linked(t, a)
    ensures a != [] && a[|a| - 1] in Cells(a) && 2 <= a[|a| - 1] < |t| && t[a[|a| - 1]] == END_OF_CHAIN && 2 <= a[0] < |t|
  {
  }

  // Runs of neighbouring clusters.

  type Zone = (nat, nat)

  ghost function Run(z: Zone): (r: seq<nat>)
    ensures |r| == z.1
  {
    seq(z.1, i requires 0 <= i => z.0 + i)
  }

  ghost function Runs(zs: seq<Zone>): seq<nat> {
    if zs == [] then [] else Run(zs[0]) + Runs(zs[1..])
  }

  ghost function Total(zs: seq<Zone>): nat {
    if zs == [] then 0 else zs[0].1 + Total(zs[1..])
  }

  ghost predicate ZoneFree(t: Table, z: Zone) {
    2 <= z.0 && z.1 >= 1 && z.0 + z.1 <= |t| && forall x :: z.0 <= x < z.0 + z.1 ==> t[x] == 0
  }

  ghost predicate ZonesApart(y: Zone, z: Zone) {
    y.0 + y.1 <= z.0 || z.0 + z.1 <= y.0
  }

  /** Free zones that do not meet. */
  ghost predicate ZonesGood(t: Table, zs: seq<Zone>) {
    && (forall i :: 0 <= i < |zs| ==> ZoneFree(t, zs[i]))
    && (forall i, j :: 0 <= i < j < |zs| ==> ZonesApart(zs[i], zs[j]))
  }

  lemma {:induction false} RunsSize(zs: seq<Zone>)
    ensures |Runs(zs)| == Total(zs)
  {
    if zs != [] {
      RunsSize(zs[1..]);
    }
  }

  lemma {:induction false} TotalConcat(a: seq<Zone>, b: seq<Zone>)
    ensures Total(a + b) == Total(a) + Total(b)
  {
    if a == [] {
      assert a + b == b;
    } else {
      assert (a + b)[1..] == a[1..] + b;
      TotalConcat(a[1..], b);
    }
  }

  lemma RunCells(z: Zone, x: nat)
    ensures x in Cells(Run(z)) <==> z.0 <= x < z.0 + z.1
  {
    if z.0 <= x < z.0 + z.1 {
      assert Run(z)[x - z.0] == x;
    }
  }

  lemma {:induction false} RunsCells(zs: seq<Zone>, x: nat)
    ensures x in Cells(Runs(zs)) <==> exists i :: 0 <= i < |zs| && zs[i].0 <= x < zs[i].0 + zs[i].1
  {
    if zs != [] {
      CellsConcat(Run(zs[0]), Runs(zs[1..]));
      RunCells(zs[0], x);
      RunsCells(zs[1..], x);
      if i :| 0 <= i < |zs[1..]| && zs[1..][i].0 <= x < zs[1..][i].0 + zs[1..][i].1 {
        assert zs[i + 1].0 <= x < zs[i + 1].0 + zs[i + 1].1;
      }
      if i :| 0 <= i < |zs| && zs[i].0 <= x < zs[i].0 + zs[i].1 && i > 0 {
        assert zs[1..][i - 1].0 <= x < zs[1..][i - 1].0 + zs[1..][i - 1].1;
      }
    }
  }

  /** The clusters of good zones are free and different from each other. */
  lemma {:induction false} RunsGood(t: Table, zs: seq<Zone>)
    requires ZonesGood(t, zs)
    ensures NoRepeat(Runs(zs)) && AllFree(t, Runs(zs))
  {
    if zs != [] {
      var rest := zs[1..];
      forall i | 0 <= i < |rest| ensures ZoneFree(t, rest[i]) && ZonesApart(zs[0], rest[i]) {
        assert rest[i] == zs[i + 1];
      }
      RunsGood(t, rest);
      forall x | x in Cells(Run(zs[0])) ensures x !in Cells(Runs(rest)) {
        RunCells(zs[0], x);
        RunsCells(rest, x);
      }
      NoRepeatConcat(Run(zs[0]), Runs(rest));
      CellsConcat(Run(zs[0]), Runs(rest));
      forall x | x in Cells(Run(zs[0])) ensures x in Free(t) {
        RunCells(zs[0], x);
      }
    }
  }

  lemma NoRepeatConcat(a: seq<nat>, b: seq<nat>)
    requires NoRepeat(a) && NoRepeat(b) && Cells(a) !! Cells(b)
    ensures NoRepeat(a + b)
  {
    forall i, j | 0 <= i < j < |a + b| ensures (a + b)[i] != (a + b)[j] {
      if i < |a| <= j {
        assert a[i] in Cells(a) && b[j - |a|] in Cells(b);
      }
    }
  }

  lemma {:induction false} NoRepeatSize(c: seq<nat>)
    requires NoRepeat(c)
    ensures |Cells(c)| == |c|
  {
    if c != [] {
      var init, last := c[..|c| - 1], c[|c| - 1];
      NoRepeatSize(init);
      assert c == init + [last];
      assert Cells(c) == Cells(init) + {last};
    }
  }

  // Writing a run.

  /** The run is linked from its first cluster to its last, which points at `next`. */
  ghost function LinkRun(t: Table, z: Zone, next: Short): (r: Table)
    requires z.1 >= 1 && z.0 + z.1 <= |t| <= MAX_CLUSTER_ID + 1
    ensures |r| == |t|
  {
    seq(|t|, x requires 0 <= x < |t| =>
      if z.0 <= x < z.0 + z.1 then (if x == z.0 + z.1 - 1 then next else x + 1) else t[x])
  }

  /** A run in front of a chain, or alone. */
  lemma RunLinked(t: Table, z: Zone, c: seq<nat>, next: Short)
    requires z.1 >= 1 && 2 <= z.0 && z.0 + z.1 <= |t| <= MAX_CLUSTER_ID + 1
    requires if c == [] then next == END_OF_CHAIN else Linked(t, c) && next == c[0] && Cells(c) !! Cells(Run(z))
    ensures Linked(LinkRun(t, z, next), Run(z) + c) && (Run(z) + c)[0] == z.0
  {
    var r := LinkRun(t, z, next);
    var d := Run(z) + c;
    forall x | x in c ensures !(z.0 <= x < z.0 + z.1) {
      assert x in Cells(c);
      RunCells(z, x);
    }
    forall i | 0 <= i < |d| ensures 2 <= d[i] < |t| {
    }
    forall i | 0 <= i < |d| - 1 ensures r[d[i]] == d[i + 1] {
      if i >= z.1 {
        assert d[i] == c[i - z.1] && c[i - z.1] in c;
      }
    }
    if c != [] {
      assert c[|c| - 1] in c;
    }
  }

  /** The same, as far as the first `k` entries have been written. */
  ghost function LinkRunPart(t: Table, z: Zone, next: Short, k: nat): (r: Table)
    requires k <= z.1 && z.0 + z.1 <= |t| <= MAX_CLUSTER_ID + 1
    ensures |r| == |t|
  {
    seq(|t|, x requires 0 <= x < |t| =>
      if z.0 <= x < z.0 + k then (if x == z.0 + z.1 - 1 then next else x + 1) else t[x])
  }

  lemma LinkPart(t: Table, z: Zone, next: Short, k: nat)
    requires k < z.1 && z.0 + z.1 <= |t| <= MAX_CLUSTER_ID + 1
    ensures LinkRunPart(t, z, next, 0) == t
    ensures var e: Short := if k < z.1 - 1 then z.0 + k + 1 else next;
            LinkRunPart(t, z, next, k + 1) == LinkRunPart(t, z, next, k)[z.0 + k := e]
    ensures LinkRunPart(t, z, next, z.1) == LinkRun(t, z, next)
  {
  }

  lemma LinkOutside(t: Table, t': Table, z: Zone, next: Short, c: seq<nat>)
    requires z.1 >= 1 && z.0 + z.1 <= |t| <= MAX_CLUSTER_ID + 1 && SameOutside(t, t', c)
    ensures SameOutside(t, LinkRun(t', z, next), Run(z) + c)
  {
    CellsConcat(Run(z), c);
    forall x | 0 <= x < |t| && x !in Cells(Run(z) + c) ensures LinkRun(t', z, next)[x] == t[x] {
      RunCells(z, x);
    }
  }

  // Choosing zones.

  predicate Largest(zs: seq<Zone>, i: nat) {
    i < |zs| && forall j :: 0 <= j < |zs| ==> zs[j].1 <= zs[i].1
  }

  lemma {:induction false} LargestExists(zs: seq<Zone>) returns (i: nat)
    requires zs != []
    ensures Largest(zs, i)
  {
    if |zs| == 1 {
      i := 0;
    } else {
      i := LargestExists(zs[..|zs| - 1]);
      if zs[i].1 < zs[|zs| - 1].1 {
        i := |zs| - 1;
      }
    }
  }

  function Without(zs: seq<Zone>, i: nat): (r: seq<Zone>)
    requires i < |zs|
    ensures |r| == |zs| - 1
  {
    zs[..i] + zs[i + 1..]
  }

  lemma ApartEitherWay(t: Table, zs: seq<Zone>, i: nat, j: nat)
    requires ZonesGood(t, zs) && i < |zs| && j < |zs| && i != j
    ensures ZonesApart(zs[i], zs[j])
  {
    if i < j { assert ZonesApart(zs[i], zs[j]); } else { assert ZonesApart(zs[j], zs[i]); }
  }

  /** Taking one zone from the free ones to the grabbed ones loses nothing. */
  lemma MoveZone(t: Table, grabbed: seq<Zone>, zs: seq<Zone>, i: nat)
    requires i < |zs| && ZonesGood(t, grabbed + zs)
    ensures ZonesGood(t, grabbed + [zs[i]] + Without(zs, i))
    ensures Total(grabbed + [zs[i]]) + Total(Without(zs, i)) == Total(grabbed) + Total(zs)
    ensures Total(grabbed + [zs[i]]) == Total(grabbed) + zs[i].1
  {
    var a, b := grabbed + zs, grabbed + [zs[i]] + Without(zs, i);
    var n := |grabbed|;
    forall k | 0 <= k < |b| ensures b[k] == a[From(n, i, k)] {
    }
    forall k, j | 0 <= k < j < |b| ensures ZonesApart(b[k], b[j]) {
      ApartEitherWay(t, a, From(n, i, k), From(n, i, j));
    }
    TotalConcat(grabbed, [zs[i]]);
    TotalConcat(zs[..i], zs[i..]);
    assert zs[..i] + zs[i..] == zs;
    assert zs[i..] == [zs[i]] + zs[i + 1..];
    TotalConcat([zs[i]], zs[i + 1..]);
    TotalConcat(zs[..i], zs[i + 1..]);
  }

  ghost function From(n: nat, i: nat, k: nat): nat {
    if k < n then k else if k == n then n + i else if k <= n + i then k - 1 else k
  }

  lemma GoodPrefix(t: Table, a: seq<Zone>, b: seq<Zone>)
    requires ZonesGood(t, a + b)
    ensures ZonesGood(t, a)
  {
    forall i | 0 <= i < |a| ensures (a + b)[i] == a[i] {
    }
  }

  /** The last zone may be used in part. */
  lemma TrimLast(t: Table, zs: seq<Zone>, excess: nat)
    requires ZonesGood(t, zs) && zs != [] && excess < zs[|zs| - 1].1
    ensures var last := zs[|zs| - 1];
            var trimmed := zs[..|zs| - 1] + [(last.0, last.1 - excess)];
            ZonesGood(t, trimmed) && Total(trimmed) == Total(zs) - excess
  {
    var last := zs[|zs| - 1];
    var init := zs[..|zs| - 1];
    TotalConcat(init, [(last.0, last.1 - excess)]);
    TotalConcat(init, [last]);
    assert zs == init + [last];
  }

  /** `n` clusters hold the bytes, and fewer would not. */
  ghost predicate JustHolds(n: nat, amount: nat, size: nat) {
    amount <= n * size && (n == 0 || (n - 1) * size < amount)
  }

  /** There is only one such number: the amount divided by the cluster size, rounded up. */
  lemma JustHoldsCeil(n: nat, amount: nat, size: nat)
    requires size > 0 && JustHolds(n, amount, size)
    ensures n == (amount + size - 1) / size
  {
    if n > 0 {
      assert (n - 1) * size + size == n * size;
      DivBounds(amount + size - 1, size, n);
    } else {
      assert amount == 0;
    }
  }

  lemma DivBounds(a: nat, size: nat, n: nat)
    requires size > 0 && n * size <= a < n * size + size
    ensures a / size == n
  {
    var q := a / size;
    assert a == q * size + a % size;
    if q < n {
      Product(q + 1, n, size);
    } else if q > n {
      Product(n + 1, q, size);
    }
  }

  lemma Product(a: nat, b: nat, size: nat)
    requires a <= b
    ensures a * size <= b * size
  {
    assert b * size == a * size + (b - a) * size;
  }

  /** How much of the last zone is too much. */
  lemma Excess(total: nat, last: nat, grabbed: nat, amount: nat, size: nat)
    requires size > 0 && amount > 0 && last <= total
    requires grabbed == total * size && amount <= grabbed && (total - last) * size < amount
    ensures var excess := (grabbed - amount) / size;
            excess < last && JustHolds(total - excess, amount, size)
  {
    var excess := (grabbed - amount) / size;
    var r := (grabbed - amount) % size;
    assert grabbed - amount == excess * size + r;
    if excess >= total {
      Product(total, excess, size);
      assert false;
    }
    assert (total - excess) * size == total * size - excess * size == amount + r;
    assert (total - excess - 1) * size == (total - excess) * size - size;
    if excess >= last {
      Product(total - excess, total - last, size);
      assert false;
    }
  }

  // Scanning for free zones.

  ghost function FreeBelow(t: Table, p: nat): set<nat> {
    set x: nat | 2 <= x < p && x < |t| && t[x] == 0
  }

  /** Good zones below `p` that make up all that is free there, the open one included. */
  ghost predicate Scanned(t: Table, zones: seq<Zone>, open: seq<Zone>, p: nat) {
    && 2 <= p <= |t| && |open| <= 1 && ZonesGood(t, zones + open)
    && Total(zones + open) == |FreeBelow(t, p)|
    && (forall i :: 0 <= i < |zones + open| ==> (zones + open)[i].0 + (zones + open)[i].1 <= p)
    && (open != [] ==> open[0].0 + open[0].1 == p)
  }

  lemma ScanStart(t: Table)
    requires |t| >= 2
    ensures Scanned(t, [], [], 2)
  {
    assert FreeBelow(t, 2) == {};
  }

  lemma ScanEnd(t: Table, zones: seq<Zone>, open: seq<Zone>)
    requires Scanned(t, zones, open, |t|)
    ensures ZonesGood(t, zones + open) && Total(zones + open) == |Free(t)|
  {
    assert FreeBelow(t, |t|) == Free(t);
  }

  /** A used entry closes the open zone. */
  lemma ScanUsed(t: Table, zones: seq<Zone>, open: seq<Zone>, p: nat)
    requires Scanned(t, zones, open, p) && p < |t| && t[p] != 0
    ensures Scanned(t, zones + open, [], p + 1)
  {
    assert FreeBelow(t, p + 1) == FreeBelow(t, p);
    assert zones + open + [] == zones + open;
  }

  /** A free entry opens a zone or makes the open one longer. */
  lemma ScanFree(t: Table, zones: seq<Zone>, open: seq<Zone>, p: nat)
    requires Scanned(t, zones, open, p) && p < |t| && t[p] == 0
    ensures Scanned(t, zones, [if open == [] then (p, 1) else (open[0].0, open[0].1 + 1)], p + 1)
  {
    var z := if open == [] then (p, 1) else (open[0].0, open[0].1 + 1);
    FreeBelowNext(t, p);
    TotalConcat(zones, open);
    TotalConcat(zones, [z]);
    assert open != [] ==> open == [open[0]];
    ScanFreeZones(t, zones, open, p, z);
  }

  lemma FreeBelowNext(t: Table, p: nat)
    requires 2 <= p < |t| && t[p] == 0
    ensures |FreeBelow(t, p + 1)| == |FreeBelow(t, p)| + 1
  {
    assert FreeBelow(t, p + 1) == FreeBelow(t, p) + {p};
  }

  lemma ScanFreeZones(t: Table, zones: seq<Zone>, open: seq<Zone>, p: nat, z: Zone)
    requires 2 <= p < |t| && t[p] == 0 && |open| <= 1 && ZonesGood(t, zones + open)
    requires forall i :: 0 <= i < |zones + open| ==> (zones + open)[i].0 + (zones + open)[i].1 <= p
    requires open != [] ==> open[0].0 + open[0].1 == p
    requires z == if open == [] then (p, 1) else (open[0].0, open[0].1 + 1)
    ensures ZonesGood(t, zones + [z])
    ensures forall i :: 0 <= i < |zones + [z]| ==> (zones + [z])[i].0 + (zones + [z])[i].1 <= p + 1
  {
    var old', new' := zones + open, zones + [z];
    forall i | 0 <= i < |zones| ensures new'[i] == old'[i] {
    }
    if open != [] { assert old'[|zones|] == open[0]; }
    forall i | 0 <= i < |new'| ensures ZoneFree(t, new'[i]) {
      if i == |zones| && open != [] { assert ZoneFree(t, old'[i]); }
    }
    forall i, j | 0 <= i < j < |new'| ensures ZonesApart(new'[i], new'[j]) {
      if j == |zones| && open != [] { assert ZonesApart(old'[i], old'[j]); }
    }
  }

  /** Free clusters from one used entry, or end of the table, to the next. */
  ghost predicate WholeRun(t: Table, z: Zone) {
    ZoneFree(t, z) && (z.0 == 2 || t[z.0 - 1] != 0) && (z.0 + z.1 == |t| || t[z.0 + z.1] != 0)
  }

  /** The zones are the whole runs of free clusters, all of them. */
  ghost predicate FreeRuns(t: Table, zones: seq<Zone>) {
    (forall i :: 0 <= i < |zones| ==> WholeRun(t, zones[i])) && (forall z: Zone :: WholeRun(t, z) ==> z in zones)
  }

  /** The same for what lies below `p`, with one run that may go on. */
  ghost predicate RunsSeen(t: Table, zones: seq<Zone>, open: seq<Zone>, p: nat) {
    && 2 <= p <= |t| && |open| <= 1
    && (forall i :: 0 <= i < |zones| ==> WholeRun(t, zones[i]))
    && (forall z: Zone :: WholeRun(t, z) && z.0 + z.1 < p ==> z in zones)
    && (if open == [] then p == 2 || t[p - 1] != 0
        else ZoneFree(t, open[0]) && open[0].0 + open[0].1 == p && (open[0].0 == 2 || t[open[0].0 - 1] != 0))
  }

  lemma SeenStart(t: Table)
    requires |t| >= 2
    ensures RunsSeen(t, [], [], 2)
  {
  }

  lemma SeenFree(t: Table, zones: seq<Zone>, open: seq<Zone>, p: nat)
    requires RunsSeen(t, zones, open, p) && p < |t| && t[p] == 0
    ensures RunsSeen(t, zones, [if open == [] then (p, 1) else (open[0].0, open[0].1 + 1)], p + 1)
  {
    forall z: Zone | WholeRun(t, z) && z.0 + z.1 < p + 1 ensures z in zones {
      assert z.0 + z.1 != p;
    }
  }

  lemma SeenUsed(t: Table, zones: seq<Zone>, open: seq<Zone>, p: nat)
    requires RunsSeen(t, zones, open, p) && p < |t| && t[p] != 0
    ensures RunsSeen(t, zones + open, [], p + 1)
  {
    forall z: Zone | WholeRun(t, z) && z.0 + z.1 < p + 1 ensures z in zones + open {
      if z.0 + z.1 == p {
        EndDecides(t, open, p, z);
      }
    }
  }

  /** The run that ends at `p` is the open one. */
  lemma EndDecides(t: Table, open: seq<Zone>, p: nat, z: Zone)
    requires 2 <= p <= |t| && ZoneFree(t, z) && z.0 + z.1 == p && (z.0 == 2 || t[z.0 - 1] != 0)
    requires |open| <= 1
    requires if open == [] then p == 2 || t[p - 1] != 0
             else ZoneFree(t, open[0]) && open[0].0 + open[0].1 == p && (open[0].0 == 2 || t[open[0].0 - 1] != 0)
    ensures open == [z]
  {
    assert t[p - 1] == 0;
    var s := open[0].0;
    assert z.0 <= s;
    assert s <= z.0;
  }

  lemma SeenEnd(t: Table, zones: seq<Zone>, open: seq<Zone>)
    requires RunsSeen(t, zones, open, |t|)
    ensures FreeRuns(t, zones + open)
  {
    forall z: Zone | WholeRun(t, z) ensures z in zones + open {
      if z.0 + z.1 == |t| {
        EndDecides(t, open, |t|, z);
      }
    }
  }

  /** No run that was still there was longer than the one taken. */
  ghost predicate LargestFirst(t: Table, grabbed: seq<Zone>) {
    && (forall i :: 0 <= i < |grabbed| ==> WholeRun(t, grabbed[i]))
    && (forall i, z :: 0 <= i < |grabbed| && WholeRun(t, z) && z !in grabbed[..i] ==> z.1 <= grabbed[i].1)
  }

  ghost predicate Choosing(t: Table, grabbed: seq<Zone>, zones: seq<Zone>) {
    && LargestFirst(t, grabbed) && (forall i :: 0 <= i < |zones| ==> WholeRun(t, zones[i]))
    && (forall z: Zone :: WholeRun(t, z) ==> z in grabbed || z in zones)
  }

  lemma ChooseStart(t: Table, zones: seq<Zone>)
    requires FreeRuns(t, zones)
    ensures Choosing(t, [], zones)
  {
  }

  lemma ChooseNext(t: Table, grabbed: seq<Zone>, zones: seq<Zone>, i: nat)
    requires Choosing(t, grabbed, zones) && Largest(zones, i)
    ensures Choosing(t, grabbed + [zones[i]], Without(zones, i))
  {
    hide WholeRun;
    var more, rest := grabbed + [zones[i]], Without(zones, i);
    forall k, z | 0 <= k < |more| && WholeRun(t, z) && z !in more[..k] ensures z.1 <= more[k].1 {
      if k < |grabbed| {
        assert more[..k] == grabbed[..k];
      } else {
        assert more[..k] == grabbed;
      }
    }
    forall z: Zone | WholeRun(t, z) ensures z in more || z in rest {
      if z in zones {
        InRest(zones, i, z);
      }
    }
  }

  lemma InRest(zones: seq<Zone>, i: nat, z: Zone)
    requires i < |zones| && z in zones
    ensures z == zones[i] || z in Without(zones, i)
  {
    var k :| 0 <= k < |zones| && zones[k] == z;
    if k < i {
      assert Without(zones, i)[k] == z;
    } else if k > i {
      assert Without(zones, i)[k - 1] == z;
    }
  }

  // Writing over part of a file.

  /** `b`, which starts at `off`, with `d` written over it at `start`. */
  ghost function Overlay(b: Bytes, off: nat, start: nat, d: Bytes): (r: Bytes)
    ensures |r| == |b|
  {
    seq(|b|, j requires 0 <= j < |b| => if start <= off + j < start + |d| then d[off + j - start] else b[j])
  }

  lemma OverlayConcat(a: Bytes, b: Bytes, off: nat, start: nat, d: Bytes)
    ensures Overlay(a + b, off, start, d) == Overlay(a, off, start, d) + Overlay(b, off + |a|, start, d)
  {
  }

  lemma OverlayPast(b: Bytes, off: nat, start: nat, d: Bytes)
    requires start + |d| <= off
    ensures Overlay(b, off, start, d) == b
  {
  }

  function Max(a: int, b: int): int {
    if a < b then b else a
  }

  function Min(a: int, b: int): int {
    if a < b then a else b
  }

  /** The part of `d`, written at `start`, that falls into the cluster that starts at `off`. */
  ghost function Part(size: nat, off: nat, start: nat, d: Bytes): Bytes {
    var from, upto := Max(0, off - start), Min(|d|, off + size - start);
    if from < upto then d[from..upto] else []
  }

  /** The clusters after that part has been written. */
  ghost function Written(area: Bytes, x: nat, size: nat, off: nat, start: nat, d: Bytes): (r: Bytes)
    requires Inside(area, x, size)
    ensures |r| == |area|
  {
    if Part(size, off, start, d) == [] then area
    else
      PartFits(size, off, start, d);
      Splice(area, Offset(x, size) + Max(0, start - off), Part(size, off, start, d))
  }

  lemma PartFits(size: nat, off: nat, start: nat, d: Bytes)
    requires Part(size, off, start, d) != []
    ensures Max(0, start - off) + |Part(size, off, start, d)| <= size
  {
  }

  lemma PartOverlay(b: Bytes, off: nat, start: nat, d: Bytes)
    ensures Part(|b|, off, start, d) == [] ==> Overlay(b, off, start, d) == b
    ensures Part(|b|, off, start, d) != [] ==>
              && Max(0, start - off) + |Part(|b|, off, start, d)| <= |b|
              && Overlay(b, off, start, d) == Splice(b, Max(0, start - off), Part(|b|, off, start, d))
  {
    hide Splice;
  }

  lemma WrittenCluster(area: Bytes, x: nat, size: nat, off: nat, start: nat, d: Bytes, y: nat)
    requires Inside(area, x, size) && Inside(area, y, size)
    ensures Inside(Written(area, x, size, off, start, d), y, size)
    ensures Cluster(Written(area, x, size, off, start, d), y, size) ==
            if y == x then Overlay(Cluster(area, x, size), off, start, d) else Cluster(area, y, size)
  {
    hide Splice, Offset, Overlay, Cluster, Part;
    ClusterSize(area, x, size);
    PartOverlay(Cluster(area, x, size), off, start, d);
    if Part(size, off, start, d) != [] {
      ClusterSplice(area, x, size, Max(0, start - off), Part(size, off, start, d), y);
    }
  }

  lemma ClusterSize(area: Bytes, x: nat, size: nat)
    requires Inside(area, x, size)
    ensures |Cluster(area, x, size)| == size
  {
  }

  /** How many clusters are added to a chain of `have` until it reaches `last` bytes, `step` at a time. */
  ghost function Growth(have: nat, last: nat, step: nat, size: nat): nat
    requires step > 0 && size > 0
    decreases if have * size < last then last - have * size else 0
  {
    if last <= have * size then 0
    else
      GrowthStep(have, step, size);
      step + Growth(have + step, last, step, size)
  }

  lemma GrowthStep(have: nat, step: nat, size: nat)
    requires step > 0 && size > 0
    ensures (have + step) * size >= have * size + size > have * size
  {
    Product(have + 1, have + step, size);
    assert (have + 1) * size == have * size + size;
  }

  /** A write that leaves no gap adds just what it needs, in one go. */
  lemma GrowthNoGap(have: nat, start: nat, amount: nat, step: nat, size: nat)
    requires size > 0 && amount > 0 && step > 0 && JustHolds(step, amount, size) && start <= have * size
    ensures Growth(have, start + amount, step, size) == if start + amount <= have * size then 0 else step
  {
    if start + amount > have * size {
      GrowthStep(have, step, size);
      assert (have + step) * size == have * size + step * size;
    }
  }
}
