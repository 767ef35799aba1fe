/** Where a FAT16 image keeps its two tables and its clusters. */
module FatLayout {

  type Byte = n: nat | n < 256

  type Bytes = seq<Byte>

  const FAT_TABLE_START: nat := 0x200

  const MAX_CLUSTER_ID: nat := 0x7FFF

  const END_OF_CHAIN: nat := 0xFFFF

  type Short = n: nat | n < 0x10000

  /** A table of 16-bit entries. */
  type Table = seq<Short>

  /** The little-endian short at `p`. */
  function ShortAt(img: Bytes, p: nat): Short
    requires p + 2 <= |img|
  {
    (img[p] as int) + 256 * (img[p + 1] as int)
  }

  function Pack(v: Short): (d: Bytes)
    ensures |d| == 2
  {
    [v % 256, v / 256]
  }

  lemma PackUnpack(v: Short)
    ensures ShortAt(Pack(v), 0) == v
  {
  }

  /** `img` with `d` in place of what is at `p`. */
  ghost function Splice(img: Bytes, p: nat, d: Bytes): (r: Bytes)
    requires p + |d| <= |img|
    ensures |r| == |img|
    ensures forall i :: 0 <= i < |img| ==> r[i] == if p <= i < p + |d| then d[i - p] else img[i]
  {
    img[..p] + d + img[p + |d|..]
  }

  /** The `n` entries from `from` on. */
  ghost function TableAt(img: Bytes, from: nat, n: nat): (t: Table)
    requires from + 2 * n <= |img|
    ensures |t| == n
  {
    seq(n, i requires 0 <= i < n => ShortAt(img, from + 2 * i))
  }

  lemma TableSplice(img: Bytes, from: nat, n: nat, i: nat, v: Short)
    requires from + 2 * n <= |img| && i < n
    ensures TableAt(Splice(img, from + 2 * i, Pack(v)), from, n) == TableAt(img, from, n)[i := v]
  {
    hide Splice;
    var r := Splice(img, from + 2 * i, Pack(v));
    forall j | 0 <= j < n ensures TableAt(r, from, n)[j] == TableAt(img, from, n)[i := v][j] {
      PackUnpack(v);
    }
  }

  lemma TableElsewhere(img: Bytes, from: nat, n: nat, p: nat, d: Bytes)
    requires from + 2 * n <= |img| && p + |d| <= |img| && (p + |d| <= from || from + 2 * n <= p)
    ensures TableAt(Splice(img, p, d), from, n) == TableAt(img, from, n)
  {
    hide Splice;
    var r := Splice(img, p, d);
    forall j | 0 <= j < n ensures TableAt(r, from, n)[j] == TableAt(img, from, n)[j] {
    }
  }

  lemma AreaElsewhere(img: Bytes, base: nat, p: nat, d: Bytes)
    requires p + |d| <= base <= |img|
    ensures Splice(img, p, d)[base..] == img[base..]
  {
    hide Splice;
  }

  lemma AreaSplice(img: Bytes, base: nat, o: nat, d: Bytes)
    requires base + o + |d| <= |img|
    ensures Splice(img, base + o, d)[base..] == Splice(img[base..], o, d)
  {
    hide Splice;
  }

  // Clusters in the data area; the first one is number 2.

  ghost function Offset(x: nat, size: nat): nat
    requires 2 <= x
  {
    (x - 2) * size
  }

  lemma OffsetNext(x: nat, size: nat)
    requires 2 <= x
    ensures Offset(x + 1, size) == Offset(x, size) + size
  {
  }

  lemma {:induction false} OffsetGrows(x: nat, y: nat, size: nat)
    requires 2 <= x < y
    ensures Offset(x, size) + size <= Offset(y, size)
  {
    hide Offset;
    OffsetNext(y - 1, size);
    if x < y - 1 {
      OffsetGrows(x, y - 1, size);
    }
  }

  ghost predicate Inside(area: Bytes, x: nat, size: nat) {
    2 <= x && Offset(x, size) + size <= |area|
  }

  ghost function Cluster(area: Bytes, x: nat, size: nat): (r: Bytes)
    requires Inside(area, x, size)
    ensures |r| == size
  {
    area[Offset(x, size)..Offset(x, size) + size]
  }

  /** Writing inside one cluster changes that cluster only. */
  lemma ClusterSplice(area: Bytes, x: nat, size: nat, o: nat, d: Bytes, y: nat)
    requires Inside(area, x, size) && Inside(area, y, size) && o + |d| <= size
    ensures Inside(Splice(area, Offset(x, size) + o, d), y, size)
    ensures Cluster(Splice(area, Offset(x, size) + o, d), y, size) ==
            if y == x then Splice(Cluster(area, x, size), o, d) else Cluster(area, y, size)
  {
    hide Splice, Offset;
    if x < y {
      OffsetGrows(x, y, size);
    } else if y < x {
      OffsetGrows(y, x, size);
    }
  }

  ghost predicate AllInside(area: Bytes, c: seq<nat>, size: nat) {
    forall i :: 0 <= i < |c| ==> Inside(area, c[i], size)
  }

  /** The bytes of a chain of clusters. */
  ghost function Content(area: Bytes, c: seq<nat>, size: nat): (r: Bytes)
    requires AllInside(area, c, size)
  {
    if c == [] then [] else Content(area, c[..|c| - 1], size) + Cluster(area, c[|c| - 1], size)
  }

  lemma {:induction false} ContentSize(area: Bytes, c: seq<nat>, size: nat)
    requires AllInside(area, c, size)
    ensures |Content(area, c, size)| == |c| * size
  {
    if c != [] {
      ContentSize(area, c[..|c| - 1], size);
      assert |c| * size == (|c| - 1) * size + size;
    }
  }

  lemma {:induction false} ContentConcat(area: Bytes, a: seq<nat>, b: seq<nat>, size: nat)
    requires AllInside(area, a, size) && AllInside(area, b, size)
    ensures AllInside(area, a + b, size)
    ensures Content(area, a + b, size) == Content(area, a, size) + Content(area, b, size)
  {
    hide Offset, Inside, Cluster;
    if b == [] {
      assert a + b == a;
    } else {
      var init := b[..|b| - 1];
      assert (a + b)[..|a + b| - 1] == a + init;
      ContentConcat(area, a, init, size);
    }
  }

  lemma {:induction false} ContentSame(area: Bytes, area': Bytes, c: seq<nat>, size: nat)
    requires AllInside(area, c, size) && AllInside(area', c, size)
    requires forall i :: 0 <= i < |c| ==> Cluster(area', c[i], size) == Cluster(area, c[i], size)
    ensures Content(area', c, size) == Content(area, c, size)
  {
    hide Offset, Inside, Cluster;
    if c != [] {
      ContentSame(area, area', c[..|c| - 1], size);
    }
  }
}
