/** Cutting the ranges of one file into pieces. */
module Splitting {
  import opened Ranges
  import opened Transfers
  import opened Patches

  // Pieces that do not meet.

  ghost function Union(parts: seq<RangeSet>): RangeSet {
    if parts == [] then {} else Union(parts[..|parts| - 1]) + parts[|parts| - 1]
  }

  ghost predicate Apart(parts: seq<RangeSet>) {
    parts == [] || (Apart(parts[..|parts| - 1]) && Union(parts[..|parts| - 1]) !! parts[|parts| - 1])
  }

  lemma AppendPart(parts: seq<RangeSet>, r: RangeSet)
    ensures Union(parts + [r]) == Union(parts) + r
    ensures Apart(parts + [r]) <==> Apart(parts) && Union(parts) !! r
  {
    assert (parts + [r])[..|parts|] == parts;
  }

  lemma {:induction false} UnionMember(parts: seq<RangeSet>, b: nat)
    ensures b in Union(parts) <==> exists i :: 0 <= i < |parts| && b in parts[i]
  {
    if parts != [] {
      UnionMember(parts[..|parts| - 1], b);
    }
  }

  lemma {:induction false} ApartPairs(parts: seq<RangeSet>, i: nat, j: nat)
    requires Apart(parts) && i < j < |parts|
    ensures parts[i] !! parts[j]
  {
    var init := parts[..|parts| - 1];
    if j < |parts| - 1 {
      ApartPairs(init, i, j);
    } else {
      forall b | b in parts[i] ensures b !in parts[j] {
        assert b in init[i];
        UnionMember(init, b);
      }
    }
  }

  lemma {:induction false} HeadPart(parts: seq<RangeSet>)
    requires parts != []
    ensures Union(parts) == parts[0] + Union(parts[1..])
    ensures Apart(parts) ==> Apart(parts[1..]) && parts[0] !! Union(parts[1..])
  {
    var n := |parts| - 1;
    if n == 0 {
      assert parts[..0] == [] && parts[1..] == [];
    } else {
      HeadPart(parts[..n]);
      assert parts[..n][1..] == parts[1..][..n - 1];
    }
  }

  // Slices of a range set by position.

  /** The blocks of `s` at the positions `a` to `b - 1`. */
  ghost function Slice(s: RangeSet, a: nat, b: nat): RangeSet {
    set x | x in s && a <= Rank(s, x) < b
  }

  lemma FirstSlice(s: RangeSet, n: nat)
    ensures First(s, n) == Slice(s, 0, n)
  {
    if |s| <= n {
      forall x | x in s ensures Rank(s, x) < n { RankSorted(s, x); }
    }
  }

  lemma SliceSize(s: RangeSet, a: nat)
    requires a <= |s|
    ensures |Slice(s, a, |s|)| == |s| - a
  {
    FirstSlice(s, a);
    var f := First(s, a);
    assert s == f + (s - f);
    forall x | x in s ensures Rank(s, x) < |s| { RankSorted(s, x); }
    assert Slice(s, a, |s|) == s - f;
  }

  lemma TailRank(s: RangeSet, a: nat, x: nat)
    requires a <= |s| && x in Slice(s, a, |s|)
    ensures Rank(Slice(s, a, |s|), x) == Rank(s, x) - a
  {
    FirstSlice(s, a);
    var f, t := First(s, a), Slice(s, a, |s|);
    forall y | y in f ensures y < x {
      if x < y { RankMonotone(s, x, y); }
    }
    assert Below(s, x) == f + Below(t, x) by {
      forall y | y in Below(s, x) ensures y in f || y in Below(t, x) {
        RankSorted(s, y);
      }
    }
    assert f !! Below(t, x);
  }

  /** Cutting `n` blocks off what is left cuts the next slice. */
  lemma CutNext(s: RangeSet, a: nat, n: nat)
    requires a + n <= |s|
    ensures First(Slice(s, a, |s|), n) == Slice(s, a, a + n)
    ensures Slice(s, a, |s|) - First(Slice(s, a, |s|), n) == Slice(s, a + n, |s|)
  {
    var t := Slice(s, a, |s|);
    FirstSlice(t, n);
    forall x | x in t ensures Rank(t, x) == Rank(s, x) - a {
      TailRank(s, a, x);
    }
    forall x | x in s ensures Rank(s, x) < |s| { RankSorted(s, x); }
    assert First(t, n) == Slice(s, a, a + n);
    assert t - First(t, n) == Slice(s, a + n, |s|);
  }

  lemma SliceWhole(s: RangeSet)
    ensures Slice(s, 0, |s|) == s && Slice(s, 0, 0) == {}
  {
    FirstSlice(s, |s|);
  }

  lemma SliceJoin(s: RangeSet, a: nat, b: nat)
    requires a <= b
    ensures Slice(s, 0, a) + Slice(s, a, b) == Slice(s, 0, b) && Slice(s, 0, a) !! Slice(s, a, b)
  {
  }

  // What imgdiff says about the pieces of a large archive.

  datatype SplitLine = SplitLine(patchLen: nat, tgtBytes: nat, srcRanges: seq<(nat, nat)>)

  datatype SplitInfo = SplitInfo(version: nat, count: nat, lines: seq<SplitLine>)

  datatype Piece = Piece(patchStart: nat, patchLen: nat, tgt: RangeSet, src: RangeSet)

  ghost function TgtOffset(lines: seq<SplitLine>, n: nat): nat
    requires n <= |lines|
  {
    if n == 0 then 0 else TgtOffset(lines, n - 1) + lines[n - 1].tgtBytes / BLOCK_SIZE
  }

  ghost function PatchOffset(lines: seq<SplitLine>, n: nat): nat
    requires n <= |lines|
  {
    if n == 0 then 0 else PatchOffset(lines, n - 1) + lines[n - 1].patchLen
  }

  lemma {:induction false} TgtOffsetGrows(lines: seq<SplitLine>, k: nat, n: nat)
    requires k <= n <= |lines|
    ensures TgtOffset(lines, k) <= TgtOffset(lines, n)
  {
    if k < n { TgtOffsetGrows(lines, k, n - 1); }
  }

  ghost function SliceOf(src: RangeSet, r: (nat, nat)): RangeSet {
    Slice(src, r.0, r.1)
  }

  ghost function SlicesOf(src: RangeSet, rs: seq<(nat, nat)>): (p: seq<RangeSet>)
    ensures |p| == |rs|
  {
    seq(|rs|, i requires 0 <= i < |rs| => SliceOf(src, rs[i]))
  }

  /** The pieces by position: consecutive slices of the target, the named slices of the source, and
      consecutive parts of the patch. */
  ghost function PieceAt(info: SplitInfo, tgt: RangeSet, src: RangeSet, i: nat): Piece
    requires i < |info.lines|
  {
    Piece(PatchOffset(info.lines, i), info.lines[i].patchLen,
          Slice(tgt, TgtOffset(info.lines, i), TgtOffset(info.lines, i + 1)),
          Union(SlicesOf(src, info.lines[i].srcRanges)))
  }

  ghost function PiecesOf(info: SplitInfo, tgt: RangeSet, src: RangeSet): (p: seq<Piece>)
    ensures |p| == |info.lines|
  {
    seq(|info.lines|, i requires 0 <= i < |info.lines| => PieceAt(info, tgt, src, i))
  }

  ghost predicate LineValid(line: SplitLine, src: RangeSet) {
    line.tgtBytes % BLOCK_SIZE == 0 && Apart(SlicesOf(src, line.srcRanges))
  }

  ghost predicate LinesValid(info: SplitInfo, src: RangeSet, n: nat)
    requires n <= |info.lines|
  {
    forall i :: 0 <= i < n ==> LineValid(info.lines[i], src)
  }

  /** The sizes add up to those of the target and of the patch, and no source block is named twice in a line. */
  ghost predicate SplitValid(info: SplitInfo, patchSize: nat, tgt: RangeSet, src: RangeSet) {
    && info.version == 2 && info.count == |info.lines|
    && LinesValid(info, src, |info.lines|)
    && TgtOffset(info.lines, |info.lines|) == |tgt|
    && PatchOffset(info.lines, |info.lines|) == patchSize
  }

  /** The source blocks one line names. */
  method ParseSource(src: RangeSet, rs: seq<(nat, nat)>) returns (r: Option<RangeSet>)
    ensures r == if Apart(SlicesOf(src, rs)) then Some(Union(SlicesOf(src, rs))) else None
  {
    hide Slice, Union, Apart;
    var all: RangeSet := {};
    var parts := SlicesOf(src, rs);
    SlicesStart(parts);
    for n := 0 to |rs|
      invariant Apart(parts[..n]) && all == Union(parts[..n])
    {
      SliceBetween(src, rs[n].0, rs[n].1);
      var curr := First(src, rs[n].1) - First(src, rs[n].0);
      AppendPart(parts[..n], curr);
      assert parts[..n + 1] == parts[..n] + [curr];
      if !(all !! curr) {
        ApartPrefix(parts, n + 1);
        return None;
      }
      all := all + curr;
    }
    assert parts[..|rs|] == parts;
    return Some(all);
  }

  lemma SlicesStart(parts: seq<RangeSet>)
    ensures Apart(parts[..0]) && Union(parts[..0]) == {}
  {
  }

  lemma SliceBetween(s: RangeSet, a: nat, b: nat)
    ensures First(s, b) - First(s, a) == Slice(s, a, b)
  {
    FirstSlice(s, a);
    FirstSlice(s, b);
  }

  lemma {:induction false} ApartPrefix(parts: seq<RangeSet>, n: nat)
    requires n <= |parts| && !Apart(parts[..n])
    ensures !Apart(parts)
  {
    if n < |parts| {
      assert parts[..|parts| - 1][..n] == parts[..n];
      ApartPrefix(parts[..|parts| - 1], n);
    } else {
      assert parts[..n] == parts;
    }
  }

  /** Reads the split information; it is accepted exactly when it is valid. */
  method ParseAndValidateSplitInfo(patchSize: nat, tgt: RangeSet, src: RangeSet, info: SplitInfo)
    returns (r: Option<seq<Piece>>)
    ensures r == if SplitValid(info, patchSize, tgt, src) then Some(PiecesOf(info, tgt, src)) else None
  {
    hide TgtOffset, PatchOffset, Slice, Union, Apart, SlicesOf, LinesValid, LineValid;
    var pieces: seq<Piece> := [];
    if info.version != 2 || info.count != |info.lines| {
      return None;
    }
    var patchStart := 0;
    var tgtRemain := tgt;
    SplitStart(info, tgt, src);
    for n := 0 to |info.lines|
      invariant LinesValid(info, src, n)
      invariant TgtOffset(info.lines, n) <= |tgt| && tgtRemain == Slice(tgt, TgtOffset(info.lines, n), |tgt|)
      invariant patchStart == PatchOffset(info.lines, n)
      invariant pieces == PiecesOf(info, tgt, src)[..n]
    {
      var line := info.lines[n];
      SplitNext(info, src, n);
      SliceSize(tgt, TgtOffset(info.lines, n));
      var size := line.tgtBytes / BLOCK_SIZE;
      if line.tgtBytes % BLOCK_SIZE != 0 {
        return None;
      }
      if size > |tgtRemain| {
        TgtOffsetGrows(info.lines, n + 1, |info.lines|);
        return None;
      }
      CutNext(tgt, TgtOffset(info.lines, n), size);
      var splitTgt := First(tgtRemain, size);
      tgtRemain := tgtRemain - splitTgt;
      var splitSrc := ParseSource(src, line.srcRanges);
      if splitSrc.None? {
        return None;
      }
      pieces := pieces + [Piece(patchStart, line.patchLen, splitTgt, splitSrc.value)];
      assert PiecesOf(info, tgt, src)[n] == PieceAt(info, tgt, src, n);
      patchStart := patchStart + line.patchLen;
    }
    SliceSize(tgt, TgtOffset(info.lines, |info.lines|));
    if |tgtRemain| != 0 || patchStart != patchSize {
      return None;
    }
    assert PiecesOf(info, tgt, src)[..|info.lines|] == PiecesOf(info, tgt, src);
    return Some(pieces);
  }

  lemma SplitStart(info: SplitInfo, tgt: RangeSet, src: RangeSet)
    ensures TgtOffset(info.lines, 0) == 0 && PatchOffset(info.lines, 0) == 0
    ensures LinesValid(info, src, 0) && Slice(tgt, 0, |tgt|) == tgt
  {
    SliceWhole(tgt);
  }

  lemma SplitNext(info: SplitInfo, src: RangeSet, n: nat)
    requires n < |info.lines| && LinesValid(info, src, n)
    ensures TgtOffset(info.lines, n + 1) == TgtOffset(info.lines, n) + info.lines[n].tgtBytes / BLOCK_SIZE
    ensures PatchOffset(info.lines, n + 1) == PatchOffset(info.lines, n) + info.lines[n].patchLen
    ensures LineValid(info.lines[n], src) <==>
            info.lines[n].tgtBytes % BLOCK_SIZE == 0 && Apart(SlicesOf(src, info.lines[n].srcRanges))
    ensures LinesValid(info, src, n + 1) <==> LineValid(info.lines[n], src)
    ensures LinesValid(info, src, |info.lines|) ==> LineValid(info.lines[n], src)
  {
  }

  ghost function TgtsOf(pieces: seq<Piece>): (t: seq<RangeSet>)
    ensures |t| == |pieces|
  {
    seq(|pieces|, i requires 0 <= i < |pieces| => pieces[i].tgt)
  }

  /** Valid pieces share out the target. */
  lemma PiecesCover(info: SplitInfo, patchSize: nat, tgt: RangeSet, src: RangeSet)
    requires SplitValid(info, patchSize, tgt, src)
    ensures Apart(TgtsOf(PiecesOf(info, tgt, src))) && Union(TgtsOf(PiecesOf(info, tgt, src))) == tgt
  {
    var t := TgtsOf(PiecesOf(info, tgt, src));
    PiecesCoverFirst(info, tgt, src, |info.lines|);
    assert t[..|info.lines|] == t;
    SliceWhole(tgt);
  }

  lemma {:induction false} PiecesCoverFirst(info: SplitInfo, tgt: RangeSet, src: RangeSet, n: nat)
    requires n <= |info.lines|
    ensures var t := TgtsOf(PiecesOf(info, tgt, src))[..n];
            Apart(t) && Union(t) == Slice(tgt, 0, TgtOffset(info.lines, n))
  {
    hide Slice, SlicesOf;
    var t := TgtsOf(PiecesOf(info, tgt, src));
    if n == 0 {
      SliceWhole(tgt);
    } else {
      PiecesCoverFirst(info, tgt, src, n - 1);
      SliceJoin(tgt, TgtOffset(info.lines, n - 1), TgtOffset(info.lines, n));
      AppendPart(t[..n - 1], t[n - 1]);
      assert t[..n] == t[..n - 1] + [t[n - 1]];
    }
  }
}
