/** Making the transfers of one file: whole, in pieces of a fixed size, or with the equal blocks taken out. */
module FilePieces {
  import opened Ranges
  import opened Transfers
  import opened FeedbackArc
  import opened Writer
  import opened Patches
  import opened Splitting

  /** The images with the tools that work on their content. */
  datatype Setting = Setting(src: Image, tgt: Image, tool: Tool, split: (RangeSet, RangeSet) -> (Patch, SplitInfo))

  /** A large archive that imgdiff will split. */
  datatype Apk = Apk(tgt: RangeSet, src: RangeSet)

  /** imgdiff describes its pieces correctly, leaves none of them empty, and its patches work. */
  ghost predicate SplitterSound(env: Setting) {
    forall tgt, src {:trigger env.split(tgt, src)} :: tgt != {} && src != {} && Fits(tgt, env.tgt) && Fits(src, env.src) ==>
      var (patch, info) := env.split(tgt, src);
      && SplitValid(info, |patch|, tgt, src)
      && forall i :: 0 <= i < |info.lines| ==> PieceSound(env, patch, PieceAt(info, tgt, src, i))
  }

  ghost predicate PieceSound(env: Setting, patch: Patch, x: Piece) {
    && x.tgt != {} && x.src != {} && Fits(x.tgt, env.tgt) && Fits(x.src, env.src) && x.patchStart + x.patchLen <= |patch|
    && PatchWorks(env.tool, PatchInfo(true, patch[x.patchStart..x.patchStart + x.patchLen]),
               Read(env.src, x.src), Read(env.tgt, x.tgt))
  }

  ghost function DraftTgts(ds: seq<Draft>): (t: seq<RangeSet>)
    ensures |t| == |ds|
  {
    seq(|ds|, i requires 0 <= i < |ds| => ds[i].tgt)
  }

  ghost function ApkTgts(apks: seq<Apk>): (t: seq<RangeSet>)
    ensures |t| == |apks|
  {
    seq(|apks|, i requires 0 <= i < |apks| => apks[i].tgt)
  }

  ghost predicate DraftsFine(ds: seq<Draft>, env: Setting) {
    forall i :: 0 <= i < |ds| ==> Fine(ds[i], env.src, env.tgt, env.tool)
  }

  ghost predicate ApkFine(a: Apk, env: Setting) {
    a.tgt != {} && a.src != {} && Fits(a.tgt, env.tgt) && Fits(a.src, env.src)
  }

  ghost predicate ApksFine(apks: seq<Apk>, env: Setting) {
    forall i :: 0 <= i < |apks| ==> ApkFine(apks[i], env)
  }

  /** The blocks that are taken care of so far. */
  ghost function Claimed(ds: seq<Draft>, apks: seq<Apk>): RangeSet {
    Union(DraftTgts(ds)) + Union(ApkTgts(apks))
  }

  /** Transfers and archives agree with the images and do not meet. */
  ghost predicate Clean(ds: seq<Draft>, apks: seq<Apk>, env: Setting) {
    && DraftsFine(ds, env) && ApksFine(apks, env)
    && Apart(DraftTgts(ds)) && Apart(ApkTgts(apks)) && Union(DraftTgts(ds)) !! Union(ApkTgts(apks))
  }

  lemma AddDraft(ds: seq<Draft>, apks: seq<Apk>, env: Setting, d: Draft)
    requires Clean(ds, apks, env) && Fine(d, env.src, env.tgt, env.tool) && d.tgt !! Claimed(ds, apks)
    ensures Clean(ds + [d], apks, env) && Claimed(ds + [d], apks) == Claimed(ds, apks) + d.tgt
  {
    hide Union, Apart, Fine;
    assert DraftTgts(ds + [d]) == DraftTgts(ds) + [d.tgt];
    AppendPart(DraftTgts(ds), d.tgt);
  }

  lemma AddApk(ds: seq<Draft>, apks: seq<Apk>, env: Setting, a: Apk)
    requires Clean(ds, apks, env) && ApkFine(a, env) && a.tgt !! Claimed(ds, apks)
    ensures Clean(ds, apks + [a], env) && Claimed(ds, apks + [a]) == Claimed(ds, apks) + a.tgt
  {
    hide Union, Apart, Fine;
    assert ApkTgts(apks + [a]) == ApkTgts(apks) + [a.tgt];
    AppendPart(ApkTgts(apks), a.tgt);
  }

  /** A new transfer at the end of the list; its id is its position. */
  method Append(byId: seq<Transfer>, tgt: RangeSet, src: RangeSet, style: Style, zeroSource: bool, env: Setting)
    returns (byId': seq<Transfer>)
    requires Distinct(byId) && Fits(tgt, env.tgt) && Fits(src, env.src)
    ensures Distinct(byId') && |byId'| == |byId| + 1 && byId'[..|byId|] == byId && fresh(byId'[|byId|])
    ensures byId'[|byId|].id == |byId|
    ensures DraftsOf(byId') == DraftsOf(byId) + [Draft(tgt, src, style, Read(env.tgt, tgt), Read(env.src, src), None, zeroSource)]
  {
    hide Read;
    var x := new Transfer(|byId|, tgt, src, Read(env.tgt, tgt), Read(env.src, src), style, zeroSource);
    byId' := byId + [x];
    assert x !in byId;
    assert DraftOf(x) == Draft(tgt, src, style, Read(env.tgt, tgt), Read(env.src, src), None, zeroSource);
    assert DraftsOf(byId') == DraftsOf(byId) + [DraftOf(x)];
  }

  /** A new transfer for blocks nobody has claimed. */
  method NewTransfer(byId: seq<Transfer>, ghost apks: seq<Apk>, tgt: RangeSet, src: RangeSet, style: Style,
                     zeroSource: bool, env: Setting)
    returns (byId': seq<Transfer>)
    requires Distinct(byId) && Clean(DraftsOf(byId), apks, env)
    requires Fits(tgt, env.tgt) && Fits(src, env.src) && tgt != {} && tgt !! Claimed(DraftsOf(byId), apks)
    requires match style
             case Diff => src != {}
             case New => src == {}
             case Zero => AllZero(env.tgt, tgt) && AllZero(env.src, src)
             case _ => false
    ensures Grown(byId, old(DraftsOf(byId)), byId') && |byId'| == |byId| + 1 && fresh(byId'[|byId|])
    ensures DraftsOf(byId')[|byId|] == Draft(tgt, src, style, Read(env.tgt, tgt), Read(env.src, src), None, zeroSource)
    ensures Clean(DraftsOf(byId'), apks, env)
    ensures Claimed(DraftsOf(byId'), apks) == Claimed(DraftsOf(byId), apks) + tgt
  {
    hide Read, Clean, Claimed, DraftsOf, Fine;
    ghost var d := Draft(tgt, src, style, Read(env.tgt, tgt), Read(env.src, src), None, zeroSource);
    NewDraftFine(d, env);
    AddDraft(DraftsOf(byId), apks, env, d);
    byId' := Append(byId, tgt, src, style, zeroSource, env);
    assert DraftsOf(byId')[..|byId|] == old(DraftsOf(byId));
  }

  /** New transfers at the end; those before, with the drafts `ds`, are as they were. */
  ghost predicate Grown(byId: seq<Transfer>, ds: seq<Draft>, byId': seq<Transfer>)
    reads set x | x in byId'
  {
    && Distinct(byId') && |byId| <= |byId'| && byId'[..|byId|] == byId
    && |ds| == |byId| && DraftsOf(byId')[..|ds|] == ds
  }

  lemma GrownMore(byId: seq<Transfer>, ds: seq<Draft>, mid: seq<Transfer>, dsMid: seq<Draft>, byId': seq<Transfer>)
    requires |byId| == |ds| && |byId| <= |mid| == |dsMid| && mid[..|byId|] == byId && dsMid[..|ds|] == ds
    requires Grown(mid, dsMid, byId')
    ensures Grown(byId, ds, byId')
  {
    assert byId'[..|byId|] == byId'[..|mid|][..|byId|];
    assert DraftsOf(byId')[..|ds|] == DraftsOf(byId')[..|dsMid|][..|ds|];
  }

  lemma GrownParts(byId: seq<Transfer>, ds: seq<Draft>, byId': seq<Transfer>)
    requires Grown(byId, ds, byId')
    ensures Distinct(byId') && |byId| <= |byId'| == |DraftsOf(byId')| && byId'[..|byId|] == byId
    ensures |ds| == |byId| && DraftsOf(byId')[..|ds|] == ds
  {
  }

  lemma GrownNone(byId: seq<Transfer>)
    requires Distinct(byId)
    ensures Grown(byId, DraftsOf(byId), byId)
  {
  }

  lemma NewDraftFine(d: Draft, env: Setting)
    requires Fits(d.tgt, env.tgt) && Fits(d.src, env.src) && d.tgt != {} && d.info == None
    requires d.tgtHash == Read(env.tgt, d.tgt) && d.srcHash == Read(env.src, d.src)
    requires match d.style
             case Diff => d.src != {}
             case New => d.src == {}
             case Zero => AllZero(env.tgt, d.tgt) && AllZero(env.src, d.src)
             case _ => false
    ensures Fine(d, env.src, env.tgt, env.tool)
  {
  }

  lemma TakeFirst(whole: RangeSet, left: RangeSet, first: RangeSet, claimed: RangeSet, now: RangeSet)
    requires first <= left <= whole && now == claimed + (whole - left) && whole !! claimed
    ensures left - first <= whole && now + first == claimed + (whole - (left - first))
    ensures left !! now && first !! now
  {
  }

  lemma TakeRest(whole: RangeSet, left: RangeSet, claimed: RangeSet, now: RangeSet)
    requires left <= whole && now == claimed + (whole - left) && whole !! claimed
    ensures left !! now && now + left == claimed + whole
  {
  }

  lemma FirstOf(s: RangeSet, n: nat)
    requires 0 < n < |s|
    ensures First(s, n) <= s && First(s, n) != {} && s - First(s, n) != {} && |First(s, n)| == n
    ensures |s - First(s, n)| < |s|
  {
    var f := First(s, n);
    assert s == f + (s - f);
    assert |s - f| == |s| - n;
  }

  /** The `k`-th piece of `limit` blocks of each side. */
  ghost predicate Chunk(d: Draft, tgt: RangeSet, src: RangeSet, limit: nat, k: nat) {
    && d.style == Diff && d.info == None && !d.fromZero && |d.tgt| == |d.src| == limit
    && d.tgt == Slice(tgt, k * limit, k * limit + limit) && d.src == Slice(src, k * limit, k * limit + limit)
  }

  /** What is left when `k` pieces have been cut off. */
  ghost predicate Rest(d: Draft, tgt: RangeSet, src: RangeSet, limit: nat, k: nat) {
    && d.style == Diff && d.info == None && !d.fromZero && (|d.tgt| <= limit || |d.src| <= limit)
    && d.tgt == Slice(tgt, k * limit, |tgt|) && d.src == Slice(src, k * limit, |src|)
  }

  ghost predicate FullPieces(ds: seq<Draft>, from: nat, upto: nat, tgt: RangeSet, src: RangeSet, limit: nat)
    requires upto <= |ds|
  {
    forall i :: from <= i < upto ==> Chunk(ds[i], tgt, src, limit, i - from)
  }

  lemma FullNext(ds: seq<Draft>, ds': seq<Draft>, from: nat, tgt: RangeSet, src: RangeSet, limit: nat)
    requires from <= |ds| && |ds'| == |ds| + 1 && ds'[..|ds|] == ds && FullPieces(ds, from, |ds|, tgt, src, limit)
    ensures FullPieces(ds', from, |ds|, tgt, src, limit)
    ensures Chunk(ds'[|ds|], tgt, src, limit, |ds| - from) ==> FullPieces(ds', from, |ds'|, tgt, src, limit)
  {
    hide Chunk;
    forall i | 0 <= i < |ds| ensures ds'[i] == ds[i] {
      assert ds'[..|ds|][i] == ds'[i];
    }
  }

  /** One of the transfers a file is cut into: part of both sides, one of them no longer than the limit. */
  ghost predicate PartOf(d: Draft, tgt: RangeSet, src: RangeSet, limit: nat) {
    d.style == Diff && d.info == None && d.tgt <= tgt && d.src <= src && (|d.tgt| <= limit || |d.src| <= limit)
  }

  ghost predicate SourcesApart(ds: seq<Draft>, from: nat) {
    forall i, j :: from <= i < j < |ds| ==> ds[i].src !! ds[j].src
  }

  /** The pieces of a file are parts of it, and their sources do not meet. */
  lemma PiecesApart(ds: seq<Draft>, from: nat, tgt: RangeSet, src: RangeSet, limit: nat)
    requires from < |ds| && FullPieces(ds, from, |ds| - 1, tgt, src, limit) && Rest(ds[|ds| - 1], tgt, src, limit, |ds| - 1 - from)
    ensures SourcesApart(ds, from) && forall i :: from <= i < |ds| ==> PartOf(ds[i], tgt, src, limit) && !ds[i].fromZero
  {
    var n := |ds| - 1;
    forall i | from <= i < n ensures Chunk(ds[i], tgt, src, limit, i - from) {
    }
    forall i, j | from <= i < j <= n ensures ds[i].src !! ds[j].src {
      PlacesApart(i - from, j - from, limit);
      assert Chunk(ds[i], tgt, src, limit, i - from);
      if j < n {
        assert Chunk(ds[j], tgt, src, limit, j - from);
      }
    }
  }

  lemma PlacesApart(i: nat, j: nat, limit: nat)
    requires i < j
    ensures i * limit + limit <= j * limit
  {
    assert (j - i - 1) * limit >= 0;
    assert j * limit == i * limit + limit + (j - i - 1) * limit;
  }

  twostate predicate FreshFrom(new ts: seq<Transfer>, n: nat) {
    forall i :: n <= i < |ts| ==> fresh(ts[i])
  }

  twostate lemma FreshMore(new ts: seq<Transfer>, n: nat, new x: Transfer)
    requires FreshFrom(ts, n) && fresh(x)
    ensures FreshFrom(ts + [x], n)
  {
  }

  twostate lemma FreshNone(ts: seq<Transfer>)
    ensures FreshFrom(ts, |ts|)
  {
  }

  /** One more piece of a file. */
  method AddPiece(ghost start: seq<Transfer>, ghost drafts: seq<Draft>, byId: seq<Transfer>, ghost apks: seq<Apk>,
                  tgt: RangeSet, src: RangeSet, ghost tgtWhole: RangeSet, ghost srcWhole: RangeSet, ghost limit: nat, env: Setting)
    returns (byId': seq<Transfer>)
    requires Grown(start, drafts, byId) && |start| <= |byId| == |DraftsOf(byId)| && Clean(DraftsOf(byId), apks, env)
    requires FullPieces(DraftsOf(byId), |start|, |byId|, tgtWhole, srcWhole, limit)
    requires Fits(tgt, env.tgt) && Fits(src, env.src) && tgt != {} && src != {} && tgt !! Claimed(DraftsOf(byId), apks)
    ensures Grown(start, drafts, byId')
    ensures |byId'| == |DraftsOf(byId')| == |byId| + 1 && byId' == byId + [byId'[|byId|]] && fresh(byId'[|byId|])
    ensures var d := Draft(tgt, src, Diff, Read(env.tgt, tgt), Read(env.src, src), None, false);
            && DraftsOf(byId')[|byId|] == d
            && FullPieces(DraftsOf(byId'), |start|, |byId|, tgtWhole, srcWhole, limit)
            && (Chunk(d, tgtWhole, srcWhole, limit, |byId| - |start|) ==>
                  FullPieces(DraftsOf(byId'), |start|, |byId'|, tgtWhole, srcWhole, limit))
    ensures Clean(DraftsOf(byId'), apks, env)
    ensures Claimed(DraftsOf(byId'), apks) == Claimed(DraftsOf(byId), apks) + tgt
  {
    hide Read, Clean, Claimed, DraftsOf, FullPieces, Grown, Chunk;
    ghost var ds := DraftsOf(byId);
    GrownParts(start, drafts, byId);
    byId' := NewTransfer(byId, apks, tgt, src, Diff, false, env);
    GrownParts(byId, ds, byId');
    GrownMore(start, drafts, byId, ds, byId');
    FullNext(ds, DraftsOf(byId'), |start|, tgtWhole, srcWhole, limit);
  }

  /** The state of the cutting: the full pieces so far, and what is left of both sides from position `at` on. */
  ghost predicate Cutting(start: seq<Transfer>, drafts: seq<Draft>, byId: seq<Transfer>, apks: seq<Apk>, tgt: RangeSet, src: RangeSet,
                          limit: nat, tgtLeft: RangeSet, srcLeft: RangeSet, claimed: RangeSet, env: Setting)
    reads set x | x in byId
  {
    && |start| <= |byId| && Grown(start, drafts, byId) && Clean(DraftsOf(byId), apks, env)
    && Claimed(DraftsOf(byId), apks) == claimed + (tgt - tgtLeft) && tgt !! claimed
    && FullPieces(DraftsOf(byId), |start|, |byId|, tgt, src, limit)
    && CutAt(tgt, src, tgtLeft, srcLeft, (|byId| - |start|) * limit) && Fits(tgt, env.tgt) && Fits(src, env.src)
  }

  ghost predicate CutAt(tgt: RangeSet, src: RangeSet, tgtLeft: RangeSet, srcLeft: RangeSet, at: int) {
    && 0 <= at < |tgt| && at < |src| && tgtLeft == Slice(tgt, at, |tgt|) && srcLeft == Slice(src, at, |src|)
    && tgtLeft <= tgt && srcLeft <= src && tgtLeft != {} && srcLeft != {}
  }

  /** One full piece. */
  method CutFirst(ghost start: seq<Transfer>, ghost drafts: seq<Draft>, byId: seq<Transfer>, ghost apks: seq<Apk>,
                  ghost tgt: RangeSet, ghost src: RangeSet, limit: nat, tgtLeft: RangeSet, srcLeft: RangeSet,
                  ghost claimed: RangeSet, env: Setting)
    returns (byId': seq<Transfer>, tgtLeft': RangeSet, srcLeft': RangeSet)
    requires Cutting(start, drafts, byId, apks, tgt, src, limit, tgtLeft, srcLeft, claimed, env)
    requires 0 < limit < |tgtLeft| && limit < |srcLeft|
    ensures Cutting(start, drafts, byId', apks, tgt, src, limit, tgtLeft', srcLeft', claimed, env)
    ensures |byId'| == |byId| + 1 && byId' == byId + [byId'[|byId|]] && fresh(byId'[|byId|]) && |tgtLeft'| < |tgtLeft|
  {
    hide Read, Clean, Claimed, DraftsOf, FullPieces, Grown, Before, First, Slice, Chunk, Rest;
    ghost var k := |byId| - |start|;
    GrownParts(start, drafts, byId);
    var tgtFirst, srcFirst := First(tgtLeft, limit), First(srcLeft, limit);
    FirstOf(tgtLeft, limit);
    FirstOf(srcLeft, limit);
    NextChunk(tgt, k * limit, limit);
    NextChunk(src, k * limit, limit);
    TakeFirst(tgt, tgtLeft, tgtFirst, claimed, Claimed(DraftsOf(byId), apks));
    IsChunk(tgt, src, tgtFirst, srcFirst, limit, k, k * limit, env);
    byId' := AddPiece(start, drafts, byId, apks, tgtFirst, srcFirst, tgt, src, limit, env);
    tgtLeft' := tgtLeft - tgtFirst;
    srcLeft' := srcLeft - srcFirst;
  }

  /** What is left over. */
  method CutRest(ghost start: seq<Transfer>, ghost drafts: seq<Draft>, byId: seq<Transfer>, ghost apks: seq<Apk>,
                 ghost tgt: RangeSet, ghost src: RangeSet, ghost limit: nat, tgtLeft: RangeSet, srcLeft: RangeSet,
                 ghost claimed: RangeSet, env: Setting)
    returns (byId': seq<Transfer>)
    requires Cutting(start, drafts, byId, apks, tgt, src, limit, tgtLeft, srcLeft, claimed, env)
    requires |tgtLeft| <= limit || |srcLeft| <= limit
    ensures Grown(start, drafts, byId') && Clean(DraftsOf(byId'), apks, env)
    ensures |byId'| == |byId| + 1 && byId' == byId + [byId'[|byId|]] && fresh(byId'[|byId|]) && |start| <= |byId|
    ensures FullPieces(DraftsOf(byId'), |start|, |byId|, tgt, src, limit)
    ensures Rest(DraftsOf(byId')[|byId|], tgt, src, limit, |byId| - |start|)
    ensures Claimed(DraftsOf(byId'), apks) == claimed + tgt
  {
    hide Read, Clean, Claimed, DraftsOf, FullPieces, Grown, Before, First, Slice, Chunk, Rest;
    ghost var k := |byId| - |start|;
    GrownParts(start, drafts, byId);
    TakeRest(tgt, tgtLeft, claimed, Claimed(DraftsOf(byId), apks));
    IsRest(tgt, src, tgtLeft, srcLeft, limit, k, k * limit, env);
    byId' := AddPiece(start, drafts, byId, apks, tgtLeft, srcLeft, tgt, src, limit, env);
  }

  /** Cuts one file into pieces of `limit` blocks until the source or the target is no longer than that.
      What is left over is never empty on one side only. */
  method AddSplitTransfersWithFixedSizeChunks(byId: seq<Transfer>, ghost apks: seq<Apk>, tgt: RangeSet, src: RangeSet,
                                              limit: nat, env: Setting)
    returns (byId': seq<Transfer>)
    requires Distinct(byId) && Clean(DraftsOf(byId), apks, env) && limit > 0
    requires Fits(tgt, env.tgt) && Fits(src, env.src) && tgt != {} && src != {} && tgt !! Claimed(DraftsOf(byId), apks)
    ensures Grown(byId, old(DraftsOf(byId)), byId') && |byId| < |byId'|
    ensures FreshFrom(byId', |byId|)
    ensures FullPieces(DraftsOf(byId'), |byId|, |byId'| - 1, tgt, src, limit)
    ensures Rest(DraftsOf(byId')[|byId'| - 1], tgt, src, limit, |byId'| - 1 - |byId|)
    ensures Clean(DraftsOf(byId'), apks, env)
    ensures Claimed(DraftsOf(byId'), apks) == Claimed(DraftsOf(byId), apks) + tgt
  {
    hide Read, Clean, Claimed, DraftsOf, FullPieces, Grown, FreshFrom, Chunk, Rest, Cutting;
    byId' := byId;
    var tgtLeft, srcLeft := tgt, src;
    ghost var drafts, claimed := DraftsOf(byId), Claimed(DraftsOf(byId), apks);
    FreshNone(byId);
    CutStart(byId, apks, tgt, src, limit, env);
    while |tgtLeft| > limit && |srcLeft| > limit
      invariant Cutting(byId, drafts, byId', apks, tgt, src, limit, tgtLeft, srcLeft, claimed, env)
      invariant |byId| <= |byId'| && FreshFrom(byId', |byId|)
      decreases |tgtLeft|
    {
      ghost var mid := byId';
      byId', tgtLeft, srcLeft := CutFirst(byId, drafts, byId', apks, tgt, src, limit, tgtLeft, srcLeft, claimed, env);
      FreshMore(mid, |byId|, byId'[|mid|]);
    }
    CutLeft(byId, drafts, byId', apks, tgt, src, limit, tgtLeft, srcLeft, claimed, env);
    if |tgtLeft| != 0 || |srcLeft| != 0 {
      assert |tgtLeft| != 0 && |srcLeft| != 0;
      ghost var mid := byId';
      byId' := CutRest(byId, drafts, byId', apks, tgt, src, limit, tgtLeft, srcLeft, claimed, env);
      FreshMore(mid, |byId|, byId'[|mid|]);
    }
  }

  lemma CutStart(byId: seq<Transfer>, apks: seq<Apk>, tgt: RangeSet, src: RangeSet, limit: nat, env: Setting)
    requires Distinct(byId) && Clean(DraftsOf(byId), apks, env)
    requires Fits(tgt, env.tgt) && Fits(src, env.src) && tgt != {} && src != {} && tgt !! Claimed(DraftsOf(byId), apks)
    ensures Cutting(byId, DraftsOf(byId), byId, apks, tgt, src, limit, tgt, src, Claimed(DraftsOf(byId), apks), env)
  {
    hide Clean, Claimed, DraftsOf, Grown, Slice, Chunk;
    GrownNone(byId);
    ChunkStart(tgt, src, Claimed(DraftsOf(byId), apks), DraftsOf(byId), limit);
  }

  lemma CutLeft(start: seq<Transfer>, drafts: seq<Draft>, byId: seq<Transfer>, apks: seq<Apk>, tgt: RangeSet, src: RangeSet,
                limit: nat, tgtLeft: RangeSet, srcLeft: RangeSet, claimed: RangeSet, env: Setting)
    requires Cutting(start, drafts, byId, apks, tgt, src, limit, tgtLeft, srcLeft, claimed, env)
    ensures |tgtLeft| != 0 && |srcLeft| != 0
  {
  }

  lemma NextChunk(s: RangeSet, at: nat, limit: nat)
    requires at < |s| && |Slice(s, at, |s|)| > limit
    ensures First(Slice(s, at, |s|), limit) == Slice(s, at, at + limit) && at + limit < |s|
    ensures Slice(s, at, |s|) - First(Slice(s, at, |s|), limit) == Slice(s, at + limit, |s|)
  {
    SliceSize(s, at);
    CutNext(s, at, limit);
  }

  lemma IsChunk(tgt: RangeSet, src: RangeSet, t: RangeSet, s: RangeSet, limit: nat, k: nat, at: nat, env: Setting)
    requires at == k * limit && t == Slice(tgt, at, at + limit) && s == Slice(src, at, at + limit) && |t| == |s| == limit
    requires Fits(t, env.tgt) && Fits(s, env.src)
    ensures Chunk(Draft(t, s, Diff, Read(env.tgt, t), Read(env.src, s), None, false), tgt, src, limit, k)
    ensures (k + 1) * limit == at + limit
  {
  }

  lemma IsRest(tgt: RangeSet, src: RangeSet, t: RangeSet, s: RangeSet, limit: nat, k: nat, at: nat, env: Setting)
    requires at == k * limit && t == Slice(tgt, at, |tgt|) && s == Slice(src, at, |src|) && (|t| <= limit || |s| <= limit)
    requires Fits(t, env.tgt) && Fits(s, env.src)
    ensures Rest(Draft(t, s, Diff, Read(env.tgt, t), Read(env.src, s), None, false), tgt, src, limit, k)
  {
  }

  lemma ChunkStart(tgt: RangeSet, src: RangeSet, claimed: RangeSet, ds: seq<Draft>, limit: nat)
    ensures claimed == claimed + (tgt - tgt)
    ensures Slice(tgt, 0, |tgt|) == tgt && Slice(src, 0, |src|) == src
    ensures FullPieces(ds, |ds|, |ds|, tgt, src, limit)
  {
    SliceWhole(tgt);
    SliceWhole(src);
  }

  // Files whose blocks have mostly stayed the same.

  ghost predicate SameAt(env: Setting, tgt: RangeSet, src: RangeSet, k: nat)
    requires k < |tgt| == |src| && Fits(tgt, env.tgt) && Fits(src, env.src)
  {
    SortedElement(tgt, k);
    SortedElement(src, k);
    env.tgt[Sorted(tgt)[k]] == env.src[Sorted(src)[k]]
  }

  /** How many of the first `n` pairs of blocks differ. */
  ghost function Differing(env: Setting, tgt: RangeSet, src: RangeSet, n: nat): nat
    requires n <= |tgt| == |src| && Fits(tgt, env.tgt) && Fits(src, env.src)
  {
    if n == 0 then 0 else Differing(env, tgt, src, n - 1) + (if SameAt(env, tgt, src, n - 1) then 0 else 1)
  }

  /** The target and the source blocks of the first `n` pairs that are equal. */
  ghost function Equal(env: Setting, tgt: RangeSet, src: RangeSet, n: nat): (RangeSet, RangeSet)
    requires n <= |tgt| == |src| && Fits(tgt, env.tgt) && Fits(src, env.src)
  {
    if n == 0 then ({}, {})
    else
      var (t, s) := Equal(env, tgt, src, n - 1);
      if SameAt(env, tgt, src, n - 1) then (t + {Sorted(tgt)[n - 1]}, s + {Sorted(src)[n - 1]}) else (t, s)
  }

  lemma {:induction false} DifferingGrows(env: Setting, tgt: RangeSet, src: RangeSet, k: nat, n: nat)
    requires k <= n <= |tgt| == |src| && Fits(tgt, env.tgt) && Fits(src, env.src)
    ensures Differing(env, tgt, src, k) <= Differing(env, tgt, src, n)
  {
    if k < n {
      DifferingGrows(env, tgt, src, k, n - 1);
    }
  }

  lemma ReadOne(img: Image, b: nat)
    requires b < |img|
    ensures Fits({b}, img) && Read(img, {b}) == [img[b]]
  {
    SortedElement({b}, 0);
  }

  /** Everything in `part` is one of the first `n` blocks of `whole`. */
  ghost predicate Early(part: RangeSet, whole: RangeSet, n: nat)
    requires n <= |whole|
  {
    part <= whole && forall x :: x in part ==> Rank(whole, x) < n
  }

  lemma EarlyNext(part: RangeSet, whole: RangeSet, n: nat)
    requires n < |whole| && Early(part, whole, n)
    ensures var x := Sorted(whole)[n];
            && x in whole && Before(part, {x}) && x !in part
            && Early(part, whole, n + 1) && Early(part + {x}, whole, n + 1)
  {
    var x := Sorted(whole)[n];
    SortedElement(whole, n);
    SortedRank(whole, n);
    forall y | y in part ensures y < x {
      if x < y { RankMonotone(whole, x, y); }
    }
  }

  /** The equal blocks have the same content in both images, in order. */
  lemma {:induction false} EqualRead(env: Setting, tgt: RangeSet, src: RangeSet, n: nat)
    requires n <= |tgt| == |src| && Fits(tgt, env.tgt) && Fits(src, env.src)
    ensures var (t, s) := Equal(env, tgt, src, n);
            && Early(t, tgt, n) && Early(s, src, n)
            && |t| == |s| && |t| + Differing(env, tgt, src, n) == n
            && Read(env.tgt, t) == Read(env.src, s)
  {
    hide Read, Early, Before;
    if n == 0 {
      EarlyNone(tgt);
      EarlyNone(src);
      assert Read(env.tgt, {}) == [] == Read(env.src, {});
    } else {
      EqualRead(env, tgt, src, n - 1);
      var (t, s) := Equal(env, tgt, src, n - 1);
      EarlyNext(t, tgt, n - 1);
      EarlyNext(s, src, n - 1);
      if SameAt(env, tgt, src, n - 1) {
        EarlyFits(t, tgt, n - 1, env.tgt);
        EarlyFits(s, src, n - 1, env.src);
        var x, y := Sorted(tgt)[n - 1], Sorted(src)[n - 1];
        ReadOne(env.tgt, x);
        ReadOne(env.src, y);
        ReadConcat(env.tgt, t, {x});
        ReadConcat(env.src, s, {y});
      }
    }
  }

  lemma EarlyNone(whole: RangeSet)
    ensures Early({}, whole, 0)
  {
  }

  lemma EarlyFits(part: RangeSet, whole: RangeSet, n: nat, img: Image)
    requires n <= |whole| && Early(part, whole, n) && Fits(whole, img)
    ensures Fits(part, img)
  {
  }

  /** Compares two files of the same size block by block. With more than half of the blocks equal, these are
      returned; otherwise there is nothing to be gained. */
  method CropEqual(tgt: RangeSet, src: RangeSet, env: Setting)
    returns (cropped: bool, tgtSkipped: RangeSet, srcSkipped: RangeSet)
    requires |tgt| == |src| && Fits(tgt, env.tgt) && Fits(src, env.src)
    ensures cropped <==> 2 * Differing(env, tgt, src, |tgt|) < |tgt|
    ensures cropped ==> (tgtSkipped, srcSkipped) == Equal(env, tgt, src, |tgt|)
    ensures cropped ==> tgtSkipped <= tgt && srcSkipped <= src && |tgtSkipped| == |srcSkipped| && tgtSkipped != {}
    ensures cropped ==> Read(env.tgt, tgtSkipped) == Read(env.src, srcSkipped)
  {
    hide Read, Early;
    tgtSkipped, srcSkipped := {}, {};
    var tgtBlocks, srcBlocks := Sorted(tgt), Sorted(src);
    var tgtChanged := 0;
    for k := 0 to |tgt|
      invariant tgtChanged == Differing(env, tgt, src, k)
      invariant (tgtSkipped, srcSkipped) == Equal(env, tgt, src, k)
    {
      SortedElement(tgt, k);
      SortedElement(src, k);
      DifferingGrows(env, tgt, src, k + 1, |tgt|);
      if env.src[srcBlocks[k]] == env.tgt[tgtBlocks[k]] {
        tgtSkipped := tgtSkipped + {tgtBlocks[k]};
        srcSkipped := srcSkipped + {srcBlocks[k]};
      } else {
        tgtChanged := tgtChanged + 1;
      }
      if 2 * tgtChanged > |tgt| {
        return false, {}, {};
      }
    }
    EqualRead(env, tgt, src, |tgt|);
    EarlyParts(tgtSkipped, tgt, |tgt|);
    EarlyParts(srcSkipped, src, |src|);
    assert tgtChanged + |tgtSkipped| == |tgt|;
    cropped := 2 * tgtChanged < |tgt|;
  }

  lemma EarlyParts(part: RangeSet, whole: RangeSet, n: nat)
    requires n <= |whole| && Early(part, whole, n)
    ensures part <= whole
  {
  }
}
