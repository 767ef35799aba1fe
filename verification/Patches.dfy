/** Turning diffs into moves and patches, and filling the new-data and patch files. */
module Patches {
  import opened Ranges
  import opened Transfers
  import opened FeedbackArc
  import opened Plans
  import opened StashLimit
  import opened Device
  import opened Writer
  import opened TransferList

  /** bsdiff and imgdiff, and the updater's side of them. */
  datatype Tool = Tool(compute: (bool, seq<Block>, seq<Block>) -> Patch, apply: (bool, Patch, seq<Block>) -> seq<Block>)

  /** A computed patch turns its source into its target. */
  ghost predicate Sound(tool: Tool) {
    forall imgdiff, s, t :: tool.apply(imgdiff, tool.compute(imgdiff, s, t), s) == t
  }

  /** What a patch that is already there has to do. */
  ghost predicate PatchWorks(tool: Tool, info: PatchInfo, s: seq<Block>, t: seq<Block>) {
    tool.apply(info.imgdiff, info.content, s) == t
  }

  /** A transfer before its patch is computed, as a value. */
  datatype Draft = Draft(tgt: RangeSet, src: RangeSet, style: Style, tgtHash: Hash, srcHash: Hash, info: Option<PatchInfo>,
                         fromZero: bool)

  ghost function DraftOf(x: Transfer): Draft
    reads x
  {
    Draft(x.tgtRanges, x.srcRanges, x.style, x.tgtHash, x.srcHash, x.patchInfo, x.zeroSource)
  }

  /** The draft agrees with the two images. */
  ghost predicate Fine(x: Draft, src: Image, tgt: Image, tool: Tool) {
    && x.tgt != {} && Fits(x.tgt, tgt) && Fits(x.src, src) && x.tgtHash == Read(tgt, x.tgt)
    && match x.style {
         case Diff => x.src != {} && x.srcHash == Read(src, x.src)
                      && (x.info.Some? ==> PatchWorks(tool, x.info.value, x.srcHash, x.tgtHash))
         case New => x.src == {} && x.info == None
         case Zero => AllZero(tgt, x.tgt) && AllZero(src, x.src)
         case _ => false
       }
  }

  ghost predicate AllFine(ts: seq<Transfer>, src: Image, tgt: Image, tool: Tool)
    reads set x | x in ts
  {
    forall i :: 0 <= i < |ts| ==> Fine(DraftOf(ts[i]), src, tgt, tool)
  }

  /** Diffs become moves if nothing differs, and patches otherwise; a patch that is there decides its own kind. */
  ghost function Begun(x: Draft, canUseImgdiff: bool): Draft {
    if x.style != Diff then x
    else if x.srcHash == x.tgtHash then x.(style := Move, info := None)
    else x.(style := if Kind(x, canUseImgdiff) then ImgDiff else BsDiff)
  }

  ghost predicate Kind(x: Draft, canUseImgdiff: bool) {
    if x.info.Some? then x.info.value.imgdiff else canUseImgdiff
  }

  ghost predicate NeedsPatch(x: Draft) {
    x.style == Diff && x.srcHash != x.tgtHash
  }

  /** Patches to be written: the command and the kind of patch. */
  type Queue = seq<(nat, bool)>

  ghost function QueueOf(ds: seq<Draft>, canUseImgdiff: nat -> bool, n: nat): Queue
    requires n <= |ds|
  {
    if n == 0 then []
    else
      QueueOf(ds, canUseImgdiff, n - 1)
      + (if NeedsPatch(ds[n - 1]) then [(n - 1, Kind(ds[n - 1], canUseImgdiff(n - 1)))] else [])
  }

  /** In order of the commands, each with the kind of its patch. */
  ghost predicate Ordered(q: Queue, ds: seq<Draft>, use: nat -> bool, n: nat)
    requires n <= |ds|
  {
    && (forall a :: 0 <= a < |q| ==> q[a].0 < n && NeedsPatch(ds[q[a].0]) && q[a].1 == Kind(ds[q[a].0], use(q[a].0)))
    && (forall a, b :: 0 <= a < b < |q| ==> q[a].0 < q[b].0)
  }

  lemma OrderedNext(q: Queue, ds: seq<Draft>, use: nat -> bool, n: nat)
    requires n < |ds| && Ordered(q, ds, use, n)
    ensures Ordered(q, ds, use, n + 1)
    ensures NeedsPatch(ds[n]) ==> Ordered(q + [(n, Kind(ds[n], use(n)))], ds, use, n + 1)
  {
  }

  lemma {:induction false} QueueOrdered(ds: seq<Draft>, use: nat -> bool, n: nat)
    requires n <= |ds|
    ensures Ordered(QueueOf(ds, use, n), ds, use, n)
  {
    hide Ordered, NeedsPatch, Kind;
    if n > 0 {
      QueueOrdered(ds, use, n - 1);
      OrderedNext(QueueOf(ds, use, n - 1), ds, use, n - 1);
      assert QueueOf(ds, use, n - 1) + [] == QueueOf(ds, use, n - 1);
    } else {
      OrderedNone(ds, use);
    }
  }

  lemma OrderedNone(ds: seq<Draft>, use: nat -> bool)
    ensures Ordered([], ds, use, 0)
  {
  }

  lemma {:induction false} QueueHas(ds: seq<Draft>, use: nat -> bool, n: nat, k: nat) returns (a: nat)
    requires k < n <= |ds| && NeedsPatch(ds[k])
    ensures a < |QueueOf(ds, use, n)| && QueueOf(ds, use, n)[a] == (k, Kind(ds[k], use(k)))
  {
    if k == n - 1 {
      a := |QueueOf(ds, use, n - 1)|;
    } else {
      a := QueueHas(ds, use, n - 1, k);
    }
  }

  ghost function DraftsOf(ts: seq<Transfer>): (ds: seq<Draft>)
    reads set x | x in ts
    ensures |ds| == |ts| && forall i :: 0 <= i < |ts| ==> ds[i] == DraftOf(ts[i])
  {
    seq(|ts|, i requires 0 <= i < |ts| reads ts => DraftOf(ts[i]))
  }

  /** One transfer of the first pass: its final style, its new data, and whether a patch is to be made. */
  method ClassifyOne(xf: Transfer, i: nat, tgt: Image, canUseImgdiff: bool, newData: seq<Block>, queue: Queue)
    returns (newData': seq<Block>, queue': Queue)
    requires Fits(xf.tgtRanges, tgt) && (xf.style == Diff || xf.style == New || xf.style == Zero)
    modifies xf`style, xf`patchInfo
    ensures DraftOf(xf) == Begun(old(DraftOf(xf)), canUseImgdiff)
    ensures newData' == newData + (if old(xf.style) == New then Read(tgt, xf.tgtRanges) else [])
    ensures queue' == queue + (if NeedsPatch(old(DraftOf(xf))) then [(i, Kind(old(DraftOf(xf)), canUseImgdiff))] else [])
  {
    newData', queue' := newData, queue;
    if xf.style == Zero {
    } else if xf.style == New {
      newData' := newData + Read(tgt, xf.tgtRanges);
    } else {
      assert xf.style == Diff;
      if xf.srcHash == xf.tgtHash {
        xf.style := Move;
        xf.patchInfo := None;
      } else {
        var imgdiff := if xf.patchInfo.Some? then xf.patchInfo.value.imgdiff else canUseImgdiff;
        xf.style := if imgdiff then ImgDiff else BsDiff;
        queue' := queue + [(i, imgdiff)];
      }
    }
  }

  /** The first pass: final styles, the new-data file, and which patches are to be made. */
  method Classify(ts: seq<Transfer>, tgt: Image, canUseImgdiff: nat -> bool, ghost ds: seq<Draft>)
    returns (newData: seq<Block>, queue: Queue)
    requires Distinct(ts) && ds == DraftsOf(ts)
    requires forall k :: 0 <= k < |ds| ==> Fits(ds[k].tgt, tgt) && (ds[k].style.Diff? || ds[k].style.New? || ds[k].style.Zero?)
    modifies Members(ts)`style, Members(ts)`patchInfo
    ensures forall k :: 0 <= k < |ts| ==> DraftOf(ts[k]) == Begun(ds[k], canUseImgdiff(k))
    ensures newData == NewBlocks(ds, tgt, |ts|)
    ensures queue == QueueOf(ds, canUseImgdiff, |ts|)
  {
    hide Begun, Read, NeedsPatch, Kind, Fits, Distinct, NewBlocks, QueueOf;
    newData, queue := [], [];
    NothingYet(ds, tgt, canUseImgdiff);
    for i := 0 to |ts|
      invariant forall k :: 0 <= k < i ==> DraftOf(ts[k]) == Begun(ds[k], canUseImgdiff(k))
      invariant forall k :: i <= k < |ts| ==> DraftOf(ts[k]) == ds[k]
      invariant newData == NewBlocks(ds, tgt, i)
      invariant queue == QueueOf(ds, canUseImgdiff, i)
    {
      OneMore(ds, tgt, canUseImgdiff, i);
      assert DraftOf(ts[i]) == ds[i];
      forall k | 0 <= k < |ts| && k != i ensures ts[k] != ts[i] {
        Others(ts, i, k);
      }
      newData, queue := ClassifyOne(ts[i], i, tgt, canUseImgdiff(i), newData, queue);
    }
  }

  lemma NothingYet(ds: seq<Draft>, tgt: Image, canUseImgdiff: nat -> bool)
    requires forall k :: 0 <= k < |ds| ==> Fits(ds[k].tgt, tgt)
    ensures NewBlocks(ds, tgt, 0) == [] && QueueOf(ds, canUseImgdiff, 0) == []
  {
  }

  lemma OneMore(ds: seq<Draft>, tgt: Image, canUseImgdiff: nat -> bool, i: nat)
    requires i < |ds| && forall k :: 0 <= k < |ds| ==> Fits(ds[k].tgt, tgt)
    ensures NewBlocks(ds, tgt, i + 1) == NewBlocks(ds, tgt, i) + (if ds[i].style == New then Read(tgt, ds[i].tgt) else [])
    ensures QueueOf(ds, canUseImgdiff, i + 1) ==
            QueueOf(ds, canUseImgdiff, i) + (if NeedsPatch(ds[i]) then [(i, Kind(ds[i], canUseImgdiff(i)))] else [])
  {
  }

  lemma Others(ts: seq<Transfer>, i: nat, k: nat)
    requires Distinct(ts) && i < |ts| && k < |ts| && k != i
    ensures ts[k] != ts[i]
  {
  }

  /** The target blocks of the new commands, in order. */
  ghost function NewBlocks(ds: seq<Draft>, tgt: Image, n: nat): seq<Block>
    requires n <= |ds| && forall k :: 0 <= k < |ds| ==> Fits(ds[k].tgt, tgt)
  {
    if n == 0 then []
    else NewBlocks(ds, tgt, n - 1) + (if ds[n - 1].style == New then Read(tgt, ds[n - 1].tgt) else [])
  }

  /** The patch of the transfer is in the patch file, where the transfer says. */
  ghost predicate Placed(tool: Tool, patchData: Patch, x: Draft, start: nat, len: nat) {
    && start + len <= |patchData|
    && tool.apply(x.style == ImgDiff, patchData[start..start + len], x.srcHash) == x.tgtHash
  }

  lemma PlacedMore(tool: Tool, patchData: Patch, more: Patch, x: Draft, start: nat, len: nat)
    requires Placed(tool, patchData, x, start, len)
    ensures Placed(tool, patchData + more, x, start, len)
  {
    assert (patchData + more)[start..start + len] == patchData[start..start + len];
  }

  /** The patch of one transfer: the one it has, or a new one. */
  method MakePatch(xf: Transfer, imgdiff: bool, src: Image, tgt: Image, tool: Tool, ghost d: Draft, ghost use: bool)
    returns (info: PatchInfo)
    requires Sound(tool) && Fine(d, src, tgt, tool) && NeedsPatch(d) && DraftOf(xf) == Begun(d, use) && imgdiff == Kind(d, use)
    ensures tool.apply(xf.style == ImgDiff, info.content, xf.srcHash) == xf.tgtHash
  {
    if xf.patchInfo.Some? {
      info := xf.patchInfo.value;
    } else {
      info := PatchInfo(imgdiff, tool.compute(imgdiff, Read(src, xf.srcRanges), Read(tgt, xf.tgtRanges)));
    }
  }

  /** The second pass: the patch file. */
  method WritePatches(ts: seq<Transfer>, queue: Queue, src: Image, tgt: Image, tool: Tool, ghost ds: seq<Draft>,
                      ghost use: nat -> bool)
    returns (patchData: Patch)
    requires Distinct(ts) && |ds| == |ts| && Sound(tool) && queue == QueueOf(ds, use, |ts|)
    requires forall k :: 0 <= k < |ts| ==> DraftOf(ts[k]) == Begun(ds[k], use(k)) && Fine(ds[k], src, tgt, tool)
    modifies Members(ts)`patchStart, Members(ts)`patchLen
    ensures forall k :: 0 <= k < |ts| && NeedsPatch(ds[k]) ==>
              Placed(tool, patchData, DraftOf(ts[k]), ts[k].patchStart, ts[k].patchLen)
  {
    hide Begun, Read, NeedsPatch, Kind, Fine, Placed, QueueOf, Sound;
    QueueOrdered(ds, use, |ts|);
    patchData := [];
    for q := 0 to |queue|
      invariant forall r :: 0 <= r < q ==>
                  Placed(tool, patchData, DraftOf(ts[queue[r].0]), ts[queue[r].0].patchStart, ts[queue[r].0].patchLen)
    {
      var (index, imgdiff) := queue[q];
      var xf := ts[index];
      var info := MakePatch(xf, imgdiff, src, tgt, tool, ds[index], use(index));
      forall r | 0 <= r < q
        ensures ts[queue[r].0] != xf
        ensures Placed(tool, patchData + info.content, DraftOf(ts[queue[r].0]), ts[queue[r].0].patchStart, ts[queue[r].0].patchLen)
      {
        Others(ts, index, queue[r].0);
        PlacedMore(tool, patchData, info.content, DraftOf(ts[queue[r].0]), ts[queue[r].0].patchStart, ts[queue[r].0].patchLen);
      }
      PlacedLast(tool, patchData, info.content, DraftOf(xf));
      xf.patchLen := |info.content|;
      xf.patchStart := |patchData|;
      patchData := patchData + info.content;
    }
    forall k | 0 <= k < |ts| && NeedsPatch(ds[k])
      ensures Placed(tool, patchData, DraftOf(ts[k]), ts[k].patchStart, ts[k].patchLen)
    {
      var a := QueueHas(ds, use, |ts|, k);
    }
  }

  lemma PlacedLast(tool: Tool, patchData: Patch, content: Patch, x: Draft)
    requires tool.apply(x.style == ImgDiff, content, x.srcHash) == x.tgtHash
    ensures Placed(tool, patchData + content, x, |patchData|, |content|)
  {
    assert (patchData + content)[|patchData|..|patchData| + |content|] == content;
  }

  /** The plan is as before, except that every diff has become a move or a patch. */
  ghost predicate Finished(p: Plan, p': Plan) {
    && |p'| == |p|
    && forall k :: 0 <= k < |p| ==>
         && p'[k] == p[k].(style := p'[k].style)
         && (if p[k].style == Diff then p'[k].style in {Move, BsDiff, ImgDiff} else p'[k].style == p[k].style)
  }

  lemma {:induction false} NewBlocksPlan(ds: seq<Draft>, p: Plan, tgt: Image, n: nat)
    requires n <= |p| == |ds| && TargetsFit(p, tgt) && forall k :: 0 <= k < |ds| ==> Fits(ds[k].tgt, tgt)
    requires forall k :: 0 <= k < |p| ==> p[k].tgt == ds[k].tgt && (p[k].style == New <==> ds[k].style == New)
    ensures NewDataBefore(p, tgt, n) == NewBlocks(ds, tgt, n)
  {
    if n > 0 {
      NewBlocksPlan(ds, p, tgt, n - 1);
    }
  }

  lemma ReadyNow(x: Transfer, d: Draft, use: bool, src: Image, tgt: Image, tool: Tool, pkg: Package)
    requires Fine(d, src, tgt, tool) && DraftOf(x) == Begun(d, use) && pkg.apply == tool.apply
    requires NeedsPatch(d) ==> Placed(tool, pkg.patchData, DraftOf(x), x.patchStart, x.patchLen)
    ensures Ready(pkg, src, tgt, JobOf(x))
  {
  }

  /** Every transfer is ready to be written: moves copy equal content, and each patch in the patch file turns
      the source of its transfer into its target. */
  method ComputePatches(ts: seq<Transfer>, src: Image, tgt: Image, tool: Tool, canUseImgdiff: nat -> bool,
                        ghost junk: nat -> Block)
    returns (newData: seq<Block>, patchData: Patch)
    requires Distinct(ts) && Sound(tool) && AllFine(ts, src, tgt, tool)
    modifies Members(ts)`style, Members(ts)`patchInfo, Members(ts)`patchStart, Members(ts)`patchLen
    ensures Finished(old(Snapshot(ts)), Snapshot(ts)) && TargetsFit(Snapshot(ts), tgt)
    ensures newData == NewDataBefore(Snapshot(ts), tgt, |ts|)
    ensures forall k :: 0 <= k < |ts| ==> DraftOf(ts[k]) == Begun(old(DraftOf(ts[k])), canUseImgdiff(k))
    ensures forall k :: 0 <= k < |ts| ==>
              (ts[k].style == Move <==> old(ts[k].style) == Diff && ts[k].srcHash == ts[k].tgtHash)
    ensures forall k :: 0 <= k < |ts| ==>
              (ts[k].style == ImgDiff <==>
               old(ts[k].style) == Diff && ts[k].srcHash != ts[k].tgtHash
               && (if old(ts[k].patchInfo).Some? then old(ts[k].patchInfo).value.imgdiff else canUseImgdiff(k)))
    ensures forall k :: 0 <= k < |ts| ==> Ready(Package(newData, patchData, tool.apply, junk), src, tgt, JobOf(ts[k]))
  {
    hide Begun, Read, NeedsPatch, Kind, Placed, QueueOf, NewBlocks, NewDataBefore, Ready, Sound, Fine;
    ghost var ds, p := DraftsOf(ts), Snapshot(ts);
    forall k | 0 <= k < |ts|
      ensures Fine(ds[k], src, tgt, tool) && Fits(ds[k].tgt, tgt)
      ensures ds[k].style.Diff? || ds[k].style.New? || ds[k].style.Zero?
    {
      FineParts(ds[k], src, tgt, tool);
    }
    var queue;
    newData, queue := Classify(ts, tgt, canUseImgdiff, ds);
    patchData := WritePatches(ts, queue, src, tgt, tool, ds, canUseImgdiff);
    forall k | 0 <= k < |ts|
      ensures Ready(Package(newData, patchData, tool.apply, junk), src, tgt, JobOf(ts[k]))
      ensures ts[k].style == Begun(ds[k], canUseImgdiff(k)).style
    {
      assert DraftOf(ts[k]) == Begun(ds[k], canUseImgdiff(k));
      ReadyNow(ts[k], ds[k], canUseImgdiff(k), src, tgt, tool, Package(newData, patchData, tool.apply, junk));
    }
    ghost var p' := Snapshot(ts);
    forall k | 0 <= k < |ts|
      ensures p'[k] == p[k].(style := p'[k].style) && p[k].style == ds[k].style && p[k].tgt == ds[k].tgt
      ensures p'[k].style == Begun(ds[k], canUseImgdiff(k)).style
    {
    }
    FinishedPlan(p, p', ds, canUseImgdiff);
    NewBlocksPlan(ds, p', tgt, |ts|);
    forall k | 0 <= k < |ts|
      ensures ts[k].style == Move <==> ds[k].style == Diff && ds[k].srcHash == ds[k].tgtHash
      ensures ts[k].style == ImgDiff <==>
              ds[k].style == Diff && ds[k].srcHash != ds[k].tgtHash
              && (if ds[k].info.Some? then ds[k].info.value.imgdiff else canUseImgdiff(k))
    {
      BegunStyle(ds[k], canUseImgdiff(k));
    }
  }

  lemma BegunStyle(d: Draft, use: bool)
    requires d.style.Diff? || d.style.New? || d.style.Zero?
    ensures var s := Begun(d, use).style;
            && (s == Move <==> d.style == Diff && d.srcHash == d.tgtHash)
            && (s == ImgDiff <==>
                d.style == Diff && d.srcHash != d.tgtHash && (if d.info.Some? then d.info.value.imgdiff else use))
  {
  }

  lemma FineParts(d: Draft, src: Image, tgt: Image, tool: Tool)
    requires Fine(d, src, tgt, tool)
    ensures Fits(d.tgt, tgt) && (d.style.Diff? || d.style.New? || d.style.Zero?)
  {
  }

  lemma FinishedPlan(p: Plan, p': Plan, ds: seq<Draft>, use: nat -> bool)
    requires |p| == |p'| == |ds|
    requires forall k :: 0 <= k < |p| ==>
      && p'[k] == p[k].(style := p'[k].style) && p[k].style == ds[k].style
      && p'[k].style == Begun(ds[k], use(k)).style
    ensures Finished(p, p')
    ensures forall k :: 0 <= k < |p| ==> (p'[k].style == New <==> ds[k].style == New)
  {
  }
}
