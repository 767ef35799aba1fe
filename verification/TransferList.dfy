/** The whole transfer list: one step a transfer, the extended blocks, and the two erase commands. */
module TransferList {
  import opened Ranges
  import opened Transfers
  import opened FeedbackArc
  import opened Plans
  import opened Slots
  import opened StashLimit
  import opened Device
  import opened Writer

  /** A transfer as the writer sees it, with its hashes and where its patch is. */
  datatype Job = Job(x: Xfer, tgtHash: Hash, srcHash: Hash, start: nat, len: nat)

  ghost function JobOf(t: Transfer): Job
    reads t
  {
    Job(Snap(t), t.tgtHash, t.srcHash, t.patchStart, t.patchLen)
  }

  // The stashes a command makes.

  lemma NotWritten(p: Plan, k: nat, x: nat)
    requires TargetsDisjoint(p) && k < |p| && x in p[k].tgt
    ensures x !in WrittenBefore(p, k)
  {
    WrittenMember(p, k, x);
  }

  lemma MadeUntouched(im: Images, p: Plan, m: StashMap, k: nat, d: State)
    requires GoodPlan(p, m) && RangesFit(im.src, m) && k < |p|
    requires Holds(im, d, WrittenBefore(p, k)) && p[k].tgt !! im.erased
    ensures AllFit(p[k].stashes, im.src) && Untouched(p[k].stashes, im.src, d.blocks)
  {
    hide WrittenBefore, Read;
    var list := p[k].stashes;
    forall i | 0 <= i < |list|
      ensures Fits(list[i].1, im.src) && Fits(list[i].1, d.blocks)
      ensures Read(d.blocks, list[i].1) == Read(im.src, list[i].1)
    {
      StashRange(p, m, k, list[i]);
      forall x | x in list[i].1 ensures x !in WrittenBefore(p, k) && x !in im.erased {
        NotWritten(p, k, x);
      }
      HoldsRead(im, d, WrittenBefore(p, k), list[i].1);
    }
  }

  lemma MadeInside(p: Plan, m: StashMap, k: nat)
    requires GoodPlan(p, m) && k < |p|
    ensures StashedFor(p[k].stashes) <= p[k].tgt
  {
    forall s | s in p[k].stashes ensures s.1 <= p[k].tgt {
      StashRange(p, m, k, s);
    }
  }

  /** All that is read by any command. */
  ghost function AllSources(p: Plan): RangeSet {
    set b, k | 0 <= k < |p| && b in p[k].src :: b
  }

  lemma SourceAmong(p: Plan, k: nat)
    requires k < |p|
    ensures p[k].src <= AllSources(p)
  {
  }

  /** What is stashed is read later on. */
  lemma MadeAmong(p: Plan, m: StashMap, k: nat)
    requires GoodPlan(p, m) && k < |p|
    ensures StashedFor(p[k].stashes) <= AllSources(p)
  {
    hide AllSources;
    forall s | s in p[k].stashes ensures s.1 <= AllSources(p) {
      StashRange(p, m, k, s);
      SourceAmong(p, m[s.0].use);
    }
  }

  // The stashes a command uses.

  lemma UsesApart(p: Plan, m: StashMap, k: nat)
    requires GoodPlan(p, m) && k < |p|
    ensures UsesGood(p[k].src, p[k].uses) && NoRepeat(p[k].uses)
  {
    var uses := p[k].uses;
    forall i | 0 <= i < |uses| ensures uses[i].1 <= p[k].src {
      UseRange(p, m, k, uses[i]);
    }
    forall i, j | 0 <= i < j < |uses| ensures uses[i].1 !! uses[j].1 {
      UseRange(p, m, k, uses[i]);
      UseRange(p, m, k, uses[j]);
      var a, b := m[uses[i].0].def, m[uses[j].0].def;
      assert a != b;
      if a < b { assert p[a].tgt !! p[b].tgt; } else { assert p[b].tgt !! p[a].tgt; }
    }
  }

  /** What is not stashed for a command has not been written by an earlier one. */
  lemma RestUnwritten(p: Plan, m: StashMap, k: nat)
    requires GoodPlan(p, m) && k < |p|
    ensures forall x :: x in p[k].src - StashedFor(p[k].uses) ==> x !in WrittenBefore(p, k)
  {
    hide WrittenBefore;
    forall x | x in p[k].src - StashedFor(p[k].uses) ensures x !in WrittenBefore(p, k) {
      WrittenMember(p, k, x);
      if i :| 0 <= i < k && x in p[i].tgt {
        LateBlockStashed(p, m, i, k, x);
      }
    }
  }

  // The pieces of a source.

  ghost function Pieces(uses: seq<Stash>): seq<RangeSet> {
    seq(|uses|, i requires 0 <= i < |uses| => uses[i].1)
  }

  lemma UsesPartition(src: RangeSet, uses: seq<Stash>)
    requires UsesGood(src, uses)
    ensures Partition(src, Pieces(uses) + [src - StashedFor(uses)])
    ensures src - StashedFor(uses) == {} ==> Partition(src, Pieces(uses))
  {
    var rest := src - StashedFor(uses);
    var pieces, whole := Pieces(uses), Pieces(uses) + [rest];
    forall i | 0 <= i < |uses| ensures uses[i].1 !! rest {
      assert uses[i] in uses;
    }
    forall x | x in src ensures exists i :: 0 <= i < |whole| && x in whole[i] {
      if x in rest {
        assert x in whole[|uses|];
      } else {
        var s :| s in uses && x in s.1;
        var i :| 0 <= i < |uses| && uses[i] == s;
        assert x in whole[i];
      }
    }
    if rest == {} {
      forall x | x in src ensures exists i :: 0 <= i < |pieces| && x in pieces[i] {
        var i :| 0 <= i < |whole| && x in whole[i];
        assert x in pieces[i];
      }
    }
  }

  /** The packed pieces of the source pass the partition check of the writer. */
  lemma PiecesPass(src: RangeSet, uses: seq<Stash>)
    requires UsesGood(src, uses)
    ensures var rest := src - StashedFor(uses);
            && Partition(Upto(|src|), Locs(src, uses) + [MapWithin(src, rest)])
            && (rest == {} ==> Partition(Upto(|src|), Locs(src, uses)))
  {
    hide Partition, MapWithin, UsesGood, StashedFor;
    var rest := src - StashedFor(uses);
    var pieces, whole := Pieces(uses), Pieces(uses) + [rest];
    UsesPartition(src, uses);
    LocsPartition(src, whole);
    assert seq(|whole|, i requires 0 <= i < |whole| => MapWithin(src, whole[i])) == Locs(src, uses) + [MapWithin(src, rest)];
    if rest == {} {
      LocsPartition(src, pieces);
      assert seq(|pieces|, i requires 0 <= i < |pieces| => MapWithin(src, pieces[i])) == Locs(src, uses);
    }
  }

  /** The source argument of a command; the partition checks made on the way always pass. */
  method SourceOf(src: RangeSet, uses: seq<Stash>, ghost img: Image, unstashed: RangeSet, refs: seq<StashRef>,
                  mapped: seq<RangeSet>)
    returns (spec: SrcSpec)
    requires AllFit(uses, img) && UsesGood(src, uses)
    requires unstashed == src - StashedFor(uses) && refs == RefsOf(src, img, uses) && mapped == Locs(src, uses)
    ensures spec == SpecOf(src, img, uses)
  {
    hide Partition, UsesGood, StashedFor, Locs, RefsOf;
    PiecesPass(src, uses);
    if unstashed != {} {
      if uses != [] {
        var mappedUnstashed := MapWithin(src, unstashed);
        var ok := AssertPartition(Upto(|src|), mapped + [mappedUnstashed]);
        assert ok;
        spec := Mixed(|src|, unstashed, mappedUnstashed, refs);
      } else {
        spec := Direct(|src|, unstashed);
      }
    } else {
      var ok := AssertPartition(Upto(|src|), mapped);
      assert ok;
      spec := StashOnly(|src|, refs);
    }
  }

  lemma BooksHold(held: Pending, c: Counts, blocks: nat, uses: seq<Stash>, img: Image, slots: map<Hash, seq<Block>>)
    requires Books(held, c, blocks) && SlotsAre(slots, c) && AllHeld(uses, held, img)
    ensures InSlots(uses, img, slots)
  {
    forall i | 0 <= i < |uses|
      ensures Fits(uses[i].1, img) && Read(img, uses[i].1) in slots
      ensures slots[Read(img, uses[i].1)] == Read(img, uses[i].1)
    {
      assert uses[i] in uses;
      assert held[uses[i].0] in c;
    }
  }

  lemma HeldFit(held: Pending, uses: seq<Stash>, img: Image)
    requires AllHeld(uses, held, img)
    ensures AllFit(uses, img)
  {
    forall i | 0 <= i < |uses| ensures Fits(uses[i].1, img) {
      assert uses[i] in uses;
    }
  }

  /** At its turn a command loads exactly the blocks of the source image that it names. */
  lemma SourceLoads(im: Images, p: Plan, m: StashMap, k: nat, d: State, c: Counts, blocks: nat)
    requires GoodPlan(p, m) && RangesFit(im.src, m) && k < |p|
    requires Books(PendingAt(im.src, m, k), c, blocks) && SlotsAre(d.slots, c)
    requires Holds(im, d, WrittenBefore(p, k)) && Fits(p[k].src, im.src) && p[k].src !! im.erased
    ensures AllFit(p[k].uses, im.src)
    ensures Load(SpecOf(p[k].src, im.src, p[k].uses), d) == Some(Read(im.src, p[k].src))
  {
    hide GoodPlan, Books, SlotsAre, AllHeld, WrittenBefore, Read, StashedFor, InSlots, UsesGood, Load, SpecOf,
         RangesFit, PendingAt;
    var x := p[k];
    UsesApart(p, m, k);
    UsesPending(im.src, p, m, k);
    HeldFit(PendingAt(im.src, m, k), x.uses, im.src);
    BooksHold(PendingAt(im.src, m, k), c, blocks, x.uses, im.src, d.slots);
    RestUnwritten(p, m, k);
    HoldsRead(im, d, WrittenBefore(p, k), x.src - StashedFor(x.uses));
    LoadGood(x.src, im.src, x.uses, d);
  }

  // One command.

  /** The transfer agrees with the two images, and its patch turns one into the other. */
  ghost predicate Ready(pkg: Package, src: Image, tgt: Image, j: Job) {
    && j.x.tgt != {} && Fits(j.x.tgt, tgt) && Fits(j.x.src, src)
    && j.tgtHash == Read(tgt, j.x.tgt)
    && match j.x.style {
         case Diff => false
         case New => j.x.src == {}
         case Zero => AllZero(tgt, j.x.tgt) && AllZero(src, j.x.src)
         case Move => j.srcHash == Read(src, j.x.src) && j.srcHash == j.tgtHash
         case _ =>
           && j.x.src != {} && j.srcHash == Read(src, j.x.src)
           && j.start + j.len <= |pkg.patchData|
           && pkg.apply(j.x.style.ImgDiff?, pkg.patchData[j.start..j.start + j.len], j.srcHash) == j.tgtHash
       }
  }

  /** The command is printed and reads its source. */
  ghost predicate Copies(x: Xfer) {
    x.style.BsDiff? || x.style.ImgDiff? || (x.style.Move? && x.src != x.tgt)
  }

  lemma CopyExec(pkg: Package, start: State, out: seq<Command>, d: State, im: Images, written: RangeSet,
                 r: RangeSet, c: Command)
    requires Run(pkg, start, out) == Some(d) && Holds(im, d, written) && Fits(r, im.tgt)
    requires Exec(pkg, d, c) == WriteTo(d, r, Read(im.tgt, r))
    requires (c.MoveCmd? || c.PatchCmd?) && c.tgt == r
    ensures Fits(r, d.blocks)
    ensures var d' := d.(blocks := Write(d.blocks, r, Read(im.tgt, r)));
            && Run(pkg, start, out + [c]) == Some(d') && Holds(im, d', written + r)
            && Device.Written(out + [c]) == Device.Written(out) + |r|
  {
    HoldsWrite(im, d, written, r, d.newPos);
    RunAppend(pkg, start, out, c, d);
    assert (out + [c])[..|out|] == out;
  }

  /** A move onto itself writes what is already there. */
  lemma SameBlocks(im: Images, d: State, written: RangeSet, r: RangeSet)
    requires Holds(im, d, written) && Fits(r, im.src) && Fits(r, im.tgt) && Read(im.src, r) == Read(im.tgt, r)
    requires r !! im.erased
    ensures Holds(im, d, written + r)
  {
    forall x | x in r ensures im.src[x] == im.tgt[x] {
      ReadAt(im.src, r, x);
      ReadAt(im.tgt, r, x);
    }
    HoldsSame(im, d, written, r);
  }

  /** Blocks that are zero in both images are not zeroed again. */
  lemma ZeroStays(im: Images, d: State, written: RangeSet, tgt: RangeSet, src: RangeSet)
    requires Fits(tgt, im.tgt) && Fits(src, im.src) && AllZero(im.tgt, tgt) && AllZero(im.src, src)
    requires Holds(im, d, written + (tgt - src)) && tgt !! im.erased
    ensures Holds(im, d, written + tgt)
  {
    HoldsSame(im, d, written + (tgt - src), tgt);
    assert written + (tgt - src) + tgt == written + tgt;
  }

  lemma ZeroSource(pkg: Package, im: Images, pos: nat, tgt: RangeSet, src: RangeSet)
    requires Fits(tgt, im.tgt) && AllZero(im.tgt, tgt)
    ensures Source(Zero, pkg, pos, im.tgt, tgt - src)
  {
  }

  /** The running values of the writer. */
  datatype Work = Work(out: seq<Command>, counts: Counts, blocks: nat, most: nat, touched: RangeSet, total: nat)

  /** The stash space of the whole source, if the updater has to set it aside. */
  ghost function CopySize(x: Xfer): nat {
    if Copies(x) && x.src * x.tgt != {} then |x.src| else 0
  }

  method WriteCopy(xf: Transfer, c: Command, w: Work, ghost pkg: Package, ghost start: State, ghost d: State,
                   ghost im: Images, ghost written: RangeSet)
    returns (w': Work, ghost d': State)
    requires Run(pkg, start, w.out) == Some(d) && Holds(im, d, written) && Fits(xf.tgtRanges, im.tgt)
    requires Device.Written(w.out) == w.total && w.blocks <= w.most
    requires (c.MoveCmd? || c.PatchCmd?) && c.tgt == xf.tgtRanges
    requires Exec(pkg, d, c) == WriteTo(d, c.tgt, Read(im.tgt, c.tgt))
    requires Orderly(w.out, w.touched) && SpecReads(c.src) <= xf.srcRanges
    ensures Run(pkg, start, w'.out) == Some(d') && Holds(im, d', written + xf.tgtRanges) && Orderly(w'.out, w'.touched)
    ensures d'.slots == d.slots && d'.newPos == d.newPos
    ensures Device.Written(w'.out) == w'.total
    ensures w'.counts == w.counts && w'.blocks == w.blocks && w'.touched == w.touched + xf.srcRanges
    ensures w'.total == w.total + |xf.tgtRanges|
    ensures w'.most == Larger(w.most, if xf.srcRanges * xf.tgtRanges != {} then w.blocks + |xf.srcRanges| else 0)
  {
    hide Run, Holds, Device.Written, Exec, WriteTo, Read, Write, Orderly;
    OrderlyMore(w.out, w.touched, c, w.touched + xf.srcRanges);
    CopyExec(pkg, start, w.out, d, im, written, c.tgt, c);
    w' := w;
    if xf.srcRanges * xf.tgtRanges != {} {
      var usage := w.blocks + |xf.srcRanges|;
      if usage > w.most {
        w' := w'.(most := usage);
      }
    }
    w' := w'.(touched := w.touched + xf.srcRanges, out := w.out + [c], total := w.total + |xf.tgtRanges|);
    d' := d.(blocks := Write(d.blocks, c.tgt, Read(im.tgt, c.tgt)));
  }

  lemma MoveExec(pkg: Package, im: Images, j: Job, spec: SrcSpec, d: State)
    requires Ready(pkg, im.src, im.tgt, j) && j.x.style == Move && Load(spec, d) == Some(Read(im.src, j.x.src))
    ensures Exec(pkg, d, MoveCmd(j.tgtHash, j.x.tgt, spec)) == WriteTo(d, j.x.tgt, Read(im.tgt, j.x.tgt))
    ensures |j.x.src| == |j.x.tgt|
  {
    ReadSize(im.src, j.x.src);
    ReadSize(im.tgt, j.x.tgt);
  }

  lemma PatchExec(pkg: Package, im: Images, j: Job, spec: SrcSpec, d: State)
    requires Ready(pkg, im.src, im.tgt, j) && (j.x.style == BsDiff || j.x.style == ImgDiff)
    requires Load(spec, d) == Some(Read(im.src, j.x.src))
    ensures Exec(pkg, d, PatchCmd(j.x.style.ImgDiff?, j.start, j.len, j.srcHash, j.tgtHash, j.x.tgt, spec)) ==
            WriteTo(d, j.x.tgt, Read(im.tgt, j.x.tgt))
  {
  }

  lemma ReadyParts(pkg: Package, im: Images, j: Job)
    requires Ready(pkg, im.src, im.tgt, j)
    ensures j.x.tgt != {} && Fits(j.x.tgt, im.tgt) && Fits(j.x.src, im.src) && j.x.style != Diff
    ensures j.x.style == New ==> j.x.src == {}
    ensures j.x.style == Zero ==> AllZero(im.tgt, j.x.tgt) && AllZero(im.src, j.x.src)
    ensures j.x.style == Move ==> Read(im.src, j.x.src) == Read(im.tgt, j.x.tgt) && |j.x.src| == |j.x.tgt|
    ensures j.x.style == BsDiff || j.x.style == ImgDiff ==> j.x.src != {}
  {
    if j.x.style == Move {
      ReadSize(im.src, j.x.src);
      ReadSize(im.tgt, j.x.tgt);
    }
  }

  lemma NewSource(pkg: Package, im: Images, pos: nat, tgt: RangeSet)
    requires Fits(tgt, im.tgt) && Supplies(pkg, pos, im.tgt, tgt)
    ensures Source(New, pkg, pos, im.tgt, tgt)
  {
  }

  /** The blocks that are written for a transfer: none for a move onto itself, and no zeros over zeros. */
  ghost function ToWrite(x: Xfer): nat {
    match x.style
    case Move => if x.src == x.tgt then 0 else |x.tgt|
    case Zero => |x.tgt - x.src|
    case _ => |x.tgt|
  }

  /** The commands of one transfer between its stash and its free commands. */
  method WriteCommand(xf: Transfer, spec: SrcSpec, w: Work, ghost pkg: Package, ghost start: State, ghost d: State,
                      ghost im: Images, ghost written: RangeSet)
    returns (w': Work, ghost d': State)
    requires Run(pkg, start, w.out) == Some(d) && Holds(im, d, written)
    requires Ready(pkg, im.src, im.tgt, JobOf(xf)) && xf.tgtRanges !! im.erased
    requires Copies(Snap(xf)) ==> Load(spec, d) == Some(Read(im.src, xf.srcRanges))
    requires xf.style == New ==> Supplies(pkg, d.newPos, im.tgt, xf.tgtRanges)
    requires Device.Written(w.out) == w.total && w.blocks <= w.most
    requires Orderly(w.out, w.touched) && SpecReads(spec) <= xf.srcRanges
    ensures Run(pkg, start, w'.out) == Some(d') && Holds(im, d', written + xf.tgtRanges) && Orderly(w'.out, w'.touched)
    ensures d'.slots == d.slots && d'.newPos == d.newPos + Advance(xf.style, |xf.tgtRanges|)
    ensures Device.Written(w'.out) == w'.total
    ensures w'.counts == w.counts && w'.blocks == w.blocks && w'.total == w.total + ToWrite(Snap(xf))
    ensures w'.touched == w.touched + (if Copies(Snap(xf)) then xf.srcRanges else {})
    ensures w'.most == Larger(w.most, w.blocks + CopySize(Snap(xf)))
  {
    hide Run, Holds, Device.Written, Exec, WriteTo, Read, Write, Ready, Load, Supplies, Source, Orderly;
    w', d' := w, d;
    ReadyParts(pkg, im, JobOf(xf));
    if xf.style == New {
      NewSource(pkg, im, d.newPos, xf.tgtRanges);
      var out, total;
      out, total, d' := WriteSplitTransfers(New, xf.tgtRanges, w.out, pkg, start, d, im, written, w.touched);
      assert total == |xf.tgtRanges|;
      w' := w.(out := out, total := w.total + |xf.tgtRanges|);
    } else if xf.style == Move {
      assert |xf.srcRanges| == |xf.tgtRanges|;
      if xf.srcRanges != xf.tgtRanges {
        MoveExec(pkg, im, JobOf(xf), spec, d);
        w', d' := WriteCopy(xf, MoveCmd(xf.tgtHash, xf.tgtRanges, spec), w, pkg, start, d, im, written);
      } else {
        SameBlocks(im, d, written, xf.tgtRanges);
      }
    } else if xf.style == BsDiff || xf.style == ImgDiff {
      PatchExec(pkg, im, JobOf(xf), spec, d);
      w', d' := WriteCopy(xf, PatchCmd(xf.style == ImgDiff, xf.patchStart, xf.patchLen, xf.srcHash, xf.tgtHash,
                                       xf.tgtRanges, spec), w, pkg, start, d, im, written);
    } else {
      assert xf.style == Zero;
      var toZero := xf.tgtRanges - xf.srcRanges;
      ZeroSource(pkg, im, d.newPos, xf.tgtRanges, xf.srcRanges);
      var out, total;
      out, total, d' := WriteSplitTransfers(Zero, toZero, w.out, pkg, start, d, im, written, w.touched);
      assert total == |toZero|;
      ZeroStays(im, d', written, xf.tgtRanges, xf.srcRanges);
      w' := w.(out := out, total := w.total + total);
    }
  }

  lemma SpecReadsSource(src: RangeSet, img: Image, uses: seq<Stash>)
    requires AllFit(uses, img)
    ensures SpecReads(SpecOf(src, img, uses)) <= src
  {
  }

  // The state of the writer between two transfers.

  ghost function TouchedBefore(p: Plan, k: nat): RangeSet
    requires k <= |p|
  {
    if k == 0 then {} else TouchedBefore(p, k - 1) + (if Copies(p[k - 1]) then p[k - 1].src else {})
  }

  ghost function TotalBefore(p: Plan, k: nat): nat
    requires k <= |p|
  {
    if k == 0 then 0 else TotalBefore(p, k - 1) + ToWrite(p[k - 1])
  }

  lemma {:induction false} TouchedGrows(p: Plan, k: nat, n: nat)
    requires k <= n <= |p|
    ensures TouchedBefore(p, k) <= TouchedBefore(p, n)
  {
    if k < n {
      TouchedGrows(p, k, n - 1);
    }
  }

  /** The stash space that the first `n` commands need at most, counting whole sources set aside. */
  ghost function Peak(img: Image, p: Plan, m: StashMap, n: nat): nat
    requires RangesFit(img, m) && n <= |p|
  {
    if n == 0 then 0 else Larger(Peak(img, p, m, n - 1), StashBlocks(img, m, n - 1) + CopySize(p[n - 1]))
  }

  lemma {:induction false} PeakWithin(img: Image, p: Plan, m: StashMap, n: nat, most: nat)
    requires RangesFit(img, m) && n <= |p| && Within(img, p, m, n, most)
    ensures Peak(img, p, m, n) <= most
  {
    if n > 0 {
      assert WithinAt(img, p, m, n - 1, most);
      PeakWithin(img, p, m, n - 1, most);
    }
  }

  /** Everything that is fixed while the list is written. */
  datatype World = World(pkg: Package, start: State, im: Images, dontcare: RangeSet, p: Plan, m: StashMap, jobs: seq<Job>)

  ghost predicate TargetsFit(p: Plan, tgt: Image) {
    forall k :: 0 <= k < |p| ==> Fits(p[k].tgt, tgt)
  }

  ghost predicate Sound(v: World) {
    && GoodPlan(v.p, v.m) && RangesFit(v.im.src, v.m) && |v.jobs| == |v.p| && TargetsFit(v.p, v.im.tgt)
    && (forall k :: 0 <= k < |v.p| ==> v.jobs[k].x == v.p[k] && Ready(v.pkg, v.im.src, v.im.tgt, v.jobs[k]) && v.p[k].tgt !! v.dontcare)
    && v.pkg.newData == NewDataBefore(v.p, v.im.tgt, |v.p|)
    && v.im.erased == v.dontcare - TouchedBefore(v.p, |v.p|)
  }

  lemma SoundAt(v: World, k: nat)
    requires Sound(v) && k < |v.p|
    ensures v.jobs[k].x == v.p[k] && Ready(v.pkg, v.im.src, v.im.tgt, v.jobs[k])
    ensures v.p[k].tgt !! v.dontcare && v.p[k].tgt !! v.im.erased && (Copies(v.p[k]) ==> v.p[k].src !! v.im.erased)
    ensures Fits(v.p[k].tgt, v.im.tgt) && Fits(v.p[k].src, v.im.src)
    ensures GoodPlan(v.p, v.m) && RangesFit(v.im.src, v.m) && TargetsFit(v.p, v.im.tgt)
  {
    TouchedGrows(v.p, k + 1, |v.p|);
  }

  lemma {:induction false} NewDataPrefix(p: Plan, tgt: Image, k: nat, n: nat)
    requires k <= n <= |p| && TargetsFit(p, tgt)
    ensures NewDataBefore(p, tgt, k) <= NewDataBefore(p, tgt, n)
  {
    if k < n {
      NewDataPrefix(p, tgt, k, n - 1);
    }
  }

  /** Each new command finds its blocks at the position where the ones before it stopped reading. */
  lemma SuppliesAt(v: World, k: nat)
    requires Sound(v) && k < |v.p|
    ensures v.p[k].style == New ==> Supplies(v.pkg, |NewDataBefore(v.p, v.im.tgt, k)|, v.im.tgt, v.p[k].tgt)
    ensures |NewDataBefore(v.p, v.im.tgt, k + 1)| ==
            |NewDataBefore(v.p, v.im.tgt, k)| + Advance(v.p[k].style, |v.p[k].tgt|)
  {
    hide GoodPlan, RangesFit, Ready, Read, TouchedBefore;
    NewDataPrefix(v.p, v.im.tgt, k + 1, |v.p|);
    ReadSize(v.im.tgt, v.p[k].tgt);
  }

  ghost predicate Reached(v: World, k: nat, w: Work, d: State) {
    && RangesFit(v.im.src, v.m) && k <= |v.p| && TargetsFit(v.p, v.im.tgt)
    && Run(v.pkg, v.start, w.out) == Some(d) && SlotsAre(d.slots, w.counts)
    && Books(PendingBefore(v.im.src, v.m, k), w.counts, w.blocks)
    && Holds(v.im, d, WrittenBefore(v.p, k))
    && d.newPos == |NewDataBefore(v.p, v.im.tgt, k)|
    && Device.Written(w.out) == w.total && Orderly(w.out, w.touched)
    && w.touched * v.dontcare == TouchedBefore(v.p, k) * v.dontcare
    && TouchedBefore(v.p, k) <= w.touched <= AllSources(v.p) && w.total == TotalBefore(v.p, k)
    && w.most == Peak(v.im.src, v.p, v.m, k)
  }

  lemma ReachedParts(v: World, k: nat, w: Work, d: State)
    requires Reached(v, k, w, d)
    ensures RangesFit(v.im.src, v.m) && k <= |v.p| && TargetsFit(v.p, v.im.tgt)
    ensures Run(v.pkg, v.start, w.out) == Some(d) && SlotsAre(d.slots, w.counts)
    ensures Books(PendingBefore(v.im.src, v.m, k), w.counts, w.blocks)
    ensures Holds(v.im, d, WrittenBefore(v.p, k))
    ensures d.newPos == |NewDataBefore(v.p, v.im.tgt, k)|
    ensures Device.Written(w.out) == w.total && Orderly(w.out, w.touched)
    ensures w.touched * v.dontcare == TouchedBefore(v.p, k) * v.dontcare
    ensures TouchedBefore(v.p, k) <= w.touched <= AllSources(v.p) && w.total == TotalBefore(v.p, k)
    ensures w.most == Peak(v.im.src, v.p, v.m, k)
  {
  }

  /** After the stash commands of transfer `k`: its stashes are held, and nothing else has changed. */
  ghost predicate Stocked(v: World, k: nat, w: Work, d: State) {
    && RangesFit(v.im.src, v.m) && k < |v.p| && TargetsFit(v.p, v.im.tgt)
    && Run(v.pkg, v.start, w.out) == Some(d) && SlotsAre(d.slots, w.counts)
    && Books(PendingAt(v.im.src, v.m, k), w.counts, w.blocks)
    && Holds(v.im, d, WrittenBefore(v.p, k))
    && d.newPos == |NewDataBefore(v.p, v.im.tgt, k)|
    && Device.Written(w.out) == w.total && Orderly(w.out, w.touched)
    && w.touched * v.dontcare == TouchedBefore(v.p, k) * v.dontcare
    && TouchedBefore(v.p, k) <= w.touched <= AllSources(v.p) && w.total == TotalBefore(v.p, k)
    && w.most == Larger(Peak(v.im.src, v.p, v.m, k), w.blocks) && w.blocks == StashBlocks(v.im.src, v.m, k)
  }

  lemma SameTouched(touched: RangeSet, touched': RangeSet, made: RangeSet, tgt: RangeSet, dontcare: RangeSet)
    requires touched <= touched' <= touched + made && made <= tgt && tgt !! dontcare
    ensures touched' * dontcare == touched * dontcare
  {
  }

  lemma HoldsSlots(im: Images, d: State, d': State, written: RangeSet)
    requires Holds(im, d, written) && d'.blocks == d.blocks
    ensures Holds(im, d', written)
  {
  }

  method WriteStashes(xf: Transfer, img: Image, w: Work, ghost v: World, ghost k: nat, ghost d: State)
    returns (w': Work, ghost d': State)
    requires Sound(v) && k < |v.p| && Snap(xf) == v.p[k] && img == v.im.src && Reached(v, k, w, d)
    ensures Stocked(v, k, w', d')
  {
    hide Sound, Reached, Run, SlotsAre, Books, Holds, NewDataBefore, Device.Written, TouchedBefore, Peak, Ready,
         GoodPlan, RangesFit, PendingBefore, PendingAt, Adding, Untouched, AllFit, NoRepeat, WrittenBefore, StashBlocks,
         StashedFor, TargetsFit, CopySize, Copies, Orderly, AllSources, TotalBefore;
    ReachedParts(v, k, w, d);
    SoundAt(v, k);
    MadeUntouched(v.im, v.p, v.m, k, d);
    MadePending(img, v.p, v.m, k);
    MadeInside(v.p, v.m, k);
    var out, c, blocks, touched;
    out, c, blocks, touched, d' := EmitStashes(xf.stashBefore, img, w.out, w.counts, w.blocks, w.touched,
                                               v.pkg, v.start, d, PendingBefore(img, v.m, k));
    MadeAmong(v.p, v.m, k);
    SameTouched(w.touched, touched, StashedFor(xf.stashBefore), xf.tgtRanges, v.dontcare);
    HoldsSlots(v.im, d, d', WrittenBefore(v.p, k));
    BooksSize(PendingAt(img, v.m, k), c, blocks);
    BlocksAt(img, v.m, k);
    w' := Work(out, c, blocks, if blocks > w.most then blocks else w.most, touched, w.total);
    IsStocked(v, k, w', d');
  }

  lemma IsStocked(v: World, k: nat, w: Work, d: State)
    requires RangesFit(v.im.src, v.m) && k < |v.p| && TargetsFit(v.p, v.im.tgt)
    requires Run(v.pkg, v.start, w.out) == Some(d) && SlotsAre(d.slots, w.counts)
    requires Books(PendingAt(v.im.src, v.m, k), w.counts, w.blocks)
    requires Holds(v.im, d, WrittenBefore(v.p, k))
    requires d.newPos == |NewDataBefore(v.p, v.im.tgt, k)|
    requires Device.Written(w.out) == w.total && Orderly(w.out, w.touched)
    requires w.touched * v.dontcare == TouchedBefore(v.p, k) * v.dontcare
    requires TouchedBefore(v.p, k) <= w.touched <= AllSources(v.p) && w.total == TotalBefore(v.p, k)
    requires w.most == Larger(Peak(v.im.src, v.p, v.m, k), w.blocks) && w.blocks == StashBlocks(v.im.src, v.m, k)
    ensures Stocked(v, k, w, d)
  {
  }

  lemma StockedParts(v: World, k: nat, w: Work, d: State)
    requires Stocked(v, k, w, d)
    ensures RangesFit(v.im.src, v.m) && k < |v.p| && TargetsFit(v.p, v.im.tgt)
    ensures Run(v.pkg, v.start, w.out) == Some(d) && SlotsAre(d.slots, w.counts)
    ensures Books(PendingAt(v.im.src, v.m, k), w.counts, w.blocks)
    ensures Holds(v.im, d, WrittenBefore(v.p, k))
    ensures d.newPos == |NewDataBefore(v.p, v.im.tgt, k)|
    ensures Device.Written(w.out) == w.total && w.blocks <= w.most && Orderly(w.out, w.touched)
    ensures w.touched * v.dontcare == TouchedBefore(v.p, k) * v.dontcare
    ensures TouchedBefore(v.p, k) <= w.touched <= AllSources(v.p) && w.total == TotalBefore(v.p, k)
    ensures w.most == Larger(Peak(v.im.src, v.p, v.m, k), w.blocks) && w.blocks == StashBlocks(v.im.src, v.m, k)
  {
  }

  lemma NextTouched(v: World, k: nat, touched: RangeSet, touched': RangeSet)
    requires k < |v.p| && touched * v.dontcare == TouchedBefore(v.p, k) * v.dontcare
    requires TouchedBefore(v.p, k) <= touched <= AllSources(v.p)
    requires touched' == touched + (if Copies(v.p[k]) then v.p[k].src else {})
    ensures touched' * v.dontcare == TouchedBefore(v.p, k + 1) * v.dontcare
    ensures TouchedBefore(v.p, k + 1) <= touched' <= AllSources(v.p)
    ensures TotalBefore(v.p, k + 1) == TotalBefore(v.p, k) + ToWrite(v.p[k])
  {
    hide Copies, AllSources;
    SourceAmong(v.p, k);
    var more := if Copies(v.p[k]) then v.p[k].src else {};
    assert TouchedBefore(v.p, k + 1) == TouchedBefore(v.p, k) + more;
    Distribute(touched, more, v.dontcare);
    Distribute(TouchedBefore(v.p, k), more, v.dontcare);
  }

  lemma Distribute(a: RangeSet, b: RangeSet, c: RangeSet)
    ensures (a + b) * c == a * c + b * c
  {
  }

  lemma IsReached(v: World, k: nat, w: Work, d: State)
    requires RangesFit(v.im.src, v.m) && k < |v.p| && TargetsFit(v.p, v.im.tgt)
    requires Run(v.pkg, v.start, w.out) == Some(d) && SlotsAre(d.slots, w.counts)
    requires Books(PendingBefore(v.im.src, v.m, k + 1), w.counts, w.blocks)
    requires Holds(v.im, d, WrittenBefore(v.p, k) + v.p[k].tgt)
    requires d.newPos == |NewDataBefore(v.p, v.im.tgt, k + 1)|
    requires Device.Written(w.out) == w.total && Orderly(w.out, w.touched)
    requires w.touched * v.dontcare == TouchedBefore(v.p, k + 1) * v.dontcare
    requires TouchedBefore(v.p, k + 1) <= w.touched <= AllSources(v.p) && w.total == TotalBefore(v.p, k + 1)
    requires w.most == Larger(Peak(v.im.src, v.p, v.m, k), StashBlocks(v.im.src, v.m, k) + CopySize(v.p[k]))
    ensures Reached(v, k + 1, w, d)
  {
  }

  /** One transfer: its stashes, its command, and the slots nobody needs after it. */
  method WriteTransfer(xf: Transfer, img: Image, w: Work, ghost v: World, ghost k: nat, ghost d: State)
    returns (w': Work, ghost d': State)
    requires Sound(v) && k < |v.p| && JobOf(xf) == v.jobs[k] && img == v.im.src && Reached(v, k, w, d)
    ensures Reached(v, k + 1, w', d')
  {
    hide Sound, Reached, Stocked, Run, SlotsAre, Books, Holds, NewDataBefore, Device.Written, TouchedBefore, Peak, Ready,
         GoodPlan, RangesFit, PendingBefore, PendingAt, WrittenBefore, StashBlocks, Supplies, Load, SpecOf, Freed,
         StashedFor, TargetsFit, CopySize, Copies, UsesGood, NoRepeat, AllHeld, Without, Ids, AllFit, RefsOf, Locs, Advance,
         Orderly, SpecReads, AllSources, TotalBefore, ToWrite;
    SoundAt(v, k);
    var w1, d1 := WriteStashes(xf, img, w, v, k, d);
    StockedParts(v, k, w1, d1);
    UsesApart(v.p, v.m, k);
    UsesPending(img, v.p, v.m, k);
    var unstashed, refs, mapped, counts, frees, freeSize :=
      TakeStashes(xf.srcRanges, xf.useStash, img, w1.counts, PendingAt(img, v.m, k), w1.blocks);
    var spec := SourceOf(xf.srcRanges, xf.useStash, img, unstashed, refs, mapped);
    SpecReadsSource(xf.srcRanges, img, xf.useStash);
    if Copies(v.p[k]) {
      SourceLoads(v.im, v.p, v.m, k, d1, w1.counts, w1.blocks);
    }
    SuppliesAt(v, k);
    var w2, d2 := WriteCommand(xf, spec, w1, v.pkg, v.start, d1, v.im, WrittenBefore(v.p, k));
    NextTouched(v, k, w1.touched, w2.touched);
    var out;
    out, d' := EmitFrees(frees, w2.out, v.pkg, v.start, d2, w1.counts, counts, w2.touched);
    HoldsSlots(v.im, d2, d', WrittenBefore(v.p, k) + xf.tgtRanges);
    w' := w2.(out := out, counts := counts, blocks := w2.blocks - freeSize);
    IsReached(v, k, w', d');
  }
}
