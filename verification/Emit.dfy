/** The complete transfer list file, and the theorem about running it. */
module Emit {
  import opened Ranges
  import opened Transfers
  import opened FeedbackArc
  import opened Plans
  import opened Slots
  import opened StashLimit
  import opened Device
  import opened Writer
  import opened TransferList

  /** The file: four header lines and the commands. */
  datatype TransferFile = TransferFile(version: nat, total: nat, slots: nat, maxStashed: nat, cmds: seq<Command>)

  ghost function JobsOf(ts: seq<Transfer>): (j: seq<Job>)
    reads set x | x in ts
    ensures |j| == |ts|
  {
    seq(|ts|, i requires 0 <= i < |ts| reads ts => JobOf(ts[i]))
  }

  /** The blocks of the target image that do not matter. */
  ghost function Dontcare(tgt: Image, care: RangeSet, extended: RangeSet): RangeSet {
    set b: nat | b < |tgt| && b !in care && b !in extended
  }

  lemma DontcareWhat(tgt: Image, care: RangeSet, extended: RangeSet)
    ensures Dontcare(tgt, care, extended) == Upto(|tgt|) - extended - care
  {
  }

  /** The transfers make a good plan, are finished, and write exactly the blocks that matter. */
  ghost predicate Writable(pkg: Package, src: Image, tgt: Image, care: RangeSet, p: Plan, m: StashMap, jobs: seq<Job>) {
    && |tgt| <= |src|
    && GoodPlan(p, m) && RangesFit(src, m) && |jobs| == |p| && TargetsFit(p, tgt)
    && (forall k :: 0 <= k < |p| ==> jobs[k].x == p[k] && Ready(pkg, src, tgt, jobs[k]))
    && WrittenBefore(p, |p|) == care
    && pkg.newData == NewDataBefore(p, tgt, |p|)
  }

  /** What the partition has to look like in the end. */
  ghost function Updated(src: Image, tgt: Image, care: RangeSet, extended: RangeSet, junk: nat -> Block): (r: Image)
    requires |tgt| <= |src| && Fits(care, tgt)
    ensures |r| == |src|
  {
    seq(|src|, i requires 0 <= i < |src| =>
      if i in care then tgt[i]
      else if i in extended then ZeroBlock()
      else if i < |tgt| then junk(i)
      else src[i])
  }

  ghost function WorldOf(pkg: Package, src: Image, tgt: Image, dontcare: RangeSet, p: Plan, m: StashMap, jobs: seq<Job>): World {
    var erased := dontcare - TouchedBefore(p, |p|);
    var base := Erased(src, erased, pkg.junk);
    World(pkg, State(base, map[], 0), Images(src, tgt, erased, base), dontcare, p, m, jobs)
  }

  lemma WorldFields(pkg: Package, src: Image, tgt: Image, dontcare: RangeSet, p: Plan, m: StashMap, jobs: seq<Job>)
    ensures var v := WorldOf(pkg, src, tgt, dontcare, p, m, jobs);
            && v.pkg == pkg && v.im.src == src && v.im.tgt == tgt && v.dontcare == dontcare && v.p == p && v.m == m && v.jobs == jobs
            && v.im.erased == dontcare - TouchedBefore(p, |p|) && v.im.base == Erased(src, v.im.erased, pkg.junk)
            && v.start == State(v.im.base, map[], 0)
  {
  }

  lemma WorldSound(pkg: Package, src: Image, tgt: Image, care: RangeSet, extended: RangeSet, p: Plan, m: StashMap,
                   jobs: seq<Job>)
    requires Writable(pkg, src, tgt, care, p, m, jobs)
    ensures Sound(WorldOf(pkg, src, tgt, Dontcare(tgt, care, extended), p, m, jobs))
  {
    hide GoodPlan, RangesFit, Ready, NewDataBefore, TouchedBefore, Erased, TargetsFit, Upto;
    forall k | 0 <= k < |p| ensures p[k].tgt <= care {
      forall x | x in p[k].tgt ensures x in care { WrittenMember(p, |p|, x); }
    }
  }

  lemma ReachedStart(pkg: Package, src: Image, tgt: Image, care: RangeSet, dontcare: RangeSet, p: Plan, m: StashMap,
                     jobs: seq<Job>)
    requires Writable(pkg, src, tgt, care, p, m, jobs)
    ensures var v := WorldOf(pkg, src, tgt, dontcare, p, m, jobs);
            Reached(v, 0, Work([], map[], 0, 0, {}, 0), v.start)
  {
    hide GoodPlan, Ready, TouchedBefore;
    var held := PendingBefore(src, m, 0);
    assert held == map[];
    NoSlots();
    assert TouchedBefore(p, 0) == {} by { TouchedNone(p); }
  }

  lemma TouchedNone(p: Plan)
    ensures TouchedBefore(p, 0) == {}
  {
  }

  lemma NoSlots()
    ensures Books(map[], map[], 0)
  {
    assert Size({}) == 0 by {
      var m: map<Hash, nat> := map h | h in {} :: |h|;
      assert m == map[];
    }
  }

  /** Nothing is held after the last command. */
  lemma NothingHeld(img: Image, p: Plan, m: StashMap, c: Counts, blocks: nat, slots: map<Hash, seq<Block>>)
    requires GoodPlan(p, m) && RangesFit(img, m)
    requires Books(PendingBefore(img, m, |p|), c, blocks) && SlotsAre(slots, c)
    ensures slots == map[]
  {
    BooksKeys(PendingBefore(img, m, |p|), c, blocks);
    assert PendingBefore(img, m, |p|) == map[];
    assert c.Keys == {};
  }

  // After the transfers: the extended blocks and the erase commands.

  /** What is wanted outside the blocks that matter: zero in the extended blocks. */
  ghost function WithExtended(src: Image, tgt: Image, extended: RangeSet): (r: Image)
    requires |tgt| <= |src|
    ensures |r| == |src|
  {
    seq(|src|, i requires 0 <= i < |src| =>
      if i in extended then ZeroBlock() else if i < |tgt| then tgt[i] else src[i])
  }

  lemma HoldsExtended(im: Images, d: State, written: RangeSet, extended: RangeSet)
    requires Holds(im, d, written) && written !! extended
    ensures |im.tgt| <= |im.src|
    ensures Holds(im.(tgt := WithExtended(im.src, im.tgt, extended)), d, written)
  {
    assert Fits(written, WithExtended(im.src, im.tgt, extended));
  }

  lemma ZeroExtended(src: Image, tgt: Image, extended: RangeSet, pkg: Package, pos: nat)
    requires |tgt| <= |src| && Fits(extended, src)
    ensures Source(Zero, pkg, pos, WithExtended(src, tgt, extended), extended)
  {
  }

  lemma EraseExec(pkg: Package, start: State, out: seq<Command>, d: State, r: RangeSet)
    requires Run(pkg, start, out) == Some(d)
    ensures Run(pkg, start, out + [EraseCmd(r)]) == Some(d.(blocks := Erased(d.blocks, r, pkg.junk)))
    ensures Device.Written(out + [EraseCmd(r)]) == Device.Written(out)
  {
    RunAppend(pkg, start, out, EraseCmd(r), d);
    assert (out + [EraseCmd(r)])[..|out|] == out;
  }

  lemma {:induction false} WrittenPrepend(c: Command, cmds: seq<Command>)
    requires c.EraseCmd?
    ensures Device.Written([c] + cmds) == Device.Written(cmds)
  {
    var all := [c] + cmds;
    if cmds == [] {
      assert all[..0] == [];
    } else {
      WrittenPrepend(c, cmds[..|cmds| - 1]);
      assert all[..|all| - 1] == [c] + cmds[..|cmds| - 1];
    }
  }

  /** Zeroes the extended blocks. */
  method WriteExtended(extended: RangeSet, w: Work, ghost pkg: Package, ghost start: State, ghost d: State,
                       ghost im: Images, ghost written: RangeSet)
    returns (w': Work, ghost d': State)
    requires Run(pkg, start, w.out) == Some(d) && Device.Written(w.out) == w.total
    requires Holds(im, d, written) && written !! extended && Fits(extended, im.src) && Orderly(w.out, w.touched)
    ensures Run(pkg, start, w'.out) == Some(d') && Device.Written(w'.out) == w'.total
    ensures |im.tgt| <= |im.src| && Holds(im.(tgt := WithExtended(im.src, im.tgt, extended)), d', written + extended)
    ensures d'.slots == d.slots && d'.newPos == d.newPos
    ensures w'.touched == w.touched && w'.most == w.most && Orderly(w'.out, w'.touched)
    ensures w'.total == w.total + |extended|
  {
    hide Run, Holds, Device.Written, WithExtended, Source, Orderly;
    HoldsExtended(im, d, written, extended);
    w', d' := w, d;
    if extended != {} {
      ZeroExtended(im.src, im.tgt, extended, pkg, d.newPos);
      var out, total;
      out, total, d' := WriteSplitTransfers(Zero, extended, w.out, pkg, start, d,
                                            im.(tgt := WithExtended(im.src, im.tgt, extended)), written, w.touched);
      assert total == |extended|;
      w' := w.(out := out, total := w.total + total);
    } else {
      assert written + extended == written;
    }
  }

  /** Both erase commands: what was never touched first, the rest last. */
  method WriteErases(dontcare: RangeSet, w: Work, ghost pkg: Package, ghost src: Image, ghost d: State)
    returns (cmds: seq<Command>, ghost d': State)
    requires var first := dontcare - w.touched;
             Run(pkg, State(Erased(src, first, pkg.junk), map[], 0), w.out) == Some(d) && Orderly(w.out, w.touched)
    ensures Run(pkg, State(src, map[], 0), cmds) == Some(d')
    ensures d' == d.(blocks := Erased(d.blocks, dontcare * w.touched, pkg.junk))
    ensures Device.Written(cmds) == Device.Written(w.out) && Orderly(cmds, w.touched)
    ensures dontcare - w.touched != {} ==> cmds != [] && cmds[0] == EraseCmd(dontcare - w.touched)
  {
    hide Run, Device.Written, Orderly;
    var eraseFirst := dontcare - w.touched;
    var eraseLast := dontcare - eraseFirst;
    assert eraseLast == dontcare * w.touched;
    ghost var start := State(Erased(src, eraseFirst, pkg.junk), map[], 0);
    cmds, d' := w.out, d;
    if eraseLast != {} {
      EraseExec(pkg, start, cmds, d, eraseLast);
      OrderlyMore(cmds, w.touched, EraseCmd(eraseLast), w.touched);
      cmds := cmds + [EraseCmd(eraseLast)];
    } else {
      assert Erased(d.blocks, eraseLast, pkg.junk) == d.blocks;
    }
    d' := d.(blocks := Erased(d.blocks, eraseLast, pkg.junk));
    if eraseFirst != {} {
      EraseNow(pkg, State(src, map[], 0), eraseFirst);
      RunPrepend(pkg, State(src, map[], 0), EraseCmd(eraseFirst), cmds, start);
      WrittenPrepend(EraseCmd(eraseFirst), cmds);
      OrderlyFirst(cmds, w.touched, EraseCmd(eraseFirst));
      cmds := [EraseCmd(eraseFirst)] + cmds;
    } else {
      assert Erased(src, eraseFirst, pkg.junk) == src;
    }
  }

  lemma EraseNow(pkg: Package, d: State, r: RangeSet)
    ensures Exec(pkg, d, EraseCmd(r)) == Some(d.(blocks := Erased(d.blocks, r, pkg.junk)))
  {
  }

  lemma OrderlyFirst(cmds: seq<Command>, touched: RangeSet, c: Command)
    requires Orderly(cmds, touched) && OrderlyCmd(c, touched)
    ensures Orderly([c] + cmds, touched)
  {
    forall i | 0 <= i < |[c] + cmds| ensures OrderlyCmd(([c] + cmds)[i], touched) {
      assert i > 0 ==> ([c] + cmds)[i] == cmds[i - 1];
    }
  }

  lemma FirstErase(touched: RangeSet, copied: RangeSet, dontcare: RangeSet)
    requires touched * dontcare == copied * dontcare
    ensures dontcare - touched == dontcare - copied
  {
    forall x | x in dontcare ensures x in touched <==> x in copied {
      assert x in touched * dontcare <==> x in copied * dontcare;
    }
  }

  /** The blocks at the end. */
  lemma UpdatedBlocks(im: Images, d: State, care: RangeSet, extended: RangeSet, touched: RangeSet, junk: nat -> Block)
    requires |im.tgt| <= |im.src| && Fits(care, im.tgt) && care !! extended && Fits(extended, im.src)
    requires Holds(im.(tgt := WithExtended(im.src, im.tgt, extended)), d, care + extended)
    requires im.erased == Dontcare(im.tgt, care, extended) - touched && im.base == Erased(im.src, im.erased, junk)
    ensures Erased(d.blocks, Dontcare(im.tgt, care, extended) * touched, junk) ==
            Updated(im.src, im.tgt, care, extended, junk)
  {
  }

  /** The transfers in their order; the peak never exceeds what is allowed. */
  method WriteAll(ts: seq<Transfer>, src: Image, allowed: Option<real>, ghost v: World) returns (w: Work, ghost d: State)
    requires Sound(v) && v.jobs == JobsOf(ts) && |v.p| == |ts| && v.im.src == src && RangesFit(src, v.m)
    requires Reached(v, 0, Work([], map[], 0, 0, {}, 0), v.start)
    requires allowed.Some? ==> (Peak(src, v.p, v.m, |ts|) * BLOCK_SIZE) as real <= allowed.value
    ensures Reached(v, |ts|, w, d)
  {
    hide Sound, Reached, Peak, JobOf, RangesFit;
    w, d := Work([], map[], 0, 0, {}, 0), v.start;
    for k := 0 to |ts|
      invariant Reached(v, k, w, d)
    {
      w, d := WriteTransfer(ts[k], src, w, v, k, d);
      ReachedParts(v, k + 1, w, d);
      PeakGrows(src, v.p, v.m, k + 1, |ts|);
      assert allowed.Some? ==> (w.most * BLOCK_SIZE) as real <= allowed.value;
    }
  }

  /** What follows the transfers: the extended blocks, the erase commands and the header. */
  method WriteRest(w0: Work, src: Image, tgt: Image, care: RangeSet, extended: RangeSet, version: nat, ghost pkg: Package,
                   ghost p: Plan, ghost m: StashMap, ghost jobs: seq<Job>, ghost d0: State)
    returns (file: TransferFile, touched: RangeSet, maxStashedSize: nat)
    requires Writable(pkg, src, tgt, care, p, m, jobs) && care !! extended && Fits(extended, src)
    requires Reached(WorldOf(pkg, src, tgt, Dontcare(tgt, care, extended), p, m, jobs), |p|, w0, d0)
    ensures Fits(care, tgt) && RangesFit(src, m)
    ensures Run(pkg, State(src, map[], 0), file.cmds)
            == Some(State(Updated(src, tgt, care, extended, pkg.junk), map[], |pkg.newData|))
    ensures file.version == version && file.slots == 0
    ensures file.total == Device.Written(file.cmds) == TotalBefore(p, |p|) + |extended|
    ensures file.maxStashed == Peak(src, p, m, |p|) && maxStashedSize == file.maxStashed * BLOCK_SIZE
    ensures TouchedBefore(p, |p|) <= touched <= AllSources(p) && Orderly(file.cmds, touched)
    ensures var first := Dontcare(tgt, care, extended) - touched; first != {} ==> file.cmds != [] && file.cmds[0] == EraseCmd(first)
    ensures forall dev: Image :: Agrees(dev, src, touched) ==>
              Run(pkg, State(dev, map[], 0), file.cmds)
              == Some(State(Overwritten(dev, AllWrites(file.cmds), Updated(src, tgt, care, extended, pkg.junk)), map[], |pkg.newData|))
  {
    hide Orderly, Overwritten, Writable, Reached, Run, Holds, Device.Written, Peak, Erased, WithExtended, Updated,
         TouchedBefore, WrittenBefore, NewDataBefore, RangesFit, GoodPlan, TargetsFit, Dontcare, SlotsAre,
         Books, PendingBefore, AllSources, TotalBefore, WorldOf, AllWrites, Agrees, Upto;
    var dontcare := Upto(|tgt|) - extended - care;
    DontcareWhat(tgt, care, extended);
    ghost var v := WorldOf(pkg, src, tgt, dontcare, p, m, jobs);
    WorldFields(pkg, src, tgt, dontcare, p, m, jobs);
    WritableParts(pkg, src, tgt, care, p, m, jobs);
    ReachedParts(v, |p|, w0, d0);
    NothingHeld(src, p, m, w0.counts, w0.blocks, d0.slots);
    FirstErase(w0.touched, TouchedBefore(p, |p|), dontcare);
    var w;
    ghost var d;
    w, d := WriteExtended(extended, w0, pkg, v.start, d0, v.im, care);
    UpdatedBlocks(v.im, d, care, extended, w.touched, pkg.junk);
    var cmds;
    cmds, d := WriteErases(dontcare, w, pkg, src, d);
    file := TransferFile(version, w.total, 0, w.most, cmds);
    touched, maxStashedSize := w.touched, w.most * BLOCK_SIZE;
    OtherDevices(pkg, src, cmds, touched, d, Updated(src, tgt, care, extended, pkg.junk));
  }

  /** The main theorem: the list is written without any of the writer's assertions failing, and running it on a
      device that holds the source image gives the target image; every slot is free again, the new data is used up
      and the header announces the blocks written and the stash space needed. It is enough that the device agrees with the
      source image in the touched blocks: then no command fails either, what is written is the same, and the other blocks
      stay. */
  method WriteTransfers(ts: seq<Transfer>, src: Image, tgt: Image, care: RangeSet, extended: RangeSet, version: nat,
                        allowed: Option<real>, ghost pkg: Package, ghost m: StashMap)
    returns (file: TransferFile, touched: RangeSet, maxStashedSize: nat)
    requires Writable(pkg, src, tgt, care, Snapshot(ts), m, JobsOf(ts))
    requires care !! extended && Fits(extended, src)
    requires allowed.Some? ==> (Peak(src, Snapshot(ts), m, |ts|) * BLOCK_SIZE) as real <= allowed.value
    ensures Fits(care, tgt)
    ensures Run(pkg, State(src, map[], 0), file.cmds)
            == Some(State(Updated(src, tgt, care, extended, pkg.junk), map[], |pkg.newData|))
    ensures file.version == version && file.slots == 0
    ensures file.total == Device.Written(file.cmds) == TotalBefore(Snapshot(ts), |ts|) + |extended|
    ensures file.maxStashed == Peak(src, Snapshot(ts), m, |ts|) && maxStashedSize == file.maxStashed * BLOCK_SIZE
    ensures TouchedBefore(Snapshot(ts), |ts|) <= touched <= AllSources(Snapshot(ts)) && Orderly(file.cmds, touched)
    ensures var first := Dontcare(tgt, care, extended) - touched; first != {} ==> file.cmds != [] && file.cmds[0] == EraseCmd(first)
    ensures forall dev: Image :: Agrees(dev, src, touched) ==>
              Run(pkg, State(dev, map[], 0), file.cmds)
              == Some(State(Overwritten(dev, AllWrites(file.cmds), Updated(src, tgt, care, extended, pkg.junk)), map[], |pkg.newData|))
  {
    hide Orderly, Overwritten, Writable, Sound, Reached, Run, Device.Written, Peak, Updated, TouchedBefore, RangesFit,
         Dontcare,
         AllSources, TotalBefore, WorldOf, JobsOf, Snapshot, AllWrites, Agrees, Snap, JobOf;
    ghost var p, jobs := Snapshot(ts), JobsOf(ts);
    ghost var dontcare := Dontcare(tgt, care, extended);
    ghost var v := WorldOf(pkg, src, tgt, dontcare, p, m, jobs);
    WorldFields(pkg, src, tgt, dontcare, p, m, jobs);
    WorldSound(pkg, src, tgt, care, extended, p, m, jobs);
    ReachedStart(pkg, src, tgt, care, dontcare, p, m, jobs);
    WritableParts(pkg, src, tgt, care, p, m, jobs);
    var w;
    ghost var d;
    w, d := WriteAll(ts, src, allowed, v);
    file, touched, maxStashedSize := WriteRest(w, src, tgt, care, extended, version, pkg, p, m, jobs, d);
  }

  /** The device holds in these blocks what the source image holds. */
  ghost predicate Agrees(dev: Image, src: Image, touched: RangeSet) {
    |dev| == |src| && forall i :: 0 <= i < |src| && i in touched ==> dev[i] == src[i]
  }

  ghost function Overwritten(dev: Image, written: RangeSet, img: Image): (r: Image)
    requires |dev| == |img|
    ensures |r| == |dev|
  {
    seq(|dev|, i requires 0 <= i < |dev| => if i in written then img[i] else dev[i])
  }

  lemma OtherDevice(pkg: Package, src: Image, dev: Image, cmds: seq<Command>, touched: RangeSet, d: State, img: Image)
    requires Agrees(dev, src, touched) && Orderly(cmds, touched) && Run(pkg, State(src, map[], 0), cmds) == Some(d)
    requires d.blocks == img && |img| == |src|
    ensures Run(pkg, State(dev, map[], 0), cmds) == Some(d.(blocks := Overwritten(dev, AllWrites(cmds), img)))
  {
    hide Run, Orderly, AllWrites;
    RunAlike(pkg, State(src, map[], 0), State(dev, map[], 0), cmds, touched);
    var e := Run(pkg, State(dev, map[], 0), cmds).value;
    assert e.blocks == Overwritten(dev, AllWrites(cmds), img);
  }

  lemma OtherDevices(pkg: Package, src: Image, cmds: seq<Command>, touched: RangeSet, d: State, img: Image)
    requires Orderly(cmds, touched) && Run(pkg, State(src, map[], 0), cmds) == Some(d) && d.blocks == img && |img| == |src|
    ensures forall dev: Image :: Agrees(dev, src, touched) ==>
              Run(pkg, State(dev, map[], 0), cmds) == Some(d.(blocks := Overwritten(dev, AllWrites(cmds), img)))
  {
    hide Run, Orderly, AllWrites, Overwritten;
    forall dev: Image | Agrees(dev, src, touched)
      ensures Run(pkg, State(dev, map[], 0), cmds) == Some(d.(blocks := Overwritten(dev, AllWrites(cmds), img)))
    {
      OtherDevice(pkg, src, dev, cmds, touched, d, img);
    }
  }

  lemma WritableParts(pkg: Package, src: Image, tgt: Image, care: RangeSet, p: Plan, m: StashMap, jobs: seq<Job>)
    requires Writable(pkg, src, tgt, care, p, m, jobs)
    ensures |tgt| <= |src| && WrittenBefore(p, |p|) == care && TargetsFit(p, tgt)
    ensures pkg.newData == NewDataBefore(p, tgt, |p|) && GoodPlan(p, m) && RangesFit(src, m)
    ensures Fits(care, tgt)
  {
    hide GoodPlan, RangesFit, NewDataBefore, Ready;
    forall x | x in care ensures x < |tgt| {
      WrittenMember(p, |p|, x);
    }
  }

  lemma {:induction false} PeakGrows(img: Image, p: Plan, m: StashMap, k: nat, n: nat)
    requires RangesFit(img, m) && k <= n <= |p|
    ensures Peak(img, p, m, k) <= Peak(img, p, m, n)
  {
    if k < n {
      PeakGrows(img, p, m, k, n - 1);
    }
  }
}
