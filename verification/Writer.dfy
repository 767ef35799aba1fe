/** Writing the transfer list, and what running it on the device gives. */
module Writer {
  import opened Ranges
  import opened Transfers
  import opened FeedbackArc
  import opened Plans
  import opened Slots
  import opened StashLimit
  import opened Device

  /** The pieces do not meet and together give the whole. */
  ghost predicate Partition(total: RangeSet, pieces: seq<RangeSet>) {
    && (forall i, j :: 0 <= i < j < |pieces| ==> pieces[i] !! pieces[j])
    && (forall i :: 0 <= i < |pieces| ==> pieces[i] <= total)
    && (forall x :: x in total ==> exists i :: 0 <= i < |pieces| && x in pieces[i])
  }

  /** The run-time check of the writer: it passes exactly on partitions. */
  method AssertPartition(total: RangeSet, pieces: seq<RangeSet>) returns (ok: bool)
    ensures ok <==> Partition(total, pieces)
  {
    var soFar: RangeSet := {};
    for n := 0 to |pieces|
      invariant forall i, j :: 0 <= i < j < n ==> pieces[i] !! pieces[j]
      invariant forall x :: x in soFar <==> exists i :: 0 <= i < n && x in pieces[i]
    {
      if soFar * pieces[n] != {} {
        var x :| x in soFar && x in pieces[n];
        var i :| 0 <= i < n && x in pieces[i];
        assert !(pieces[i] !! pieces[n]);
        return false;
      }
      forall i | 0 <= i < n ensures pieces[i] !! pieces[n] {
        forall x | x in pieces[i] ensures x !in pieces[n] {
          assert x in soFar && x !in soFar * pieces[n];
        }
      }
      soFar := soFar + pieces[n];
    }
    ok := soFar == total;
  }

  // The stashes that are used by one command, packed to source positions.

  ghost predicate UsesGood(src: RangeSet, uses: seq<Stash>) {
    && (forall i :: 0 <= i < |uses| ==> uses[i].1 <= src)
    && (forall i, j :: 0 <= i < j < |uses| ==> uses[i].1 !! uses[j].1)
  }

  ghost function Locs(src: RangeSet, uses: seq<Stash>): seq<RangeSet> {
    seq(|uses|, i requires 0 <= i < |uses| => MapWithin(src, uses[i].1))
  }

  lemma MapWithinDisjoint(src: RangeSet, a: RangeSet, b: RangeSet)
    requires a <= src && b <= src && a !! b
    ensures MapWithin(src, a) !! MapWithin(src, b)
  {
    forall x | x in a ensures Rank(src, x) !in MapWithin(src, b) {
      MapWithinMember(src, b, x);
    }
  }

  lemma MapWithinCovers(src: RangeSet, k: nat)
    requires k < |src|
    ensures Sorted(src)[k] in src && Rank(src, Sorted(src)[k]) == k
  {
    SortedElement(src, k);
    SortedRank(src, k);
  }

  /** Packed pieces of a partition of the source are a partition of the positions. */
  lemma LocsPartition(src: RangeSet, pieces: seq<RangeSet>)
    requires Partition(src, pieces)
    ensures Partition(Upto(|src|), seq(|pieces|, i requires 0 <= i < |pieces| => MapWithin(src, pieces[i])))
  {
    var packed := seq(|pieces|, i requires 0 <= i < |pieces| => MapWithin(src, pieces[i]));
    forall i, j | 0 <= i < j < |packed| ensures packed[i] !! packed[j] {
      MapWithinDisjoint(src, pieces[i], pieces[j]);
    }
    forall i | 0 <= i < |packed| ensures packed[i] <= Upto(|src|) {
      forall x | x in pieces[i] ensures Rank(src, x) < |src| {
        RankSorted(src, x);
      }
    }
    forall k | k in Upto(|src|) ensures exists i :: 0 <= i < |packed| && k in packed[i] {
      MapWithinCovers(src, k);
      var i :| 0 <= i < |pieces| && Sorted(src)[k] in pieces[i];
      assert k in packed[i];
    }
  }

  // What the device looks like after the first commands.

  ghost function WrittenBefore(p: Plan, i: nat): RangeSet
    requires i <= |p|
  {
    if i == 0 then {} else WrittenBefore(p, i - 1) + p[i - 1].tgt
  }

  lemma {:induction false} WrittenMember(p: Plan, i: nat, x: nat)
    requires i <= |p|
    ensures x in WrittenBefore(p, i) <==> exists k :: 0 <= k < i && x in p[k].tgt
  {
    if i > 0 {
      WrittenMember(p, i - 1, x);
    }
  }

  /** The images an update goes between, and what the device holds once the blocks in `erased` are erased. */
  datatype Images = Images(src: Image, tgt: Image, erased: RangeSet, base: Image)

  /** Written blocks hold the target, and all others are as at the start. */
  ghost predicate Holds(im: Images, d: State, written: RangeSet) {
    && |im.tgt| <= |im.src| == |im.base| == |d.blocks| && Fits(written, im.tgt)
    && (forall x :: 0 <= x < |im.src| && x !in im.erased ==> im.base[x] == im.src[x])
    && (forall x :: 0 <= x < |im.src| ==> d.blocks[x] == if x in written then im.tgt[x] else im.base[x])
  }

  lemma HoldsWrite(im: Images, d: State, written: RangeSet, r: RangeSet, pos: nat)
    requires Holds(im, d, written) && Fits(r, im.tgt)
    ensures Fits(r, d.blocks) && |im.tgt| <= |d.blocks|
    ensures Holds(im, d.(blocks := Write(d.blocks, r, Read(im.tgt, r)), newPos := pos), written + r)
  {
    var out := Write(d.blocks, r, Read(im.tgt, r));
    forall x | 0 <= x < |d.blocks| ensures out[x] == if x in r then im.tgt[x] else d.blocks[x] {
      WriteRead(d.blocks, r, im.tgt, x);
    }
  }

  /** Blocks that already hold what they should count as written. */
  lemma HoldsSame(im: Images, d: State, written: RangeSet, r: RangeSet)
    requires Holds(im, d, written) && Fits(r, im.tgt)
    requires forall x :: x in r ==> x in written || (x !in im.erased && im.src[x] == im.tgt[x])
    ensures Holds(im, d, written + r)
  {
  }

  /** Source blocks can still be read as long as nothing has touched them. */
  lemma HoldsRead(im: Images, d: State, written: RangeSet, r: RangeSet)
    requires Holds(im, d, written) && Fits(r, im.src)
    requires forall x :: x in r ==> x !in written && x !in im.erased
    ensures Fits(r, d.blocks) && Read(d.blocks, r) == Read(im.src, r)
  {
    ReadAgrees(d.blocks, im.src, r);
  }

  lemma HoldsBounds(im: Images, d: State, written: RangeSet)
    requires Holds(im, d, written)
    ensures |im.tgt| <= |d.blocks|
  {
  }

  /** The new-data file as the first `i` commands use it. */
  ghost function NewDataBefore(p: Plan, tgt: Image, i: nat): seq<Block>
    requires i <= |p| && forall k :: 0 <= k < |p| ==> Fits(p[k].tgt, tgt)
  {
    if i == 0 then []
    else NewDataBefore(p, tgt, i - 1) + (if p[i - 1].style == New then Read(tgt, p[i - 1].tgt) else [])
  }

  // The source of one command.

  ghost function RefsOf(src: RangeSet, img: Image, uses: seq<Stash>): (r: seq<StashRef>)
    requires AllFit(uses, img)
    ensures |r| == |uses|
  {
    seq(|uses|, i requires 0 <= i < |uses| => (Read(img, uses[i].1), MapWithin(src, uses[i].1)))
  }

  /** Every stash used here is in its slot. */
  ghost predicate InSlots(uses: seq<Stash>, img: Image, slots: map<Hash, seq<Block>>) {
    forall i :: 0 <= i < |uses| ==>
      && Fits(uses[i].1, img)
      && Read(img, uses[i].1) in slots && slots[Read(img, uses[i].1)] == Read(img, uses[i].1)
  }

  lemma NoneStashed(uses: seq<Stash>)
    requires uses == []
    ensures StashedFor(uses) == {}
  {
  }

  lemma StashedForNext(uses: seq<Stash>, n: nat)
    requires n < |uses|
    ensures StashedFor(uses[..n + 1]) == StashedFor(uses[..n]) + uses[n].1
  {
    assert uses[..n + 1] == uses[..n] + [uses[n]];
    forall x ensures x in StashedFor(uses[..n + 1]) <==> x in StashedFor(uses[..n]) || x in uses[n].1 {
      if x in uses[n].1 { assert uses[n] in uses[..n + 1]; }
      if s :| s in uses[..n] && x in s.1 { assert s in uses[..n + 1]; }
    }
  }

  /** Laying one more stash into the buffer fills in its blocks. */
  lemma RefFills(b: seq<Block>, src: RangeSet, img: Image, done: RangeSet, s: Stash, slots: map<Hash, seq<Block>>)
    requires Fits(src, img) && Filled(b, src, img, done)
    requires s.1 <= src && InSlots([s], img, slots)
    ensures Fits(s.1, img) && Read(img, s.1) in slots && slots[Read(img, s.1)] == Read(img, s.1)
    ensures |Read(img, s.1)| == |MapWithin(src, s.1)| && Positions(MapWithin(src, s.1), |b|)
    ensures Filled(Scatter(b, MapWithin(src, s.1), Read(img, s.1)), src, img, done + s.1)
  {
    assert [s][0] == s;
    ScatterFills(b, src, img, done, s.1);
  }

  /** Laying the stashes into the buffer, one after the other, fills in their blocks. */
  lemma {:induction false} RefsFill(buf: seq<Block>, src: RangeSet, img: Image, done: RangeSet, uses: seq<Stash>,
                                    slots: map<Hash, seq<Block>>)
    requires Fits(src, img) && Filled(buf, src, img, done)
    requires InSlots(uses, img, slots) && forall i :: 0 <= i < |uses| ==> uses[i].1 <= src
    ensures var r := ScatterRefs(buf, RefsOf(src, img, uses), slots);
            r.Some? && Filled(r.value, src, img, done + StashedFor(uses))
  {
    hide Filled, Read, Scatter, MapWithin, StashedFor, Positions;
    var refs := RefsOf(src, img, uses);
    if uses == [] {
      NoneStashed(uses);
      assert done + StashedFor(uses) == done;
    } else {
      var n := |uses| - 1;
      assert refs[..n] == RefsOf(src, img, uses[..n]);
      RefsFill(buf, src, img, done, uses[..n], slots);
      var b := ScatterRefs(buf, refs[..n], slots).value;
      StashedForNext(uses, n);
      assert uses[..n + 1] == uses;
      RefFills(b, src, img, done + StashedFor(uses[..n]), uses[n], slots);
      assert done + StashedFor(uses[..n]) + uses[n].1 == done + StashedFor(uses);
    }
  }

  ghost function SpecOf(src: RangeSet, img: Image, uses: seq<Stash>): SrcSpec
    requires AllFit(uses, img)
  {
    var unstashed := src - StashedFor(uses);
    if unstashed == {} then StashOnly(|src|, RefsOf(src, img, uses))
    else if uses == [] then Direct(|src|, unstashed)
    else Mixed(|src|, unstashed, MapWithin(src, unstashed), RefsOf(src, img, uses))
  }

  /** The source the device loads is the source in the source image. */
  lemma LoadGood(src: RangeSet, img: Image, uses: seq<Stash>, d: State)
    requires Fits(src, img) && UsesGood(src, uses) && InSlots(uses, img, d.slots)
    requires var u := src - StashedFor(uses); Fits(u, d.blocks) && Read(d.blocks, u) == Read(img, u)
    ensures Load(SpecOf(src, img, uses), d) == Some(Read(img, src))
  {
    var u := src - StashedFor(uses);
    var blank := Blank(|src|);
    assert Filled(blank, src, img, {});
    if u == {} {
      RefsFill(blank, src, img, {}, uses, d.slots);
      var r := ScatterRefs(blank, RefsOf(src, img, uses), d.slots).value;
      assert Filled(r, src, img, src);
      FilledWhole(r, src, img);
    } else if uses == [] {
      assert StashedFor(uses) == {} && u == src;
    } else {
      ScatterFills(blank, src, img, {}, u);
      var b := Scatter(blank, MapWithin(src, u), Read(img, u));
      RefsFill(b, src, img, {} + u, uses, d.slots);
      var r := ScatterRefs(b, RefsOf(src, img, uses), d.slots).value;
      assert Filled(r, src, img, src);
      FilledWhole(r, src, img);
    }
  }

  /** The slots that went from `c` to `c'` are those in `frees`, each once. */
  ghost predicate Freed(c: Counts, c': Counts, frees: seq<Hash>) {
    && (forall i, j :: 0 <= i < j < |frees| ==> frees[i] != frees[j])
    && (forall i :: 0 <= i < |frees| ==> frees[i] in c && frees[i] !in c')
    && c'.Keys + Members(frees) == c.Keys
  }

  lemma FreedNext(c: Counts, c1: Counts, frees: seq<Hash>, h: Hash)
    requires Freed(c, c1, frees) && h in c1 && c1[h] > 0
    ensures Freed(c, Release(c1, h), if c1[h] == 1 then frees + [h] else frees)
  {
    if c1[h] == 1 {
      MembersConcat(frees, [h]);
    }
  }

  /** Takes one stash from its slot; the slot goes with its last id. */
  method TakeStash(src: RangeSet, s: Stash, img: Image, c: Counts, ghost c0: Counts, frees: seq<Hash>,
                   ghost held: Pending, ghost blocks: nat)
    returns (sh: Hash, locs: RangeSet, c': Counts, frees': seq<Hash>, size: nat)
    requires s.1 <= src && Fits(s.1, img) && s.0 in held && held[s.0] == Read(img, s.1)
    requires Books(held, c, blocks) && Freed(c0, c, frees)
    ensures sh == Read(img, s.1) && locs == MapWithin(src, s.1)
    ensures size <= blocks && Books(held - {s.0}, c', blocks - size) && Freed(c0, c', frees')
  {
    hide Books, Freed, Slots.Release;
    ReadSize(img, s.1);
    RankImageSize(src, s.1);
    ReleaseBooks(held, c, blocks, s.0);
    sh := Read(img, s.1);
    locs := MapWithin(src, s.1);
    assert sh in c;
    FreedNext(c0, c, frees, sh);
    frees', size := frees, 0;
    if c[sh] == 1 {
      frees', size := frees + [sh], |locs|;
    }
    c' := Slots.Release(c, sh);
  }

  /** Takes the stashes of one command from their slots: the references to them, what is left to be
      read from the device, and the slots that are done with. */
  method TakeStashes(src: RangeSet, uses: seq<Stash>, img: Image, c: Counts, ghost held: Pending, ghost blocks: nat)
    returns (unstashed: RangeSet, refs: seq<StashRef>, mapped: seq<RangeSet>,
             c': Counts, frees: seq<Hash>, freeSize: nat)
    requires UsesGood(src, uses) && NoRepeat(uses) && AllHeld(uses, held, img) && Books(held, c, blocks)
    ensures unstashed == src - StashedFor(uses)
    ensures AllFit(uses, img)
    ensures refs == RefsOf(src, img, uses) && mapped == Locs(src, uses)
    ensures freeSize <= blocks && Books(Without(held, Ids(uses)), c', blocks - freeSize)
    ensures Freed(c, c', frees)
  {
    hide *;
    unstashed, refs, mapped, c', frees, freeSize := src, [], [], c, [], 0;
    TakeStart(src, uses, img, held, c);
    for n := 0 to |uses|
      invariant unstashed == src - StashedFor(uses[..n])
      invariant refs == RefsOf(src, img, uses)[..n] && mapped == Locs(src, uses)[..n]
      invariant freeSize <= blocks && Books(Without(held, Ids(uses[..n])), c', blocks - freeSize)
      invariant Freed(c, c', frees)
    {
      SubtractNext(src, uses, n);
      unstashed := unstashed - uses[n].1;
      UseNext(uses, n, held, img);
      UseInside(src, uses, n);
      PiecesNext(src, img, uses, n);
      var sh, locs, size;
      sh, locs, c', frees, size := TakeStash(src, uses[n], img, c', c, frees,
                                             Without(held, Ids(uses[..n])), blocks - freeSize);
      mapped := mapped + [locs];
      refs := refs + [(sh, locs)];
      freeSize := freeSize + size;
    }
    WholePrefix(uses);
    WholePrefix(refs);
    WholePrefix(mapped);
  }

  lemma WholePrefix<T>(s: seq<T>)
    ensures s[..|s|] == s
  {
  }

  lemma SubtractNext(src: RangeSet, uses: seq<Stash>, n: nat)
    requires n < |uses|
    ensures src - StashedFor(uses[..n]) - uses[n].1 == src - StashedFor(uses[..n + 1])
  {
    StashedForNext(uses, n);
  }

  lemma UseInside(src: RangeSet, uses: seq<Stash>, n: nat)
    requires UsesGood(src, uses) && n < |uses|
    ensures uses[n].1 <= src
  {
  }

  lemma PiecesNext(src: RangeSet, img: Image, uses: seq<Stash>, n: nat)
    requires n < |uses| && AllFit(uses, img) && Fits(uses[n].1, img)
    ensures |Locs(src, uses)| == |uses|
    ensures RefsOf(src, img, uses)[..n + 1] ==
            RefsOf(src, img, uses)[..n] + [(Read(img, uses[n].1), MapWithin(src, uses[n].1))]
    ensures Locs(src, uses)[..n + 1] == Locs(src, uses)[..n] + [MapWithin(src, uses[n].1)]
  {
  }

  lemma TakeStart(src: RangeSet, uses: seq<Stash>, img: Image, held: Pending, c: Counts)
    requires AllHeld(uses, held, img)
    ensures StashedFor(uses[..0]) == {}
    ensures Without(held, Ids(uses[..0])) == held
    ensures Freed(c, c, []) && AllFit(uses, img) && |Locs(src, uses)| == |uses|
  {
    forall i | 0 <= i < |uses| ensures Fits(uses[i].1, img) {
      assert uses[i] in uses;
    }
  }

  // The stashes one command makes.

  ghost predicate SlotsAre(slots: map<Hash, seq<Block>>, c: Counts) {
    slots.Keys == c.Keys && forall h :: h in slots ==> slots[h] == h
  }

  /** The ranges to be stashed still hold the source on the device. */
  ghost predicate Untouched(list: seq<Stash>, img: Image, dev: Image) {
    forall i :: 0 <= i < |list| ==>
      Fits(list[i].1, img) && Fits(list[i].1, dev) && Read(dev, list[i].1) == Read(img, list[i].1)
  }

  lemma StashExec(pkg: Package, start: State, out: seq<Command>, d: State, c: Counts, s: Stash, img: Image)
    requires Run(pkg, start, out) == Some(d) && SlotsAre(d.slots, c)
    requires Fits(s.1, img) && Fits(s.1, d.blocks) && Read(d.blocks, s.1) == Read(img, s.1)
    ensures var h := Read(img, s.1);
            var d' := d.(slots := d.slots[h := h]);
            && Run(pkg, start, out + [StashCmd(h, s.1)]) == Some(d')
            && SlotsAre(d'.slots, Acquire(c, h))
            && Device.Written(out + [StashCmd(h, s.1)]) == Device.Written(out)
  {
    var h := Read(img, s.1);
    RunAppend(pkg, start, out, StashCmd(h, s.1), d);
    assert (out + [StashCmd(h, s.1)])[..|out|] == out;
  }

  method EmitStash(s: Stash, img: Image, out: seq<Command>, c: Counts, blocks: nat, touched: RangeSet,
                   ghost pkg: Package, ghost start: State, ghost d: State, ghost held: Pending)
    returns (out': seq<Command>, c': Counts, blocks': nat, touched': RangeSet, ghost d': State)
    requires Run(pkg, start, out) == Some(d) && SlotsAre(d.slots, c)
    requires Fits(s.1, img) && Fits(s.1, d.blocks) && Read(d.blocks, s.1) == Read(img, s.1)
    requires Books(held, c, blocks) && s.0 !in held
    ensures Run(pkg, start, out') == Some(d') && SlotsAre(d'.slots, c') && d' == d.(slots := d'.slots)
    ensures Books(held[s.0 := Read(img, s.1)], c', blocks')
    ensures touched <= touched' <= touched + s.1
    ensures Device.Written(out') == Device.Written(out) && (Orderly(out, touched) ==> Orderly(out', touched'))
  {
    hide Books, Run, Read, Device.Written, Orderly;
    var sh := Read(img, s.1);
    TakeBooks(held, c, blocks, s.0, sh);
    ReadSize(img, s.1);
    out', blocks', touched', d' := out, blocks, touched, d;
    c' := Acquire(c, sh);
    if sh !in c {
      StashExec(pkg, start, out, d, c, s, img);
      blocks' := blocks + |s.1|;
      touched' := touched + s.1;
      if Orderly(out, touched) { OrderlyMore(out, touched, StashCmd(sh, s.1), touched'); }
      out' := out + [StashCmd(sh, s.1)];
      d' := d.(slots := d.slots[sh := sh]);
    }
  }

  method EmitStashes(list: seq<Stash>, img: Image, out: seq<Command>, c: Counts, blocks: nat, touched: RangeSet,
                     ghost pkg: Package, ghost start: State, ghost d: State, ghost held: Pending)
    returns (out': seq<Command>, c': Counts, blocks': nat, touched': RangeSet, ghost d': State)
    requires Run(pkg, start, out) == Some(d) && SlotsAre(d.slots, c)
    requires Untouched(list, img, d.blocks) && AllFit(list, img) && NoRepeat(list)
    requires Books(held, c, blocks) && forall s :: s in list ==> s.0 !in held
    ensures Run(pkg, start, out') == Some(d') && SlotsAre(d'.slots, c') && d' == d.(slots := d'.slots)
    ensures Books(Adding(held, img, list), c', blocks')
    ensures touched <= touched' <= touched + StashedFor(list)
    ensures Device.Written(out') == Device.Written(out) && (Orderly(out, touched) ==> Orderly(out', touched'))
  {
    hide Orderly, Books, Run, Read, Device.Written, Untouched, AllFit, NoRepeat, Adding, SlotsAre, StashedFor;
    out', c', blocks', touched', d' := out, c, blocks, touched, d;
    ghost var now := held;
    AddStart(held, img, list);
    for n := 0 to |list|
      invariant AllFit(list[..n], img) && now == Adding(held, img, list[..n])
      invariant Run(pkg, start, out') == Some(d') && SlotsAre(d'.slots, c') && d' == d.(slots := d'.slots)
      invariant Books(now, c', blocks')
      invariant touched <= touched' <= touched + StashedFor(list[..n])
      invariant Device.Written(out') == Device.Written(out) && (Orderly(out, touched) ==> Orderly(out', touched'))
    {
      AddNext(held, img, list, n);
      UntouchedAt(list, img, d'.blocks, n);
      ghost var more := StashedFor(list[..n]);
      StashedForNext(list, n);
      out', c', blocks', touched', d' := EmitStash(list[n], img, out', c', blocks', touched', pkg, start, d', now);
      now := now[list[n].0 := Read(img, list[n].1)];
    }
    WholePrefix(list);
  }

  lemma AddStart(held: Pending, img: Image, list: seq<Stash>)
    ensures AllFit(list[..0], img) && Adding(held, img, list[..0]) == held
  {
  }

  lemma AddNext(held: Pending, img: Image, list: seq<Stash>, n: nat)
    requires n < |list| && AllFit(list, img) && NoRepeat(list) && forall s :: s in list ==> s.0 !in held
    ensures AllFit(list[..n], img) && AllFit(list[..n + 1], img) && Fits(list[n].1, img)
    ensures list[n].0 !in Adding(held, img, list[..n])
    ensures Adding(held, img, list[..n + 1]) == Adding(held, img, list[..n])[list[n].0 := Read(img, list[n].1)]
  {
    assert list[..n + 1][..n] == list[..n];
    AddingMember(held, img, list[..n], list[n].0);
    forall t | t in list[..n] ensures t.0 != list[n].0 {
      var i :| 0 <= i < n && list[i] == t;
    }
  }

  lemma UntouchedAt(list: seq<Stash>, img: Image, dev: Image, n: nat)
    requires Untouched(list, img, dev) && n < |list|
    ensures Fits(list[n].1, img) && Fits(list[n].1, dev) && Read(dev, list[n].1) == Read(img, list[n].1)
  {
  }

  // Freed slots.

  lemma FreeExec(pkg: Package, start: State, out: seq<Command>, d: State, h: Hash)
    requires Run(pkg, start, out) == Some(d) && h in d.slots
    ensures Run(pkg, start, out + [FreeCmd(h)]) == Some(d.(slots := d.slots - {h}))
    ensures Device.Written(out + [FreeCmd(h)]) == Device.Written(out)
  {
    RunAppend(pkg, start, out, FreeCmd(h), d);
    assert (out + [FreeCmd(h)])[..|out|] == out;
  }

  lemma FreeNext(c: Counts, c': Counts, frees: seq<Hash>, n: nat, slots: map<Hash, seq<Block>>)
    requires Freed(c, c', frees) && SlotsAre(slots, c) && n < |frees|
    ensures frees[n] in slots - Members(frees[..n])
    ensures slots - Members(frees[..n]) - {frees[n]} == slots - Members(frees[..n + 1])
  {
    TakeOne(frees, n);
    forall i | 0 <= i < n ensures frees[i] != frees[n] {
    }
  }

  lemma FreeDone(c: Counts, c': Counts, frees: seq<Hash>, slots: map<Hash, seq<Block>>)
    requires Freed(c, c', frees) && SlotsAre(slots, c)
    ensures SlotsAre(slots - Members(frees), c')
  {
    forall h | h in c'.Keys ensures h !in Members(frees) {
    }
  }

  method EmitFrees(frees: seq<Hash>, out: seq<Command>, ghost pkg: Package, ghost start: State, ghost d: State,
                   ghost c: Counts, ghost c': Counts, ghost touched: RangeSet)
    returns (out': seq<Command>, ghost d': State)
    requires Run(pkg, start, out) == Some(d) && SlotsAre(d.slots, c) && Freed(c, c', frees) && Orderly(out, touched)
    ensures Run(pkg, start, out') == Some(d') && SlotsAre(d'.slots, c') && d' == d.(slots := d'.slots)
    ensures Device.Written(out') == Device.Written(out) && Orderly(out', touched)
  {
    hide Orderly, Run, Device.Written, SlotsAre, Freed, Members;
    out', d' := out, d;
    assert d.slots - Members(frees[..0]) == d.slots by {
      NoMembers<Hash>();
    }
    for n := 0 to |frees|
      invariant Run(pkg, start, out') == Some(d') && d' == d.(slots := d.slots - Members(frees[..n]))
      invariant Device.Written(out') == Device.Written(out) && Orderly(out', touched)
    {
      OrderlyMore(out', touched, FreeCmd(frees[n]), touched);
      FreeNext(c, c', frees, n, d.slots);
      FreeExec(pkg, start, out', d', frees[n]);
      out' := out' + [FreeCmd(frees[n])];
      d' := d'.(slots := d'.slots - {frees[n]});
    }
    WholePrefix(frees);
    FreeDone(c, c', frees, d.slots);
  }

  lemma NoMembers<T>()
    ensures Members<T>([]) == {}
  {
  }

  // New and zero blocks, at most 1024 to a command.

  const BLOCKS_LIMIT: nat := 1024

  /** The new-data file goes on with the blocks of `r`. */
  ghost predicate Supplies(pkg: Package, pos: nat, tgt: Image, r: RangeSet)
    requires Fits(r, tgt)
  {
    pos + |r| <= |pkg.newData| && pkg.newData[pos..pos + |r|] == Read(tgt, r)
  }

  lemma SuppliesSplit(pkg: Package, pos: nat, tgt: Image, r: RangeSet, first: RangeSet)
    requires Fits(r, tgt) && Supplies(pkg, pos, tgt, r)
    requires first <= r && Before(first, r - first)
    ensures Fits(first, tgt) && Fits(r - first, tgt)
    ensures |r| == |first| + |r - first|
    ensures Supplies(pkg, pos, tgt, first) && Supplies(pkg, pos + |first|, tgt, r - first)
  {
    assert first + (r - first) == r;
    ReadConcat(tgt, first, r - first);
    assert |r| == |first| + |r - first|;
    var whole := pkg.newData[pos..pos + |r|];
    assert whole[..|first|] == pkg.newData[pos..pos + |first|];
    assert whole[|first|..] == pkg.newData[pos + |first|..pos + |r|];
  }

  /** Zero blocks are all there is in `r`. */
  ghost predicate AllZero(tgt: Image, r: RangeSet)
    requires Fits(r, tgt)
  {
    forall x :: x in r ==> tgt[x] == ZeroBlock()
  }

  lemma ZeroRead(tgt: Image, r: RangeSet)
    requires Fits(r, tgt) && AllZero(tgt, r)
    ensures Read(tgt, r) == seq(|r|, _ => ZeroBlock())
  {
    forall k | 0 <= k < |r| ensures Read(tgt, r)[k] == ZeroBlock() {
      SortedElement(r, k);
    }
  }

  lemma NewExec(pkg: Package, start: State, out: seq<Command>, d: State, tgt: Image, r: RangeSet)
    requires Run(pkg, start, out) == Some(d) && Fits(r, tgt) && |tgt| <= |d.blocks| && Supplies(pkg, d.newPos, tgt, r)
    ensures Fits(r, d.blocks)
    ensures Run(pkg, start, out + [NewCmd(r)]) ==
            Some(d.(blocks := Write(d.blocks, r, Read(tgt, r)), newPos := d.newPos + |r|))
    ensures Device.Written(out + [NewCmd(r)]) == Device.Written(out) + |r|
  {
    RunAppend(pkg, start, out, NewCmd(r), d);
    assert (out + [NewCmd(r)])[..|out|] == out;
  }

  lemma ZeroExec(pkg: Package, start: State, out: seq<Command>, d: State, tgt: Image, r: RangeSet)
    requires Run(pkg, start, out) == Some(d) && Fits(r, tgt) && |tgt| <= |d.blocks| && AllZero(tgt, r)
    ensures Fits(r, d.blocks)
    ensures Run(pkg, start, out + [ZeroCmd(r)]) == Some(d.(blocks := Write(d.blocks, r, Read(tgt, r))))
    ensures Device.Written(out + [ZeroCmd(r)]) == Device.Written(out) + |r|
  {
    ZeroRead(tgt, r);
    RunAppend(pkg, start, out, ZeroCmd(r), d);
    assert (out + [ZeroCmd(r)])[..|out|] == out;
  }

  /** What is still to be written comes from the new-data file, or is zero. */
  ghost predicate Source(style: Style, pkg: Package, pos: nat, tgt: Image, r: RangeSet) {
    && Fits(r, tgt)
    && (style == New ==> Supplies(pkg, pos, tgt, r))
    && (style == Zero ==> AllZero(tgt, r))
  }

  ghost function Advance(style: Style, n: nat): nat {
    if style == New then n else 0
  }

  lemma SourceSplit(style: Style, pkg: Package, pos: nat, tgt: Image, r: RangeSet, first: RangeSet)
    requires Source(style, pkg, pos, tgt, r) && first <= r && Before(first, r - first)
    ensures Source(style, pkg, pos, tgt, first)
    ensures Source(style, pkg, pos + Advance(style, |first|), tgt, r - first)
    ensures |r| == |first| + |r - first|
  {
    assert first + (r - first) == r;
    if style == New { SuppliesSplit(pkg, pos, tgt, r, first); }
  }

  /** One command of at most 1024 blocks. */
  lemma PieceExec(style: Style, pkg: Package, start: State, out: seq<Command>, d: State, im: Images,
                  written: RangeSet, r: RangeSet)
    requires style == New || style == Zero
    requires Run(pkg, start, out) == Some(d) && Holds(im, d, written) && Source(style, pkg, d.newPos, im.tgt, r)
    ensures Fits(r, d.blocks)
    ensures var c := if style == New then NewCmd(r) else ZeroCmd(r);
            var d' := d.(blocks := Write(d.blocks, r, Read(im.tgt, r)), newPos := d.newPos + Advance(style, |r|));
            && Run(pkg, start, out + [c]) == Some(d') && Holds(im, d', written + r)
            && Device.Written(out + [c]) == Device.Written(out) + |r|
  {
    hide Run, Holds, Device.Written, Write, Read, Supplies, AllZero;
    HoldsBounds(im, d, written);
    HoldsWrite(im, d, written, r, d.newPos + Advance(style, |r|));
    if style == New {
      NewExec(pkg, start, out, d, im.tgt, r);
    } else {
      ZeroExec(pkg, start, out, d, im.tgt, r);
    }
  }

  lemma LessLeft(target: RangeSet, left: RangeSet, first: RangeSet, written: RangeSet, now: RangeSet)
    requires first <= left <= target && now == written + (target - left)
    ensures left - first <= target && now + first == written + (target - (left - first))
  {
  }

  lemma NothingLeft(target: RangeSet, written: RangeSet)
    ensures target - target == {} && written + {} == written && written + (target - {}) == written + target
  {
  }

  /** One command of at most 1024 blocks. */
  method WritePiece(style: Style, left: RangeSet, out: seq<Command>, ghost pkg: Package, ghost start: State,
                    ghost d: State, ghost im: Images, ghost now: RangeSet, ghost touched: RangeSet)
    returns (first: RangeSet, out': seq<Command>, ghost d': State)
    requires (style == New || style == Zero) && left != {} && Orderly(out, touched)
    requires Run(pkg, start, out) == Some(d) && Holds(im, d, now) && Source(style, pkg, d.newPos, im.tgt, left)
    ensures first != {} && first <= left && |first| <= BLOCKS_LIMIT && |left| == |first| + |left - first|
    ensures Run(pkg, start, out') == Some(d') && Holds(im, d', now + first)
    ensures Source(style, pkg, d'.newPos, im.tgt, left - first)
    ensures d'.slots == d.slots && d'.newPos == d.newPos + Advance(style, |first|)
    ensures Device.Written(out') == Device.Written(out) + |first| && Orderly(out', touched)
  {
    hide Orderly, Run, Holds, Source, Device.Written, Advance, Before, Write, Read, First;
    first := First(left, BLOCKS_LIMIT);
    SourceSplit(style, pkg, d.newPos, im.tgt, left, first);
    PieceExec(style, pkg, start, out, d, im, now, first);
    OrderlyMore(out, touched, if style == New then NewCmd(first) else ZeroCmd(first), touched);
    out' := out + [if style == New then NewCmd(first) else ZeroCmd(first)];
    d' := d.(blocks := Write(d.blocks, first, Read(im.tgt, first)), newPos := d.newPos + Advance(style, |first|));
  }

  method WriteSplitTransfers(style: Style, target: RangeSet, out: seq<Command>, ghost pkg: Package, ghost start: State,
                             ghost d: State, ghost im: Images, ghost written: RangeSet, ghost touched: RangeSet)
    returns (out': seq<Command>, total: nat, ghost d': State)
    requires (style == New || style == Zero) && Orderly(out, touched)
    requires Run(pkg, start, out) == Some(d) && Holds(im, d, written) && Source(style, pkg, d.newPos, im.tgt, target)
    ensures Run(pkg, start, out') == Some(d') && Holds(im, d', written + target)
    ensures d'.slots == d.slots && d'.newPos == d.newPos + Advance(style, |target|)
    ensures total == |target| && Device.Written(out') == Device.Written(out) + total && Orderly(out', touched)
  {
    hide Orderly, Run, Holds, Source, Device.Written, Advance;
    out', total, d' := out, 0, d;
    var left := target;
    ghost var now := written;
    AdvanceSum(style, 0, 0);
    NothingLeft(target, written);
    while left != {}
      invariant left <= target && total + |left| == |target| && now == written + (target - left)
      invariant Run(pkg, start, out') == Some(d') && Holds(im, d', now)
      invariant Source(style, pkg, d'.newPos, im.tgt, left)
      invariant d'.slots == d.slots && d'.newPos == d.newPos + Advance(style, total)
      invariant Device.Written(out') == Device.Written(out) + total && Orderly(out', touched)
      decreases |left|
    {
      var first;
      first, out', d' := WritePiece(style, left, out', pkg, start, d', im, now, touched);
      AdvanceSum(style, total, |first|);
      LessLeft(target, left, first, written, now);
      total := total + |first|;
      left := left - first;
      now := now + first;
    }
  }

  lemma AdvanceSum(style: Style, a: nat, b: nat)
    ensures Advance(style, a) + Advance(style, b) == Advance(style, a + b) && Advance(style, 0) == 0
  {
  }
}
