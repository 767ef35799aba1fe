/** The transfer list and what the updater on the device does with it. */
module Device {
  import opened Ranges
  import opened Transfers

  /** Stashed content and the positions of the source buffer it goes to. */
  type StashRef = (Hash, RangeSet)

  /** Where the source of a command comes from: `size` blocks read straight from the device, or
      put together from device blocks and stashes, or from stashes alone. */
  datatype SrcSpec =
    | Direct(size: nat, ranges: RangeSet)
    | Mixed(size: nat, ranges: RangeSet, locs: RangeSet, refs: seq<StashRef>)
    | StashOnly(size: nat, refs: seq<StashRef>)

  datatype Command =
    | StashCmd(hash: Hash, ranges: RangeSet)
    | FreeCmd(hash: Hash)
    | MoveCmd(tgtHash: Hash, tgt: RangeSet, src: SrcSpec)
    | PatchCmd(imgdiff: bool, start: nat, len: nat, srcHash: Hash, tgtHash: Hash, tgt: RangeSet, src: SrcSpec)
    | NewCmd(tgt: RangeSet)
    | ZeroCmd(tgt: RangeSet)
    | EraseCmd(ranges: RangeSet)

  /** The partition, the stash slots and the read position in the new-data file. */
  datatype State = State(blocks: Image, slots: map<Hash, seq<Block>>, newPos: nat)

  /** The data files of the package, the patch tool, and what erased blocks read as. */
  datatype Package = Package(newData: seq<Block>, patchData: Patch,
                             apply: (bool, Patch, seq<Block>) -> seq<Block>, junk: nat -> Block)

  ghost predicate Positions(locs: RangeSet, n: nat) {
    forall k :: k in locs ==> k < n
  }

  /** Puts `data` at the positions `locs` of the buffer. */
  ghost function Scatter(buf: seq<Block>, locs: RangeSet, data: seq<Block>): (r: seq<Block>)
    requires |data| == |locs|
    ensures |r| == |buf|
  {
    seq(|buf|, k requires 0 <= k < |buf| =>
      if k in locs then RankSorted(locs, k); data[Rank(locs, k)] else buf[k])
  }

  ghost function ScatterRefs(buf: seq<Block>, refs: seq<StashRef>, slots: map<Hash, seq<Block>>): Option<seq<Block>> {
    if refs == [] then Some(buf)
    else
      var n := |refs| - 1;
      match ScatterRefs(buf, refs[..n], slots)
      case None => None
      case Some(b) =>
        var (h, locs) := refs[n];
        if h in slots && |slots[h]| == |locs| && Positions(locs, |b|) then Some(Scatter(b, locs, slots[h])) else None
  }

  ghost function Blank(n: nat): seq<Block> {
    seq(n, _ => ZeroBlock())
  }

  /** The source buffer of a command, if everything it names is there. */
  ghost function Load(src: SrcSpec, d: State): Option<seq<Block>> {
    match src
    case Direct(size, ranges) =>
      if Fits(ranges, d.blocks) && |ranges| == size then Some(Read(d.blocks, ranges)) else None
    case Mixed(size, ranges, locs, refs) =>
      if Fits(ranges, d.blocks) && |ranges| == |locs| && Positions(locs, size)
      then ScatterRefs(Scatter(Blank(size), locs, Read(d.blocks, ranges)), refs, d.slots) else None
    case StashOnly(size, refs) =>
      ScatterRefs(Blank(size), refs, d.slots)
  }

  ghost function WriteTo(d: State, tgt: RangeSet, data: seq<Block>): Option<State> {
    if Fits(tgt, d.blocks) && |data| == |tgt| then Some(d.(blocks := Write(d.blocks, tgt, data))) else None
  }

  /** One command; it fails when a hash does not match or something is missing. */
  ghost function Exec(pkg: Package, d: State, c: Command): Option<State> {
    match c
    case StashCmd(hash, ranges) =>
      if Fits(ranges, d.blocks) && Read(d.blocks, ranges) == hash
      then Some(d.(slots := d.slots[hash := Read(d.blocks, ranges)])) else None
    case FreeCmd(hash) =>
      if hash in d.slots then Some(d.(slots := d.slots - {hash})) else None
    case MoveCmd(tgtHash, tgt, src) =>
      var data := Load(src, d);
      if data == Some(tgtHash) then WriteTo(d, tgt, tgtHash) else None
    case PatchCmd(imgdiff, start, len, srcHash, tgtHash, tgt, src) =>
      var data := Load(src, d);
      if data == Some(srcHash) && start + len <= |pkg.patchData|
         && pkg.apply(imgdiff, pkg.patchData[start..start + len], srcHash) == tgtHash
      then WriteTo(d, tgt, tgtHash) else None
    case NewCmd(tgt) =>
      if d.newPos + |tgt| <= |pkg.newData|
      then WriteTo(d.(newPos := d.newPos + |tgt|), tgt, pkg.newData[d.newPos..d.newPos + |tgt|]) else None
    case ZeroCmd(tgt) =>
      WriteTo(d, tgt, seq(|tgt|, _ => ZeroBlock()))
    case EraseCmd(ranges) =>
      Some(d.(blocks := Erased(d.blocks, ranges, pkg.junk)))
  }

  ghost function Erased(img: Image, ranges: RangeSet, junk: nat -> Block): (r: Image)
    ensures |r| == |img|
  {
    seq(|img|, i requires 0 <= i < |img| => if i in ranges then junk(i) else img[i])
  }

  /** The commands in order; `None` if one of them fails. */
  ghost function Run(pkg: Package, d: State, cmds: seq<Command>): Option<State> {
    if cmds == [] then Some(d)
    else
      var n := |cmds| - 1;
      match Run(pkg, d, cmds[..n])
      case None => None
      case Some(e) => Exec(pkg, e, cmds[n])
  }

  lemma RunAppend(pkg: Package, d: State, cmds: seq<Command>, c: Command, e: State)
    requires Run(pkg, d, cmds) == Some(e)
    ensures Run(pkg, d, cmds + [c]) == Exec(pkg, e, c)
  {
    assert (cmds + [c])[..|cmds|] == cmds;
  }

  lemma {:induction false} RunPrepend(pkg: Package, d: State, c: Command, cmds: seq<Command>, e: State)
    requires Exec(pkg, d, c) == Some(e)
    ensures Run(pkg, d, [c] + cmds) == Run(pkg, e, cmds)
  {
    var all := [c] + cmds;
    if cmds == [] {
      assert all[..0] == [];
    } else {
      RunPrepend(pkg, d, c, cmds[..|cmds| - 1], e);
      assert all[..|all| - 1] == [c] + cmds[..|cmds| - 1];
    }
  }

  /** The blocks the commands write, as announced in the header of the list. */
  ghost function Written(cmds: seq<Command>): nat {
    if cmds == [] then 0
    else
      var n := |cmds| - 1;
      Written(cmds[..n]) + match cmds[n] {
        case MoveCmd(_, tgt, _) => |tgt|
        case PatchCmd(_, _, _, _, _, tgt, _) => |tgt|
        case NewCmd(tgt) => |tgt|
        case ZeroCmd(tgt) => |tgt|
        case _ => 0
      }
  }

  // What a list reads and writes.

  /** The blocks that a command reads from the device. */
  ghost function DeviceReads(c: Command): RangeSet {
    match c
    case StashCmd(_, ranges) => ranges
    case MoveCmd(_, _, src) => SpecReads(src)
    case PatchCmd(_, _, _, _, _, _, src) => SpecReads(src)
    case _ => {}
  }

  ghost function SpecReads(src: SrcSpec): RangeSet {
    match src
    case Direct(_, ranges) => ranges
    case Mixed(_, ranges, _, _) => ranges
    case StashOnly(_, _) => {}
  }

  ghost function DeviceWrites(c: Command): RangeSet {
    match c
    case MoveCmd(_, tgt, _) => tgt
    case PatchCmd(_, _, _, _, _, tgt, _) => tgt
    case NewCmd(tgt) => tgt
    case ZeroCmd(tgt) => tgt
    case EraseCmd(ranges) => ranges
    case _ => {}
  }

  ghost function AllWrites(cmds: seq<Command>): RangeSet {
    if cmds == [] then {} else AllWrites(cmds[..|cmds| - 1]) + DeviceWrites(cmds[|cmds| - 1])
  }

  /** The command reads no other blocks of the device than these, and has no more than 1024 if it has new data or zeros to
      write. */
  ghost predicate OrderlyCmd(c: Command, touched: RangeSet) {
    DeviceReads(c) <= touched && (c.NewCmd? || c.ZeroCmd? ==> 0 < |DeviceWrites(c)| <= 1024)
  }

  ghost predicate Orderly(cmds: seq<Command>, touched: RangeSet) {
    forall i :: 0 <= i < |cmds| ==> OrderlyCmd(cmds[i], touched)
  }

  lemma OrderlyMore(cmds: seq<Command>, touched: RangeSet, c: Command, touched': RangeSet)
    requires Orderly(cmds, touched) && touched <= touched' && OrderlyCmd(c, touched')
    ensures Orderly(cmds + [c], touched')
  {
    forall i | 0 <= i < |cmds + [c]| ensures OrderlyCmd((cmds + [c])[i], touched') {
      assert i < |cmds| ==> OrderlyCmd(cmds[i], touched);
    }
  }

  /** Two devices that hold the same slots, and the same blocks in `s`. */
  ghost predicate Alike(d: State, e: State, s: RangeSet) {
    && |d.blocks| == |e.blocks| && d.slots == e.slots && d.newPos == e.newPos
    && forall i :: 0 <= i < |d.blocks| && i in s ==> d.blocks[i] == e.blocks[i]
  }

  lemma LoadAlike(src: SrcSpec, d: State, e: State, s: RangeSet)
    requires Alike(d, e, s) && SpecReads(src) <= s
    ensures Load(src, d) == Load(src, e)
  {
    hide ScatterRefs, Scatter;
    var r := SpecReads(src);
    if Fits(r, d.blocks) {
      ReadAlike(d, e, s, r);
    }
  }

  lemma ReadAlike(d: State, e: State, s: RangeSet, r: RangeSet)
    requires Alike(d, e, s) && r <= s && Fits(r, d.blocks)
    ensures Fits(r, e.blocks) && Read(d.blocks, r) == Read(e.blocks, r)
  {
    forall k | 0 <= k < |r| ensures Read(d.blocks, r)[k] == Read(e.blocks, r)[k] {
      SortedElement(r, k);
    }
  }

  /** A command does the same on both, and leaves the blocks it does not write. */
  lemma ExecAlike(pkg: Package, d: State, e: State, c: Command, s: RangeSet)
    requires Alike(d, e, s) && DeviceReads(c) <= s && Exec(pkg, d, c).Some?
    ensures Exec(pkg, e, c).Some?
    ensures var d', e' := Exec(pkg, d, c).value, Exec(pkg, e, c).value;
            && Alike(d', e', s + DeviceWrites(c)) && |e'.blocks| == |e.blocks|
            && forall i :: 0 <= i < |e.blocks| && i !in DeviceWrites(c) ==> e'.blocks[i] == e.blocks[i]
  {
    hide Load, Read;
    match c
    case StashCmd(_, ranges) => ReadAlike(d, e, s, ranges);
    case MoveCmd(_, _, src) => LoadAlike(src, d, e, s);
    case PatchCmd(_, _, _, _, _, _, src) => LoadAlike(src, d, e, s);
    case _ =>
  }

  /** The whole list does the same on every device that holds the same in the blocks it reads. */
  lemma {:induction false} RunAlike(pkg: Package, d: State, e: State, cmds: seq<Command>, touched: RangeSet)
    requires Alike(d, e, touched) && Orderly(cmds, touched) && Run(pkg, d, cmds).Some?
    ensures Run(pkg, e, cmds).Some?
    ensures var d', e' := Run(pkg, d, cmds).value, Run(pkg, e, cmds).value;
            && Alike(d', e', touched + AllWrites(cmds)) && |e'.blocks| == |e.blocks|
            && forall i :: 0 <= i < |e.blocks| && i !in AllWrites(cmds) ==> e'.blocks[i] == e.blocks[i]
  {
    hide Exec, DeviceReads, DeviceWrites;
    if cmds == [] {
      assert touched + {} == touched;
    } else {
      var n := |cmds| - 1;
      RunAlike(pkg, d, e, cmds[..n], touched);
      var d1, e1, w := Run(pkg, d, cmds[..n]).value, Run(pkg, e, cmds[..n]).value, touched + AllWrites(cmds[..n]);
      assert OrderlyCmd(cmds[n], touched);
      ExecAlike(pkg, d1, e1, cmds[n], w);
      assert w + DeviceWrites(cmds[n]) == touched + AllWrites(cmds);
    }
  }

  // Putting a source together.

  /** The buffer holds the blocks of `img` at the places `src` has for those in `done`. */
  ghost predicate Filled(buf: seq<Block>, src: RangeSet, img: Image, done: RangeSet)
    requires Fits(src, img)
  {
    && |buf| == |src|
    && forall x :: x in done && x in src ==> Rank(src, x) < |src| && buf[Rank(src, x)] == img[x]
  }

  lemma ScatterFills(buf: seq<Block>, src: RangeSet, img: Image, done: RangeSet, t: RangeSet)
    requires Fits(src, img) && t <= src && Filled(buf, src, img, done)
    ensures |MapWithin(src, t)| == |t| && Positions(MapWithin(src, t), |buf|)
    ensures Filled(Scatter(buf, MapWithin(src, t), Read(img, t)), src, img, done + t)
  {
    var locs := MapWithin(src, t);
    RankImageSize(src, t);
    forall x | x in t ensures Rank(src, x) < |src| {
      RankSorted(src, x);
    }
    var r := Scatter(buf, locs, Read(img, t));
    forall x | x in done + t && x in src ensures Rank(src, x) < |src| && r[Rank(src, x)] == img[x] {
      RankSorted(src, x);
      MapWithinMember(src, t, x);
      if x in t {
        MapWithinRank(src, t, x);
        ReadAt(img, t, x);
      }
    }
  }

  lemma FilledWhole(buf: seq<Block>, src: RangeSet, img: Image)
    requires Fits(src, img) && Filled(buf, src, img, src)
    ensures buf == Read(img, src)
  {
    forall k | 0 <= k < |src| ensures buf[k] == Read(img, src)[k] {
      SortedElement(src, k);
      SortedRank(src, k);
    }
  }
}
