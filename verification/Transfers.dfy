/** The records the planner works on. */
module Transfers {
  import opened Ranges

  datatype Option<T> = None | Some(value: T)

  datatype Style = Diff | New | Zero | Move | BsDiff | ImgDiff

  /** Blocks to be saved for one later reader; the number names the pair (definer, reader). */
  type Stash = (nat, RangeSet)

  /** A hash stands for the content it was taken of: equal hashes, equal blocks. */
  type Hash = seq<Block>

  type Patch = seq<bv8>

  datatype PatchInfo = PatchInfo(imgdiff: bool, content: Patch)

  class Transfer {
    const id: nat
    const tgtRanges: RangeSet
    const zeroSource: bool
    const tgtHash: Hash
    const srcHash: Hash
    var srcRanges: RangeSet
    var style: Style

    var goesBefore: map<Transfer, nat>
    var goesAfter: map<Transfer, nat>
    var stashBefore: seq<Stash>
    var useStash: seq<Stash>
    var order: nat

    var patchInfo: Option<PatchInfo>
    var patchStart: nat
    var patchLen: nat

    // Working state of the sequencing passes.
    var incoming: map<Transfer, nat>
    var outgoing: map<Transfer, nat>
    var score: int
    var heapItem: HeapItem?

    constructor (id: nat, tgtRanges: RangeSet, srcRanges: RangeSet, tgtHash: Hash, srcHash: Hash,
                 style: Style, zeroSource: bool)
      ensures this.id == id && this.tgtRanges == tgtRanges && this.srcRanges == srcRanges
      ensures this.tgtHash == tgtHash && this.srcHash == srcHash
      ensures this.style == style && this.zeroSource == zeroSource
      ensures goesBefore == map[] && goesAfter == map[] && stashBefore == [] && useStash == []
      ensures patchInfo == None
    {
      this.id, this.tgtRanges, this.srcRanges := id, tgtRanges, srcRanges;
      this.tgtHash, this.srcHash := tgtHash, srcHash;
      this.style, this.zeroSource := style, zeroSource;
      goesBefore, goesAfter := map[], map[];
      stashBefore, useStash := [], [];
      patchInfo := None;
      order, patchStart, patchLen := 0, 0, 0;
      incoming, outgoing, score, heapItem := map[], map[], 0, null;
    }

    /** Gives up the source: the target blocks will be shipped as they are. */
    method ConvertToNew()
      requires style != New
      modifies `useStash, `style, `srcRanges, `patchInfo
      ensures useStash == [] && style == New && srcRanges == {} && patchInfo == None
    {
      useStash := [];
      style := New;
      srcRanges := {};
      patchInfo := None;
    }
  }

  /** A heap entry with the negated score its transfer had when it was made;
      `clear` leaves the entry in the heap but makes it void. */
  class HeapItem {
    var item: Transfer?
    const score: int

    constructor (item: Transfer)
      ensures this.item == item && score == -item.score
    {
      this.item := item;
      score := -item.score;
    }

    method Clear()
      modifies `item
      ensures item == null
    {
      item := null;
    }
  }

  /** The source ranges of some transfers, taken as a value. */
  type Sources = map<Transfer, RangeSet>

  ghost function SourcesOf(ts: set<Transfer>): Sources
    reads ts
  {
    map b | b in ts :: b.srcRanges
  }

  /** `b` reads blocks that `a` writes, so `b` should run first. */
  ghost predicate Reads(src: Sources, b: Transfer, a: Transfer)
    requires b in src
  {
    b != a && a.tgtRanges * src[b] != {}
  }

  /** What it costs to let `a` run before `b`: the source blocks lost. */
  ghost function Cost(src: Sources, b: Transfer, a: Transfer): nat
    requires b in src
  {
    if b.zeroSource then 0 else |a.tgtRanges * src[b]|
  }

  /** The blocks of all these stashes together. */
  ghost function StashSize(s: seq<Stash>): nat {
    if s == [] then 0 else StashSize(s[..|s| - 1]) + |s[|s| - 1].1|
  }

  method SumSizes(s: seq<Stash>) returns (n: nat)
    ensures n == StashSize(s)
  {
    n := 0;
    for i := 0 to |s|
      invariant n == StashSize(s[..i])
    {
      assert s[..i + 1][..i] == s[..i];
      n := n + |s[i].1|;
    }
    assert s[..|s|] == s;
  }
}
