/** A FAT16 image: allocating, extending, writing and reading files. */
module Fat16 {
  import opened FatLayout
  import opened FatChains

  datatype Option<T> = None | Some(value: T)

  /** What a read gives: bytes, or a failure behind the end of the chain. */
  datatype ReadResult = Got(data: Bytes) | OutOfBounds

  class Fat {
    const f: array<Byte>
    const bytesPerCluster: nat
    const rootEntries: nat
    const fatSize: nat

    // The position of the next access.
    var pos: nat

    // The chains of the table.
    ghost var chains: set<seq<nat>>

    constructor (f: array<Byte>, bytesPerCluster: nat, rootEntries: nat, fatSize: nat, ghost chains: set<seq<nat>>)
      ensures this.f == f && this.bytesPerCluster == bytesPerCluster && this.rootEntries == rootEntries
      ensures this.fatSize == fatSize && this.chains == chains
    {
      this.f, this.bytesPerCluster, this.rootEntries, this.fatSize := f, bytesPerCluster, rootEntries, fatSize;
      this.chains := chains;
      pos := 0;
    }

    ghost function Entries(): nat {
      fatSize / 2
    }

    function DataStart(): nat {
      FAT_TABLE_START + fatSize * 2
    }

    /** Where the first cluster is: behind the tables and the root directory. */
    ghost function Base(): nat {
      FAT_TABLE_START + fatSize * 2 + rootEntries * 32
    }

    /** Every table entry has a cluster behind it, and cluster numbers stay below the end-of-chain marks. */
    ghost predicate Shape() {
      && fatSize % 2 == 0 && 2 <= Entries() <= MAX_CLUSTER_ID + 1 && bytesPerCluster > 0
      && Base() + Offset(Entries(), bytesPerCluster) <= f.Length
    }

    ghost function First(): (t: Table)
      requires Shape()
      reads f
      ensures |t| == Entries()
    {
      TableAt(f[..], FAT_TABLE_START, Entries())
    }

    ghost function Second(): (t: Table)
      requires Shape()
      reads f
      ensures |t| == Entries()
    {
      TableAt(f[..], FAT_TABLE_START + fatSize, Entries())
    }

    ghost function Area(): Bytes
      requires Shape()
      reads f
    {
      f[..][Base()..]
    }

    /** Both tables agree and consist of chains. */
    ghost predicate Valid()
      reads this, f
    {
      Shape() && Second() == First() && WellFormed(First(), chains)
    }

    // The file the image is in.

    method Seek(p: nat)
      modifies `pos
      ensures pos == p
    {
      pos := p;
    }

    method ReadLeShort() returns (v: Short)
      requires pos + 2 <= f.Length
      modifies `pos
      ensures v == ShortAt(f[..], old(pos)) && pos == old(pos) + 2
    {
      v := (f[pos] as int) + 256 * (f[pos + 1] as int);
      pos := pos + 2;
    }

    method Read(n: nat) returns (d: Bytes)
      requires pos + n <= f.Length
      modifies `pos
      ensures d == f[..][old(pos)..old(pos) + n] && pos == old(pos) + n
    {
      d := f[pos..pos + n];
      pos := pos + n;
    }

    /** As many of the next bytes as there are. */
    method ReadUpto(n: nat) returns (d: Bytes)
      modifies `pos
      ensures d == Clipped(f[..], old(pos), n) && pos == old(pos) + |d|
    {
      var upto := if pos + n < f.Length then pos + n else f.Length;
      d := if pos < upto then f[pos..upto] else [];
      pos := pos + |d|;
    }

    method Write(d: Bytes)
      requires pos + |d| <= f.Length
      modifies `pos, f
      ensures f[..] == Splice(old(f[..]), old(pos), d) && pos == old(pos) + |d|
    {
      var p := pos;
      forall i | 0 <= i < |d| {
        f[p + i] := d[i];
      }
      pos := p + |d|;
      assert f[..] == Splice(old(f[..]), old(pos), d);
    }

    // Table entries.

    lemma EntryBounds(i: nat)
      requires Shape() && i < Entries()
      ensures FAT_TABLE_START + 2 * i + 2 <= FAT_TABLE_START + fatSize
      ensures FAT_TABLE_START + fatSize + 2 * i + 2 <= DataStart() <= Base() <= f.Length
      ensures FAT_TABLE_START + 2 * Entries() == FAT_TABLE_START + fatSize
    {
    }

    method ReadEntry(i: nat) returns (v: Short)
      requires Shape() && i < Entries()
      modifies `pos
      ensures v == First()[i] && pos == FAT_TABLE_START + 2 * i + 2
    {
      EntryBounds(i);
      Seek(FAT_TABLE_START + i * 2);
      v := ReadLeShort();
    }

    /** Writes one entry into both tables; the position moves on to the next entry of the first one. */
    method WriteClusterEntry(entry: Short, ghost i: nat)
      requires Shape() && i < Entries() && pos == FAT_TABLE_START + 2 * i
      modifies `pos, f
      ensures First() == old(First())[i := entry] && Second() == old(Second())[i := entry] && Area() == old(Area())
      ensures pos == FAT_TABLE_START + 2 * i + 2
      ensures var p := FAT_TABLE_START + 2 * i;
              && p + 2 <= p + fatSize && p + fatSize + 2 <= f.Length
              && f[p] == f[p + fatSize] == entry % 256 && f[p + 1] == f[p + fatSize + 1] == entry / 256
              && forall k :: 0 <= k < f.Length && k !in {p, p + 1, p + fatSize, p + fatSize + 1} ==> f[k] == old(f[k])
    {
      hide ShortAt, TableAt, Splice, Pack;
      EntryBounds(i);
      ghost var img := f[..];
      Write(Pack(entry));
      ghost var img1 := f[..];
      EntryWritten(img, i, entry);
      pos := pos + (fatSize - 2);
      Write(Pack(entry));
      CopyWritten(img1, i, entry);
      TwoWritten(img, FAT_TABLE_START + 2 * i, fatSize, entry);
      pos := pos - fatSize;
    }

    /** Both copies of an entry hold its low byte first, and no other byte changes. */
    lemma TwoWritten(img: Bytes, p: nat, d: nat, entry: Short)
      requires 2 <= d && p + d + 2 <= |img|
      ensures var r := Splice(Splice(img, p, Pack(entry)), p + d, Pack(entry));
              && r[p] == r[p + d] == entry % 256 && r[p + 1] == r[p + d + 1] == entry / 256
              && forall k :: 0 <= k < |r| && k !in {p, p + 1, p + d, p + d + 1} ==> r[k] == img[k]
    {
    }

    lemma EntryWritten(img: Bytes, i: nat, entry: Short)
      requires Shape() && i < Entries() && |img| == f.Length
      ensures FAT_TABLE_START + 2 * i + 2 <= |img| && FAT_TABLE_START + fatSize + 2 * Entries() <= Base() <= |img|
      ensures var r := Splice(img, FAT_TABLE_START + 2 * i, Pack(entry));
              && TableAt(r, FAT_TABLE_START, Entries()) == TableAt(img, FAT_TABLE_START, Entries())[i := entry]
              && TableAt(r, FAT_TABLE_START + fatSize, Entries()) == TableAt(img, FAT_TABLE_START + fatSize, Entries())
              && r[Base()..] == img[Base()..]
    {
      EntryBounds(i);
      TableSplice(img, FAT_TABLE_START, Entries(), i, entry);
      TableElsewhere(img, FAT_TABLE_START + fatSize, Entries(), FAT_TABLE_START + 2 * i, Pack(entry));
      AreaElsewhere(img, Base(), FAT_TABLE_START + 2 * i, Pack(entry));
    }

    lemma CopyWritten(img: Bytes, i: nat, entry: Short)
      requires Shape() && i < Entries() && |img| == f.Length
      ensures FAT_TABLE_START + fatSize + 2 * i + 2 <= |img| && FAT_TABLE_START + fatSize + 2 * Entries() <= Base() <= |img|
      ensures var r := Splice(img, FAT_TABLE_START + fatSize + 2 * i, Pack(entry));
              && TableAt(r, FAT_TABLE_START, Entries()) == TableAt(img, FAT_TABLE_START, Entries())
              && TableAt(r, FAT_TABLE_START + fatSize, Entries()) == TableAt(img, FAT_TABLE_START + fatSize, Entries())[i := entry]
              && r[Base()..] == img[Base()..]
    {
      EntryBounds(i);
      TableElsewhere(img, FAT_TABLE_START, Entries(), FAT_TABLE_START + fatSize + 2 * i, Pack(entry));
      TableSplice(img, FAT_TABLE_START + fatSize, Entries(), i, entry);
      AreaElsewhere(img, Base(), FAT_TABLE_START + fatSize + 2 * i, Pack(entry));
    }

    // Chain sizes.

    lemma ChainInside(c: seq<nat>)
      requires Shape() && Linked(First(), c)
      ensures AllInside(Area(), c, bytesPerCluster)
      ensures forall i :: 0 <= i < |c| ==> 2 <= c[i] < Entries()
    {
      hide Offset;
      forall i | 0 <= i < |c| ensures Inside(Area(), c[i], bytesPerCluster) {
        OffsetGrows(c[i], Entries(), bytesPerCluster);
      }
    }

    /** The size of the chain from `head` on; zero stands for an empty file. */
    method GetChainSize(head: nat, ghost c: seq<nat>) returns (size: nat)
      requires Shape() && (head != 0 ==> Linked(First(), c) && c[0] == head)
      modifies `pos
      ensures size == if head == 0 then 0 else |c| * bytesPerCluster
    {
      if head == 0 {
        return 0;
      }
      hide Second, TableAt;
      var cluster: nat, count := head, 0;
      while cluster <= MAX_CLUSTER_ID
        invariant 0 <= count <= |c|
        invariant if count < |c| then cluster == c[count] else cluster == END_OF_CHAIN
        decreases |c| - count
      {
        count := count + 1;
        assert cluster == c[count - 1];
        cluster := ReadEntry(cluster);
      }
      return count * bytesPerCluster;
    }
  
    // Allocation.

    /** The free zones of the table: every whole run of free clusters, and nothing else. */
    method FindFreeZones() returns (zones: seq<Zone>)
      requires Shape()
      modifies `pos
      ensures ZonesGood(First(), zones) && Total(zones) == |Free(First())| && FreeRuns(First(), zones)
    {
      hide Scanned, TableAt, ShortAt, ZonesGood, Free, RunsSeen, FreeRuns;
      ghost var t := First();
      zones := [];
      var open: seq<Zone> := [];
      EntryBounds(0);
      Seek(FAT_TABLE_START + 4);
      ScanStart(t);
      SeenStart(t);
      var p := 2;
      while p < fatSize / 2
        invariant 2 <= p <= Entries() && pos == FAT_TABLE_START + 2 * p
        invariant Scanned(t, zones, open, p) && RunsSeen(t, zones, open, p) && |open| <= 1
        decreases Entries() - p
      {
        EntryBounds(p);
        var data := ReadLeShort();
        EntryRead(p);
        if data == 0 && open != [] {
          ScanFree(t, zones, open, p);
          SeenFree(t, zones, open, p);
          open := [(open[0].0, open[0].1 + 1)];
        } else if data == 0 {
          ScanFree(t, zones, open, p);
          SeenFree(t, zones, open, p);
          open := [(p, 1)];
        } else {
          ScanUsed(t, zones, open, p);
          SeenUsed(t, zones, open, p);
          zones, open := zones + open, [];
        }
        p := p + 1;
      }
      ScanEnd(t, zones, open);
      SeenEnd(t, zones, open);
      zones := zones + open;
    }

    lemma EntryRead(i: nat)
      requires Shape() && i < Entries()
      ensures FAT_TABLE_START + 2 * i + 2 <= f.Length
      ensures First()[i] == ShortAt(f[..], FAT_TABLE_START + 2 * i)
    {
      EntryBounds(i);
    }

    /** Any of the largest zones. */
    method PickLargest(zones: seq<Zone>) returns (i: nat)
      requires zones != []
      ensures i < |zones| && Largest(zones, i)
    {
      assert exists i: nat :: i < |zones| && Largest(zones, i) by {
        var i := LargestExists(zones);
      }
      i :| i < |zones| && Largest(zones, i);
    }

    /** What has been grabbed and what is left are all free zones, and what came before the last one was not enough. */
    ghost predicate Grabbing(t: Table, grabbed: seq<Zone>, zones: seq<Zone>, size: nat, amount: nat) {
      && ZonesGood(t, grabbed + zones) && Total(grabbed) + Total(zones) == |Free(t)|
      && size == Total(grabbed) * bytesPerCluster && Choosing(t, grabbed, zones)
      && (size >= amount ==> grabbed != [] && (Total(grabbed) - grabbed[|grabbed| - 1].1) * bytesPerCluster < amount)
    }

    /** One more zone. */
    method GrabOne(grabbed: seq<Zone>, zones: seq<Zone>, size: nat, ghost t: Table, ghost amount: nat)
      returns (grabbed': seq<Zone>, zones': seq<Zone>, size': nat)
      requires Grabbing(t, grabbed, zones, size, amount) && zones != [] && size < amount
      ensures Grabbing(t, grabbed', zones', size', amount) && |zones'| < |zones|
    {
      hide ZonesGood, Free, Total, Largest, Choosing, Without;
      var i := PickLargest(zones);
      MoveZone(t, grabbed, zones, i);
      ChooseNext(t, grabbed, zones, i);
      var zone := zones[i];
      GrabMore(Total(grabbed), zone.1);
      grabbed', zones', size' := grabbed + [zone], Without(zones, i), size + zone.1 * bytesPerCluster;
    }

    /** The largest zones first, until they are enough or none is left. */
    method GrabZones(amount: nat) returns (grabbed: seq<Zone>, size: nat)
      requires Shape() && amount > 0
      modifies `pos
      ensures ZonesGood(First(), grabbed) && size == Total(grabbed) * bytesPerCluster
      ensures size >= amount ==> grabbed != [] && (Total(grabbed) - grabbed[|grabbed| - 1].1) * bytesPerCluster < amount
      ensures size < amount ==> Total(grabbed) == |Free(First())|
      ensures Total(grabbed) <= |Free(First())| && LargestFirst(First(), grabbed)
    {
      hide TableAt, ShortAt, ZonesGood, Free, Total, FreeRuns, LargestFirst, Grabbing;
      ghost var t := First();
      var zones := FindFreeZones();
      grabbed, size := [], 0;
      GrabStart(t, zones, amount);
      while size < amount && zones != []
        invariant Grabbing(t, grabbed, zones, size, amount)
        decreases |zones|
      {
        grabbed, zones, size := GrabOne(grabbed, zones, size, t, amount);
      }
      GrabEnd(t, grabbed, zones, size, amount);
    }

    lemma GrabStart(t: Table, zones: seq<Zone>, amount: nat)
      requires ZonesGood(t, zones) && Total(zones) == |Free(t)| && FreeRuns(t, zones) && amount > 0
      ensures Grabbing(t, [], zones, 0, amount)
    {
      hide ZonesGood, Free, Choosing, FreeRuns;
      assert [] + zones == zones;
      ChooseStart(t, zones);
    }

    lemma GrabEnd(t: Table, grabbed: seq<Zone>, zones: seq<Zone>, size: nat, amount: nat)
      requires Grabbing(t, grabbed, zones, size, amount)
      ensures ZonesGood(t, grabbed) && size == Total(grabbed) * bytesPerCluster
      ensures size >= amount ==> grabbed != [] && (Total(grabbed) - grabbed[|grabbed| - 1].1) * bytesPerCluster < amount
      ensures Total(grabbed) <= |Free(t)| && (zones == [] ==> Total(grabbed) == |Free(t)|)
      ensures LargestFirst(t, grabbed)
    {
      hide ZonesGood, Free, LargestFirst;
      GoodPrefix(t, grabbed, zones);
    }

    lemma GrabMore(total: nat, more: nat)
      ensures (total + more) * bytesPerCluster == total * bytesPerCluster + more * bytesPerCluster
    {
    }
  
    /** Writes the entries of one run. */
    method WriteRun(z: Zone, next: Short)
      requires Shape() && 2 <= z.0 && z.1 >= 1 && z.0 + z.1 <= Entries() && Second() == First()
      modifies `pos, f
      ensures First() == LinkRun(old(First()), z, next) && Second() == First() && Area() == old(Area())
    {
      hide TableAt, ShortAt, LinkRun, LinkRunPart;
      ghost var t := First();
      Seek(FAT_TABLE_START + z.0 * 2);
      LinkPart(t, z, next, 0);
      for k := 0 to z.1
        invariant pos == FAT_TABLE_START + 2 * (z.0 + k)
        invariant First() == LinkRunPart(t, z, next, k) && Second() == First() && Area() == old(Area())
      {
        LinkPart(t, z, next, k);
        WriteClusterEntry(if k < z.1 - 1 then z.0 + k + 1 else next, z.0 + k);
      }
    }

    /** A chain of `amount` bytes, or nothing at all if there is not enough free space. */
    method Allocate(amount: nat) returns (head: Option<Short>, ghost c: seq<nat>)
      requires Valid() && amount > 0
      modifies this, f
      ensures Valid() && Area() == old(Area())
      ensures head == None <==> |Free(old(First()))| * bytesPerCluster < amount
      ensures head == None ==> f[..] == old(f[..]) && chains == old(chains)
      ensures head.Some? ==>
                && c != [] && head.value == c[0] && chains == old(chains) + {c} && c !in old(chains)
                && JustHolds(|c|, amount, bytesPerCluster) && NoRepeat(c) && AllFree(old(First()), c)
                && Linked(First(), c) && SameOutside(old(First()), First(), c)
                && Free(First()) == Free(old(First())) - Cells(c)
    {
      hide TableAt, ShortAt, ZonesGood, LargestFirst, Free, Total, LinkRun, WellFormed, JustHolds, Linked, SameOutside,
           NoRepeat, AllFree, Runs, Cells, Run;
      ghost var t := First();
      var grabbed, size := GrabZones(amount);
      c := [];
      if size < amount {
        return None, c;
      }
      Enough(|Free(t)|, Total(grabbed), size, amount);
      ghost var total, last := Total(grabbed), grabbed[|grabbed| - 1].1;
      LastInTotal(grabbed);
      var excess := (size - amount) / bytesPerCluster;
      Excess(total, last, size, amount, bytesPerCluster);
      TrimLast(t, grabbed, excess);
      grabbed := grabbed[..|grabbed| - 1] + [(grabbed[|grabbed| - 1].0, grabbed[|grabbed| - 1].1 - excess)];
      RunsSize(grabbed);
      RunsGood(t, grabbed);
      c, head := LinkZones(grabbed);
      AddChain(t, chains, First(), c);
      chains := chains + {c};
    }

    lemma Enough(free: nat, total: nat, size: nat, amount: nat)
      requires total <= free && size == total * bytesPerCluster && size >= amount
      ensures free * bytesPerCluster >= amount
    {
      Product(total, free, bytesPerCluster);
    }

    lemma LastInTotal(zs: seq<Zone>)
      requires zs != []
      ensures zs[|zs| - 1].1 <= Total(zs)
    {
      TotalConcat(zs[..|zs| - 1], [zs[|zs| - 1]]);
      assert zs == zs[..|zs| - 1] + [zs[|zs| - 1]];
    }

    /** Links the zones, the last one first; each ends in the head of the one after it. */
    method LinkZones(zs: seq<Zone>) returns (ghost c: seq<nat>, head: Option<Short>)
      requires Shape() && Second() == First() && ZonesGood(First(), zs) && zs != []
      modifies `pos, f
      ensures c == Runs(zs) && Linked(First(), c) && head == Some(c[0]) && Second() == First() && Area() == old(Area())
      ensures SameOutside(old(First()), First(), c)
    {
      hide TableAt, ShortAt, ZonesGood, LinkRun, Linked, SameOutside, Runs, Cells, Run;
      ghost var t := First();
      head := None;
      c := [];
      LinkStart(t, zs);
      var k := |zs|;
      while k > 0
        invariant 0 <= k <= |zs| && c == Runs(zs[k..])
        invariant Second() == First() && Area() == old(Area()) && SameOutside(t, First(), c)
        invariant if c == [] then k == |zs| && head == None else Linked(First(), c) && head == Some(c[0])
        decreases k
      {
        k := k - 1;
        RunsFrom(t, zs, k);
        ghost var before := First();
        HeadBounds(before, c);
        var next: Short := if head.Some? then head.value else END_OF_CHAIN;
        WriteRun(zs[k], next);
        RunLinked(before, zs[k], c, next);
        LinkOutside(t, before, zs[k], next, c);
        c := Run(zs[k]) + c;
        head := Some(zs[k].0);
      }
      assert zs[0..] == zs;
    }

    lemma HeadBounds(t: Table, c: seq<nat>)
      requires c != [] ==> Linked(t, c)
      ensures c != [] ==> 2 <= c[0] < |t|
    {
    }

    lemma LinkStart(t: Table, zs: seq<Zone>)
      ensures Runs(zs[|zs|..]) == [] && SameOutside(t, t, [])
    {
    }

    lemma RunsFrom(t: Table, zs: seq<Zone>, k: nat)
      requires ZonesGood(t, zs) && k < |zs|
      ensures zs[k].1 >= 1 && 2 <= zs[k].0 && zs[k].0 + zs[k].1 <= |t|
      ensures Runs(zs[k..]) == Run(zs[k]) + Runs(zs[k + 1..])
      ensures Cells(Run(zs[k])) !! Cells(Runs(zs[k + 1..]))
      ensures Runs(zs[k..]) != []
    {
      var rest := zs[k + 1..];
      assert zs[k..][1..] == rest;
      forall x | x in Cells(Run(zs[k])) ensures x !in Cells(Runs(zs[k + 1..])) {
        RunCells(zs[k], x);
        RunsCells(zs[k + 1..], x);
        forall i | 0 <= i < |rest| ensures !(rest[i].0 <= x < rest[i].0 + rest[i].1) {
          assert ZonesApart(zs[k], zs[k + 1 + i]);
        }
      }
      assert Run(zs[k])[0] == zs[k].0;
    }
  
    // Extending a file.

    lemma InChains(c: seq<nat>)
      requires Valid() && c in chains
      ensures Linked(First(), c) && NoRepeat(c) && c != [] && 2 <= c[|c| - 1] < Entries()
      ensures First()[c[|c| - 1]] == END_OF_CHAIN
      ensures forall i :: 0 <= i < |c| ==> 2 <= c[i] < Entries()
    {
      hide TableAt, Shape, NoRepeat;
    }

    lemma EntryOf(c: seq<nat>, i: nat)
      requires Valid() && c in chains && i < |c|
      ensures 2 <= c[i] < Entries() && c[i] <= MAX_CLUSTER_ID
      ensures if i < |c| - 1 then First()[c[i]] == c[i + 1] && 2 <= c[i + 1] <= MAX_CLUSTER_ID
              else First()[c[i]] == END_OF_CHAIN
    {
      hide TableAt, Shape, NoRepeat;
    }

    /** Makes the chain that ends in `cluster` longer. Without enough free space this fails and nothing happens. */
    method ExtendCluster(cluster: nat, amount: nat, ghost c: seq<nat>)
      returns (ok: bool, head: Option<Short>, ghost ext: seq<nat>)
      requires Valid() && c in chains && cluster == c[|c| - 1]
      modifies this, f
      ensures Valid() && Area() == old(Area())
      ensures ok <==> amount <= |Free(old(First()))| * bytesPerCluster
      ensures !ok || amount == 0 ==> head == None && ext == [] && chains == old(chains) && f[..] == old(f[..])
      ensures ok && amount > 0 ==>
                && head.Some? && ext != [] && head.value == ext[0] && JustHolds(|ext|, amount, bytesPerCluster)
                && chains == old(chains) - {c} + {c + ext} && c + ext !in old(chains)
                && NoRepeat(ext) && AllFree(old(First()), ext) && Free(First()) == Free(old(First())) - Cells(ext)
    {
      hide TableAt, ShortAt, Free, WellFormed, JustHolds, Linked, SameOutside, NoRepeat, AllFree, Cells;
      ok, head, ext := true, None, [];
      if amount == 0 {
        return;
      }
      InChains(c);
      var mark := ReadEntry(cluster);
      assert mark == END_OF_CHAIN;
      ghost var before := chains;
      head, ext := Allocate(amount);
      if head == None {
        return false, None, [];
      }
      InChains(c);
      JoinChains(First(), chains, c, ext);
      Seek(FAT_TABLE_START + cluster * 2);
      WriteClusterEntry(head.value, cluster);
      chains := chains - {c, ext} + {c + ext};
      ExtendedChains(before, c, ext);
      FreshChain(old(First()), before, c, ext);
    }

    lemma ExtendedChains(before: set<seq<nat>>, c: seq<nat>, ext: seq<nat>)
      requires c in before && ext !in before
      ensures before + {ext} - {c, ext} + {c + ext} == before - {c} + {c + ext}
    {
    }

    /** A longer chain with the same head cannot have been there before. */
    lemma FreshChain(t: Table, before: set<seq<nat>>, c: seq<nat>, ext: seq<nat>)
      requires WellFormed(t, before) && c in before && ext != []
      ensures c + ext !in before
    {
      if c + ext in before {
        HeadDecides(t, before, c, c + ext);
        assert false;
      }
    }

    lemma FreeLess(free: set<nat>, ext: seq<nat>)
      requires NoRepeat(ext) && forall x :: x in Cells(ext) ==> x in free
      ensures |free - Cells(ext)| == |free| - |ext|
    {
      NoRepeatSize(ext);
      assert free == free - Cells(ext) + Cells(ext);
    }

    /** The cluster after the `i`-th of a chain, which grows if there is none. This fails if it has to grow by nothing, or
        by more than there is room for. */
    method NextCluster(cluster: nat, amount: nat, ghost c: seq<nat>, ghost i: nat)
      returns (ok: bool, next: nat, ghost c': seq<nat>)
      requires Valid() && c in chains && i < |c| && cluster == c[i]
      modifies this, f
      ensures Valid() && Area() == old(Area()) && c' in chains
      ensures ok <==> i < |c| - 1 || 0 < amount <= |Free(old(First()))| * bytesPerCluster
      ensures ok ==> i + 1 < |c'| && next == c'[i + 1]
      ensures !ok || i < |c| - 1 ==> c' == c && chains == old(chains) && First() == old(First())
      ensures ok && i == |c| - 1 ==>
                && |c'| > |c| && c'[..|c|] == c && c' !in old(chains) && JustHolds(|c'| - |c|, amount, bytesPerCluster)
                && chains == old(chains) - {c} + {c'}
                && |Free(First())| == |Free(old(First()))| - (|c'| - |c|)
    {
      hide TableAt, ShortAt, Free, WellFormed, JustHolds, Linked, NoRepeat, AllFree, Cells;
      EntryOf(c, i);
      c' := c;
      var entry := ReadEntry(cluster);
      ok, next := true, entry;
      if next > MAX_CLUSTER_ID {
        assert i == |c| - 1;
        var head;
        ghost var ext;
        ghost var free := Free(First());
        ghost var t := First();
        ok, head, ext := ExtendCluster(cluster, amount, c);
        if head == None {
          return false, 0, c;
        }
        AllFreeIn(t, ext);
        FreeLess(free, ext);
        next := head.value;
        c' := c + ext;
      }
      EntryOf(c', i + 1);
      assert next > 0;
    }

    lemma AllFreeIn(t: Table, c: seq<nat>)
      requires AllFree(t, c)
      ensures forall x :: x in Cells(c) ==> x in Free(t)
    {
    }
  
    // Writing.

    /** Writes what falls into one cluster. */
    method WriteCluster(x: nat, off: nat, start: nat, data: Bytes)
      requires Shape() && 2 <= x < Entries() && Inside(Area(), x, bytesPerCluster)
      modifies `pos, f
      ensures First() == old(First()) && Second() == old(Second())
      ensures Area() == Written(old(Area()), x, bytesPerCluster, off, start, data)
    {
      hide TableAt, ShortAt, Splice;
      var from, upto := Max(0, off - start), Min(|data|, off + bytesPerCluster - start);
      if upto > from {
        ghost var img := f[..];
        PartFits(bytesPerCluster, off, start, data);
        Seek(DataStart() + rootEntries * 32 + (x - 2) * bytesPerCluster + Max(0, start - off));
        Write(data[from..upto]);
        DataWritten(img, Offset(x, bytesPerCluster) + Max(0, start - off), data[from..upto]);
      }
    }

    lemma DataWritten(img: Bytes, o: nat, d: Bytes)
      requires Shape() && |img| == f.Length && Base() + o + |d| <= |img|
      ensures FAT_TABLE_START + fatSize + 2 * Entries() <= Base() <= |img|
      ensures var r := Splice(img, Base() + o, d);
              && TableAt(r, FAT_TABLE_START, Entries()) == TableAt(img, FAT_TABLE_START, Entries())
              && TableAt(r, FAT_TABLE_START + fatSize, Entries()) == TableAt(img, FAT_TABLE_START + fatSize, Entries())
              && r[Base()..] == Splice(img[Base()..], o, d)
    {
      EntryBounds(0);
      TableElsewhere(img, FAT_TABLE_START, Entries(), Base() + o, d);
      TableElsewhere(img, FAT_TABLE_START + fatSize, Entries(), Base() + o, d);
      AreaSplice(img, Base(), o, d);
    }

    /** The clusters of the chain up to the `i`-th have been written, all other clusters are as before. */
    ghost predicate Progress(area: Bytes, area': Bytes, c: seq<nat>, i: nat, start: nat, data: Bytes)
      requires i <= |c|
    {
      && |area'| == |area| && AllInside(area, c, bytesPerCluster)
      && AllInside(area, c[..i], bytesPerCluster) && AllInside(area', c[..i], bytesPerCluster)
      && Content(area', c[..i], bytesPerCluster) == Overlay(Content(area, c[..i], bytesPerCluster), 0, start, data)
      && forall y :: Inside(area, y, bytesPerCluster) && y !in c[..i] ==>
           Inside(area', y, bytesPerCluster) && Cluster(area', y, bytesPerCluster) == Cluster(area, y, bytesPerCluster)
    }

    lemma ProgressStart(area: Bytes, c: seq<nat>, start: nat, data: Bytes)
      requires AllInside(area, c, bytesPerCluster)
      ensures Progress(area, area, c, 0, start, data)
    {
    }

    lemma ProgressLonger(area: Bytes, area': Bytes, c: seq<nat>, c': seq<nat>, i: nat, start: nat, data: Bytes)
      requires i <= |c| && Progress(area, area', c, i, start, data)
      requires |c| <= |c'| && c'[..|c|] == c && AllInside(area, c', bytesPerCluster)
      ensures Progress(area, area', c', i, start, data)
    {
      assert c'[..i] == c[..i];
    }

    lemma ProgressNext(area: Bytes, area': Bytes, c: seq<nat>, i: nat, off: nat, start: nat, data: Bytes)
      requires i < |c| && NoRepeat(c) && Progress(area, area', c, i, start, data) && off == i * bytesPerCluster
      ensures Inside(area', c[i], bytesPerCluster)
      ensures Progress(area, Written(area', c[i], bytesPerCluster, off, start, data), c, i + 1, start, data)
    {
      hide Inside, Cluster, Written, Overlay, NoRepeat;
      var size, x := bytesPerCluster, c[i];
      NotBefore(c, i);
      assert Inside(area, c[i], size);
      var area2 := Written(area', x, size, off, start, data);
      forall y | Inside(area, y, size) && y !in c[..i]
        ensures Inside(area2, y, size)
        ensures Cluster(area2, y, size) == if y == x then Overlay(Cluster(area, x, size), off, start, data) else Cluster(area, y, size)
      {
        WrittenCluster(area', x, size, off, start, data, y);
      }
      forall k | 0 <= k < i ensures Inside(area2, c[..i][k], size) && Cluster(area2, c[..i][k], size) == Cluster(area', c[..i][k], size) {
        assert Inside(area', c[..i][k], size) && c[..i][k] in c[..i];
        WrittenCluster(area', x, size, off, start, data, c[..i][k]);
      }
      ContentSame(area', area2, c[..i], size);
      assert c[..i + 1] == c[..i] + [x];
      One(area, x, size);
      One(area2, x, size);
      ContentConcat(area, c[..i], [x], size);
      ContentConcat(area2, c[..i], [x], size);
      ContentSize(area, c[..i], size);
      OverlayConcat(Content(area, c[..i], size), Cluster(area, x, size), 0, start, data);
    }

    lemma NotBefore(c: seq<nat>, i: nat)
      requires i < |c| && NoRepeat(c)
      ensures c[i] !in c[..i]
      ensures forall y :: y in c[..i + 1] <==> y in c[..i] || y == c[i]
    {
      assert c[..i + 1] == c[..i] + [c[i]];
    }

    lemma One(area: Bytes, x: nat, size: nat)
      requires Inside(area, x, size)
      ensures AllInside(area, [x], size) && Content(area, [x], size) == Cluster(area, x, size)
    {
      assert [x][..0] == [];
      assert Content(area, [], size) == [];
    }
  
    /** The bytes of a chain. */
    ghost function File(c: seq<nat>): Bytes
      requires Shape() && AllInside(Area(), c, bytesPerCluster)
      reads f
    {
      Content(Area(), c, bytesPerCluster)
    }

    /** The clusters one request for `amount` bytes adds. */
    ghost function Step(amount: nat): (n: nat)
      requires bytesPerCluster > 0
      ensures amount > 0 ==> n > 0
    {
      assert amount > 0 ==> amount + bytesPerCluster - 1 >= bytesPerCluster;
      (amount + bytesPerCluster - 1) / bytesPerCluster
    }

    /** The clusters a write adds. Without data nothing is added. */
    ghost function Added(have: nat, last: nat, amount: nat): nat
      requires bytesPerCluster > 0
    {
      if amount == 0 then 0 else Growth(have, last, Step(amount), bytesPerCluster)
    }

    /** Whether a write of `amount` bytes up to `last` can be done on a chain of `have` clusters. */
    ghost predicate HasRoom(have: nat, last: nat, amount: nat, free: nat)
      requires bytesPerCluster > 0
    {
      if amount == 0 then last <= have * bytesPerCluster else Added(have, last, amount) <= free
    }

    /** From a chain of `have0` clusters to one of `have`: what is still to be added, and what is still free. */
    ghost predicate Growing(have0: nat, free0: nat, have: nat, free: nat, last: nat, amount: nat)
      requires bytesPerCluster > 0
    {
      && have + Added(have, last, amount) == have0 + Added(have0, last, amount)
      && have + free == have0 + free0 && (amount == 0 ==> have == have0)
    }

    lemma GrowStart(have: nat, free: nat, last: nat, amount: nat)
      requires bytesPerCluster > 0
      ensures Growing(have, free, have, free, last, amount)
    {
    }

    lemma GrowStep(have0: nat, free0: nat, have: nat, free: nat, last: nat, amount: nat, more: nat)
      requires bytesPerCluster > 0 && Growing(have0, free0, have, free, last, amount)
      requires amount > 0 && have * bytesPerCluster < last && JustHolds(more, amount, bytesPerCluster) && more <= free
      ensures Growing(have0, free0, have + more, free - more, last, amount)
    {
      JustHoldsCeil(more, amount, bytesPerCluster);
      StepIs(amount);
    }

    lemma GrowFail(have0: nat, free0: nat, have: nat, free: nat, last: nat, amount: nat)
      requires bytesPerCluster > 0 && Growing(have0, free0, have, free, last, amount)
      requires have * bytesPerCluster < last && (amount == 0 || free * bytesPerCluster < amount)
      ensures !HasRoom(have0, last, amount, free0)
    {
      if amount > 0 {
        StepHolds(amount);
        if Step(amount) <= free { Product(Step(amount), free, bytesPerCluster); }
        assert Added(have, last, amount) >= Step(amount);
      }
    }

    lemma GrowEnd(have0: nat, free0: nat, have: nat, free: nat, last: nat, amount: nat)
      requires bytesPerCluster > 0 && Growing(have0, free0, have, free, last, amount) && last <= have * bytesPerCluster
      ensures HasRoom(have0, last, amount, free0) && have == have0 + Added(have0, last, amount)
    {
    }

    lemma StepHolds(amount: nat)
      requires bytesPerCluster > 0
      ensures Step(amount) * bytesPerCluster >= amount
    {
      var a := amount + bytesPerCluster - 1;
      assert a == Step(amount) * bytesPerCluster + a % bytesPerCluster;
    }

    lemma Times(i: nat, n: nat)
      requires bytesPerCluster > 0
      ensures (i + 1) * bytesPerCluster == i * bytesPerCluster + bytesPerCluster
      ensures i < n ==> i * bytesPerCluster < n * bytesPerCluster
      ensures i * bytesPerCluster < n * bytesPerCluster ==> i < n
      ensures i <= n ==> i * bytesPerCluster <= n * bytesPerCluster
    {
      if i < n { Product(i + 1, n, bytesPerCluster); }
      if n <= i { Product(n, i, bytesPerCluster); }
    }

    /** What the loop below keeps: the chain has grown as needed and is written up to its `i`-th cluster. */
    ghost predicate Writing(area: Bytes, before: set<seq<nat>>, c: seq<nat>, c': seq<nat>, i: nat, start: nat, data: Bytes)
      reads this, f
    {
      && Valid() && c' in chains && |c| <= |c'| && c'[..|c|] == c && i <= |c'|
      && chains == before - {c} + {c'} && c in before && (c' == c || c' !in before) && Progress(area, Area(), c', i, start, data)
    }

    lemma WritingStart(c: seq<nat>, start: nat, data: Bytes)
      requires Valid() && c in chains
      ensures Writing(Area(), chains, c, c, 0, start, data)
    {
      hide TableAt, ShortAt, Progress;
      InChains(c);
      ChainInside(c);
      ProgressStart(Area(), c, start, data);
      assert chains - {c} + {c} == chains;
    }

    lemma WriteStep(area: Bytes, before: set<seq<nat>>, c: seq<nat>, c': seq<nat>, i: nat, off: nat, start: nat, data: Bytes)
      requires Writing(area, before, c, c', i, start, data) && i < |c'| && off == i * bytesPerCluster
      ensures Inside(Area(), c'[i], bytesPerCluster) && 2 <= c'[i] < Entries()
      ensures Progress(area, Written(Area(), c'[i], bytesPerCluster, off, start, data), c', i + 1, start, data)
    {
      hide TableAt, ShortAt, Progress, Offset, Linked;
      InChains(c');
      ProgressNext(area, Area(), c', i, off, start, data);
    }

    lemma InsideSame(area: Bytes, area': Bytes, c: seq<nat>, size: nat)
      requires |area'| == |area| && AllInside(area', c, size)
      ensures AllInside(area, c, size)
    {
    }

    lemma Swapped(before: set<seq<nat>>, c: seq<nat>, c0: seq<nat>, c': seq<nat>, now: set<seq<nat>>)
      requires now == before - {c} + {c0} && (c0 == c || c0 !in before) && c in before && c' !in now
      requires |c| <= |c0| < |c'|
      ensures now - {c0} + {c'} == before - {c} + {c'} && c' !in before
    {
      assert c' != c;
    }

    /** After moving on to the next cluster, old or new. */
    lemma Moved(area: Bytes, before: set<seq<nat>>, c: seq<nat>, c0: seq<nat>, c': seq<nat>, i: nat, start: nat, data: Bytes,
                now: set<seq<nat>>)
      requires Valid() && c' in chains && |area| == |Area()|
      requires i <= |c0| <= |c'| && c'[..|c0|] == c0 && |c| <= |c0| && c0[..|c|] == c
      requires Progress(area, Area(), c0, i, start, data)
      requires now == before - {c} + {c0} && (c0 == c || c0 !in before) && c in before
      requires if |c'| > |c0| then c' !in now && chains == now - {c0} + {c'} else c' == c0 && chains == now
      ensures Writing(area, before, c, c', i, start, data)
    {
      hide TableAt, ShortAt, Progress, Offset, Linked;
      InChains(c');
      ChainInside(c');
      InsideSame(area, Area(), c', bytesPerCluster);
      ProgressLonger(area, Area(), c0, c', i, start, data);
      if |c'| > |c0| {
        Swapped(before, c, c0, c', now);
      }
      assert c'[..|c|] == c'[..|c0|][..|c|];
    }

    /** Nothing is left to be written behind the last cluster that was reached. */
    lemma WriteRest(area: Bytes, area': Bytes, c: seq<nat>, i: nat, off: nat, start: nat, data: Bytes)
      requires i <= |c| && Progress(area, area', c, i, start, data) && NoRepeat(c) && AllInside(area', c, bytesPerCluster)
      requires off == i * bytesPerCluster && start + |data| <= off
      ensures Progress(area, area', c, |c|, start, data)
      decreases |c| - i
    {
      hide Inside, Cluster, Overlay, NoRepeat;
      var size := bytesPerCluster;
      var a, b := c[..i], c[i..];
      assert a + b == c && c[..|c|] == c;
      forall k | 0 <= k < |b| ensures Inside(area, b[k], size) && Inside(area', b[k], size) && Cluster(area', b[k], size) == Cluster(area, b[k], size) {
        assert b[k] == c[i + k];
        Later(c, i, i + k);
      }
      ContentSame(area, area', b, size);
      ContentConcat(area, a, b, size);
      ContentConcat(area', a, b, size);
      ContentSize(area, a, size);
      OverlayConcat(Content(area, a, size), Content(area, b, size), 0, start, data);
      OverlayPast(Content(area, b, size), |Content(area, a, size)|, start, data);
    }

    lemma Later(c: seq<nat>, i: nat, k: nat)
      requires NoRepeat(c) && i <= k < |c|
      ensures c[k] !in c[..i]
    {
    }

    /** Writes `data` into the file, which grows as far as it has to; no other file changes. It fails if the free space
        runs out, or if there is nothing to be written at a place behind the chain; what fits into the chain, as far as
        it has grown by then, has been written. */
    method WriteFile(head: nat, start: nat, data: Bytes, ghost c: seq<nat>) returns (ok: bool, ghost c': seq<nat>)
      requires Valid() && c in chains && c[0] == head
      modifies this, f
      ensures Valid() && chains == old(chains) - {c} + {c'} && (c' == c || c' !in old(chains))
      ensures |c| <= |c'| && c'[..|c|] == c
      ensures Progress(old(Area()), Area(), c', |c'|, start, data)
      ensures ok <==> HasRoom(|c|, start + |data|, |data|, |Free(old(First()))|)
      ensures ok ==> |c'| == |c| + Added(|c|, start + |data|, |data|)
      ensures ok <==> start + |data| <= |c'| * bytesPerCluster
    {
      hide TableAt, ShortAt, Free, WellFormed, Linked, NoRepeat, Cells, Progress, Written, Offset, JustHolds, Growing,
           HasRoom, Added;
      ghost var area, before, i, free := Area(), chains, 0, |Free(First())|;
      ok, c' := true, c;
      WritingStart(c, start, data);
      InChains(c);
      Times(0, |c|);
      var last, off, cluster := start + |data|, 0, head;
      GrowStart(|c|, free, last, |data|);
      while off < last
        invariant Writing(area, before, c, c', i, start, data) && off == i * bytesPerCluster
        invariant off < last ==> i < |c'| && cluster == c'[i]
        invariant Growing(|c|, free, |c'|, |Free(First())|, last, |data|)
        decreases last - off
      {
        WriteStep(area, before, c, c', i, off, start, data);
        Times(i, |c'|);
        WriteCluster(cluster, off, start, data);
        off := off + bytesPerCluster;
        i := i + 1;
        if last > off {
          ghost var c0, now, left := c', chains, |Free(First())|;
          ok, cluster, c' := NextCluster(cluster, |data|, c0, i - 1);
          Moved(area, before, c, c0, c', i, start, data, now);
          if !ok {
            GrowFail(|c|, free, |c'|, left, last, |data|);
            Stopped(area, before, c, c', start, data);
            return;
          }
          if i == |c0| {
            GrowStep(|c|, free, |c0|, left, last, |data|, |c'| - |c0|);
          }
        }
      }
      Finished(area, before, c, c', i, start, data, off, last);
      GrowEnd(|c|, free, |c'|, |Free(First())|, last, |data|);
    }

    lemma Stopped(area: Bytes, before: set<seq<nat>>, c: seq<nat>, c': seq<nat>, start: nat, data: Bytes)
      requires Writing(area, before, c, c', |c'|, start, data)
      ensures Progress(area, Area(), c', |c'|, start, data)
      ensures Valid() && chains == before - {c} + {c'} && (c' == c || c' !in before) && |c| <= |c'| && c'[..|c|] == c
    {
      hide TableAt, ShortAt, Progress, Offset, Linked, NoRepeat;
    }

    lemma StepIs(amount: nat)
      requires bytesPerCluster > 0
      ensures Step(amount) == (amount + bytesPerCluster - 1) / bytesPerCluster
    {
    }

    lemma Finished(area: Bytes, before: set<seq<nat>>, c: seq<nat>, c': seq<nat>, i: nat, start: nat, data: Bytes,
                   off: nat, last: nat)
      requires Writing(area, before, c, c', i, start, data) && off == i * bytesPerCluster
      requires last == start + |data| && last <= off
      ensures Progress(area, Area(), c', |c'|, start, data) && last <= |c'| * bytesPerCluster
      ensures Valid() && chains == before - {c} + {c'} && (c' == c || c' !in before) && |c| <= |c'| && c'[..|c|] == c
    {
      hide TableAt, ShortAt, Progress, Offset, Linked, Step, NoRepeat, Growth;
      InChains(c');
      ChainInside(c');
      Times(i, |c'|);
      WriteRest(area, Area(), c', i, off, start, data);
    }
  
    // Reading.

    /** The bytes of the image at `p`, as far as it goes. */
    ghost function Clipped(img: Bytes, p: nat, n: nat): (r: Bytes)
      ensures |r| <= n
    {
      var upto := if p + n < |img| then p + n else |img|;
      if p < upto then img[p..upto] else []
    }

    /** The clusters of a chain are the parts of its content. */
    lemma ClusterAt(c: seq<nat>, k: nat)
      requires Shape() && AllInside(Area(), c, bytesPerCluster) && k < |c|
      ensures Inside(Area(), c[k], bytesPerCluster)
      ensures var at := k * bytesPerCluster;
              at + bytesPerCluster <= |File(c)| && File(c)[at..at + bytesPerCluster] == Cluster(Area(), c[k], bytesPerCluster)
    {
      hide TableAt, Shape, Inside, Cluster, Content;
      var a, b := c[..k], c[k + 1..];
      forall i | 0 <= i < |b| ensures Inside(Area(), b[i], bytesPerCluster) {
        assert b[i] == c[k + 1 + i];
      }
      One(Area(), c[k], bytesPerCluster);
      ContentConcat(Area(), a, [c[k]], bytesPerCluster);
      ContentConcat(Area(), a + [c[k]], b, bytesPerCluster);
      ContentSize(Area(), a, bytesPerCluster);
      ClusterSize(Area(), c[k], bytesPerCluster);
      assert c == a + [c[k]] + b;
    }

    /** What one cluster gives of a read, and what is left to be read. For a cluster number that has no cluster this is
        whatever the image holds there. */
    method ReadPart(x: nat, startByte: nat, left: nat) returns (line: Bytes, left': nat)
      requires 2 <= x
      modifies `pos
      ensures startByte >= bytesPerCluster ==> line == [] && left' == left
      ensures startByte < bytesPerCluster ==>
                var n := if startByte + left > bytesPerCluster then bytesPerCluster - startByte else left;
                line == Clipped(f[..], Base() + Offset(x, bytesPerCluster) + startByte, n) && left' == left - n
    {
      line, left' := [], left;
      var sizeNow: int := left;
      if startByte + left > bytesPerCluster {
        sizeNow := bytesPerCluster - startByte;
      }
      if startByte < bytesPerCluster {
        left' := left - sizeNow;
        Seek(DataStart() + (x - 2) * bytesPerCluster + startByte + rootEntries * 32);
        line := ReadUpto(sizeNow);
      }
    }

    /** A part of a cluster is a part of the content of its chain. */
    lemma PartAt(c: seq<nat>, k: nat, startByte: nat, n: nat)
      requires Shape() && AllInside(Area(), c, bytesPerCluster) && k < |c| && 2 <= c[k] && startByte + n <= bytesPerCluster
      ensures var at := k * bytesPerCluster + startByte;
              at + n <= |File(c)| && Clipped(f[..], Base() + Offset(c[k], bytesPerCluster) + startByte, n) == File(c)[at..at + n]
    {
      hide TableAt, Offset, AllInside, Content;
      ClusterAt(c, k);
      Sub(f[..], Base(), Offset(c[k], bytesPerCluster), bytesPerCluster, startByte, n);
      SliceOfSlice(File(c), k * bytesPerCluster, k * bytesPerCluster + bytesPerCluster, startByte, startByte + n);
    }

    lemma Sub(img: Bytes, base: nat, o: nat, n: nat, start: nat, size: nat)
      requires base + o + n <= |img| && start + size <= n
      ensures img[base..][o..o + n][start..start + size] == img[base + o + start..base + o + start + size]
    {
      assert img[base..] == img[base..|img|];
      SliceOfSlice(img, base, |img|, o, o + n);
      SliceOfSlice(img, base + o, base + o + n, start, start + size);
    }

    lemma SliceOfSlice(s: Bytes, a: nat, b: nat, from: nat, upto: nat)
      requires a <= b <= |s| && from <= upto <= b - a
      ensures s[a..b][from..upto] == s[a + from..a + upto]
    {
      var l, r := s[a..b][from..upto], s[a + from..a + upto];
      assert |l| == |r| && forall i :: 0 <= i < |l| ==> l[i] == r[i];
    }

    /** Reads `size` bytes of the file from `start` on. A read that goes behind the chain by no more than a cluster is not
        refused: it gives what the image holds at the place the end mark stands for, often nothing. */
    method ReadFile(head: nat, start: nat, size: nat, ghost c: seq<nat>) returns (r: ReadResult)
      requires Valid() && c in chains && c[0] == head
      modifies `pos
      ensures AllInside(Area(), c, bytesPerCluster) && |File(c)| == |c| * bytesPerCluster
      ensures size == 0 ==> r == Got([])
      ensures size > 0 && start + size <= |File(c)| ==> r == Got(File(c)[start..start + size])
      ensures size > 0 && |File(c)| < start + size <= |File(c)| + bytesPerCluster ==>
                r == if start < |File(c)| then Got(File(c)[start..] + BehindEnd(0, start + size - |File(c)|))
                     else Got(BehindEnd(start - |File(c)|, start + size - |File(c)|))
      ensures size > 0 && |File(c)| + bytesPerCluster < start + size ==> r == OutOfBounds
    {
      hide TableAt, ShortAt, Shape, WellFormed, Linked, NoRepeat, Offset, Inside, Cluster, AllInside, Content, Progress,
           ReadSoFar, Clipped;
      InChains(c);
      ChainInside(c);
      ContentSize(Area(), c, bytesPerCluster);
      if size == 0 {
        return Got([]);
      }
      var got: Bytes := [];
      ghost var k := 0;
      var cluster: nat, startByte: nat, left: nat := head, start, size;
      ReadNothing(File(c), start, size);
      Positive();
      while true
        invariant k <= |c| && cluster == (if k < |c| then c[k] else END_OF_CHAIN as nat)
        invariant ReadSoFar(File(c), start, size, k * bytesPerCluster, startByte, left, got)
        decreases |c| + 1 - k
      {
        if k < |c| { EntryOf(c, k); }
        ghost var from, was, had := startByte, left, got;
        var line;
        line, left := ReadPart(cluster, startByte, left);
        got := got + line;
        Times(k, |c|);
        if k < |c| {
          InChain(c, k, start, size, from, was, had, line, left);
        } else {
          BehindChain(File(c), start, size, from, was, had, line, left);
        }
        if left == 0 {
          return Got(got);
        }
        startByte := if startByte < bytesPerCluster then 0 else startByte - bytesPerCluster;
        if cluster > MAX_CLUSTER_ID {
          return OutOfBounds;
        }
        cluster := ReadEntry(cluster);
        assert cluster > 0;
        k := k + 1;
      }
    }

    lemma Positive()
      requires Shape()
      ensures bytesPerCluster > 0
    {
    }

    /** What the image holds at the place the end mark stands for. */
    ghost function BehindEnd(from: nat, upto: nat): Bytes
      requires from <= upto
      reads f
    {
      Clipped(f[..], Base() + Offset(END_OF_CHAIN as nat, bytesPerCluster) + from, upto - from)
    }

    /** A read that has come to position `at` of the file. */
    ghost predicate ReadSoFar(file: Bytes, start: nat, size: nat, at: nat, startByte: nat, left: nat, got: Bytes) {
      && left > 0 && at <= |file|
      && if start < at then startByte == 0 && at + left == start + size && got == file[start..at]
         else startByte == start - at && left == size && got == []
    }

    lemma ReadNothing(file: Bytes, start: nat, size: nat)
      requires size > 0
      ensures ReadSoFar(file, start, size, 0, start, size, [])
    {
    }

    lemma InChain(c: seq<nat>, k: nat, start: nat, size: nat, startByte: nat, left: nat, got: Bytes, line: Bytes, left': nat)
      requires Shape() && AllInside(Area(), c, bytesPerCluster) && k < |c| && 2 <= c[k]
      requires ReadSoFar(File(c), start, size, k * bytesPerCluster, startByte, left, got)
      requires startByte >= bytesPerCluster ==> line == [] && left' == left
      requires startByte < bytesPerCluster ==>
                 var n := if startByte + left > bytesPerCluster then bytesPerCluster - startByte else left;
                 line == Clipped(f[..], Base() + Offset(c[k], bytesPerCluster) + startByte, n) && left' == left - n
      ensures left' == 0 ==> start + size <= |File(c)| && got + line == File(c)[start..start + size]
      ensures left' > 0 ==>
                ReadSoFar(File(c), start, size, k * bytesPerCluster + bytesPerCluster,
                          if startByte < bytesPerCluster then 0 else startByte - bytesPerCluster, left', got + line)
    {
      hide TableAt, Shape, Offset, AllInside, Content, Clipped;
      ClusterAt(c, k);
      if startByte < bytesPerCluster {
        var n := if startByte + left > bytesPerCluster then bytesPerCluster - startByte else left;
        PartAt(c, k, startByte, n);
      }
    }

    lemma BehindChain(file: Bytes, start: nat, size: nat, startByte: nat, left: nat, got: Bytes, line: Bytes, left': nat)
      requires bytesPerCluster > 0 && ReadSoFar(file, start, size, |file|, startByte, left, got)
      requires startByte >= bytesPerCluster ==> line == [] && left' == left
      requires startByte < bytesPerCluster ==>
                 var n := if startByte + left > bytesPerCluster then bytesPerCluster - startByte else left;
                 line == Clipped(f[..], Base() + Offset(END_OF_CHAIN as nat, bytesPerCluster) + startByte, n) && left' == left - n
      ensures start + size > |file|
      ensures left' == 0 <==> start + size <= |file| + bytesPerCluster
      ensures left' == 0 ==>
                got + line == if start < |file| then file[start..] + BehindEnd(0, start + size - |file|)
                              else BehindEnd(start - |file|, start + size - |file|)
    {
      hide Offset, Clipped;
    }
  }
}
