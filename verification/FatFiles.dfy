/** Files in a FAT16 image: what one reads is what was written, and no file disturbs another. */
module FatFiles {
  import opened FatLayout
  import opened FatChains
  import opened Fat16

  /** The bytes of a chain as they are in `area`. */
  ghost predicate SameContent(area: Bytes, area': Bytes, c: seq<nat>, size: nat) {
    AllInside(area, c, size) && AllInside(area', c, size) && Content(area', c, size) == Content(area, c, size)
  }

  /** A chain none of whose clusters has been written holds what it held. */
  lemma OthersKeep(fs: Fat, area: Bytes, c: seq<nat>, start: nat, data: Bytes, d: seq<nat>)
    requires fs.Valid() && fs.Progress(area, fs.Area(), c, |c|, start, data)
    requires d in fs.chains && c in fs.chains && d != c
    ensures SameContent(area, fs.Area(), d, fs.bytesPerCluster)
  {
    hide TableAt, Inside, Cluster, Linked, NoRepeat;
    fs.InChains(d);
    fs.ChainInside(d);
    fs.InsideSame(area, fs.Area(), d, fs.bytesPerCluster);
    assert c[..|c|] == c;
    forall i | 0 <= i < |d| ensures d[i] !in c {
      assert d[i] in Cells(d) && Cells(c) !! Cells(d);
    }
    ContentSame(area, fs.Area(), d, fs.bytesPerCluster);
  }

  lemma AllWritten(fs: Fat, area: Bytes, area': Bytes, c: seq<nat>, start: nat, data: Bytes)
    requires fs.Progress(area, area', c, |c|, start, data)
    ensures AllInside(area, c, fs.bytesPerCluster) && AllInside(area', c, fs.bytesPerCluster)
    ensures Content(area', c, fs.bytesPerCluster) == Overlay(Content(area, c, fs.bytesPerCluster), 0, start, data)
  {
    hide Inside, Cluster, Content, Overlay;
    assert c[..|c|] == c;
  }

  lemma Longer(n: nat, m: nat, size: nat)
    requires n <= m
    ensures n * size <= m * size
  {
  }

  lemma SuffixInside(area: Bytes, c: seq<nat>, n: nat, size: nat)
    requires n <= |c| && AllInside(area, c, size)
    ensures AllInside(area, c[n..], size)
  {
    hide Inside;
    forall i | 0 <= i < |c| - n ensures Inside(area, c[n..][i], size) {
      assert c[n..][i] == c[n + i];
    }
  }

  /** The written chain: as much of the data is in place as it holds, and all else it held before is still there. */
  lemma WrittenContent(fs: Fat, area: Bytes, c: seq<nat>, c': seq<nat>, start: nat, data: Bytes)
    requires fs.Shape() && fs.Progress(area, fs.Area(), c', |c'|, start, data)
    requires |c| <= |c'| && c'[..|c|] == c && AllInside(area, c, fs.bytesPerCluster)
    ensures AllInside(fs.Area(), c', fs.bytesPerCluster)
    ensures var before, after := Content(area, c, fs.bytesPerCluster), Content(fs.Area(), c', fs.bytesPerCluster);
            && |after| == |c'| * fs.bytesPerCluster && |before| <= |after|
            && (forall j :: 0 <= j < |after| && start <= j < start + |data| ==> after[j] == data[j - start])
            && (forall j :: 0 <= j < |before| && !(start <= j < start + |data|) ==> after[j] == before[j])
  {
    hide TableAt, Inside, Cluster, AllInside, Content;
    hide Fat.Progress;
    var size := fs.bytesPerCluster;
    var ext := c'[|c|..];
    assert c' == c + ext;
    AllWritten(fs, area, fs.Area(), c', start, data);
    SuffixInside(area, c', |c|, size);
    ContentSize(area, c, size);
    Longer(|c|, |c'|, size);
    ContentConcat(area, c, ext, size);
    ContentSize(area, c', size);
    ContentSize(fs.Area(), c', size);
  }

  lemma OthersIn(d: seq<nat>, c: seq<nat>, c': seq<nat>, before: set<seq<nat>>, now: set<seq<nat>>)
    requires now == before - {c} + {c'} && (c' == c || c' !in before) && d in before && d != c
    ensures d in now && d != c'
  {
  }

  /** The text of a file after writing, from the bytes of its chain. */
  lemma TextAfter(before: Bytes, after: Bytes, size: nat, start: nat, data: Bytes)
    requires start <= size <= |before| <= |after| && start + |data| <= |after|
    requires forall j :: 0 <= j < |after| && start <= j < start + |data| ==> after[j] == data[j - start]
    requires forall j :: 0 <= j < |before| && !(start <= j < start + |data|) ==> after[j] == before[j]
    ensures var upto := start + |data|;
            after[..if upto > size then upto else size] ==
            before[..size][..start] + data + (if upto < size then before[..size][upto..] else [])
  {
    var upto := start + |data|;
    assert after[..start] == before[..size][..start];
    assert after[start..upto] == data;
    assert after[..upto] == after[..start] + after[start..upto];
    if upto < size {
      assert after[upto..size] == before[..size][upto..];
      assert after[..size] == after[..upto] + after[upto..size];
    }
  }

  /** The text after a write that has failed because there was no more room. */
  lemma TextAfterFailure(before: Bytes, after: Bytes, size: nat, start: nat, data: Bytes)
    requires start <= size <= |before| <= |after| < start + |data|
    requires forall j :: 0 <= j < |after| && start <= j < start + |data| ==> after[j] == data[j - start]
    requires forall j :: 0 <= j < |before| && !(start <= j < start + |data|) ==> after[j] == before[j]
    ensures after[..size] == before[..size][..start] + data[..size - start]
  {
    assert after[..start] == before[..size][..start];
    assert after[start..size] == data[..size - start];
    assert after[..size] == after[..start] + after[start..size];
  }

  lemma SliceOfPrefix(held: Bytes, size: nat, from: nat, upto: nat)
    requires from <= upto <= size <= |held|
    ensures held[..size][from..upto] == held[from..upto]
  {
  }

  class FatFile {
    const fs: Fat
    const startCluster: nat
    var size: nat
    var idx: nat
    ghost var chain: seq<nat>

    /** The file occupies one chain of the image, and the position is not past its end. */
    ghost predicate Valid()
      reads this, fs, fs.f
    {
      && fs.Valid() && chain in fs.chains && chain[0] == startCluster
      && idx <= size <= |chain| * fs.bytesPerCluster
    }

    ghost function Text(): (t: Bytes)
      requires Valid()
      reads this, fs, fs.f
      ensures |t| == size && idx <= |t|
    {
      fs.InChains(chain);
      fs.ChainInside(chain);
      ContentSize(fs.Area(), chain, fs.bytesPerCluster);
      fs.File(chain)[..size]
    }

    /** Without a size the whole chain is the file. */
    constructor (fs: Fat, cluster: nat, size: Option<nat>, ghost chain: seq<nat>)
      requires fs.Valid() && chain in fs.chains && chain[0] == cluster
      requires size.Some? ==> size.value <= |chain| * fs.bytesPerCluster
      modifies fs`pos
      ensures Valid() && this.fs == fs && this.chain == chain && idx == 0
      ensures this.size == if size.Some? then size.value else |chain| * fs.bytesPerCluster
    {
      this.fs, this.startCluster, this.idx, this.chain := fs, cluster, 0, chain;
      this.size := 0;
      new;
      if size.Some? {
        this.size := size.value;
      } else {
        fs.InChains(chain);
        this.size := fs.GetChainSize(cluster, chain);
      }
    }

    /** Moves to `amount` from the start, the position or the end; never outside the file. */
    method Seek(amount: int, direction: nat)
      modifies `idx
      ensures var to := if direction == 1 then old(idx) + amount else if direction == 2 then size - amount else amount;
              idx == if to < 0 then 0 else if to > size then size else to
    {
      var to: int := amount;
      if direction == 1 {
        to := idx + amount;
      } else if direction == 2 {
        to := size - amount;
      }
      if to < 0 {
        to := 0;
      }
      if to > size {
        to := size;
      }
      idx := to;
    }

    /** The next bytes, as many as there are. */
    method Read(n: nat) returns (got: Bytes)
      requires Valid()
      modifies fs`pos, `idx
      ensures Valid() && Text() == old(Text())
      ensures idx == (if old(idx) + n > size then size else old(idx) + n)
      ensures got == old(Text()[idx..if idx + n > size then size else idx + n])
    {
      hide TableAt, WellFormed, Inside, Cluster, Linked, NoRepeat, Offset, AllInside, Content;
      var count := if idx + n > size then size - idx else n;
      fs.InChains(chain);
      fs.ChainInside(chain);
      ContentSize(fs.Area(), chain, fs.bytesPerCluster);
      ghost var held := fs.File(chain);
      SliceOfPrefix(held, size, idx, idx + count);
      var r := fs.ReadFile(startCluster, idx, count, chain);
      assert fs.File(chain) == held;
      got := r.data;
      idx := idx + |got|;
    }

    /** Writes at the position: the file is as before up to there and behind what is written, and longer if need be. It
        fails if there is not enough room; then the file keeps its size, and as much of the data as fits into that has
        been written. Every other chain of the image keeps its place and its bytes. */
    method Write(data: Bytes) returns (ok: bool)
      requires Valid()
      modifies this, fs, fs.f
      ensures Valid()
      ensures ok <==> old(fs.HasRoom(|chain|, idx + |data|, |data|, |Free(fs.First())|))
      ensures data == [] ==> ok
      ensures ok ==> idx == old(idx) + |data| && size == (if idx > old(size) then idx else old(size))
      ensures ok ==> Text() == old(Text())[..old(idx)] + data + (if idx < old(size) then old(Text())[idx..] else [])
      ensures !ok ==> idx == old(idx) && size == old(size) && size - idx < |data|
      ensures !ok ==> Text() == old(Text())[..idx] + data[..size - idx]
      ensures fs.chains == old(fs.chains) - {old(chain)} + {chain}
      ensures forall d :: d in old(fs.chains) && d != old(chain) ==>
                d in fs.chains && SameContent(old(fs.Area()), fs.Area(), d, fs.bytesPerCluster)
    {
      hide TableAt, WellFormed, Free, Inside, Cluster, Linked, NoRepeat, Growth, Offset, AllInside, Content, SameContent;
      ghost var c, area, before := chain, fs.Area(), fs.chains;
      fs.InChains(c);
      fs.ChainInside(c);
      ContentSize(area, c, fs.bytesPerCluster);
      ghost var held := fs.File(c);
      ghost var size0 := size;
      ghost var start := idx;
      ok, chain := fs.WriteFile(startCluster, idx, data, chain);
      WrittenContent(fs, area, c, chain, start, data);
      forall d | d in before && d != c ensures d in fs.chains && SameContent(area, fs.Area(), d, fs.bytesPerCluster) {
        OthersIn(d, c, chain, before, fs.chains);
        OthersKeep(fs, area, chain, start, data, d);
      }
      if !ok {
        TextAfterFailure(held, fs.File(chain), size0, start, data);
        return;
      }
      idx := idx + |data|;
      if idx > size {
        size := idx;
      }
      TextAfter(held, fs.File(chain), size0, start, data);
    }
  }

  /** Puts a file into the image: a chain of just the right size that holds the data. An empty file gets no cluster.
      Without enough free space nothing happens. */
  method NewFile(fs: Fat, data: Bytes) returns (head: Option<nat>, ghost c: seq<nat>)
    requires fs.Valid()
    modifies fs, fs.f
    ensures fs.Valid()
    ensures data == [] ==> head == Some(0) && fs.chains == old(fs.chains)
    ensures data != [] ==> (head == None <==> |Free(old(fs.First()))| * fs.bytesPerCluster < |data|)
    ensures head == None ==> fs.f[..] == old(fs.f[..]) && fs.chains == old(fs.chains)
    ensures head.Some? && data != [] ==>
              && c !in old(fs.chains) && fs.chains == old(fs.chains) + {c} && c != [] && c[0] == head.value
              && JustHolds(|c|, |data|, fs.bytesPerCluster)
              && AllInside(fs.Area(), c, fs.bytesPerCluster) && |data| <= |fs.File(c)| && fs.File(c)[..|data|] == data
    ensures forall d :: d in old(fs.chains) ==>
              d in fs.chains && SameContent(old(fs.Area()), fs.Area(), d, fs.bytesPerCluster)
  {
    hide TableAt, WellFormed, Free, Inside, Cluster, Linked, NoRepeat, Growth, Offset, AllInside, Content, SameContent,
         JustHolds, AllFree, SameOutside, Cells;
    c := [];
    ghost var area, before := fs.Area(), fs.chains;
    forall d | d in before ensures SameContent(area, fs.Area(), d, fs.bytesPerCluster) {
      KeepsItself(fs, d);
    }
    if data == [] {
      return Some(0), c;
    }
    var chunk;
    chunk, c := fs.Allocate(|data|);
    if chunk == None {
      return None, c;
    }
    head := Some(chunk.value);
    ghost var made := fs.chains;
    ghost var held := fs.Area();
    Room(fs, |c|, |data|, |Free(fs.First())|);
    fs.InChains(c);
    fs.ChainInside(c);
    var ok;
    ghost var c';
    ok, c' := fs.WriteFile(chunk.value, 0, data, c);
    assert c'[..|c'|] == c' == c;
    WrittenContent(fs, held, c, c, 0, data);
    forall d | d in before ensures d in fs.chains && SameContent(area, fs.Area(), d, fs.bytesPerCluster) {
      OthersIn(d, c, c, made, fs.chains);
      OthersKeep(fs, held, c, 0, data, d);
    }
  }

  lemma KeepsItself(fs: Fat, d: seq<nat>)
    requires fs.Valid() && d in fs.chains
    ensures SameContent(fs.Area(), fs.Area(), d, fs.bytesPerCluster)
  {
    hide TableAt, Inside, Cluster, Linked, NoRepeat;
    fs.InChains(d);
    fs.ChainInside(d);
  }

  /** A chain made for the data need not grow. */
  lemma Room(fs: Fat, n: nat, amount: nat, free: nat)
    requires fs.Shape() && amount > 0 && JustHolds(n, amount, fs.bytesPerCluster)
    ensures fs.Added(n, 0 + amount, amount) == 0 && fs.HasRoom(n, 0 + amount, amount, free)
  {
  }

  /** The data can be read from the chain; an empty file has none. */
  ghost predicate Stored(fs: Fat, c: seq<nat>, data: Bytes)
    requires fs.Shape()
    reads fs`chains, fs.f
  {
    data == [] || (c in fs.chains && AllInside(fs.Area(), c, fs.bytesPerCluster)
                   && |data| <= |fs.File(c)| && fs.File(c)[..|data|] == data)
  }

  /** The same of the clusters as they were. */
  ghost predicate StoredIn(area: Bytes, chains: set<seq<nat>>, c: seq<nat>, data: Bytes, size: nat) {
    data == [] || (c in chains && AllInside(area, c, size)
                   && |data| <= |Content(area, c, size)| && Content(area, c, size)[..|data|] == data)
  }

  lemma StoredAgain(fs: Fat, area: Bytes, chains: set<seq<nat>>, c: seq<nat>, data: Bytes)
    requires fs.Shape() && StoredIn(area, chains, c, data, fs.bytesPerCluster)
    requires c in chains ==> c in fs.chains && SameContent(area, fs.Area(), c, fs.bytesPerCluster)
    ensures Stored(fs, c, data)
  {
  }

  lemma StoredNow(fs: Fat, c: seq<nat>, data: Bytes)
    requires fs.Shape() && Stored(fs, c, data)
    ensures StoredIn(fs.Area(), fs.chains, c, data, fs.bytesPerCluster)
  {
  }

  /** Copies files into the image, one after the other, as long as there is room. However many follow, each of those
      copied can be read back as it was, and so can every file that was there before. */
  method CopyFiles(fs: Fat, files: seq<Bytes>) returns (done: nat, ghost cs: seq<seq<nat>>)
    requires fs.Valid()
    modifies fs, fs.f
    ensures fs.Valid() && done <= |files| == |cs|
    ensures forall i :: 0 <= i < done ==> Stored(fs, cs[i], files[i])
    ensures done < |files| ==> |Free(fs.First())| * fs.bytesPerCluster < |files[done]|
    ensures forall d :: d in old(fs.chains) ==>
              d in fs.chains && SameContent(old(fs.Area()), fs.Area(), d, fs.bytesPerCluster)
  {
    hide TableAt, WellFormed, Free, Inside, Cluster, Linked, NoRepeat, AllInside, Content, SameContent, JustHolds,
         Stored, StoredIn;
    ghost var area, before := fs.Area(), fs.chains;
    cs := seq(|files|, _ => []);
    done := 0;
    forall d | d in before ensures SameContent(area, fs.Area(), d, fs.bytesPerCluster) {
      KeepsItself(fs, d);
    }
    while done < |files|
      invariant fs.Valid() && done <= |files| == |cs|
      invariant forall i :: 0 <= i < done ==> Stored(fs, cs[i], files[i])
      invariant forall d :: d in before ==> d in fs.chains && SameContent(area, fs.Area(), d, fs.bytesPerCluster)
    {
      ghost var area1, chains1 := fs.Area(), fs.chains;
      forall i | 0 <= i < done ensures StoredIn(area1, chains1, cs[i], files[i], fs.bytesPerCluster) {
        StoredNow(fs, cs[i], files[i]);
      }
      var head;
      ghost var c;
      head, c := NewFile(fs, files[done]);
      forall d | d in before ensures d in fs.chains && SameContent(area, fs.Area(), d, fs.bytesPerCluster) {
        SameAgain(area, area1, fs.Area(), d, fs.bytesPerCluster);
      }
      forall i | 0 <= i < done ensures Stored(fs, cs[i], files[i]) {
        StoredAgain(fs, area1, chains1, cs[i], files[i]);
      }
      if head == None {
        return;
      }
      cs := cs[done := c];
      NowStored(fs, c, files[done]);
      done := done + 1;
    }
  }

  lemma SameAgain(a: Bytes, b: Bytes, c: Bytes, d: seq<nat>, size: nat)
    requires SameContent(a, b, d, size) && SameContent(b, c, d, size)
    ensures SameContent(a, c, d, size)
  {
  }

  lemma NowStored(fs: Fat, c: seq<nat>, data: Bytes)
    requires fs.Shape()
    requires data != [] ==> c in fs.chains && AllInside(fs.Area(), c, fs.bytesPerCluster)
                            && |data| <= |fs.File(c)| && fs.File(c)[..|data|] == data
    ensures Stored(fs, c, data)
  {
  }
}
