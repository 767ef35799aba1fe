/** Choosing the diffs that are given up to save stash space. */
module Selection {
  import opened Ranges
  import opened Transfers
  import opened FeedbackArc
  import opened Device
  import opened Patches
  import opened Splitting

  /** A diff before the selection, as a value. */
  datatype Offer = Offer(draft: Draft, uses: seq<Stash>)

  ghost function OfferOf(x: Transfer): Offer
    reads x
  {
    Offer(DraftOf(x), x.useStash)
  }

  ghost function OffersOf(l: seq<Transfer>): (os: seq<Offer>)
    reads set x | x in l
    ensures |os| == |l| && forall i :: 0 <= i < |l| ==> os[i] == OfferOf(l[i])
  {
    seq(|l|, i requires 0 <= i < |l| reads set x | x in l => OfferOf(l[i]))
  }

  /** What the choice depends on: the kinds of patches, the patches, and how well target data can be packed. */
  datatype Sizes = Sizes(canUseImgdiff: nat -> bool, tool: Tool, deflated: seq<Block> -> nat)

  ghost function PatchFor(x: Draft, imgdiff: bool, tool: Tool): PatchInfo {
    if x.info.Some? then x.info.value else PatchInfo(imgdiff, tool.compute(imgdiff, x.srcHash, x.tgtHash))
  }

  /** A diff that may be given up: the blocks it holds stashed, and what the package grows by for each of them. */
  datatype Candidate = Candidate(index: nat, blocks: nat, score: real)

  /** What the `i`-th transfer brings. */
  ghost predicate IsOf(c: Candidate, i: nat, o: Offer, sizes: Sizes) {
    && c.index == i && NeedsPatch(o.draft) && c.blocks == StashSize(o.uses)
    && Worth(c, |PatchFor(o.draft, sizes.canUseImgdiff(i), sizes.tool).content|, sizes.deflated(o.draft.tgtHash))
  }

  ghost predicate IsCandidate(c: Candidate, os: seq<Offer>, sizes: Sizes) {
    c.index < |os| && IsOf(c, c.index, os[c.index], sizes)
  }

  /** A patch that is no smaller than the packed target is given up first; any other one only if that frees blocks. */
  ghost predicate Worth(c: Candidate, patch: nat, packed: nat) {
    if patch >= packed then c.score == -1.0
    else c.blocks > 0 && c.score == (packed - patch) as real * 100.0 / c.blocks as real
  }

  ghost predicate Before(a: Candidate, b: Candidate) {
    a.score < b.score || (a.score == b.score && a.index < b.index)
  }

  ghost function Freed(cs: seq<Candidate>): nat {
    if cs == [] then 0 else Freed(cs[..|cs| - 1]) + cs[|cs| - 1].blocks
  }

  /** A diff with its patch. */
  ghost function Weighed(o: Offer, i: nat, sizes: Sizes): Offer {
    if NeedsPatch(o.draft) then o.(draft := o.draft.(info := Some(PatchFor(o.draft, sizes.canUseImgdiff(i), sizes.tool)))) else o
  }

  ghost function GivenUp(o: Offer): Offer {
    Offer(o.draft.(style := New, src := {}, info := None), [])
  }

  ghost predicate Taken(cs: seq<Candidate>, n: nat, i: nat)
    requires n <= |cs|
  {
    exists k :: 0 <= k < n && cs[k].index == i
  }

  /** All diffs with their patches, and the first `n` candidates given up. */
  ghost predicate Converted(os: seq<Offer>, os': seq<Offer>, sizes: Sizes, cs: seq<Candidate>, n: nat)
    requires n <= |cs|
  {
    |os| == |os'| && forall i :: 0 <= i < |os| ==>
      os'[i] == if Taken(cs, n, i) then GivenUp(Weighed(os[i], i, sizes)) else Weighed(os[i], i, sizes)
  }

  ghost predicate FineOffers(os: seq<Offer>, src: Image, tgt: Image, tool: Tool) {
    forall i :: 0 <= i < |os| ==> Fine(os[i].draft, src, tgt, tool)
  }

  // The candidates.

  /** One diff: it gets its patch and is weighed. */
  method Weigh(xf: Transfer, i: nat, sizes: Sizes, src: Image, tgt: Image) returns (c: Option<Candidate>)
    requires Fine(DraftOf(xf), src, tgt, sizes.tool) && Sound(sizes.tool)
    modifies xf`patchInfo
    ensures Fine(DraftOf(xf), src, tgt, sizes.tool) && OfferOf(xf) == Weighed(old(OfferOf(xf)), i, sizes)
    ensures if c.Some? then IsOf(c.value, i, old(OfferOf(xf)), sizes) else forall e :: !IsOf(e, i, old(OfferOf(xf)), sizes)
  {
    c := None;
    if xf.style == Diff && xf.srcHash != xf.tgtHash {
      if xf.patchInfo == None {
        xf.patchInfo := Some(PatchInfo(sizes.canUseImgdiff(i),
                                       sizes.tool.compute(sizes.canUseImgdiff(i), Read(src, xf.srcRanges), Read(tgt, xf.tgtRanges))));
      }
      var patch, packed := |xf.patchInfo.value.content|, sizes.deflated(Read(tgt, xf.tgtRanges));
      var blocks := SumSizes(xf.useStash);
      if patch >= packed {
        c := Some(Candidate(i, blocks, -1.0));
      } else if blocks > 0 {
        c := Some(Candidate(i, blocks, (packed - patch) as real * 100.0 / blocks as real));
      }
    }
  }

  /** All candidates, in the order of the transfers. */
  method FindCandidates(l: seq<Transfer>, sizes: Sizes, src: Image, tgt: Image) returns (cs: seq<Candidate>)
    requires Distinct(l) && FineOffers(OffersOf(l), src, tgt, sizes.tool) && Sound(sizes.tool)
    modifies Members(l)`patchInfo
    ensures FineOffers(OffersOf(l), src, tgt, sizes.tool) && Converted(old(OffersOf(l)), OffersOf(l), sizes, [], 0)
    ensures forall a, b :: 0 <= a < b < |cs| ==> cs[a].index < cs[b].index
    ensures forall c :: c in cs <==> IsCandidate(c, old(OffersOf(l)), sizes)
  {
    hide Fine, Sound, IsOf, NeedsPatch, Weighed;
    ghost var os := OffersOf(l);
    cs := [];
    for i := 0 to |l|
      invariant forall k :: 0 <= k < |l| ==> Fine(OfferOf(l[k]).draft, src, tgt, sizes.tool)
      invariant forall k :: 0 <= k < |l| ==> OfferOf(l[k]) == if k < i then Weighed(os[k], k, sizes) else os[k]
      invariant forall a, b :: 0 <= a < b < |cs| ==> cs[a].index < cs[b].index
      invariant forall c :: c in cs <==> c.index < i && IsCandidate(c, os, sizes)
    {
      ghost var before := cs;
      var c := Weigh(l[i], i, sizes, src, tgt);
      cs := if c.Some? then cs + [c.value] else cs;
      OneMore(before, c, i, os, sizes, cs);
    }
  }

  /** An offer brings at most one candidate. */
  lemma OneOf(c: Candidate, e: Candidate, i: nat, o: Offer, sizes: Sizes)
    requires IsOf(c, i, o, sizes) && IsOf(e, i, o, sizes)
    ensures c == e
  {
  }

  lemma OtherIndex(c: Candidate, e: Candidate, os: seq<Offer>, sizes: Sizes)
    requires IsCandidate(c, os, sizes) && IsCandidate(e, os, sizes) && c != e
    ensures c.index != e.index
  {
  }

  lemma OneMore(cs: seq<Candidate>, c: Option<Candidate>, i: nat, os: seq<Offer>, sizes: Sizes, cs': seq<Candidate>)
    requires i < |os| && (forall a, b :: 0 <= a < b < |cs| ==> cs[a].index < cs[b].index)
    requires forall e :: e in cs <==> e.index < i && IsCandidate(e, os, sizes)
    requires if c.Some? then IsOf(c.value, i, os[i], sizes) else forall e :: !IsOf(e, i, os[i], sizes)
    requires cs' == if c.Some? then cs + [c.value] else cs
    ensures forall a, b :: 0 <= a < b < |cs'| ==> cs'[a].index < cs'[b].index
    ensures forall e :: e in cs' <==> e.index < i + 1 && IsCandidate(e, os, sizes)
  {
    hide IsOf;
    assert c.Some? ==> c.value.index == i by { IndexOf(c, i, os, sizes); }
    forall a, b | 0 <= a < b < |cs'| ensures cs'[a].index < cs'[b].index {
      assert cs[a] in cs;
    }
    forall e ensures e in cs' <==> e.index < i + 1 && IsCandidate(e, os, sizes) {
      if c.Some? && e.index == i && IsCandidate(e, os, sizes) {
        OneOf(c.value, e, i, os[i], sizes);
      }
    }
  }

  lemma IndexOf(c: Option<Candidate>, i: nat, os: seq<Offer>, sizes: Sizes)
    requires i < |os| && (c.Some? ==> IsOf(c.value, i, os[i], sizes))
    ensures c.Some? ==> c.value.index == i
  {
  }

  // Their order.

  ghost predicate Ranked(cs: seq<Candidate>) {
    forall a, b :: 0 <= a < b < |cs| ==> Before(cs[a], cs[b])
  }

  /** The place of one more candidate: behind all of its score or less. */
  method PlaceFor(r: seq<Candidate>, c: Candidate) returns (at: nat)
    requires Ranked(r)
    ensures at <= |r| && (at > 0 ==> r[at - 1].score <= c.score) && forall k :: at <= k < |r| ==> c.score < r[k].score
  {
    hide Ranked;
    at := |r|;
    while at > 0 && c.score < r[at - 1].score
      invariant at <= |r| && forall k :: at <= k < |r| ==> c.score < r[k].score
    {
      at := at - 1;
    }
  }

  /** Sorts by score; candidates of the same score keep their order. */
  method SortByScore(cs: seq<Candidate>) returns (r: seq<Candidate>)
    requires forall a, b :: 0 <= a < b < |cs| ==> cs[a].index < cs[b].index
    ensures Ranked(r) && multiset(r) == multiset(cs)
  {
    hide Ranked;
    r := [];
    NoneRanked();
    for n := 0 to |cs|
      invariant Ranked(r) && multiset(r) == multiset(cs[..n])
    {
      var at := PlaceFor(r, cs[n]);
      assert cs[..n + 1] == cs[..n] + [cs[n]];
      Earlier(cs, n, r);
      Inserted(r, at, cs[n]);
      r := r[..at] + [cs[n]] + r[at..];
    }
    assert cs[..|cs|] == cs;
  }

  lemma NoneRanked()
    ensures Ranked([])
  {
  }

  lemma Earlier(cs: seq<Candidate>, n: nat, r: seq<Candidate>)
    requires n < |cs| && (forall a, b :: 0 <= a < b < |cs| ==> cs[a].index < cs[b].index) && multiset(r) == multiset(cs[..n])
    ensures forall k :: 0 <= k < |r| ==> r[k].index < cs[n].index
  {
    forall k | 0 <= k < |r| ensures r[k].index < cs[n].index {
      assert r[k] in multiset(cs[..n]);
    }
  }

  lemma Inserted(r: seq<Candidate>, at: nat, c: Candidate)
    requires Ranked(r) && at <= |r| && (forall k :: 0 <= k < |r| ==> r[k].index < c.index)
    requires (at > 0 ==> r[at - 1].score <= c.score) && forall k :: at <= k < |r| ==> c.score < r[k].score
    ensures Ranked(r[..at] + [c] + r[at..]) && multiset(r[..at] + [c] + r[at..]) == multiset(r) + multiset{c}
  {
    hide Before;
    var s := r[..at] + [c] + r[at..];
    SplitAt(r, at);
    forall a, b | 0 <= a < b < |s| ensures Before(s[a], s[b]) {
      InsertedPair(r, at, c, a, b);
    }
  }

  lemma SplitAt<T>(r: seq<T>, at: nat)
    requires at <= |r|
    ensures multiset(r[..at]) + multiset(r[at..]) == multiset(r)
  {
    assert r == r[..at] + r[at..];
  }

  lemma InsertedPair(r: seq<Candidate>, at: nat, c: Candidate, a: nat, b: nat)
    requires Ranked(r) && at <= |r| && (forall k :: 0 <= k < |r| ==> r[k].index < c.index)
    requires (at > 0 ==> r[at - 1].score <= c.score) && forall k :: at <= k < |r| ==> c.score < r[k].score
    requires a < b <= |r|
    ensures Before((r[..at] + [c] + r[at..])[a], (r[..at] + [c] + r[at..])[b])
  {
    if b < at {
      assert Before(r[a], r[b]);
    } else if b == at {
      assert a < at - 1 ==> Before(r[a], r[at - 1]);
    } else if a < at {
      assert Before(r[a], r[b - 1]);
    } else if a > at {
      assert Before(r[a - 1], r[b - 1]);
    }
  }

  // The conversion.

  /** The candidates are diffs, each named once. */
  ghost predicate CanConvert(os: seq<Offer>, cs: seq<Candidate>) {
    && (forall k :: 0 <= k < |cs| ==> cs[k].index < |os| && os[cs[k].index].draft.style == Diff)
    && (forall a, b :: 0 <= a < b < |cs| ==> cs[a].index != cs[b].index)
  }

  ghost predicate FirstGivenUp(os: seq<Offer>, os': seq<Offer>, cs: seq<Candidate>, n: nat)
    requires n <= |cs|
  {
    |os| == |os'| && forall i :: 0 <= i < |os| ==> os'[i] == if Taken(cs, n, i) then GivenUp(os[i]) else os[i]
  }

  method ConvertOne(l: seq<Transfer>, i: nat)
    requires Distinct(l) && i < |l| && l[i].style == Diff
    modifies Members(l)`useStash, Members(l)`style, Members(l)`srcRanges, Members(l)`patchInfo
    ensures OffersOf(l) == old(OffersOf(l))[i := GivenUp(old(OffersOf(l))[i])]
  {
    l[i].ConvertToNew();
    assert forall k :: 0 <= k < |l| ==> OfferOf(l[k]) == if k == i then GivenUp(old(OfferOf(l[k]))) else old(OfferOf(l[k]));
  }

  lemma OneGivenUp(os: seq<Offer>, now: seq<Offer>, cs: seq<Candidate>, n: nat)
    requires n < |cs| && CanConvert(os, cs) && FirstGivenUp(os, now, cs, n)
    ensures cs[n].index < |now| && now[cs[n].index].draft.style == Diff
    ensures FirstGivenUp(os, now[cs[n].index := GivenUp(now[cs[n].index])], cs, n + 1)
  {
    hide GivenUp;
    var os' := now[cs[n].index := GivenUp(now[cs[n].index])];
    forall i | 0 <= i < |os| ensures os'[i] == if Taken(cs, n + 1, i) then GivenUp(os[i]) else os[i] {
      assert Taken(cs, n + 1, i) <==> Taken(cs, n, i) || cs[n].index == i;
    }
  }

  lemma GivenUpFine(os: seq<Offer>, os': seq<Offer>, cs: seq<Candidate>, n: nat, src: Image, tgt: Image, tool: Tool)
    requires n <= |cs| && FirstGivenUp(os, os', cs, n) && FineOffers(os, src, tgt, tool)
    ensures FineOffers(os', src, tgt, tool)
  {
    hide Taken;
  }

  /** Gives up candidates until enough blocks are freed; the first one in any case. */
  method ConvertFirst(l: seq<Transfer>, cs: seq<Candidate>, violated: real) returns (n: nat)
    requires Distinct(l) && CanConvert(OffersOf(l), cs)
    modifies Members(l)`useStash, Members(l)`style, Members(l)`srcRanges, Members(l)`patchInfo
    ensures n <= |cs| && FirstGivenUp(old(OffersOf(l)), OffersOf(l), cs, n)
    ensures forall k :: 0 < k < n ==> (Freed(cs[..k]) as real) < violated
    ensures n < |cs| ==> 0 < n && Freed(cs[..n]) as real >= violated
  {
    hide GivenUp, FirstGivenUp, CanConvert;
    n := 0;
    var removed := 0;
    ghost var os := OffersOf(l);
    NoneGivenUp(os, cs);
    while n < |cs|
      invariant n <= |cs| && removed == Freed(cs[..n]) && FirstGivenUp(os, OffersOf(l), cs, n)
      invariant forall k :: 0 < k <= n ==> (Freed(cs[..k]) as real) < violated
    {
      OneGivenUp(os, OffersOf(l), cs, n);
      ConvertOne(l, cs[n].index);
      removed := removed + cs[n].blocks;
      assert cs[..n + 1][..n] == cs[..n];
      n := n + 1;
      if removed as real >= violated {
        break;
      }
    }
  }

  lemma NoneGivenUp(os: seq<Offer>, cs: seq<Candidate>)
    ensures FirstGivenUp(os, os, cs, 0)
  {
  }

  lemma CandidatesConvert(os: seq<Offer>, now: seq<Offer>, sizes: Sizes, found: seq<Candidate>, cs: seq<Candidate>)
    requires Converted(os, now, sizes, [], 0) && (forall c :: c in found <==> IsCandidate(c, os, sizes))
    requires Ranked(cs) && multiset(cs) == multiset(found)
    requires forall a, b :: 0 <= a < b < |found| ==> found[a].index < found[b].index
    ensures CanConvert(now, cs) && forall c :: c in cs <==> IsCandidate(c, os, sizes)
  {
    hide Worth;
    forall c ensures c in cs <==> c in found {
      assert c in multiset(cs) <==> c in multiset(found);
    }
    forall k | 0 <= k < |cs| ensures cs[k].index < |now| && now[cs[k].index].draft.style == Diff {
      assert IsCandidate(cs[k], os, sizes);
    }
    forall a, b | 0 <= a < b < |cs| ensures cs[a].index != cs[b].index {
      assert Before(cs[a], cs[b]);
      OtherIndex(cs[a], cs[b], os, sizes);
    }
  }

  lemma ConvertedThen(os: seq<Offer>, mid: seq<Offer>, now: seq<Offer>, sizes: Sizes, cs: seq<Candidate>, n: nat)
    requires n <= |cs| && Converted(os, mid, sizes, [], 0) && FirstGivenUp(mid, now, cs, n)
    ensures Converted(os, now, sizes, cs, n)
  {
    hide GivenUp, Weighed;
  }

  /** All candidates, cheapest first, and how many of them are given up: just so many that enough blocks are freed, and at
      least one. */
  ghost predicate Choice(cs: seq<Candidate>, n: nat, os: seq<Offer>, sizes: Sizes, violated: real) {
    && Ranked(cs) && (forall c :: c in cs <==> IsCandidate(c, os, sizes)) && n <= |cs|
    && (forall k :: 0 < k < n ==> (Freed(cs[..k]) as real) < violated)
    && (n < |cs| ==> 0 < n && Freed(cs[..n]) as real >= violated)
  }

  /** The diffs whose packed target is no larger than their patch, and then those that grow the package least for each
      block they free, are given up until enough blocks are freed. */
  method SelectAndConvertDiffTransfersToNew(l: seq<Transfer>, violated: real, sizes: Sizes, src: Image, tgt: Image)
    returns (cs: seq<Candidate>, n: nat)
    requires Distinct(l) && FineOffers(OffersOf(l), src, tgt, sizes.tool) && Sound(sizes.tool)
    modifies Members(l)`useStash, Members(l)`style, Members(l)`srcRanges, Members(l)`patchInfo
    ensures FineOffers(OffersOf(l), src, tgt, sizes.tool)
    ensures Choice(cs, n, old(OffersOf(l)), sizes, violated) && Converted(old(OffersOf(l)), OffersOf(l), sizes, cs, n)
  {
    hide FineOffers, Sound, IsCandidate, Ranked, Converted, CanConvert, FirstGivenUp, OffersOf, Freed;
    ghost var os := OffersOf(l);
    var found := FindCandidates(l, sizes, src, tgt);
    ghost var mid := OffersOf(l);
    cs := SortByScore(found);
    CandidatesConvert(os, mid, sizes, found, cs);
    n := ConvertFirst(l, cs, violated);
    GivenUpFine(mid, OffersOf(l), cs, n, src, tgt, sizes.tool);
    ConvertedThen(os, mid, OffersOf(l), sizes, cs, n);
  }
}
