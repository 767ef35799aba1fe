/** The planner from end to end. */
module Compute {
  import opened Ranges
  import opened Transfers
  import opened FeedbackArc
  import opened Plans
  import opened StashLimit
  import opened Device
  import opened Writer
  import opened TransferList
  import opened Emit
  import opened Patches
  import opened Splitting
  import opened FilePieces
  import opened SequenceCheck
  import F = FindTransfers
  import I = ImproveSequence
  import Q = FindSequence
  import R = Revise
  import S = Selection

  ghost predicate SetFine(xs: set<Transfer>, env: Setting)
    reads xs
  {
    forall x :: x in xs ==> Fine(DraftOf(x), env.src, env.tgt, env.tool)
  }

  /** The targets do not meet and make up `care`. */
  ghost predicate Covers(xs: set<Transfer>, care: RangeSet) {
    && (forall x, y :: x in xs && y in xs && x != y ==> x.tgtRanges !! y.tgtRanges)
    && (forall b :: b in care <==> exists x :: x in xs && b in x.tgtRanges)
  }

  /** A sequence of sound transfers that is safe to run in this order. */
  ghost predicate Planned(l: seq<Transfer>, m: StashMap, env: Setting, care: RangeSet)
    reads set x | x in l
  {
    && Distinct(l) && SetFine(Members(l), env) && Covers(Members(l), care)
    && GoodPlan(Snapshot(l), m) && RangesFit(env.src, m)
  }

  lemma ListedCovers(ts: seq<Transfer>, env: Setting, care: RangeSet)
    requires F.Listed(ts, [], env, care)
    ensures Distinct(ts) && SetFine(Members(ts), env) && Covers(Members(ts), care)
  {
    hide Fine, Union, Apart;
    var t := DraftTgts(DraftsOf(ts));
    assert Union(ApkTgts([])) == {} by { NoParts(ApkTgts([])); }
    forall x, y | x in Members(ts) && y in Members(ts) && x != y ensures x.tgtRanges !! y.tgtRanges {
      var i :| 0 <= i < |ts| && ts[i] == x;
      var j :| 0 <= j < |ts| && ts[j] == y;
      if i < j { ApartPairs(t, i, j); } else { ApartPairs(t, j, i); }
      assert t[i] == x.tgtRanges && t[j] == y.tgtRanges;
    }
    forall b ensures b in care <==> exists x :: x in Members(ts) && b in x.tgtRanges {
      UnionMember(t, b);
      if i :| 0 <= i < |t| && b in t[i] {
        assert ts[i] in Members(ts) && b in ts[i].tgtRanges;
      }
      if x :| x in Members(ts) && b in x.tgtRanges {
        var i :| 0 <= i < |ts| && ts[i] == x;
        assert b in t[i];
      }
    }
  }

  lemma NoParts(parts: seq<RangeSet>)
    requires parts == []
    ensures Union(parts) == {}
  {
  }

  lemma FineSnap(x: Transfer, env: Setting)
    requires Fine(DraftOf(x), env.src, env.tgt, env.tool)
    ensures var s := Snap(x);
            && s.tgt != {} && Fits(s.tgt, env.tgt) && Fits(s.src, env.src)
            && (s.style == Diff || s.style == New || s.style == Zero)
            && (s.style == Diff ==> s.src != {}) && (s.style == New ==> s.src == {})
  {
  }

  lemma SetFineDrafted(l: seq<Transfer>, env: Setting)
    requires SetFine(Members(l), env)
    ensures Drafted(Snapshot(l)) && TargetsFit(Snapshot(l), env.tgt)
    ensures forall k :: 0 <= k < |l| ==> Fits(Snapshot(l)[k].src, env.src)
    ensures AllFine(l, env.src, env.tgt, env.tool)
  {
    hide Fine, Snap;
    forall k | 0 <= k < |l| ensures Fine(DraftOf(l[k]), env.src, env.tgt, env.tool) {
      assert l[k] in Members(l);
    }
    forall k | 0 <= k < |l|
      ensures var s := Snapshot(l)[k];
              && s.tgt != {} && Fits(s.tgt, env.tgt) && Fits(s.src, env.src)
              && (s.style == Diff || s.style == New || s.style == Zero)
              && (s.style == Diff ==> s.src != {}) && (s.style == New ==> s.src == {})
    {
      FineSnap(l[k], env);
    }
  }

  lemma StashRangesFit(p: Plan, m: StashMap, src: Image)
    requires GoodPlan(p, m) && forall k :: 0 <= k < |p| ==> Fits(p[k].src, src)
    ensures RangesFit(src, m)
  {
    hide TargetsDisjoint, DefsListed, UsesListed, LateReadsStashed;
    forall id | id in m ensures Fits(m[id].range, src) {
      assert m[id].range == p[m[id].use].src * p[m[id].def].tgt;
    }
  }

  lemma {:induction false} CoversWritten(l: seq<Transfer>, care: RangeSet)
    requires Covers(Members(l), care)
    ensures WrittenBefore(Snapshot(l), |l|) == care
  {
    hide WrittenBefore;
    var p := Snapshot(l);
    forall b: nat ensures b in WrittenBefore(p, |l|) <==> b in care {
      WrittenMember(p, |l|, b);
      if k :| 0 <= k < |l| && b in p[k].tgt {
        assert l[k] in Members(l) && b in l[k].tgtRanges;
      }
      if x :| x in Members(l) && b in x.tgtRanges {
        var k :| 0 <= k < |l| && l[k] == x;
        assert b in p[k].tgt;
      }
    }
  }

  /** Sequencing leaves a plan. */
  method Sequence(ts: seq<Transfer>, ghost env: Setting, ghost care: RangeSet)
    returns (l: seq<Transfer>, ghost m: StashMap)
    requires Distinct(ts) && SetFine(Members(ts), env) && Covers(Members(ts), care)
    modifies Members(ts)`goesBefore, Members(ts)`goesAfter
    modifies Members(ts)`stashBefore, Members(ts)`useStash
    modifies Members(ts)`incoming, Members(ts)`outgoing, Members(ts)`score
    modifies Members(ts)`heapItem, Members(ts)`order
    ensures Planned(l, m, env, care) && Members(l) == Members(ts)
    ensures forall x :: x in Members(l) ==> DraftOf(x) == old(DraftOf(x))
  {
    hide Fine, GoodPlan, Snapshot, Backward, Weight, Q.GraphOf;
    ghost var xs: set<Transfer> := Members(ts);
    ghost var first;
    l, m, first := Q.FindSequenceForTransfers(ts);
    forall x | x in xs ensures Fine(DraftOf(x), env.src, env.tgt, env.tool) {
      assert DraftOf(x) == old(DraftOf(x));
    }
    SetFineDrafted(l, env);
    StashRangesFit(Snapshot(l), m, env.src);
  }

  lemma KeptFine(d: Draft, d': Draft, env: Setting)
    requires Fine(d, env.src, env.tgt, env.tool)
    requires d'.tgt == d.tgt && d'.tgtHash == d.tgtHash && d'.srcHash == d.srcHash
    requires || (d'.style == d.style && d'.src == d.src && d'.info == d.info)
             || (d'.style == New && d'.src == {} && d'.info == None)
    ensures Fine(d', env.src, env.tgt, env.tool)
  {
  }

  twostate lemma KeptDraft(x: Transfer)
    requires R.KeptOrNew(x)
    ensures var d, d' := old(DraftOf(x)), DraftOf(x);
            && d'.tgt == d.tgt && d'.tgtHash == d.tgtHash && d'.srcHash == d.srcHash && d'.fromZero == d.fromZero
            && ((d'.style == d.style && d'.src == d.src && d'.info == d.info)
                || (d'.style == New && d'.src == {} && d'.info == None))
  {
  }

  /** Given up: the target blocks will be shipped as they are. */
  ghost predicate GivenUp(d: Draft) {
    d.style == New && d.src == {}
  }

  /** What may become of a draft: it stays what it is, perhaps with a patch, or it is given up. */
  ghost predicate StillOrGivenUp(d: Draft, d': Draft) {
    d'.tgt == d.tgt && d'.fromZero == d.fromZero && ((d'.style == d.style && d'.src == d.src) || GivenUp(d'))
  }

  ghost predicate AllStillOrGivenUp(ds: seq<Draft>, ds': seq<Draft>) {
    |ds| == |ds'| && forall i :: 0 <= i < |ds| ==> StillOrGivenUp(ds[i], ds'[i])
  }

  twostate lemma SameDraft(x: Transfer)
    requires R.KeptOrNew(x) && old(Snap(x)) == Snap(x) && (old(x.style) == New ==> old(x.patchInfo) == None)
    ensures DraftOf(x) == old(DraftOf(x))
  {
  }

  lemma NewHasNoPatch(l: seq<Transfer>, env: Setting)
    requires SetFine(Members(l), env)
    ensures forall x :: x in Members(l) && x.style == New ==> x.patchInfo == None
  {
    forall x | x in Members(l) && x.style == New ensures x.patchInfo == None {
      assert Fine(DraftOf(x), env.src, env.tgt, env.tool);
    }
  }

  // How a plan comes about.

  /** A plan, and the drafts it runs in its order. */
  datatype Pass = Pass(plan: Plan, ids: StashMap, order: seq<Draft>)

  /** The pass has these drafts, in an order that makes a good plan. */
  ghost predicate Orders(x: Pass, ds: seq<Draft>) {
    && GoodPlan(x.plan, x.ids) && |x.plan| == |x.order| == |ds| && (forall d :: d in x.order <==> d in ds)
    && forall i :: 0 <= i < |x.order| ==>
         x.plan[i].tgt == x.order[i].tgt && x.plan[i].src == x.order[i].src && x.plan[i].style == x.order[i].style
  }

  ghost function Offers(x: Pass): (os: seq<S.Offer>)
    requires |x.plan| == |x.order|
    ensures |os| == |x.order|
  {
    seq(|x.order|, i requires 0 <= i < |x.order| => S.Offer(x.order[i], x.plan[i].uses))
  }

  ghost function PassOf(l: seq<Transfer>, m: StashMap): Pass
    reads set x | x in l
  {
    Pass(Snapshot(l), m, DraftsOf(l))
  }

  lemma PassOrders(l: seq<Transfer>, m: StashMap, ts: seq<Transfer>)
    requires Distinct(l) && Distinct(ts) && Members(l) == Members(ts) && GoodPlan(Snapshot(l), m)
    ensures Orders(PassOf(l, m), DraftsOf(ts))
  {
    hide GoodPlan, DraftOf;
    I.DistinctLength(l);
    I.DistinctLength(ts);
    forall d ensures d in DraftsOf(l) <==> d in DraftsOf(ts) {
      if i :| 0 <= i < |l| && DraftOf(l[i]) == d {
        assert l[i] in Members(ts);
        var j :| 0 <= j < |ts| && ts[j] == l[i];
        assert DraftsOf(ts)[j] == d;
      }
      if j :| 0 <= j < |ts| && DraftOf(ts[j]) == d {
        assert ts[j] in Members(l);
        var i :| 0 <= i < |l| && l[i] == ts[j];
        assert DraftsOf(l)[i] == d;
      }
    }
    PassFields(l, m);
  }

  lemma PassFields(l: seq<Transfer>, m: StashMap)
    ensures var x := PassOf(l, m);
            forall i :: 0 <= i < |l| ==>
              x.plan[i].tgt == x.order[i].tgt && x.plan[i].src == x.order[i].src && x.plan[i].style == x.order[i].style
  {
  }

  lemma PassPlan(l: seq<Transfer>, m: StashMap)
    ensures PassOf(l, m).plan == Snapshot(l) && PassOf(l, m).ids == m && PassOf(l, m).order == DraftsOf(l)
  {
  }

  lemma PassOffers(l: seq<Transfer>, m: StashMap)
    ensures Offers(PassOf(l, m)) == S.OffersOf(l)
  {
  }

  lemma SnapsOf(l: seq<Transfer>, p: Plan)
    requires Snapshot(l) == p
    ensures |p| == |l| && forall i :: 0 <= i < |l| ==> Snap(l[i]) == p[i]
  {
  }

  /** Revision leaves a plan. */
  method Revise(l: seq<Transfer>, src: Image, limit: Option<real>, ghost m: StashMap, ghost env: Setting,
                ghost care: RangeSet)
    returns (most: nat, ghost m': StashMap)
    requires Planned(l, m, env, care) && src == env.src
    modifies Members(l)`stashBefore, Members(l)`useStash, Members(l)`style, Members(l)`srcRanges, Members(l)`patchInfo
    ensures Planned(l, m', env, care) && R.Revised(src, Snapshot(l), m', |l|, most)
    ensures limit.Some? && limit.value > 0.0 ==> most as real <= limit.value
    ensures forall x :: x in Members(l) ==> StillOrGivenUp(old(DraftOf(x)), DraftOf(x))
    ensures RangesFit(src, m)
    ensures limit.None? || PeakDemand(src, old(Snapshot(l)), m, |l|) as real <= limit.value ==>
              && Snapshot(l) == old(Snapshot(l)) && m' == m && most == PeakDemand(src, Snapshot(l), m, |l|)
              && forall x :: x in Members(l) ==> DraftOf(x) == old(DraftOf(x))
    ensures R.GivenUpForRoom(src, old(Snapshot(l)), m, Snapshot(l), m', limit)
  {
    hide Fine, GoodPlan, Snapshot, Covers, Drafted, DraftOf, TargetsFit, R.Revised, RangesFit, PeakDemand, R.NewTotal,
         R.NewStays, R.KeptOrNew, R.GivenUpForRoom;
    SetFineDrafted(l, env);
    var newBlocks;
    ghost var p := Snapshot(l);
    SnapsOf(l, p);
    NewHasNoPatch(l, env);
    newBlocks, most, m' := R.ReviseStashSize(l, src, limit, m);
    if Snapshot(l) == p {
      SnapsOf(l, p);
      forall x | x in Members(l) ensures DraftOf(x) == old(DraftOf(x)) {
        var i :| 0 <= i < |l| && l[i] == x;
        SameDraft(x);
      }
    }
    forall x | x in Members(l)
      ensures Fine(DraftOf(x), env.src, env.tgt, env.tool) && StillOrGivenUp(old(DraftOf(x)), DraftOf(x))
    {
      KeptDraft(x);
      KeptFine(old(DraftOf(x)), DraftOf(x), env);
    }
    RevisedParts(src, Snapshot(l), m', |l|, most);
  }

  lemma RevisedParts(img: Image, p: Plan, m: StashMap, n: nat, most: nat)
    requires R.Revised(img, p, m, n, most)
    ensures GoodPlan(p, m) && RangesFit(img, m) && n <= |p| && Within(img, p, m, n, most) && Drafted(p)
  {
  }

  /** Giving up diffs leaves sound transfers. */
  method Select(l: seq<Transfer>, violated: real, canUseImgdiff: nat -> bool, deflated: seq<Block> -> nat, env: Setting)
    returns (ghost cs: seq<S.Candidate>, ghost n: nat)
    requires Distinct(l) && SetFine(Members(l), env) && Patches.Sound(env.tool)
    modifies Members(l)`useStash, Members(l)`style, Members(l)`srcRanges, Members(l)`patchInfo
    ensures SetFine(Members(l), env)
    ensures forall x :: x in Members(l) ==> StillOrGivenUp(old(DraftOf(x)), DraftOf(x))
    ensures S.Choice(cs, n, old(S.OffersOf(l)), S.Sizes(canUseImgdiff, env.tool, deflated), violated) && n <= |cs|
    ensures S.Converted(old(S.OffersOf(l)), S.OffersOf(l), S.Sizes(canUseImgdiff, env.tool, deflated), cs, n)
  {
    hide Fine, Patches.Sound, S.IsCandidate, S.Ranked, S.Taken, S.Freed;
    assert S.FineOffers(S.OffersOf(l), env.src, env.tgt, env.tool);
    var sizes := S.Sizes(canUseImgdiff, env.tool, deflated);
    var candidates, chosen := S.SelectAndConvertDiffTransfersToNew(l, violated, sizes, env.src, env.tgt);
    cs, n := candidates, chosen;
    assert forall k :: 0 <= k < |l| ==> Fine(S.OffersOf(l)[k].draft, env.src, env.tgt, env.tool);
    assert forall k :: 0 <= k < |l| ==> StillOrGivenUp(old(S.OffersOf(l))[k].draft, S.OffersOf(l)[k].draft);
  }

  /** The first `n` candidates are given up, and every other diff has its patch. */
  ghost predicate Chosen(os: seq<S.Offer>, sizes: S.Sizes, cs: seq<S.Candidate>, n: nat, ds: seq<Draft>) {
    |ds| == |os| && n <= |cs| && forall i :: 0 <= i < |os| ==>
      ds[i] == (if S.Taken(cs, n, i) then S.GivenUp(S.Weighed(os[i], i, sizes)) else S.Weighed(os[i], i, sizes)).draft
  }

  lemma ConvertedChosen(os: seq<S.Offer>, l: seq<Transfer>, sizes: S.Sizes, cs: seq<S.Candidate>, n: nat)
    requires n <= |cs| && S.Converted(os, S.OffersOf(l), sizes, cs, n)
    ensures Chosen(os, sizes, cs, n, DraftsOf(l))
  {
    hide S.Weighed, S.GivenUp, S.Taken;
  }

  // After the patches have been computed.

  lemma FinishedGood(p: Plan, p': Plan, m: StashMap, src: Image)
    requires Finished(p, p') && GoodPlan(p, m)
    ensures GoodPlan(p', m)
  {
  }

  lemma {:induction false} FinishedWritten(p: Plan, p': Plan, n: nat)
    requires Finished(p, p') && n <= |p|
    ensures WrittenBefore(p', n) == WrittenBefore(p, n)
  {
    if n > 0 {
      FinishedWritten(p, p', n - 1);
    }
  }

  /** The writer never needs more than the reviser has reckoned with. */
  lemma {:induction false} FinishedPeak(p: Plan, p': Plan, m: StashMap, src: Image, n: nat)
    requires Finished(p, p') && RangesFit(src, m) && n <= |p| && Drafted(p)
    ensures Peak(src, p', m, n) <= PeakDemand(src, p, m, n)
  {
    hide StashBlocks, RangesFit;
    if n > 0 {
      FinishedPeak(p, p', m, src, n - 1);
      FinishedCopy(p[n - 1], p'[n - 1]);
      assert StashBlocks(src, m, n - 1) + CopySize(p'[n - 1]) <= Demand(src, p, m, n - 1);
    }
  }

  lemma FinishedCopy(x: Xfer, y: Xfer)
    requires y == x.(style := y.style)
    requires if x.style == Diff then y.style in {Move, BsDiff, ImgDiff} else y.style == x.style
    requires x.style in {Diff, New, Zero}
    ensures CopySize(y) <= (if NeedsCopy(x) then |x.src| else 0)
  {
  }

  lemma StashBudget(peak: nat, most: nat, limit: real, allowed: real)
    requires peak <= most && most as real <= limit && limit == allowed / (BLOCK_SIZE as real)
    ensures (peak * BLOCK_SIZE) as real <= allowed
  {
    assert BLOCK_SIZE as real == 4096.0;
    assert (peak * BLOCK_SIZE) as real == peak as real * 4096.0;
  }

  lemma PlannedParts(l: seq<Transfer>, m: StashMap, env: Setting, care: RangeSet)
    requires Planned(l, m, env, care)
    ensures Distinct(l) && SetFine(Members(l), env) && Covers(Members(l), care)
    ensures GoodPlan(Snapshot(l), m) && RangesFit(env.src, m)
    ensures WrittenBefore(Snapshot(l), |l|) == care
    ensures Drafted(Snapshot(l)) && TargetsFit(Snapshot(l), env.tgt) && AllFine(l, env.src, env.tgt, env.tool)
    ensures forall i, b :: 0 <= i < |l| && b in l[i].tgtRanges ==> b < |env.tgt|
    ensures forall x :: x in l ==> Fits(x.tgtRanges, env.tgt) && Fits(x.srcRanges, env.src)
  {
    hide WrittenBefore, Fine;
    CoversWritten(l, care);
    SetFineDrafted(l, env);
    forall i | 0 <= i < |l| ensures Fits(l[i].tgtRanges, env.tgt) && Fits(l[i].srcRanges, env.src) {
      assert Snapshot(l)[i] == Snap(l[i]);
    }
  }

  lemma HashesGood(l: seq<Transfer>, env: Setting)
    requires AllFine(l, env.src, env.tgt, env.tool)
    requires forall x :: x in l ==> Fits(x.tgtRanges, env.tgt) && Fits(x.srcRanges, env.src)
    ensures forall i :: 0 <= i < |l| ==>
              && l[i].tgtHash == Read(env.tgt, l[i].tgtRanges)
              && (l[i].style == Diff ==> l[i].srcHash == Read(env.src, l[i].srcRanges))
  {
    forall i | 0 <= i < |l| ensures Fine(DraftOf(l[i]), env.src, env.tgt, env.tool) {
    }
  }

  /** With the patches in place everything is as the writer wants it. */
  lemma ReadyToWrite(l: seq<Transfer>, p: Plan, m: StashMap, pkg: Package, env: Setting, care: RangeSet, most: nat)
    requires |p| == |l| && Finished(p, Snapshot(l)) && GoodPlan(p, m) && RangesFit(env.src, m) && Drafted(p)
    requires WrittenBefore(p, |p|) == care && TargetsFit(Snapshot(l), env.tgt) && |env.tgt| <= |env.src|
    requires pkg.newData == NewDataBefore(Snapshot(l), env.tgt, |l|)
    requires forall k :: 0 <= k < |l| ==> Ready(pkg, env.src, env.tgt, JobOf(l[k]))
    requires Within(env.src, p, m, |p|, most)
    ensures Writable(pkg, env.src, env.tgt, care, Snapshot(l), m, JobsOf(l))
    ensures Peak(env.src, Snapshot(l), m, |l|) <= most
  {
    hide GoodPlan, RangesFit, Drafted, WrittenBefore, TargetsFit, NewDataBefore, Ready, Within, Peak, PeakDemand;
    var p' := Snapshot(l);
    FinishedGood(p, p', m, env.src);
    FinishedWritten(p, p', |p|);
    FinishedPeak(p, p', m, env.src, |p|);
    WithinPeak(env.src, p, m, |p|, most);
    forall k | 0 <= k < |l| ensures JobsOf(l)[k].x == p'[k] && Ready(pkg, env.src, env.tgt, JobsOf(l)[k]) {
    }
  }

  lemma LimitPositive(cacheSize: nat, threshold: real)
    requires threshold > 0.0 && cacheSize / (8 * BLOCK_SIZE) > 0
    ensures cacheSize as real * threshold / BLOCK_SIZE as real > 0.0
  {
    assert cacheSize as real * threshold > 0.0;
  }

  lemma StillFrom(ds: seq<Draft>, ts: seq<Transfer>)
    requires |ds| == |ts| && forall i :: 0 <= i < |ts| ==> StillOrGivenUp(ds[i], DraftOf(ts[i]))
    ensures AllStillOrGivenUp(ds, DraftsOf(ts))
  {
  }

  lemma StillAgain(ds: seq<Draft>, mid: seq<Draft>, ts: seq<Transfer>)
    requires AllStillOrGivenUp(ds, mid) && |mid| == |ts| && forall i :: 0 <= i < |ts| ==> StillOrGivenUp(mid[i], DraftOf(ts[i]))
    ensures AllStillOrGivenUp(ds, DraftsOf(ts))
  {
  }

  twostate lemma SameFresh(new ts: seq<Transfer>, new l: seq<Transfer>)
    requires FreshFrom(ts, 0) && Members(l) == Members(ts)
    ensures FreshFrom(l, 0)
  {
    forall i | 0 <= i < |l| ensures fresh(l[i]) {
      assert l[i] in Members(l);
      var j :| 0 <= j < |ts| && ts[j] == l[i];
    }
  }

  /** The two passes of a plan: the first order, the diffs that are chosen to be given up, and the order of what is left. */
  datatype History = History(first: Pass, cs: seq<S.Candidate>, n: nat, left: seq<Draft>, second: Pass)

  /** Diffs are chosen exactly if the first pass needs more than 1024 blocks above the limit. */
  ghost predicate Went(h: History, found: seq<Draft>, img: Image, limit: real, sizes: S.Sizes) {
    && Orders(h.first, found) && RangesFit(img, h.first.ids) && RangesFit(img, h.second.ids)
    && var peak := PeakDemand(img, h.first.plan, h.first.ids, |h.first.plan|);
       if peak as real <= limit + 1024.0 then h.second == h.first
       else
         && S.Choice(h.cs, h.n, Offers(h.first), sizes, peak as real - limit)
         && Chosen(Offers(h.first), sizes, h.cs, h.n, h.left) && Orders(h.second, h.left)
  }

  lemma WentSo(h: History, found: seq<Draft>, img: Image, limit: real, sizes: S.Sizes, peak: nat)
    requires Orders(h.first, found) && RangesFit(img, h.first.ids) && RangesFit(img, h.second.ids)
    requires peak == PeakDemand(img, h.first.plan, h.first.ids, |h.first.plan|)
    requires peak as real <= limit + 1024.0 ==> h.second == h.first
    requires peak as real > limit + 1024.0 ==>
               && |h.first.plan| == |h.first.order| && S.Choice(h.cs, h.n, Offers(h.first), sizes, peak as real - limit)
               && Chosen(Offers(h.first), sizes, h.cs, h.n, h.left) && Orders(h.second, h.left)
    ensures Went(h, found, img, limit, sizes)
  {
    hide Orders, RangesFit, PeakDemand, S.Choice, Chosen, Offers;
  }

  class BlockImageDiff {
    const env: Setting
    const tgtFiles: F.Files
    const srcFiles: F.Files
    const care: RangeSet
    const extended: RangeSet
    const version: nat
    var transfers: seq<Transfer>
    var touchedSrcRanges: RangeSet
    var maxStashedSize: nat

    /** The files of the target make up the blocks that matter, and the tools work as they should. */
    ghost predicate Valid() {
      && F.FilesFine(tgtFiles, srcFiles, env) && F.BlocksOf(tgtFiles, tgtFiles.Keys) == care
      && SplitterSound(env) && Patches.Sound(env.tool)
      && |env.tgt| <= |env.src| && care !! extended && Fits(extended, env.src)
    }

    constructor (env: Setting, tgtFiles: F.Files, srcFiles: F.Files, care: RangeSet, extended: RangeSet, version: nat)
      ensures this.env == env && this.tgtFiles == tgtFiles && this.srcFiles == srcFiles
      ensures this.care == care && this.extended == extended && this.version == version
    {
      this.env, this.tgtFiles, this.srcFiles := env, tgtFiles, srcFiles;
      this.care, this.extended, this.version := care, extended, version;
      transfers, touchedSrcRanges, maxStashedSize := [], {}, 0;
    }

    /** Finds a first order and what it needs. */
    method FirstPass(ts: seq<Transfer>)
      returns (l: seq<Transfer>, most: nat, ghost m: StashMap, ghost first: Pass)
      requires Distinct(ts) && SetFine(Members(ts), env) && Covers(Members(ts), care)
      modifies Members(ts)`goesBefore, Members(ts)`goesAfter, Members(ts)`stashBefore, Members(ts)`useStash
      modifies Members(ts)`incoming, Members(ts)`outgoing, Members(ts)`score, Members(ts)`heapItem, Members(ts)`order
      modifies Members(ts)`style, Members(ts)`srcRanges, Members(ts)`patchInfo
      ensures Planned(l, m, env, care) && Members(l) == Members(ts)
      ensures DraftsOf(ts) == old(DraftsOf(ts)) && first == PassOf(l, m) && Orders(first, DraftsOf(ts))
      ensures RangesFit(env.src, m) && most == PeakDemand(env.src, first.plan, m, |first.plan|)
    {
      hide Fine, Planned, Covers, SetFine, Snapshot, Distinct, GoodPlan, RangesFit, PeakDemand, R.GivenUpForRoom,
           R.Revised, DraftOf, Orders,
           PassOf, StillOrGivenUp;
      l, m := Sequence(ts, env, care);
      most, m := Revise(l, env.src, None, m, env, care);
      PlannedParts(l, m, env, care);
      PassOrders(l, m, ts);
      first := PassOf(l, m);
      PassPlan(l, m);
    }

    /** If much more space is needed than there is, diffs are chosen to be given up, and the rest is put into order again. */
    method Choose(l: seq<Transfer>, most: nat, limit: real,
                  canUseImgdiff: nat -> bool, deflated: seq<Block> -> nat, ghost m: StashMap)
      returns (l': seq<Transfer>, ghost m': StashMap, ghost cs: seq<S.Candidate>, ghost n: nat)
      requires Planned(l, m, env, care) && Patches.Sound(env.tool)
      modifies Members(l)`goesBefore, Members(l)`goesAfter, Members(l)`stashBefore, Members(l)`useStash
      modifies Members(l)`incoming, Members(l)`outgoing, Members(l)`score, Members(l)`heapItem, Members(l)`order
      modifies Members(l)`style, Members(l)`srcRanges, Members(l)`patchInfo
      ensures Planned(l', m', env, care) && Members(l') == Members(l)
      ensures forall x :: x in Members(l) ==> StillOrGivenUp(old(DraftOf(x)), DraftOf(x))
      ensures most as real <= limit + 1024.0 ==>
                l' == l && m' == m && Snapshot(l) == old(Snapshot(l)) && forall x :: x in Members(l) ==> DraftOf(x) == old(DraftOf(x))
      ensures most as real > limit + 1024.0 ==>
                && S.Choice(cs, n, old(S.OffersOf(l)), S.Sizes(canUseImgdiff, env.tool, deflated), most as real - limit)
                && Chosen(old(S.OffersOf(l)), S.Sizes(canUseImgdiff, env.tool, deflated), cs, n, DraftsOf(l))
                && Orders(PassOf(l', m'), DraftsOf(l))
    {
      hide Fine, Planned, Patches.Sound, Covers, SetFine, Snapshot, Distinct, GoodPlan, RangesFit, S.Choice, S.Converted,
           Chosen, S.OffersOf,
           Orders, PassOf;
      l', m', cs, n := l, m, [], 0;
      if most as real > limit + 1024.0 {
        PlannedParts(l, m, env, care);
        ghost var os := S.OffersOf(l);
        cs, n := Select(l, most as real - limit, canUseImgdiff, deflated, env);
        ConvertedChosen(os, l, S.Sizes(canUseImgdiff, env.tool, deflated), cs, n);
        ghost var ds := DraftsOf(l);
        l', m' := Sequence(l, env, care);
        assert DraftsOf(l) == ds;
        PlannedParts(l', m', env, care);
        PassOrders(l', m', l);
      }
    }

    /** Finds the transfers and brings them into an order that stays within the stash limit. They are what becomes of the
        files, except for diffs that are given up. None is if the first order needs no more than the limit; and but for
        those that are chosen if it needs much more, only those are for which there is no room. */
    method MakePlan(cacheSize: nat, threshold: real, names: F.Names, canUseImgdiff: nat -> bool, deflated: seq<Block> -> nat)
      returns (l: seq<Transfer>, most: nat, ghost m: StashMap, ghost found: seq<Draft>, ghost ts: seq<Transfer>,
               ghost owner: seq<string>, ghost sources: map<string, Option<string>>, ghost h: History)
      requires Valid() && threshold > 0.0 && cacheSize / (8 * BLOCK_SIZE) > 0
      ensures Planned(l, m, env, care) && R.Revised(env.src, Snapshot(l), m, |l|, most)
      ensures most as real <= cacheSize as real * threshold / BLOCK_SIZE as real
      ensures F.Owned(found, [], owner, [], sources, tgtFiles, srcFiles, cacheSize / (8 * BLOCK_SIZE), names, env)
      ensures Members(l) == Members(ts) && AllStillOrGivenUp(found, DraftsOf(ts))
      ensures var limit := cacheSize as real * threshold / BLOCK_SIZE as real;
              && Went(h, found, env.src, limit, S.Sizes(canUseImgdiff, env.tool, deflated))
              && R.GivenUpForRoom(env.src, h.second.plan, h.second.ids, Snapshot(l), m, Some(limit))
              && var peak := PeakDemand(env.src, h.first.plan, h.first.ids, |h.first.plan|);
                 peak as real <= limit ==> DraftsOf(ts) == found && most == peak
      ensures forall i :: 0 <= i < |l| ==> fresh(l[i])
    {
      hide Fine, Planned, R.Revised, F.Listed, F.FilesFine, SplitterSound, Patches.Sound, Covers, SetFine, F.BlocksOf,
           Snapshot, Distinct, GoodPlan, RangesFit, F.Owned, StillOrGivenUp, AllStillOrGivenUp, PeakDemand, R.GivenUpForRoom,
           DraftOf, S.Choice, Chosen, S.OffersOf, Orders, PassOf, Offers, Went;
      LimitPositive(cacheSize, threshold);
      var transfers;
      transfers, owner, sources := F.FindTransfers(tgtFiles, srcFiles, cacheSize / (8 * BLOCK_SIZE), names, env);
      ts, found := transfers, DraftsOf(transfers);
      ListedCovers(ts, env, care);
      var limit := cacheSize as real * threshold / BLOCK_SIZE as real;
      ghost var first;
      l, most, m, first := FirstPass(transfers);
      SameFresh(ts, l);
      PassPlan(l, m);
      PassOffers(l, m);
      ghost var now, peak := l, most;
      ghost var cs, n;
      l, m, cs, n := Choose(l, most, limit, canUseImgdiff, deflated, m);
      SameFresh(now, l);
      StillFrom(found, ts);
      ghost var before, left, second := DraftsOf(ts), DraftsOf(now), if peak as real <= limit + 1024.0 then first else PassOf(l, m);
      PassPlan(l, m);
      h := History(first, cs, n, left, second);
      most, m := Revise(l, env.src, Some(limit), m, env, care);
      WentSo(h, found, env.src, limit, S.Sizes(canUseImgdiff, env.tool, deflated), peak);
      StillAgain(found, before, ts);
    }

    /** Checks the plan, computes the patches and writes the list. */
    method WritePlan(l: seq<Transfer>, ghost most: nat, allowed: real, canUseImgdiff: nat -> bool, ghost m: StashMap,
                     ghost junk: nat -> Block)
      returns (newData: seq<Block>, patchData: Patch, file: TransferFile, touched: RangeSet, maxSize: nat)
      requires Valid() && Planned(l, m, env, care) && R.Revised(env.src, Snapshot(l), m, |l|, most)
      requires most as real <= allowed / BLOCK_SIZE as real
      modifies Members(l)`style, Members(l)`patchInfo, Members(l)`patchStart, Members(l)`patchLen
      ensures Fits(care, env.tgt)
      ensures Run(Package(newData, patchData, env.tool.apply, junk), State(env.src, map[], 0), file.cmds)
              == Some(State(Updated(env.src, env.tgt, care, extended, junk), map[], |newData|))
      ensures file.version == version && file.slots == 0 && file.total == Device.Written(file.cmds)
      ensures file.total == TotalBefore(Snapshot(l), |l|) + |extended|
      ensures forall dev: Image :: Agrees(dev, env.src, touched) ==>
                Run(Package(newData, patchData, env.tool.apply, junk), State(dev, map[], 0), file.cmds)
                == Some(State(Overwritten(dev, AllWrites(file.cmds), Updated(env.src, env.tgt, care, extended, junk)),
                              map[], |newData|))
      ensures maxSize == file.maxStashed * BLOCK_SIZE && maxSize as real <= allowed
      ensures Finished(old(Snapshot(l)), Snapshot(l))
    {
      hide Fine, Planned, R.Revised, F.FilesFine, SplitterSound, Patches.Sound, Covers, SetFine, F.BlocksOf,
           Snapshot, GoodPlan, Drafted, TargetsFit, WrittenBefore, RangesFit, AllFine, SequenceGood, Ready, Finished,
           NewDataBefore, Within, Peak, PeakDemand, Updated, Run, Device.Written, JobsOf, Writable, Agrees, Overwritten,
           TotalBefore, TouchedBefore, AllSources;
      PlannedParts(l, m, env, care);
      RevisedParts(env.src, Snapshot(l), m, |l|, most);
      GoodPlanPasses(Snapshot(l), m, care);
      HashesGood(l, env);
      var good := AssertSequenceGood(l, |env.tgt|, care);
      assert good;
      good := AssertSha1Good(l, env.src, env.tgt);
      assert good;
      ghost var p := Snapshot(l);
      R.SnapshotLength(l);
      newData, patchData := ComputePatches(l, env.src, env.tgt, env.tool, canUseImgdiff, junk);
      ghost var pkg := Package(newData, patchData, env.tool.apply, junk);
      R.SnapshotLength(l);
      ReadyToWrite(l, p, m, pkg, env, care, most);
      StashBudget(Peak(env.src, Snapshot(l), m, |l|), most, allowed / BLOCK_SIZE as real, allowed);
      file, touched, maxSize := WriteTransfers(l, env.src, env.tgt, care, extended, version, Some(allowed), pkg, m);
    }

    /** The whole run: none of the planner's assertions fails, and the package updates a device that holds the source image
        to the target image within the allowed stash space. For that the device need only agree with the source image in the
        touched blocks. The commands are what becomes of the files, given up only where `MakePlan` says so, and finished. */
    method Compute(cacheSize: nat, threshold: real, names: F.Names, canUseImgdiff: nat -> bool, deflated: seq<Block> -> nat,
                   ghost junk: nat -> Block)
      returns (newData: seq<Block>, patchData: Patch, file: TransferFile, ghost found: seq<Draft>, ghost owner: seq<string>,
               ghost sources: map<string, Option<string>>, ghost h: History, ghost plan: Plan, ghost m: StashMap)
      requires Valid() && threshold > 0.0 && cacheSize / (8 * BLOCK_SIZE) > 0
      modifies this
      ensures Distinct(transfers) && Covers(Members(transfers), care)
      ensures Fits(care, env.tgt)
      ensures Run(Package(newData, patchData, env.tool.apply, junk), State(env.src, map[], 0), file.cmds)
              == Some(State(Updated(env.src, env.tgt, care, extended, junk), map[], |newData|))
      ensures file.version == version && file.slots == 0 && file.total == Device.Written(file.cmds)
      ensures file.total == TotalBefore(Snapshot(transfers), |transfers|) + |extended|
      ensures forall dev: Image :: Agrees(dev, env.src, touchedSrcRanges) ==>
                Run(Package(newData, patchData, env.tool.apply, junk), State(dev, map[], 0), file.cmds)
                == Some(State(Overwritten(dev, AllWrites(file.cmds), Updated(env.src, env.tgt, care, extended, junk)),
                              map[], |newData|))
      ensures maxStashedSize == file.maxStashed * BLOCK_SIZE
      ensures maxStashedSize as real <= cacheSize as real * threshold
      ensures F.Owned(found, [], owner, [], sources, tgtFiles, srcFiles, cacheSize / (8 * BLOCK_SIZE), names, env)
      ensures var limit := cacheSize as real * threshold / BLOCK_SIZE as real;
              && Went(h, found, env.src, limit, S.Sizes(canUseImgdiff, env.tool, deflated))
              && R.GivenUpForRoom(env.src, h.second.plan, h.second.ids, plan, m, Some(limit)) && Finished(plan, Snapshot(transfers))
    {
      hide Planned, R.Revised, Valid, Updated, Run, Device.Written, Snapshot, Agrees, Overwritten, Distinct, Covers,
           F.Owned, Went, R.GivenUpForRoom, Finished, AllStillOrGivenUp, PeakDemand,
           TotalBefore;
      var l, most;
      ghost var ts;
      l, most, m, found, ts, owner, sources, h := MakePlan(cacheSize, threshold, names, canUseImgdiff, deflated);
      transfers, plan := l, Snapshot(l);
      PlannedParts(l, m, env, care);
      newData, patchData, file, touchedSrcRanges, maxStashedSize :=
        WritePlan(l, most, cacheSize as real * threshold, canUseImgdiff, m, junk);
    }
  }
}
