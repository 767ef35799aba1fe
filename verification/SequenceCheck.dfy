/** The double checks the planner makes on its own sequence. */
module SequenceCheck {
  import opened Ranges
  import opened Transfers
  import opened FeedbackArc
  import opened Plans
  import opened Writer
  import opened TransferList

  /** No command reads from the device what an earlier one has written. */
  ghost predicate ReadsClean(p: Plan, k: nat)
    requires k < |p|
  {
    forall x :: x in p[k].src - StashedFor(p[k].uses) ==> x !in WrittenBefore(p, k)
  }

  /** No command writes what an earlier one has written. */
  ghost predicate WritesClean(p: Plan, k: nat)
    requires k < |p|
  {
    forall x :: x in p[k].tgt ==> x !in WrittenBefore(p, k)
  }

  ghost predicate SequenceGood(p: Plan, care: RangeSet) {
    && (forall k :: 0 <= k < |p| ==> ReadsClean(p, k) && WritesClean(p, k))
    && care <= WrittenBefore(p, |p|)
  }

  /** A good plan that covers the blocks that matter passes. */
  lemma GoodPlanPasses(p: Plan, m: StashMap, care: RangeSet)
    requires GoodPlan(p, m) && care <= WrittenBefore(p, |p|)
    ensures SequenceGood(p, care)
  {
    forall k | 0 <= k < |p| ensures ReadsClean(p, k) && WritesClean(p, k) {
      RestUnwritten(p, m, k);
      forall x | x in p[k].tgt ensures x !in WrittenBefore(p, k) {
        NotWritten(p, k, x);
      }
    }
  }

  /** What is left of a source when the stashed ranges are taken out one after the other. */
  method Unstashed(src: RangeSet, uses: seq<Stash>) returns (x: RangeSet)
    ensures x == src - StashedFor(uses)
  {
    x := src;
    assert StashedFor(uses[..0]) == {};
    for n := 0 to |uses|
      invariant x == src - StashedFor(uses[..n])
    {
      SubtractNext(src, uses, n);
      x := x - uses[n].1;
    }
    WholePrefix(uses);
  }

  ghost predicate Marks(touched: seq<bool>, written: RangeSet) {
    forall i :: 0 <= i < |touched| ==> (touched[i] <==> i in written)
  }

  /** Whether one of the blocks has been touched; blocks past the end never are. */
  method AnyTouched(touched: array<bool>, x: RangeSet, ghost written: RangeSet) returns (any: bool)
    requires Marks(touched[..], written) && forall b :: b in written ==> b < touched.Length
    ensures any <==> x * written != {}
  {
    var q := Sorted(x);
    SortedIncreasing(x);
    for n := 0 to |q|
      invariant forall j :: 0 <= j < n ==> q[j] !in written
    {
      SortedElement(x, n);
      if q[n] < touched.Length && touched[q[n]] {
        assert touched[..][q[n]];
        assert q[n] in x * written;
        return true;
      }
      assert q[n] < touched.Length ==> !touched[..][q[n]];
    }
    forall b | b in x ensures b !in written {
      assert b in Elements(q);
    }
    return false;
  }

  method Touch(touched: array<bool>, x: RangeSet, ghost written: RangeSet)
    requires Marks(touched[..], written) && forall b :: b in x ==> b < touched.Length
    modifies touched
    ensures Marks(touched[..], written + x)
  {
    hide Marks, Elements, Sorted, Increasing;
    var q := Sorted(x);
    SortedIncreasing(x);
    NoElements(q);
    assert written + {} == written;
    for n := 0 to |q|
      invariant Marks(touched[..], written + Elements(q[..n]))
    {
      SortedElement(x, n);
      OneElement(q, n);
      ghost var was := touched[..];
      touched[q[n]] := true;
      MarksOne(was, written + Elements(q[..n]), q[n]);
      assert written + Elements(q[..n]) + {q[n]} == written + Elements(q[..n + 1]);
    }
    assert q[..|q|] == q;
  }

  lemma NoElements(q: seq<nat>)
    ensures Elements(q[..0]) == {}
  {
  }

  lemma OneElement(q: seq<nat>, n: nat)
    requires n < |q|
    ensures Elements(q[..n + 1]) == Elements(q[..n]) + {q[n]}
  {
    assert q[..n + 1] == q[..n] + [q[n]];
  }

  lemma MarksOne(marks: seq<bool>, written: RangeSet, b: nat)
    requires Marks(marks, written) && b < |marks|
    ensures Marks(marks[b := true], written + {b})
  {
  }

  /** Simulates the sequence; it passes exactly on sequences that never read or write a written block again
      and that cover the blocks that matter. */
  method AssertSequenceGood(ts: seq<Transfer>, totalBlocks: nat, care: RangeSet) returns (ok: bool)
    requires forall i, b :: 0 <= i < |ts| && b in ts[i].tgtRanges ==> b < totalBlocks
    ensures ok <==> SequenceGood(Snapshot(ts), care)
  {
    hide WrittenBefore, StashedFor, Marks;
    ghost var p := Snapshot(ts);
    var touched := new bool[totalBlocks](_ => false);
    StartMarks(p, touched[..], totalBlocks);
    for k := 0 to |ts|
      invariant p == Snapshot(ts)
      invariant Marks(touched[..], WrittenBefore(p, k)) && forall b :: b in WrittenBefore(p, k) ==> b < totalBlocks
      invariant forall j :: 0 <= j < k ==> ReadsClean(p, j) && WritesClean(p, j)
    {
      assert p[k] == Snap(ts[k]);
      var x := Unstashed(ts[k].srcRanges, ts[k].useStash);
      var bad := AnyTouched(touched, x, WrittenBefore(p, k));
      if bad {
        assert !ReadsClean(p, k);
        return false;
      }
      assert ReadsClean(p, k) by { NoneIn(x, WrittenBefore(p, k)); }
      bad := AnyTouched(touched, ts[k].tgtRanges, WrittenBefore(p, k));
      if bad {
        assert !WritesClean(p, k);
        return false;
      }
      assert WritesClean(p, k) by { NoneIn(p[k].tgt, WrittenBefore(p, k)); }
      Touch(touched, ts[k].tgtRanges, WrittenBefore(p, k));
      WrittenNext(p, k);
    }
    ok := AllTouched(touched, care, WrittenBefore(p, |p|));
  }

  lemma NoneIn(a: RangeSet, b: RangeSet)
    requires a * b == {}
    ensures forall x :: x in a ==> x !in b
  {
    forall x | x in a ensures x !in b {
      assert x !in a * b;
    }
  }

  lemma WrittenNext(p: Plan, k: nat)
    requires k < |p|
    ensures WrittenBefore(p, k + 1) == WrittenBefore(p, k) + p[k].tgt
  {
  }

  lemma StartMarks(p: Plan, touched: seq<bool>, n: nat)
    requires |touched| == n && forall i :: 0 <= i < n ==> !touched[i]
    ensures WrittenBefore(p, 0) == {} && Marks(touched, WrittenBefore(p, 0))
  {
  }

  method AllTouched(touched: array<bool>, care: RangeSet, ghost written: RangeSet) returns (all: bool)
    requires Marks(touched[..], written) && forall b :: b in written ==> b < touched.Length
    ensures all <==> care <= written
  {
    var q := Sorted(care);
    SortedIncreasing(care);
    for n := 0 to |q|
      invariant forall j :: 0 <= j < n ==> q[j] in written
    {
      SortedElement(care, n);
      if q[n] >= touched.Length || !touched[q[n]] {
        assert q[n] < touched.Length ==> !touched[..][q[n]];
        return false;
      }
      assert touched[..][q[n]];
    }
    forall b | b in care ensures b in written {
      assert b in Elements(q);
    }
    return true;
  }

  /** The recorded hashes are those of the two images. */
  method AssertSha1Good(ts: seq<Transfer>, src: Image, tgt: Image) returns (ok: bool)
    requires forall x :: x in ts ==> Fits(x.tgtRanges, tgt) && Fits(x.srcRanges, src)
    ensures ok <==> forall i :: 0 <= i < |ts| ==>
              && ts[i].tgtHash == Read(tgt, ts[i].tgtRanges)
              && (ts[i].style == Diff ==> ts[i].srcHash == Read(src, ts[i].srcRanges))
  {
    hide Read;
    for i := 0 to |ts|
      invariant forall j :: 0 <= j < i ==>
              && ts[j].tgtHash == Read(tgt, ts[j].tgtRanges)
              && (ts[j].style == Diff ==> ts[j].srcHash == Read(src, ts[j].srcRanges))
    {
      var xf := ts[i];
      assert xf in ts;
      if xf.tgtHash != Read(tgt, xf.tgtRanges) {
        return false;
      }
      if xf.style == Diff && xf.srcHash != Read(src, xf.srcRanges) {
        return false;
      }
    }
    return true;
  }
}
