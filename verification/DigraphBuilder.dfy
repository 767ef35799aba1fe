/** The order dependencies among transfers: readers go before writers. */
module DigraphBuilder {
  import opened Ranges
  import opened Transfers
  import F = FeedbackArc

  ghost function Readers(src: Sources, i: nat): set<Transfer> {
    set b | b in src && i in src[b]
  }

  /** The readers recorded for a block; past the end of the index there are none. */
  ghost function At(index: seq<set<Transfer>>, i: nat): set<Transfer> {
    if i < |index| then index[i] else {}
  }

  ghost predicate IndexOf(index: seq<set<Transfer>>, src: Sources) {
    forall i: nat :: At(index, i) == Readers(src, i)
  }

  method AddBlock(index: seq<set<Transfer>>, b: Transfer, i: nat) returns (r: seq<set<Transfer>>)
    ensures forall j: nat :: At(r, j) == At(index, j) + (if j == i then {b} else {})
  {
    r := index;
    if i >= |r| {
      r := r + seq(i + 1 - |r|, _ => {});
    }
    r := r[i := r[i] + {b}];
  }

  method AddSource(index: seq<set<Transfer>>, b: Transfer) returns (r: seq<set<Transfer>>)
    ensures forall j: nat :: At(r, j) == At(index, j) + (if j in b.srcRanges then {b} else {})
  {
    r := index;
    var todo := b.srcRanges;
    while todo != {}
      invariant todo <= b.srcRanges
      invariant forall j: nat :: At(r, j) == At(index, j) + (if j in b.srcRanges - todo then {b} else {})
    {
      var i :| i in todo;
      r := AddBlock(r, b, i);
      todo := todo - {i};
    }
  }

  method IndexSources(transfers: seq<Transfer>) returns (index: seq<set<Transfer>>)
    ensures IndexOf(index, SourcesOf(F.Members(transfers)))
  {
    index := [];
    for n := 0 to |transfers|
      invariant IndexOf(index, SourcesOf(F.Members(transfers[..n])))
    {
      var b := transfers[n];
      index := AddSource(index, b);
      ghost var src := SourcesOf(F.Members(transfers[..n]));
      F.TakeOne(transfers, n);
      ghost var more := SourcesOf(F.Members(transfers[..n + 1]));
      assert more == src[b := b.srcRanges];
      forall i: nat ensures At(index, i) == Readers(more, i) {
        assert Readers(more, i) == Readers(src, i) + (if i in b.srcRanges then {b} else {});
      }
    }
    assert transfers[..|transfers|] == transfers;
  }

  lemma MeetsMore(seen: RangeSet, i: nat, s: RangeSet)
    ensures (seen + {i}) * s != {} <==> seen * s != {} || i in s
  {
    if x :| x in (seen + {i}) * s {
      assert x in seen * s || i in s;
    }
    if x :| x in seen * s {
      assert x in (seen + {i}) * s;
    }
    if i in s {
      assert i in (seen + {i}) * s;
    }
  }

  /** Everything that reads a block of `tgt`. */
  method Intersections(index: seq<set<Transfer>>, tgt: RangeSet, ghost src: Sources)
    returns (s: set<Transfer>)
    requires IndexOf(index, src)
    ensures s == set b | b in src && tgt * src[b] != {}
  {
    s := {};
    var todo := tgt;
    while todo != {}
      invariant todo <= tgt
      invariant s == set b | b in src && (tgt - todo) * src[b] != {}
    {
      var i :| i in todo;
      ghost var was, seen := s, tgt - todo;
      if i < |index| {
        s := s + index[i];
      }
      todo := todo - {i};
      assert s == was + Readers(src, i);
      forall b | b in src
        ensures (tgt - todo) * src[b] != {} <==> seen * src[b] != {} || i in src[b]
      {
        assert tgt - todo == seen + {i};
        MeetsMore(seen, i, src[b]);
      }
    }
    assert tgt - todo == tgt;
  }

  /** The pairwise meaning of the dependency graph. */
  ghost function GoesBefore(src: Sources, b: Transfer, ts: set<Transfer>): map<Transfer, nat>
    requires b in src
  {
    map a | a in ts && Reads(src, b, a) :: Cost(src, b, a)
  }

  ghost function GoesAfter(src: Sources, a: Transfer, ts: set<Transfer>): map<Transfer, nat>
    requires ts <= src.Keys
  {
    map b | b in ts && Reads(src, b, a) :: Cost(src, b, a)
  }

  lemma GoesBeforeGrow(src: Sources, b: Transfer, ts: set<Transfer>, a: Transfer)
    requires b in src
    ensures GoesBefore(src, b, ts + {a}) ==
            if Reads(src, b, a) then GoesBefore(src, b, ts)[a := Cost(src, b, a)] else GoesBefore(src, b, ts)
  {
  }

  lemma GoesAfterGrow(src: Sources, a: Transfer, ts: set<Transfer>, b: Transfer)
    requires ts + {b} <= src.Keys
    ensures GoesAfter(src, a, ts + {b}) ==
            if Reads(src, b, a) then GoesAfter(src, a, ts)[b := Cost(src, b, a)] else GoesAfter(src, a, ts)
  {
  }

  /** Records that `b` goes before `a`, if it has to. */
  method ConnectPair(b: Transfer, a: Transfer, ghost src: Sources)
    requires b in src && src[b] == b.srcRanges
    modifies b`goesBefore, a`goesAfter
    ensures b.goesBefore ==
            if Reads(src, b, a) then old(b.goesBefore)[a := Cost(src, b, a)] else old(b.goesBefore)
    ensures a.goesAfter ==
            if Reads(src, b, a) then old(a.goesAfter)[b := Cost(src, b, a)] else old(a.goesAfter)
  {
    if a != b {
      var i := a.tgtRanges * b.srcRanges;
      if i != {} {
        var size := if b.zeroSource then 0 else |i|;
        b.goesBefore := b.goesBefore[a := size];
        a.goesAfter := a.goesAfter[b := size];
      }
    }
  }

  ghost predicate BeforeSoFar(src: Sources, xs: set<Transfer>, done: set<Transfer>)
    requires xs <= src.Keys
    reads xs
  {
    forall x :: x in xs ==> x.goesBefore == GoesBefore(src, x, done)
  }

  method Connect(a: Transfer, readers: set<Transfer>, ghost src: Sources, ghost done: set<Transfer>)
    requires a in src && readers == set b | b in src && a.tgtRanges * src[b] != {}
    requires forall b :: b in src ==> src[b] == b.srcRanges
    requires a.goesAfter == map[]
    requires BeforeSoFar(src, src.Keys, done)
    modifies src.Keys`goesBefore, a`goesAfter
    ensures a.goesAfter == GoesAfter(src, a, src.Keys)
    ensures BeforeSoFar(src, src.Keys, done + {a})
  {
    forall b | b in src.Keys - readers ensures GoesBefore(src, b, done + {a}) == b.goesBefore {
      GoesBeforeGrow(src, b, done, a);
    }
    assert GoesAfter(src, a, src.Keys - readers) == map[];
    var todo := readers;
    while todo != {}
      invariant todo <= readers
      invariant a.goesAfter == GoesAfter(src, a, src.Keys - todo)
      invariant BeforeSoFar(src, todo, done)
      invariant BeforeSoFar(src, src.Keys - todo, done + {a})
    {
      var b :| b in todo;
      GoesAfterGrow(src, a, src.Keys - todo, b);
      GoesBeforeGrow(src, b, done, a);
      assert src.Keys - todo + {b} == src.Keys - (todo - {b});
      ConnectPair(b, a, src);
      todo := todo - {b};
    }
    assert src.Keys - todo == src.Keys;
  }

  /** The indexed construction gives the pairwise graph. */
  method GenerateDigraph(transfers: seq<Transfer>)
    requires F.Distinct(transfers)
    requires forall x :: x in transfers ==> x.goesBefore == map[] && x.goesAfter == map[]
    modifies F.Members(transfers)`goesBefore, F.Members(transfers)`goesAfter
    ensures var ts := F.Members(transfers);
            var src := old(SourcesOf(ts));
            forall x :: x in ts ==> x.goesBefore == GoesBefore(src, x, ts) && x.goesAfter == GoesAfter(src, x, ts)
  {
    ghost var ts := F.Members(transfers);
    ghost var src := SourcesOf(ts);
    var index := IndexSources(transfers);
    ghost var done: set<Transfer> := {};
    for n := 0 to |transfers|
      invariant done == F.Members(transfers[..n])
      invariant BeforeSoFar(src, ts, done)
      invariant forall x :: x in ts ==> x.goesAfter == if x in done then GoesAfter(src, x, ts) else map[]
    {
      var a := transfers[n];
      var s := Intersections(index, a.tgtRanges, src);
      assert a in ts && a !in done;
      Connect(a, s, src, done);
      F.TakeOne(transfers, n);
      done := done + {a};
    }
    assert transfers[..|transfers|] == transfers;
  }
}
