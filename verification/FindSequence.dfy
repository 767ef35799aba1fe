/** The four sequencing stages together: the order they give is safe. */
module FindSequence {
  import opened Ranges
  import opened Transfers
  import opened FeedbackArc
  import opened Plans
  import D = DigraphBuilder
  import V = VertexSequence
  import S = Sequencing
  import I = ImproveSequence

  /** Where each transfer stands in `l`. */
  ghost function Positions(l: seq<Transfer>): map<Transfer, nat> {
    if l == [] then map[] else Positions(l[..|l| - 1])[l[|l| - 1] := |l| - 1]
  }

  lemma {:induction false} PositionsAt(l: seq<Transfer>)
    requires Distinct(l)
    ensures Positions(l).Keys == Members(l)
    ensures forall i :: 0 <= i < |l| ==> l[i] in Positions(l) && Positions(l)[l[i]] == i
  {
    if l != [] {
      var n := |l| - 1;
      PositionsAt(l[..n]);
      TakeOne(l, n);
      assert l[..n + 1] == l;
    }
  }

  /** The reversed dependencies by number and position: the stash map of the plan. */
  ghost function StashMapOf(links: seq<S.Link>, pos: map<Transfer, nat>): StashMap
    requires Locates(links, pos)
  {
    map i: nat | i < |links| :: StashInfo(links[i].range, pos[links[i].definer], pos[links[i].user])
  }

  /** The graph that is left has no cycle: the first sequence is a witness. */
  lemma StillRanked(src: Sources, pos: map<Transfer, nat>, links: seq<S.Link>, x: Transfer, y: Transfer, n: nat)
    requires S.Reversed(src, pos, links, n) && x in src && y in src && pos[x] < n
    requires forall a, b :: a in src && b in src && a != b ==> pos[a] != pos[b]
    requires S.Edge(src, links, x, y)
    ensures pos[x] < pos[y]
  {
    if Reads(src, x, y) && !S.Linked(links, x, y) {
      assert S.Complete(src, pos, links, x);
    }
  }

  /** The final order meets every edge of the reversed graph. */
  ghost predicate Meets(src: Sources, links: seq<S.Link>, pos: map<Transfer, nat>) {
    forall x, y :: x in src && y in src && x in pos && y in pos && S.Edge(src, links, x, y) ==> pos[x] < pos[y]
  }

  lemma RespectsMeets(src: Sources, links: seq<S.Link>, pred: map<Transfer, set<Transfer>>, l: seq<Transfer>)
    requires Distinct(l) && Members(l) == src.Keys == pred.Keys && I.Respects(pred, l)
    requires forall y :: y in src ==> pred[y] == S.Predecessors(src, links, y)
    ensures Meets(src, links, Positions(l))
  {
    PositionsAt(l);
    forall x, y | x in src && y in src && S.Edge(src, links, x, y) ensures Positions(l)[x] < Positions(l)[y] {
      var j :| 0 <= j < |l| && l[j] == y;
      assert x in Members(l[..j]);
      var i :| 0 <= i < j && l[i] == x;
    }
  }

  /** The lists that the links prescribe are the ones the plan shows. */
  ghost predicate ListsShown(l: seq<Transfer>, links: seq<S.Link>, src: Sources, p: Plan) {
    && |p| == |l|
    && forall k :: 0 <= k < |l| ==>
         && l[k] in src && p[k].src == src[l[k]] && p[k].tgt == l[k].tgtRanges
         && p[k].stashes == S.Defined(links, l[k]) && p[k].uses == S.Used(links, l[k])
  }

  lemma GoodIds(l: seq<Transfer>, links: seq<S.Link>, src: Sources, pos0: map<Transfer, nat>, p: Plan)
    requires Distinct(l) && Members(l) == src.Keys && ListsShown(l, links, src, p)
    requires S.LinksOf(src, pos0, links) && Meets(src, links, Positions(l))
    ensures Locates(links, Positions(l))
    ensures IdsGood(p, StashMapOf(links, Positions(l)))
  {
    PositionsAt(l);
    var m := StashMapOf(links, Positions(l));
    forall id | id in m
      ensures m[id].def < m[id].use < |p|
      ensures m[id].range == p[m[id].use].src * p[m[id].def].tgt && m[id].range != {}
    {
      var lk := links[id];
      assert S.Linked(links, lk.user, lk.definer);
      assert S.Edge(src, links, lk.definer, lk.user);
    }
  }

  ghost predicate Locates(links: seq<S.Link>, pos: map<Transfer, nat>) {
    forall i :: 0 <= i < |links| ==> links[i].definer in pos && links[i].user in pos
  }

  lemma DefinedListed(links: seq<S.Link>, l: seq<Transfer>, k: nat, s: Stash)
    requires Distinct(l) && Locates(links, Positions(l)) && k < |l|
    ensures s in S.Defined(links, l[k]) <==> DefinedBy(StashMapOf(links, Positions(l)), k, s)
  {
    S.DefinedMember(links, l[k], s);
    PositionsAt(l);
    if s.0 < |links| {
      assert links[s.0].definer in Members(l);
      var i :| 0 <= i < |l| && l[i] == links[s.0].definer;
    }
  }

  lemma UsedListed(links: seq<S.Link>, l: seq<Transfer>, k: nat, s: Stash)
    requires Distinct(l) && Locates(links, Positions(l)) && k < |l|
    ensures s in S.Used(links, l[k]) <==> UsedBy(StashMapOf(links, Positions(l)), k, s)
  {
    S.UsedMember(links, l[k], s);
    PositionsAt(l);
    if s.0 < |links| {
      assert links[s.0].user in Members(l);
      var i :| 0 <= i < |l| && l[i] == links[s.0].user;
    }
  }

  lemma GoodLists(l: seq<Transfer>, links: seq<S.Link>, src: Sources, p: Plan)
    requires Distinct(l) && ListsShown(l, links, src, p) && Locates(links, Positions(l))
    ensures DefsListed(p, StashMapOf(links, Positions(l))) && UsesListed(p, StashMapOf(links, Positions(l)))
  {
    hide StashMapOf, Locates, DefinedBy, UsedBy, S.Defined, S.Used, Distinct;
    var m := StashMapOf(links, Positions(l));
    forall k | 0 <= k < |p|
      ensures NoRepeat(p[k].stashes) && NoRepeat(p[k].uses)
      ensures forall s :: s in p[k].stashes <==> DefinedBy(m, k, s)
      ensures forall s :: s in p[k].uses <==> UsedBy(m, k, s)
    {
      S.DefinedNoRepeat(links, l[k]);
      S.UsedNoRepeat(links, l[k]);
      forall s ensures s in p[k].stashes <==> DefinedBy(m, k, s) {
        DefinedListed(links, l, k, s);
      }
      forall s ensures s in p[k].uses <==> UsedBy(m, k, s) {
        UsedListed(links, l, k, s);
      }
    }
  }

  lemma GoodReads(l: seq<Transfer>, links: seq<S.Link>, src: Sources, pos0: map<Transfer, nat>, p: Plan, n: nat)
    requires Distinct(l) && Members(l) == src.Keys && ListsShown(l, links, src, p)
    requires S.Reversed(src, pos0, links, n) && Meets(src, links, Positions(l))
    requires forall x :: x in src ==> pos0[x] < n
    requires forall a, b :: a in src && b in src && a != b ==> pos0[a] != pos0[b]
    requires Locates(links, Positions(l))
    ensures LateReadsStashed(p, StashMapOf(links, Positions(l)))
  {
    PositionsAt(l);
    var m := StashMapOf(links, Positions(l));
    forall k, j | 0 <= k < j < |p| && p[j].src * p[k].tgt != {} ensures Stashed(m, k, j) {
      var x, y := l[j], l[k];
      assert Reads(src, x, y);
      assert !S.Edge(src, links, x, y);
      var i :| 0 <= i < |links| && links[i].user == x && links[i].definer == y;
      assert i in m && m[i].def == k && m[i].use == j;
    }
  }

  /** The dependency graph as the digraph construction is proved to build it. */
  ghost function GraphOf(src: Sources): V.Graph {
    Digraph(map x | x in src :: D.GoesBefore(src, x, src.Keys), map x | x in src :: D.GoesAfter(src, x, src.Keys))
  }

  /** Each command has a higher rank than those that have to run before it, so there is no cycle. */
  ghost predicate ReadsRanked(src: Sources, rank: map<Transfer, nat>) {
    src.Keys <= rank.Keys && forall x, y :: x in src && y in src && Reads(src, x, y) ==> rank[x] < rank[y]
  }

  /** The commands can be numbered so that each has a lower number than all whose targets it reads. */
  ghost predicate Acyclic(src: Sources, ts: seq<Transfer>) {
    exists numbers: seq<nat> :: Numbered(src, ts, numbers)
  }

  ghost predicate Numbered(src: Sources, ts: seq<Transfer>, numbers: seq<nat>) {
    |numbers| == |ts| && forall i, j :: 0 <= i < |ts| && 0 <= j < |ts| && ts[i] in src && Reads(src, ts[i], ts[j]) ==>
                           numbers[i] < numbers[j]
  }

  lemma RankingOf(src: Sources, ts: seq<Transfer>) returns (rank: map<Transfer, nat>)
    requires Acyclic(src, ts) && Distinct(ts) && Members(ts) == src.Keys
    ensures ReadsRanked(src, rank)
  {
    var numbers: seq<nat> :| Numbered(src, ts, numbers);
    PositionsAt(ts);
    rank := map x | x in src :: numbers[Positions(ts)[x]];
    forall x, y | x in src && y in src && Reads(src, x, y) ensures rank[x] < rank[y] {
      assert x in Members(ts) && y in Members(ts);
    }
  }

  lemma RanksOf(src: Sources, ts: seq<Transfer>, rank: map<Transfer, nat>)
    requires ReadsRanked(src, rank) && Members(ts) == src.Keys
    ensures Acyclic(src, ts)
  {
    assert forall i :: 0 <= i < |ts| ==> ts[i] in Members(ts);
    var numbers := seq(|ts|, i requires 0 <= i < |ts| => rank[ts[i]]);
    assert Numbered(src, ts, numbers);
  }

  lemma GraphRanked(src: Sources, rank: map<Transfer, nat>)
    requires ReadsRanked(src, rank)
    ensures RankedBy(GraphOf(src), rank)
  {
  }

  /** Something is turned around only if a dependency is violated. */
  lemma TurnedViolates(src: Sources, l: seq<Transfer>, links: seq<S.Link>)
    requires Distinct(l) && Members(l) == src.Keys && S.LinksOf(src, Positions(l), links) && links != []
    ensures !NoBackward(GraphOf(src).inn, l)
  {
    PositionsAt(l);
    var r, w := links[0].user, links[0].definer;
    assert r in Members(l) && w in Members(l);
    var i :| 0 <= i < |l| && l[i] == w;
    var j :| 0 <= j < |l| && l[j] == r;
    assert r in GraphOf(src).inn[w];
  }

  /** An order that needs no stash is one that violates nothing. */
  lemma StashlessRanked(l: seq<Transfer>, src: Sources, m: StashMap)
    requires Distinct(l) && Members(l) == src.Keys && GoodPlan(Snapshot(l), m) && m == map[]
    requires forall x :: x in src ==> src[x] == x.srcRanges
    ensures ReadsRanked(src, Positions(l))
  {
    PositionsAt(l);
    var p := Snapshot(l);
    forall x, y | x in src && y in src && Reads(src, x, y) ensures Positions(l)[x] < Positions(l)[y] {
      assert x in Members(l) && y in Members(l);
      var i :| 0 <= i < |l| && l[i] == x;
      var j :| 0 <= j < |l| && l[j] == y;
      assert p[i].src * p[j].tgt != {};
      assert !Stashed(m, j, i);
    }
  }

  lemma NoneIn(list: seq<Stash>)
    ensures list == [] <==> forall s :: s !in list
  {
    if list != [] { assert list[0] in list; }
  }

  lemma NoIdsNoLists(l: seq<Transfer>, m: StashMap)
    requires GoodPlan(Snapshot(l), m)
    ensures m == map[] <==> forall x :: x in l ==> x.stashBefore == [] && x.useStash == []
  {
    var p := Snapshot(l);
    if m == map[] {
      forall x | x in l ensures x.stashBefore == [] && x.useStash == [] {
        var k :| 0 <= k < |l| && l[k] == x;
        assert p[k] == Snap(x);
        assert forall s :: s in p[k].stashes <==> DefinedBy(m, k, s);
        assert forall s :: s in p[k].uses <==> UsedBy(m, k, s);
        NoneIn(p[k].stashes);
        NoneIn(p[k].uses);
      }
    } else {
      var id :| id in m;
      var k := m[id].def;
      assert p[k] == Snap(l[k]);
      assert DefinedBy(m, k, (id, m[id].range));
      assert l[k].stashBefore != [] && l[k] in l;
    }
  }

  lemma GraphConsistent(src: Sources)
    ensures Consistent(GraphOf(src))
  {
  }

  method Clear(transfers: seq<Transfer>)
    modifies Members(transfers)`goesBefore, Members(transfers)`goesAfter
    modifies Members(transfers)`stashBefore, Members(transfers)`useStash
    ensures forall x :: x in Members(transfers) ==>
      x.goesBefore == map[] && x.goesAfter == map[] && x.stashBefore == [] && x.useStash == []
  {
    for n := 0 to |transfers|
      invariant forall k :: 0 <= k < n ==>
        && transfers[k].goesBefore == map[] && transfers[k].goesAfter == map[]
        && transfers[k].stashBefore == [] && transfers[k].useStash == []
    {
      var xf := transfers[n];
      assert xf in Members(transfers);
      xf.goesBefore := map[];
      xf.goesAfter := map[];
      xf.stashBefore := [];
      xf.useStash := [];
    }
  }

  lemma NothingLinked(src: Sources, x: Transfer)
    requires x in src
    ensures S.Views(src, [])[x] ==
            S.View(GraphOf(src).out[x].Keys, GraphOf(src).inn[x].Keys, [], [])
  {
    forall y | y in src ensures S.Edge(src, [], x, y) <==> Reads(src, x, y) {
    }
  }

  ghost predicate Unlinked(ts: set<Transfer>, src: Sources)
    reads ts
  {
    && ts == src.Keys
    && forall x :: x in ts ==>
         && src[x] == x.srcRanges && x.goesBefore == GraphOf(src).out[x] && x.goesAfter == GraphOf(src).inn[x]
         && x.stashBefore == [] && x.useStash == []
  }

  lemma UnlinkedShows(ts: set<Transfer>, src: Sources)
    requires Unlinked(ts, src)
    ensures S.Shows(src.Keys, S.Views(src, []))
  {
    forall x | x in src
      ensures S.Views(src, [])[x] == S.View(x.goesBefore.Keys, x.goesAfter.Keys, x.stashBefore, x.useStash)
    {
      NothingLinked(src, x);
    }
  }

  lemma BuiltUnlinked(ts: set<Transfer>, src: Sources)
    requires ts == src.Keys
    requires forall x :: x in ts ==>
      && src[x] == x.srcRanges && x.goesBefore == D.GoesBefore(src, x, ts) && x.goesAfter == D.GoesAfter(src, x, ts)
      && x.stashBefore == [] && x.useStash == []
    ensures Unlinked(ts, src) && GraphOf(src).out.Keys == ts
  {
  }

  /** The dependency graph is built afresh. */
  method BuildGraph(transfers: seq<Transfer>, ghost src: Sources)
    requires Distinct(transfers) && src == SourcesOf(Members(transfers))
    modifies Members(transfers)`goesBefore, Members(transfers)`goesAfter
    modifies Members(transfers)`stashBefore, Members(transfers)`useStash
    ensures Unlinked(Members(transfers), src)
    ensures GraphOf(src).out.Keys == GraphOf(src).inn.Keys == Members(transfers)
    ensures forall x :: x in Members(transfers) ==> x.goesBefore == GraphOf(src).out[x] && x.goesAfter == GraphOf(src).inn[x]
  {
    hide D.GoesBefore, D.GoesAfter, Distinct;
    Clear(transfers);
    assert SourcesOf(Members(transfers)) == src;
    D.GenerateDigraph(transfers);
    BuiltUnlinked(Members(transfers), src);
  }

  /** A first sequence is found for the graph. */
  method FirstSequence(transfers: seq<Transfer>, ghost src: Sources, ghost acyclic: bool, ghost rank: map<Transfer, nat>)
    returns (l: seq<Transfer>)
    requires Distinct(transfers) && src == SourcesOf(Members(transfers)) && (acyclic ==> ReadsRanked(src, rank))
    modifies Members(transfers)`goesBefore, Members(transfers)`goesAfter
    modifies Members(transfers)`stashBefore, Members(transfers)`useStash
    modifies Members(transfers)`incoming, Members(transfers)`outgoing, Members(transfers)`score
    modifies Members(transfers)`heapItem, Members(transfers)`order
    ensures Distinct(l) && Members(l) == Members(transfers) && Unlinked(Members(transfers), src)
    ensures 2 * Backward(GraphOf(src).inn, l, {}) <= Weight(GraphOf(src))
    ensures acyclic ==> NoBackward(GraphOf(src).inn, l)
    ensures forall i :: 0 <= i < |l| ==> l[i].order == i
  {
    hide GraphOf, Consistent, Weight, Backward, ReadsRanked, RankedBy, NoBackward, Distinct;
    BuildGraph(transfers, src);
    GraphConsistent(src);
    if acyclic { GraphRanked(src, rank); }
    ghost var t;
    l, t := V.FindVertexSequence(transfers, GraphOf(src), acyclic, rank);
  }

  lemma PlacedAt(l: seq<Transfer>, src: Sources)
    requires Distinct(l) && Members(l) == src.Keys
    requires forall x :: x in src ==> src[x] == x.srcRanges
    requires forall i :: 0 <= i < |l| ==> l[i].order == i
    ensures S.Placed(src, Positions(l))
    ensures forall i :: 0 <= i < |l| ==> l[i] in src && Positions(l)[l[i]] == i
    ensures forall x :: x in src ==> Positions(l)[x] < |l|
  {
    PositionsAt(l);
    forall i | 0 <= i < |l| ensures l[i] in src {
      assert l[i] in Members(l);
    }
    forall x | x in src ensures Positions(l)[x] < |l| && Positions(l)[x] == x.order {
      var i :| 0 <= i < |l| && l[i] == x;
    }
    forall x, y | x in src && y in src && x != y ensures Positions(l)[x] != Positions(l)[y] {
      var i :| 0 <= i < |l| && l[i] == x;
      var j :| 0 <= j < |l| && l[j] == y;
    }
  }

  ghost function SuccMap(src: Sources, links: seq<S.Link>): I.Neighbours {
    map x | x in src :: S.Successors(src, links, x)
  }

  ghost function PredMap(src: Sources, links: seq<S.Link>): I.Neighbours {
    map x | x in src :: S.Predecessors(src, links, x)
  }

  lemma MapsRanked(src: Sources, pos: map<Transfer, nat>, links: seq<S.Link>, n: nat)
    requires S.Reversed(src, pos, links, n) && forall x :: x in src ==> pos[x] < n
    requires forall a, b :: a in src && b in src && a != b ==> pos[a] != pos[b]
    ensures I.Ranked(SuccMap(src, links), PredMap(src, links), pos)
  {
    forall x, y | x in src && y in src && S.Edge(src, links, x, y) ensures pos[x] < pos[y] {
      StillRanked(src, pos, links, x, y, n);
    }
  }

  lemma MapsLinked(src: Sources, links: seq<S.Link>)
    requires S.Shows(src.Keys, S.Views(src, links))
    ensures I.Linked(src.Keys, SuccMap(src, links), PredMap(src, links))
  {
  }

  /** The stash lists as shown by the links. */
  ghost predicate ListsKept(src: Sources, links: seq<S.Link>)
    reads src.Keys`stashBefore, src.Keys`useStash, src.Keys`srcRanges
  {
    forall x :: x in src ==>
      x.stashBefore == S.Defined(links, x) && x.useStash == S.Used(links, x) && x.srcRanges == src[x]
  }

  lemma ListsFromViews(src: Sources, links: seq<S.Link>)
    requires S.Shows(src.Keys, S.Views(src, links)) && forall x :: x in src ==> src[x] == x.srcRanges
    ensures ListsKept(src, links)
  {
    forall x | x in src ensures S.Views(src, links)[x].stashes == S.Defined(links, x) {
    }
  }

  /** Reverses what the first sequence violates and sorts again. */
  method SecondSequence(first: seq<Transfer>, ghost src: Sources)
    returns (l: seq<Transfer>, ghost links: seq<S.Link>)
    requires Distinct(first) && Members(first) == src.Keys && Unlinked(src.Keys, src)
    requires forall i :: 0 <= i < |first| ==> first[i].order == i
    modifies src.Keys`goesBefore, src.Keys`goesAfter, src.Keys`stashBefore, src.Keys`useStash
    modifies src.Keys`incoming, src.Keys`outgoing, src.Keys`order
    ensures Distinct(l) && Members(l) == src.Keys && |l| == |first|
    ensures forall i :: 0 <= i < |l| ==> l[i].order == i
    ensures ListsKept(src, links) && I.Respects(PredMap(src, links), l)
    ensures S.Reversed(src, Positions(first), links, |first|)
  {
    hide Unlinked, S.Views, S.Shows, S.Reversed, SuccMap, PredMap, ListsKept, I.Ranked, I.Linked, I.Respects, Positions,
         S.Placed, Distinct;
    UnlinkedSources(src);
    UnlinkedShows(src.Keys, src);
    ghost var pos := Positions(first);
    PlacedAt(first, src);
    links := S.ReverseBackwardEdges(first, src, pos);
    PlacedDistinct(src, pos);
    MapsRanked(src, pos, links, |first|);
    MapsLinked(src, links);
    ListsFromViews(src, links);
    l := I.ImproveVertexSequence(first, SuccMap(src, links), PredMap(src, links), pos);
  }

  lemma UnlinkedSources(src: Sources)
    requires Unlinked(src.Keys, src)
    ensures forall x :: x in src ==> src[x] == x.srcRanges
  {
  }

  lemma PlacedDistinct(src: Sources, pos: map<Transfer, nat>)
    requires S.Placed(src, pos)
    ensures forall a, b :: a in src && b in src && a != b ==> pos[a] != pos[b]
  {
  }

  lemma GoodSequence(l: seq<Transfer>, first: seq<Transfer>, src: Sources, links: seq<S.Link>)
    requires Distinct(l) && Members(l) == src.Keys && Distinct(first) && Members(first) == src.Keys
    requires ListsKept(src, links) && I.Respects(PredMap(src, links), l)
    requires S.Reversed(src, Positions(first), links, |first|)
    requires forall x, y :: x in src && y in src && x != y ==> x.tgtRanges !! y.tgtRanges
    ensures Locates(links, Positions(l))
    ensures GoodPlan(Snapshot(l), StashMapOf(links, Positions(l)))
  {
    hide *;
    var p := Snapshot(l);
    SnapshotShows(l, links, src);
    DisjointTargets(l, src);
    PredMapAt(src, links);
    RespectsMeets(src, links, PredMap(src, links), l);
    ReversedLinks(src, Positions(first), links, |first|);
    GoodIds(l, links, src, Positions(first), p);
    GoodLists(l, links, src, p);
    PositionsDistinct(first, src);
    GoodReads(l, links, src, Positions(first), p, |first|);
    MakeGood(p, StashMapOf(links, Positions(l)));
  }

  lemma SnapshotShows(l: seq<Transfer>, links: seq<S.Link>, src: Sources)
    requires Members(l) == src.Keys && ListsKept(src, links)
    ensures ListsShown(l, links, src, Snapshot(l))
  {
    forall k | 0 <= k < |l| ensures l[k] in src {
      assert l[k] in Members(l);
    }
  }

  lemma DisjointTargets(l: seq<Transfer>, src: Sources)
    requires Distinct(l) && Members(l) == src.Keys
    requires forall x, y :: x in src && y in src && x != y ==> x.tgtRanges !! y.tgtRanges
    ensures TargetsDisjoint(Snapshot(l))
  {
    forall k | 0 <= k < |l| ensures l[k] in src {
      assert l[k] in Members(l);
    }
  }

  lemma PredMapAt(src: Sources, links: seq<S.Link>)
    ensures PredMap(src, links).Keys == src.Keys
    ensures forall y :: y in src ==> PredMap(src, links)[y] == S.Predecessors(src, links, y)
  {
  }

  lemma ReversedLinks(src: Sources, pos: map<Transfer, nat>, links: seq<S.Link>, n: nat)
    requires S.Reversed(src, pos, links, n)
    ensures S.LinksOf(src, pos, links)
  {
  }

  lemma PositionsDistinct(l: seq<Transfer>, src: Sources)
    requires Distinct(l) && Members(l) == src.Keys
    ensures Positions(l).Keys == src.Keys
    ensures forall x :: x in src ==> Positions(l)[x] < |l|
    ensures forall a, b :: a in src && b in src && a != b ==> Positions(l)[a] != Positions(l)[b]
  {
    PositionsAt(l);
    forall x | x in src ensures exists i :: 0 <= i < |l| && l[i] == x {
      assert x in Members(l);
    }
  }

  lemma MakeGood(p: Plan, m: StashMap)
    requires TargetsDisjoint(p) && IdsGood(p, m) && DefsListed(p, m) && UsesListed(p, m) && LateReadsStashed(p, m)
    ensures GoodPlan(p, m)
  {
  }

  /** The sequence is a permutation of the transfers and a good plan, and its stashes come from
      an order in which at most half of the dependency weight pointed backward. There are none
      exactly if the dependencies have no cycle. */
  method FindSequenceForTransfers(transfers: seq<Transfer>)
    returns (l: seq<Transfer>, ghost m: StashMap, ghost first: seq<Transfer>)
    requires Distinct(transfers)
    requires forall x, y :: x in transfers && y in transfers && x != y ==> x.tgtRanges !! y.tgtRanges
    modifies Members(transfers)`goesBefore, Members(transfers)`goesAfter
    modifies Members(transfers)`stashBefore, Members(transfers)`useStash
    modifies Members(transfers)`incoming, Members(transfers)`outgoing, Members(transfers)`score
    modifies Members(transfers)`heapItem, Members(transfers)`order
    ensures Distinct(l) && Members(l) == Members(transfers)
    ensures forall i :: 0 <= i < |l| ==> l[i].order == i
    ensures GoodPlan(Snapshot(l), m)
    ensures Members(first) == Members(transfers)
    ensures var g := GraphOf(old(SourcesOf(Members(transfers))));
            Members(first) <= g.inn.Keys && 2 * Backward(g.inn, first, {}) <= Weight(g)
    ensures (forall x :: x in l ==> x.stashBefore == [] && x.useStash == []) <==>
            Acyclic(old(SourcesOf(Members(transfers))), transfers)
  {
    hide ReadsRanked, Acyclic, NoBackward, Backward, Weight, GraphOf, GoodPlan, Snapshot, S.Reversed, ListsKept, PredMap,
         I.Respects, Unlinked,
         StashMapOf, Locates;
    ghost var src := SourcesOf(Members(transfers));
    ghost var acyclic, rank := Acyclic(src, transfers), map[];
    if acyclic {
      rank := RankingOf(src, transfers);
    }
    var t := FirstSequence(transfers, src, acyclic, rank);
    first := t;
    ghost var links;
    l, links := SecondSequence(t, src);
    GraphKeys(src);
    GoodSequence(l, t, src, links);
    m := StashMapOf(links, Positions(l));
    ReversedLinks(src, Positions(t), links, |t|);
    if links != [] {
      TurnedViolates(src, t, links);
    } else {
      NoIdsFromNoLinks(links, Positions(l));
    }
    NoIdsNoLists(l, m);
    if m == map[] {
      ListsSources(src, links);
      StashlessRanked(l, src, m);
      RanksOf(src, transfers, Positions(l));
    }
  }

  lemma GraphKeys(src: Sources)
    ensures GraphOf(src).inn.Keys == src.Keys
  {
  }

  lemma NoIdsFromNoLinks(links: seq<S.Link>, pos: map<Transfer, nat>)
    requires links == [] && Locates(links, pos)
    ensures StashMapOf(links, pos) == map[]
  {
  }

  lemma ListsSources(src: Sources, links: seq<S.Link>)
    requires ListsKept(src, links)
    ensures forall x :: x in src ==> src[x] == x.srcRanges
  {
  }
}
