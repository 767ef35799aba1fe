/** Making the dependency graph acyclic, and the final order of the transfers. */
module Sequencing {
  import opened Ranges
  import opened Transfers
  import opened FeedbackArc
  import opened Plans

  /** `definer` saves `range` before it overwrites it, for `user` to read later.
      A link's number is the position it has in the list of links. */
  datatype Link = Link(range: RangeSet, definer: Transfer, user: Transfer)

  ghost predicate Linked(links: seq<Link>, r: Transfer, w: Transfer) {
    exists i :: 0 <= i < |links| && links[i].user == r && links[i].definer == w
  }

  /** The stashes `w` has to make, and those `r` will use, oldest first. */
  ghost function Defined(links: seq<Link>, w: Transfer): seq<Stash> {
    if links == [] then []
    else
      var n := |links| - 1;
      Defined(links[..n], w) + (if links[n].definer == w then [(n, links[n].range)] else [])
  }

  ghost function Used(links: seq<Link>, r: Transfer): seq<Stash> {
    if links == [] then []
    else
      var n := |links| - 1;
      Used(links[..n], r) + (if links[n].user == r then [(n, links[n].range)] else [])
  }

  lemma {:induction false} DefinedMember(links: seq<Link>, w: Transfer, s: Stash)
    ensures s in Defined(links, w) <==> s.0 < |links| && links[s.0] == Link(s.1, w, links[s.0].user)
  {
    if links != [] {
      DefinedMember(links[..|links| - 1], w, s);
    }
  }

  lemma {:induction false} UsedMember(links: seq<Link>, r: Transfer, s: Stash)
    ensures s in Used(links, r) <==> s.0 < |links| && links[s.0] == Link(s.1, links[s.0].definer, r)
  {
    if links != [] {
      UsedMember(links[..|links| - 1], r, s);
    }
  }

  lemma {:induction false} DefinedNoRepeat(links: seq<Link>, w: Transfer)
    ensures NoRepeat(Defined(links, w))
  {
    if links != [] {
      var n := |links| - 1;
      DefinedNoRepeat(links[..n], w);
      var d := Defined(links[..n], w);
      forall i | 0 <= i < |d| ensures d[i].0 != n {
        DefinedMember(links[..n], w, d[i]);
      }
    }
  }

  lemma {:induction false} UsedNoRepeat(links: seq<Link>, r: Transfer)
    ensures NoRepeat(Used(links, r))
  {
    if links != [] {
      var n := |links| - 1;
      UsedNoRepeat(links[..n], r);
      var d := Used(links[..n], r);
      forall i | 0 <= i < |d| ensures d[i].0 != n {
        UsedMember(links[..n], r, d[i]);
      }
    }
  }

  /** Where the transfers stand in the sequence, as a value. */
  type Positions = map<Transfer, nat>

  /** Every link turns one violated dependency around, no dependency twice. */
  ghost predicate LinksOf(src: Sources, pos: Positions, links: seq<Link>) {
    && (forall i :: 0 <= i < |links| ==>
          var l := links[i];
          && l.user in src && l.definer in src && l.user in pos && l.definer in pos
          && Reads(src, l.user, l.definer) && pos[l.definer] < pos[l.user]
          && l.range == src[l.user] * l.definer.tgtRanges)
    && (forall i, j :: 0 <= i < j < |links| ==>
          links[i].user != links[j].user || links[i].definer != links[j].definer)
  }

  /** `x` runs before `y`: `x` reads what `y` writes and may still do so, or `x` stashes for `y`. */
  ghost predicate Edge(src: Sources, links: seq<Link>, x: Transfer, y: Transfer)
    requires x in src
  {
    (Reads(src, x, y) && !Linked(links, x, y)) || Linked(links, y, x)
  }

  ghost function Successors(src: Sources, links: seq<Link>, x: Transfer): set<Transfer>
    requires x in src
  {
    set y | y in src && Edge(src, links, x, y)
  }

  ghost function Predecessors(src: Sources, links: seq<Link>, y: Transfer): set<Transfer> {
    set x | x in src && Edge(src, links, x, y)
  }

  /** What the links say about one transfer: its graph neighbours and its stash lists. */
  datatype View = View(before: set<Transfer>, after: set<Transfer>, stashes: seq<Stash>, uses: seq<Stash>)

  ghost function Views(src: Sources, links: seq<Link>): map<Transfer, View> {
    map x | x in src :: View(Successors(src, links, x), Predecessors(src, links, x), Defined(links, x), Used(links, x))
  }

  /** The fields of all transfers show exactly this. */
  ghost predicate Shows(ts: set<Transfer>, views: map<Transfer, View>)
    reads ts
  {
    forall x :: x in ts ==>
      x in views && views[x] == View(x.goesBefore.Keys, x.goesAfter.Keys, x.stashBefore, x.useStash)
  }

  lemma LinkedAppend(links: seq<Link>, l: Link, r: Transfer, w: Transfer)
    ensures Linked(links + [l], r, w) <==> Linked(links, r, w) || (l.user == r && l.definer == w)
  {
    var more := links + [l];
    if i :| 0 <= i < |links| && links[i].user == r && links[i].definer == w {
      assert more[i] == links[i];
    }
    if l.user == r && l.definer == w {
      assert more[|links|] == l;
    }
  }

  /** Turning one dependency around moves exactly one edge. */
  lemma EdgeAppend(src: Sources, pos: Positions, links: seq<Link>, l: Link, x: Transfer, y: Transfer)
    requires x in src && y in src && LinksOf(src, pos, links + [l])
    ensures Edge(src, links + [l], x, y) <==>
            (Edge(src, links, x, y) && !(x == l.user && y == l.definer)) || (x == l.definer && y == l.user)
  {
    LinkedAppend(links, l, x, y);
    LinkedAppend(links, l, y, x);
    assert (links + [l])[|links|] == l;
  }

  lemma ListsAppend(links: seq<Link>, l: Link, x: Transfer)
    ensures Defined(links + [l], x) == Defined(links, x) + (if l.definer == x then [(|links|, l.range)] else [])
    ensures Used(links + [l], x) == Used(links, x) + (if l.user == x then [(|links|, l.range)] else [])
  {
    assert (links + [l])[..|links|] == links;
  }

  /** `r` reads what the earlier `w` overwrites: `w` stashes the overlap and must now go first. */
  method ReverseEdge(r: Transfer, w: Transfer, rawId: nat)
    requires r != w && w in r.goesBefore
    requires r.srcRanges * w.tgtRanges != {}
    modifies r`goesBefore, r`goesAfter, r`useStash, w`goesBefore, w`goesAfter, w`stashBefore
    ensures r.goesBefore == old(r.goesBefore) - {w}
    ensures w.goesAfter == old(w.goesAfter) - {r}
    ensures r.goesAfter == old(r.goesAfter)[w := 0]
    ensures w.goesBefore == old(w.goesBefore)[r := 0]
    ensures w.stashBefore == old(w.stashBefore) + [(rawId, r.srcRanges * w.tgtRanges)]
    ensures r.useStash == old(r.useStash) + [(rawId, r.srcRanges * w.tgtRanges)]
  {
    var overlap := r.srcRanges * w.tgtRanges;
    assert overlap != {};
    w.stashBefore := w.stashBefore + [(rawId, overlap)];
    r.useStash := r.useStash + [(rawId, overlap)];
    r.goesBefore := r.goesBefore - {w};
    w.goesAfter := w.goesAfter - {r};
    r.goesAfter := r.goesAfter[w := 0];
    w.goesBefore := w.goesBefore[r := 0];
  }

  lemma EdgesAppend(src: Sources, pos: Positions, links: seq<Link>, l: Link, x: Transfer)
    requires x in src && LinksOf(src, pos, links + [l])
    ensures Successors(src, links + [l], x) ==
            Successors(src, links, x) - (if x == l.user then {l.definer} else {})
            + (if x == l.definer then {l.user} else {})
    ensures Predecessors(src, links + [l], x) ==
            Predecessors(src, links, x) - (if x == l.definer then {l.user} else {})
            + (if x == l.user then {l.definer} else {})
  {
    assert (links + [l])[|links|] == l;
    forall y | y in src
      ensures Edge(src, links + [l], x, y) <==>
              (Edge(src, links, x, y) && !(x == l.user && y == l.definer)) || (x == l.definer && y == l.user)
      ensures Edge(src, links + [l], y, x) <==>
              (Edge(src, links, y, x) && !(y == l.user && x == l.definer)) || (y == l.definer && x == l.user)
    {
      EdgeAppend(src, pos, links, l, x, y);
      EdgeAppend(src, pos, links, l, y, x);
    }
  }

  ghost function ForUser(v: View, id: nat, l: Link): View {
    View(v.before - {l.definer}, v.after + {l.definer}, v.stashes, v.uses + [(id, l.range)])
  }

  ghost function ForDefiner(v: View, id: nat, l: Link): View {
    View(v.before + {l.user}, v.after - {l.user}, v.stashes + [(id, l.range)], v.uses)
  }

  /** How one more link changes what is shown: only its two ends see it. */
  ghost function WithLink(vs: map<Transfer, View>, id: nat, l: Link): map<Transfer, View> {
    map x | x in vs :: if x == l.definer then ForDefiner(vs[x], id, l)
                       else if x == l.user then ForUser(vs[x], id, l) else vs[x]
  }

  lemma ViewsAppend(src: Sources, pos: Positions, links: seq<Link>, l: Link)
    requires LinksOf(src, pos, links + [l])
    ensures Views(src, links + [l]) == WithLink(Views(src, links), |links|, l)
  {
    assert (links + [l])[|links|] == l;
    forall x | x in src
      ensures Views(src, links + [l])[x] == WithLink(Views(src, links), |links|, l)[x]
    {
      EdgesAppend(src, pos, links, l, x);
      ListsAppend(links, l, x);
    }
  }

  lemma LinksAppend(src: Sources, pos: Positions, links: seq<Link>, r: Transfer, w: Transfer)
    requires LinksOf(src, pos, links) && r in src && w in src && r in pos && w in pos
    requires Reads(src, r, w) && pos[w] < pos[r] && !Linked(links, r, w)
    ensures LinksOf(src, pos, links + [Link(src[r] * w.tgtRanges, w, r)])
  {
  }

  /** One violated dependency, on the whole set of transfers. */
  method Fix(r: Transfer, w: Transfer, rawId: nat, ghost ts: set<Transfer>, ghost vs: map<Transfer, View>)
    requires r in ts && w in ts && r != w && Shows(ts, vs) && w in vs[r].before
    requires r.srcRanges * w.tgtRanges != {}
    modifies ts`goesBefore, ts`goesAfter, ts`useStash, ts`stashBefore
    ensures Shows(ts, WithLink(vs, rawId, Link(r.srcRanges * w.tgtRanges, w, r)))
  {
    assert w in r.goesBefore.Keys;
    ReverseEdge(r, w, rawId);
  }

  /** Every violated read of `x` has been turned around. */
  ghost predicate Complete(src: Sources, pos: Positions, links: seq<Link>, x: Transfer)
    requires x in src && src.Keys <= pos.Keys
  {
    forall w :: w in src && Reads(src, x, w) && pos[w] < pos[x] ==> Linked(links, x, w)
  }

  /** No link has a user past position `n`. */
  ghost predicate UsersBefore(pos: Positions, links: seq<Link>, n: nat) {
    forall i :: 0 <= i < |links| ==> links[i].user in pos && pos[links[i].user] < n
  }

  lemma FreshSuccessors(src: Sources, pos: Positions, links: seq<Link>, x: Transfer)
    requires LinksOf(src, pos, links) && x in src && x in pos && UsersBefore(pos, links, pos[x])
    ensures Successors(src, links, x) == set y | y in src && Reads(src, x, y)
    ensures forall y :: !Linked(links, x, y)
  {
  }

  /** Halfway through the reads of `x`: those in `todo` have not been looked at. */
  ghost predicate Turning(src: Sources, pos: Positions, links: seq<Link>, x: Transfer, todo: set<Transfer>)
    requires x in src && src.Keys == pos.Keys
  {
    && LinksOf(src, pos, links)
    && UsersBefore(pos, links, pos[x] + 1)
    && (forall y :: y in todo ==> y in src && Reads(src, x, y) && !Linked(links, x, y))
    && (forall y :: y in src && Reads(src, x, y) && y !in todo && pos[y] < pos[x] ==> Linked(links, x, y))
  }

  lemma TurnStart(src: Sources, pos: Positions, links: seq<Link>, x: Transfer)
    requires x in src && src.Keys == pos.Keys
    requires LinksOf(src, pos, links) && UsersBefore(pos, links, pos[x])
    ensures Turning(src, pos, links, x, Successors(src, links, x))
  {
    FreshSuccessors(src, pos, links, x);
  }

  ghost function LinkFor(src: Sources, x: Transfer, u: Transfer): Link
    requires x in src
  {
    Link(src[x] * u.tgtRanges, u, x)
  }

  lemma TurnNext(src: Sources, pos: Positions, links: seq<Link>, x: Transfer, todo: set<Transfer>, u: Transfer)
    requires x in src && src.Keys == pos.Keys
    requires Turning(src, pos, links, x, todo) && u in todo && pos[u] < pos[x]
    ensures Turning(src, pos, links + [LinkFor(src, x, u)], x, todo - {u})
  {
    var l := LinkFor(src, x, u);
    LinksAppend(src, pos, links, x, u);
    forall y ensures Linked(links + [l], x, y) <==> Linked(links, x, y) || y == u {
      LinkedAppend(links, l, x, y);
    }
  }

  lemma TurnSkip(src: Sources, pos: Positions, links: seq<Link>, x: Transfer, todo: set<Transfer>, u: Transfer)
    requires x in src && src.Keys == pos.Keys
    requires Turning(src, pos, links, x, todo) && u in todo && pos[x] < pos[u]
    ensures Turning(src, pos, links, x, todo - {u})
  {
  }

  lemma TodoReads(src: Sources, pos: Positions, links: seq<Link>, x: Transfer, todo: set<Transfer>, u: Transfer)
    requires x in src && src.Keys == pos.Keys && Turning(src, pos, links, x, todo) && u in todo
    ensures u in src && u != x && src[x] * u.tgtRanges != {}
    ensures x in Views(src, links) && u in Views(src, links)[x].before
    ensures pos[u] < pos[x] ==> LinksOf(src, pos, links + [LinkFor(src, x, u)])
  {
    if pos[u] < pos[x] {
      TurnNext(src, pos, links, x, todo, u);
    }
  }

  ghost predicate Placed(src: Sources, pos: Positions)
    reads src.Keys
  {
    && src.Keys == pos.Keys
    && (forall x :: x in src ==> src[x] == x.srcRanges && pos[x] == x.order)
    && (forall x, y :: x in src && y in src && x != y ==> pos[x] != pos[y])
  }

  /** One read of `xf`: nothing to do if it comes in time, otherwise it is turned into a stash. */
  method SettleRead(xf: Transfer, u: Transfer, rawId: nat, ghost src: Sources,
                    ghost pos: Positions, ghost links: seq<Link>, ghost todo: set<Transfer>)
    returns (rawId': nat, ghost links': seq<Link>)
    requires Placed(src, pos) && xf in src && u in todo && rawId == |links|
    requires Turning(src, pos, links, xf, todo) && Shows(src.Keys, Views(src, links))
    modifies src.Keys`goesBefore, src.Keys`goesAfter, src.Keys`useStash, src.Keys`stashBefore
    ensures rawId' == |links'| && links <= links'
    ensures Turning(src, pos, links', xf, todo - {u}) && Shows(src.Keys, Views(src, links'))
  {
    hide Turning, Views, WithLink, LinksOf;
    TodoReads(src, pos, links, xf, todo, u);
    if xf.order < u.order {
      // It does run first.
      TurnSkip(src, pos, links, xf, todo, u);
      rawId', links' := rawId, links;
    } else {
      TurnNext(src, pos, links, xf, todo, u);
      ViewsAppend(src, pos, links, LinkFor(src, xf, u));
      Fix(xf, u, rawId, src.Keys, Views(src, links));
      rawId', links' := rawId + 1, links + [LinkFor(src, xf, u)];
    }
  }

  /** The first `n` transfers have been dealt with. */
  ghost predicate Reversed(src: Sources, pos: Positions, links: seq<Link>, n: nat) {
    && src.Keys == pos.Keys
    && LinksOf(src, pos, links) && UsersBefore(pos, links, n)
    && forall x :: x in src && pos[x] < n ==> Complete(src, pos, links, x)
  }

  lemma BeginReads(src: Sources, pos: Positions, links: seq<Link>, x: Transfer)
    requires src.Keys == pos.Keys && x in src && Reversed(src, pos, links, pos[x])
    requires Shows(src.Keys, Views(src, links))
    ensures Turning(src, pos, links, x, x.goesBefore.Keys)
  {
    TurnStart(src, pos, links, x);
    assert x.goesBefore.Keys == Successors(src, links, x);
  }

  lemma EndReads(src: Sources, pos: Positions, links: seq<Link>, more: seq<Link>, xf: Transfer)
    requires src.Keys == pos.Keys && xf in src && links <= more
    requires forall x, y :: x in src && y in src && x != y ==> pos[x] != pos[y]
    requires Reversed(src, pos, links, pos[xf])
    requires Turning(src, pos, more, xf, {})
    ensures Reversed(src, pos, more, pos[xf] + 1)
  {
    forall x | x in src && pos[x] < pos[xf] + 1 ensures Complete(src, pos, more, x) {
      if x != xf {
        CompleteMore(src, pos, links, more, x);
      }
    }
  }

  lemma CompleteMore(src: Sources, pos: Positions, links: seq<Link>, more: seq<Link>, x: Transfer)
    requires x in src && src.Keys <= pos.Keys && Complete(src, pos, links, x) && links <= more
    ensures Complete(src, pos, more, x)
  {
    forall w | w in src && Reads(src, x, w) && pos[w] < pos[x] ensures Linked(more, x, w) {
      var i :| 0 <= i < |links| && links[i].user == x && links[i].definer == w;
      assert more[i] == links[i];
    }
  }

  /** The reads of `xf`, one by one. */
  method ReverseLateReads(xf: Transfer, rawId: nat, ghost src: Sources, ghost pos: Positions, ghost links: seq<Link>)
    returns (rawId': nat, ghost links': seq<Link>)
    requires Placed(src, pos) && xf in src && rawId == |links|
    requires Reversed(src, pos, links, pos[xf]) && Shows(src.Keys, Views(src, links))
    modifies src.Keys`goesBefore, src.Keys`goesAfter, src.Keys`useStash, src.Keys`stashBefore
    ensures rawId' == |links'|
    ensures Reversed(src, pos, links', pos[xf] + 1) && Shows(src.Keys, Views(src, links'))
  {
    hide Views, Turning, LinksOf, Shows, Reversed;
    rawId', links' := rawId, links;
    BeginReads(src, pos, links, xf);
    var todo: set<Transfer> := xf.goesBefore.Keys;
    while todo != {}
      invariant Placed(src, pos) && rawId' == |links'| && links <= links'
      invariant Turning(src, pos, links', xf, todo) && Shows(src.Keys, Views(src, links'))
    {
      var u :| u in todo;
      rawId', links' := SettleRead(xf, u, rawId', src, pos, links', todo);
      todo := todo - {u};
    }
    EndReads(src, pos, links, links', xf);
  }

  lemma NothingReversed(src: Sources, pos: Positions)
    requires src.Keys == pos.Keys
    ensures Reversed(src, pos, [], 0)
  {
  }

  /** The order dependencies that the sequence violates are reversed; afterwards every late read is stashed. */
  method ReverseBackwardEdges(transfers: seq<Transfer>, ghost src: Sources, ghost pos: Positions)
    returns (ghost links: seq<Link>)
    requires Placed(src, pos)
    requires forall i :: 0 <= i < |transfers| ==> transfers[i] in src && pos[transfers[i]] == i
    requires Shows(src.Keys, Views(src, []))
    modifies src.Keys`goesBefore, src.Keys`goesAfter, src.Keys`useStash, src.Keys`stashBefore
    ensures Reversed(src, pos, links, |transfers|) && Shows(src.Keys, Views(src, links))
  {
    hide Views, Reversed, Shows;
    links := [];
    var rawId := 0;
    NothingReversed(src, pos);
    for n := 0 to |transfers|
      invariant rawId == |links| && Placed(src, pos)
      invariant Reversed(src, pos, links, n) && Shows(src.Keys, Views(src, links))
    {
      var xf := transfers[n];
      rawId, links := ReverseLateReads(xf, rawId, src, pos, links);
    }
  }
}
