/** The feedback-arc heuristic: an order in which little weight points backward. */
module VertexSequence {
  import opened Sums
  import opened FeedbackArc
  import opened Transfers

  type Graph = Digraph<Transfer>

  method SumValues(m: map<Transfer, nat>) returns (s: nat)
    ensures s == Sum(m)
  {
    s := 0;
    var todo := m;
    while todo != map[]
      invariant s + Sum(todo) == Sum(m)
      decreases |todo|
    {
      var k :| k in todo;
      SumRemove(todo, k);
      s := s + todo[k];
      todo := todo - {k};
    }
  }

  /** Each open vertex has one live heap entry, and it carries the current score. */
  ghost predicate Queued(xs: set<Transfer>, heap: set<HeapItem>)
    reads xs, heap
  {
    && (forall x :: x in xs ==>
          x.heapItem != null && x.heapItem in heap && x.heapItem.item == x && x.heapItem.score == -x.score)
    && (forall h :: h in heap && h.item != null && h.item in xs ==> h.item.heapItem == h)
  }

  method AdjustScore(iu: Transfer, delta: int, heap: set<HeapItem>, ghost xs: set<Transfer>)
    returns (heap': set<HeapItem>)
    requires iu in xs && Queued(xs, heap)
    modifies iu`score, iu`heapItem, iu.heapItem`item
    ensures iu.score == old(iu.score) + delta
    ensures Queued(xs, heap')
    ensures iu.heapItem != null && fresh(iu.heapItem) && heap' == heap + {iu.heapItem}
  {
    iu.score := iu.score + delta;
    iu.heapItem.Clear();
    iu.heapItem := new HeapItem(iu);
    heap' := heap + {iu.heapItem};
  }

  /** Removes the edge iu -> u, and its weight from the score of `iu`. */
  method DropEdge(iu: Transfer, u: Transfer, heap: set<HeapItem>, ghost xs: set<Transfer>)
    returns (heap': set<HeapItem>)
    requires u in iu.outgoing && iu in xs && Queued(xs, heap)
    modifies iu`outgoing, iu`score, iu`heapItem, iu.heapItem`item
    ensures iu.outgoing == old(iu.outgoing) - {u}
    ensures iu.score == old(iu.score) - old(iu.outgoing)[u]
    ensures Queued(xs, heap')
    ensures iu.heapItem != null && fresh(iu.heapItem) && heap' == heap + {iu.heapItem}
  {
    var weight: int := iu.outgoing[u];
    iu.outgoing := iu.outgoing - {u};
    heap' := AdjustScore(iu, -weight, heap, xs);
  }

  /** Removes the edge u -> iu, and its weight in the score of `iu`. */
  method DropBackEdge(iu: Transfer, u: Transfer, heap: set<HeapItem>, ghost xs: set<Transfer>)
    returns (heap': set<HeapItem>)
    requires u in iu.incoming && iu in xs && Queued(xs, heap)
    modifies iu`incoming, iu`score, iu`heapItem, iu.heapItem`item
    ensures iu.incoming == old(iu.incoming) - {u}
    ensures iu.score == old(iu.score) + old(iu.incoming)[u]
    ensures Queued(xs, heap')
    ensures iu.heapItem != null && fresh(iu.heapItem) && heap' == heap + {iu.heapItem}
  {
    var weight: int := iu.incoming[u];
    iu.incoming := iu.incoming - {u};
    heap' := AdjustScore(iu, weight, heap, xs);
  }

  /** Takes `u` out of the `outgoing` of its predecessors; returns those left without a successor.
      `o` and `s` are the edges and scores to be reached. */
  method DropFromOutgoing(u: Transfer, preds: set<Transfer>, heap: set<HeapItem>,
                          ghost xs: set<Transfer>, ghost o: map<Transfer, map<Transfer, nat>>, ghost s: map<Transfer, int>)
    returns (heap': set<HeapItem>, sinks: set<Transfer>)
    requires preds <= xs && Queued(xs, heap)
    requires xs <= o.Keys && xs <= s.Keys
    requires forall x :: x in preds ==> x.outgoing - {u} == o[x] && u in x.outgoing && x.score - x.outgoing[u] == s[x]
    requires forall x :: x in xs && x !in preds ==> x.outgoing == o[x] && x.score == s[x]
    modifies xs`outgoing, xs`score, xs`heapItem, heap`item
    ensures forall x :: x in xs ==> x.outgoing == o[x] && x.score == s[x]
    ensures Queued(xs, heap') && (forall h :: h in heap' ==> h in heap || fresh(h))
    ensures forall x :: x in sinks ==> x in xs && o[x] == map[]
    ensures forall x :: x in preds && o[x] == map[] ==> x in sinks
  {
    heap', sinks := heap, {};
    var todo := preds;
    while todo != {}
      invariant todo <= preds
      invariant forall x :: x in todo ==> x.outgoing == old(x.outgoing) && x.score == old(x.score)
      invariant forall x :: x in xs && x !in todo ==> x.outgoing == o[x] && x.score == s[x]
      invariant Queued(xs, heap') && (forall h :: h in heap' ==> h in heap || fresh(h))
      invariant forall x :: x in sinks ==> x in xs && o[x] == map[]
      invariant forall x :: x in preds && x !in todo && o[x] == map[] ==> x in sinks
    {
      var iu :| iu in todo;
      heap' := DropEdge(iu, u, heap', xs);
      if iu.outgoing == map[] {
        sinks := sinks + {iu};
      }
      todo := todo - {iu};
    }
  }

  /** Takes `u` out of the `incoming` of its successors; returns those left without a predecessor.
      `o` and `s` are the edges and scores to be reached. */
  method DropFromIncoming(u: Transfer, succs: set<Transfer>, heap: set<HeapItem>,
                          ghost xs: set<Transfer>, ghost o: map<Transfer, map<Transfer, nat>>, ghost s: map<Transfer, int>)
    returns (heap': set<HeapItem>, sources: set<Transfer>)
    requires succs <= xs && Queued(xs, heap)
    requires xs <= o.Keys && xs <= s.Keys
    requires forall x :: x in succs ==> x.incoming - {u} == o[x] && u in x.incoming && x.score + x.incoming[u] == s[x]
    requires forall x :: x in xs && x !in succs ==> x.incoming == o[x] && x.score == s[x]
    modifies xs`incoming, xs`score, xs`heapItem, heap`item
    ensures forall x :: x in xs ==> x.incoming == o[x] && x.score == s[x]
    ensures Queued(xs, heap') && (forall h :: h in heap' ==> h in heap || fresh(h))
    ensures forall x :: x in sources ==> x in xs && o[x] == map[]
    ensures forall x :: x in succs && o[x] == map[] ==> x in sources
  {
    heap', sources := heap, {};
    var todo := succs;
    while todo != {}
      invariant todo <= succs
      invariant forall x :: x in todo ==> x.incoming == old(x.incoming) && x.score == old(x.score)
      invariant forall x :: x in xs && x !in todo ==> x.incoming == o[x] && x.score == s[x]
      invariant Queued(xs, heap') && (forall h :: h in heap' ==> h in heap || fresh(h))
      invariant forall x :: x in sources ==> x in xs && o[x] == map[]
      invariant forall x :: x in succs && x !in todo && o[x] == map[] ==> x in sources
    {
      var iu :| iu in todo;
      heap' := DropBackEdge(iu, u, heap', xs);
      if iu.incoming == map[] {
        sources := sources + {iu};
      }
      todo := todo - {iu};
    }
  }

  // The open vertices, as values.

  /** The working copies hold the edges to `so` and from `si`, and the score is their balance. */
  ghost predicate Holds(xs: set<Transfer>, g: Graph, so: set<Transfer>, si: set<Transfer>)
    requires xs <= g.out.Keys && xs <= g.inn.Keys
    reads xs
  {
    forall x :: x in xs ==>
      && x.outgoing == Keep(g.out[x], so)
      && x.incoming == Keep(g.inn[x], si)
      && x.score == Sum(Keep(g.out[x], so)) - Sum(Keep(g.inn[x], si))
  }

  ghost predicate AllEmpty(xs: set<Transfer>, edges: map<Transfer, map<Transfer, nat>>, rest: set<Transfer>) {
    forall x :: x in xs ==> x in edges && Keep(edges[x], rest) == map[]
  }

  /** All open vertices without open neighbours on that side are known. */
  ghost predicate AllKnown(known: set<Transfer>, edges: map<Transfer, map<Transfer, nat>>, rest: set<Transfer>) {
    forall x :: x in rest && x in edges && Keep(edges[x], rest) == map[] ==> x in known
  }

  /** With fewer open vertices no other one has lost its neighbours on that side. */
  ghost predicate NoneNew(edges: map<Transfer, map<Transfer, nat>>, rest: set<Transfer>, less: set<Transfer>) {
    less <= rest && forall x :: x in less && x in edges && Keep(edges[x], less) == map[] ==> Keep(edges[x], rest) == map[]
  }

  /** How an order has come about: which vertex went where, and why. */
  datatype Trace = Start | Sink(before: Trace, u: Transfer) | Source(before: Trace, u: Transfer) | Best(before: Trace, u: Transfer)

  ghost function Open(g: Graph, t: Trace): set<Transfer> {
    match t
    case Start => g.out.Keys
    case Sink(b, u) => Open(g, b) - {u}
    case Source(b, u) => Open(g, b) - {u}
    case Best(b, u) => Open(g, b) - {u}
  }

  ghost function Front(t: Trace): seq<Transfer> {
    match t
    case Start => []
    case Sink(b, _) => Front(b)
    case Source(b, u) => Front(b) + [u]
    case Best(b, u) => Front(b) + [u]
  }

  ghost function Back(t: Trace): seq<Transfer> {
    match t
    case Start => []
    case Sink(b, u) => [u] + Back(b)
    case Source(b, _) => Back(b)
    case Best(b, _) => Back(b)
  }

  /** What putting a vertex before all other open ones saves. */
  ghost function Balance(g: Graph, open: set<Transfer>, x: Transfer): int
    requires x in g.out && x in g.inn
  {
    Sum(Keep(g.out[x], open)) - Sum(Keep(g.inn[x], open))
  }

  /** Vertices that no open one has to come after go to the back; when there are none, those that no open one has to come
      before go to the front; when there are none of these either, a vertex of the highest balance goes to the front. */
  ghost predicate Chosen(g: Graph, t: Trace) {
    match t
    case Start => true
    case Sink(b, u) => Chosen(g, b) && AllEmpty({u}, g.out, Open(g, b)) && u in Open(g, b)
    case Source(b, u) =>
      Chosen(g, b) && AllEmpty({u}, g.inn, Open(g, b)) && u in Open(g, b) && AllKnown({}, g.out, Open(g, b))
    case Best(b, u) =>
      && Chosen(g, b) && u in Open(g, b) && AllKnown({}, g.out, Open(g, b)) && AllKnown({}, g.inn, Open(g, b))
      && u in g.out && u in g.inn
      && forall v :: v in Open(g, b) && v in g.out && v in g.inn ==> Balance(g, Open(g, b), v) <= Balance(g, Open(g, b), u)
  }

  ghost predicate Traced(g: Graph, t: Trace, rest: set<Transfer>, s1: seq<Transfer>, s2: seq<Transfer>) {
    Chosen(g, t) && Open(g, t) == rest && Front(t) == s1 && Back(t) == s2
  }

  lemma TracedSink(g: Graph, t: Trace, rest: set<Transfer>, s1: seq<Transfer>, s2: seq<Transfer>, u: Transfer)
    requires Traced(g, t, rest, s1, s2) && u in rest && u in g.out && Keep(g.out[u], rest) == map[]
    ensures Traced(g, Sink(t, u), rest - {u}, s1, [u] + s2)
  {
    hide Balance, AllKnown, Keep;
  }

  lemma TracedSource(g: Graph, t: Trace, rest: set<Transfer>, s1: seq<Transfer>, s2: seq<Transfer>, u: Transfer)
    requires Traced(g, t, rest, s1, s2) && u in rest && u in g.inn && Keep(g.inn[u], rest) == map[] && AllKnown({}, g.out, rest)
    ensures Traced(g, Source(t, u), rest - {u}, s1 + [u], s2)
  {
    hide Balance, AllKnown, Keep;
  }

  lemma TracedBest(g: Graph, t: Trace, rest: set<Transfer>, s1: seq<Transfer>, s2: seq<Transfer>, u: Transfer)
    requires Traced(g, t, rest, s1, s2) && u in rest && AllKnown({}, g.out, rest) && AllKnown({}, g.inn, rest)
    requires rest <= g.out.Keys && rest <= g.inn.Keys
    requires forall v :: v in rest ==> Balance(g, rest, v) <= Balance(g, rest, u)
    ensures Traced(g, Best(t, u), rest - {u}, s1 + [u], s2)
  {
    hide Balance, AllKnown;
  }

  lemma NoneNewAgain(edges: map<Transfer, map<Transfer, nat>>, a: set<Transfer>, b: set<Transfer>, c: set<Transfer>)
    requires NoneNew(edges, a, b) && NoneNew(edges, b, c)
    ensures NoneNew(edges, a, c)
  {
  }

  lemma NoneNewSame(edges: map<Transfer, map<Transfer, nat>>, rest: set<Transfer>)
    ensures NoneNew(edges, rest, rest)
  {
  }

  lemma StillKnown(known: set<Transfer>, edges: map<Transfer, map<Transfer, nat>>, rest: set<Transfer>, less: set<Transfer>)
    requires AllKnown(known, edges, rest) && NoneNew(edges, rest, less)
    ensures AllKnown(known, edges, less)
  {
  }

  /** One of the known vertices is dealt with. */
  lemma TakeKnown(todo: set<Transfer>, more: set<Transfer>, u: Transfer, edges: map<Transfer, map<Transfer, nat>>,
                  rest: set<Transfer>)
    requires AllEmpty(todo + more, edges, rest) && AllKnown(todo + more, edges, rest) && u in todo
    ensures u in edges && Keep(edges[u], rest) == map[]
    ensures AllEmpty(todo - {u} + more, edges, rest) && AllKnown(todo - {u} + more + {u}, edges, rest)
    ensures u !in rest ==> AllKnown(todo - {u} + more, edges, rest)
  {
  }

  /** All open vertices that have just lost their last neighbour on that side are known. */
  ghost predicate AllNewKnown(known: set<Transfer>, edges: map<Transfer, map<Transfer, nat>>, rest: set<Transfer>, less: set<Transfer>) {
    forall x :: x in less && x in edges && Keep(edges[x], less) == map[] ==> x in known || Keep(edges[x], rest) == map[]
  }

  lemma NewKnown(known: set<Transfer>, edges: map<Transfer, map<Transfer, nat>>, rest: set<Transfer>, xs: set<Transfer>, u: Transfer,
                 near: set<Transfer>, o: map<Transfer, map<Transfer, nat>>)
    requires u in rest && xs == rest - {u} && xs <= o.Keys && xs <= edges.Keys && forall x :: x in xs ==> o[x] == Keep(edges[x], xs)
    requires forall x :: x in near && x in o && o[x] == map[] ==> x in known
    requires forall x :: x in known ==> x in xs && o[x] == map[]
    requires forall x :: x in xs && x !in near ==> u !in edges[x]
    ensures AllNewKnown(known, edges, rest, xs) && AllEmpty(known, edges, xs)
  {
    hide Keep;
    forall x | x in xs && Keep(edges[x], xs) == map[] && x !in near ensures Keep(edges[x], rest) == map[] {
      KeepWithout(edges[x], rest, u);
    }
  }

  lemma KeepWithout(m: map<Transfer, nat>, rest: set<Transfer>, u: Transfer)
    requires u in rest
    ensures u !in m ==> Keep(m, rest - {u}) == Keep(m, rest)
    ensures u in m ==>
      && u in Keep(m, rest)
      && Keep(m, rest - {u}) == Keep(m, rest) - {u}
      && Sum(Keep(m, rest - {u})) == Sum(Keep(m, rest)) - m[u]
  {
    if u in m {
      SumRemove(Keep(m, rest), u);
      assert Keep(m, rest - {u}) == Keep(m, rest) - {u};
    } else {
      KeepSame(m, rest - {u}, rest);
    }
  }

  ghost function RowsOf(edges: map<Transfer, map<Transfer, nat>>, xs: set<Transfer>): map<Transfer, map<Transfer, nat>>
    requires xs <= edges.Keys
  {
    map x | x in xs :: Keep(edges[x], xs)
  }

  ghost function ScoresOf(g: Graph, xs: set<Transfer>, so: set<Transfer>, si: set<Transfer>): map<Transfer, int>
    requires xs <= g.out.Keys && xs <= g.inn.Keys
  {
    map x | x in xs :: Sum(Keep(g.out[x], so)) - Sum(Keep(g.inn[x], si))
  }

  lemma HoldsNow(xs: set<Transfer>, g: Graph, so: set<Transfer>, si: set<Transfer>)
    requires xs <= g.out.Keys && xs <= g.inn.Keys
    requires forall x :: x in xs ==> x.outgoing == Keep(g.out[x], so) && x.incoming == Keep(g.inn[x], si)
    requires forall x :: x in xs ==> x.score == ScoresOf(g, xs, so, si)[x]
    ensures Holds(xs, g, so, si)
  {
  }

  /** What every open vertex has to end up with once `u` is gone. */
  lemma DetachOutgoingStart(u: Transfer, g: Graph, rest: set<Transfer>, xs: set<Transfer>, si: set<Transfer>)
    requires Consistent(g) && u in rest && rest <= g.out.Keys && xs == rest - {u}
    requires u.incoming == Keep(g.inn[u], rest) && Holds(xs, g, rest, si)
    ensures forall x :: x in xs ==> x.incoming == Keep(g.inn[x], si)
    ensures u.incoming.Keys <= xs && forall x :: x in xs && x !in u.incoming ==> u !in g.out[x]
    ensures xs <= RowsOf(g.out, xs).Keys && xs <= ScoresOf(g, xs, xs, si).Keys
    ensures var o, s := RowsOf(g.out, xs), ScoresOf(g, xs, xs, si);
            && (forall x :: x in u.incoming ==> u in x.outgoing && x.outgoing - {u} == o[x] && x.score - x.outgoing[u] == s[x])
            && (forall x :: x in xs && x !in u.incoming ==> x.outgoing == o[x] && x.score == s[x])
    ensures forall x :: x in xs ==> RowsOf(g.out, xs)[x] == Keep(g.out[x], xs)
  {
    hide Sum;
    forall x | x in xs
      ensures x in u.incoming ==> u in x.outgoing && x.outgoing - {u} == Keep(g.out[x], xs)
      ensures x !in u.incoming ==> x.outgoing == Keep(g.out[x], xs) && u !in g.out[x]
      ensures Sum(Keep(g.out[x], xs)) == Sum(x.outgoing) - (if x in u.incoming then x.outgoing[u] else 0)
    {
      KeepWithout(g.out[x], rest, u);
    }
  }

  method DetachOutgoing(u: Transfer, heap: set<HeapItem>, ghost g: Graph,
                        ghost rest: set<Transfer>, ghost xs: set<Transfer>, ghost si: set<Transfer>)
    returns (heap': set<HeapItem>, sinks: set<Transfer>)
    requires Consistent(g) && u in rest && rest <= g.out.Keys && xs == rest - {u}
    requires u.incoming == Keep(g.inn[u], rest)
    requires Holds(xs, g, rest, si) && Queued(xs, heap)
    modifies xs`outgoing, xs`score, xs`heapItem, heap`item
    ensures Holds(xs, g, xs, si) && Queued(xs, heap') && (forall h :: h in heap' ==> h in heap || fresh(h))
    ensures AllEmpty(sinks, g.out, xs)
    ensures AllNewKnown(sinks, g.out, rest, xs)
  {
    hide Sum, Keep, Holds, Queued, AllNewKnown, AllEmpty, RowsOf, ScoresOf, Mirrored, Loopless;
    ghost var o, s := RowsOf(g.out, xs), ScoresOf(g, xs, xs, si);
    DetachOutgoingStart(u, g, rest, xs, si);
    heap', sinks := DropFromOutgoing(u, u.incoming.Keys, heap, xs, o, s);
    NewKnown(sinks, g.out, rest, xs, u, u.incoming.Keys, o);
    HoldsNow(xs, g, xs, si);
  }

  /** What every open vertex has to end up with once `u` is gone. */
  lemma DetachIncomingStart(u: Transfer, g: Graph, rest: set<Transfer>, xs: set<Transfer>, so: set<Transfer>)
    requires Consistent(g) && u in rest && rest <= g.out.Keys && xs == rest - {u}
    requires u.outgoing == Keep(g.out[u], rest) && Holds(xs, g, so, rest)
    ensures forall x :: x in xs ==> x.outgoing == Keep(g.out[x], so)
    ensures u.outgoing.Keys <= xs && forall x :: x in xs && x !in u.outgoing ==> u !in g.inn[x]
    ensures xs <= RowsOf(g.inn, xs).Keys && xs <= ScoresOf(g, xs, so, xs).Keys
    ensures var o, s := RowsOf(g.inn, xs), ScoresOf(g, xs, so, xs);
            && (forall x :: x in u.outgoing ==> u in x.incoming && x.incoming - {u} == o[x] && x.score + x.incoming[u] == s[x])
            && (forall x :: x in xs && x !in u.outgoing ==> x.incoming == o[x] && x.score == s[x])
    ensures forall x :: x in xs ==> RowsOf(g.inn, xs)[x] == Keep(g.inn[x], xs)
  {
    hide Sum;
    forall x | x in xs
      ensures x in u.outgoing ==> u in x.incoming && x.incoming - {u} == Keep(g.inn[x], xs)
      ensures x !in u.outgoing ==> x.incoming == Keep(g.inn[x], xs) && u !in g.inn[x]
      ensures Sum(Keep(g.inn[x], xs)) == Sum(x.incoming) - (if x in u.outgoing then x.incoming[u] else 0)
    {
      KeepWithout(g.inn[x], rest, u);
    }
  }

  method DetachIncoming(u: Transfer, heap: set<HeapItem>, ghost g: Graph,
                        ghost rest: set<Transfer>, ghost xs: set<Transfer>, ghost so: set<Transfer>)
    returns (heap': set<HeapItem>, sources: set<Transfer>)
    requires Consistent(g) && u in rest && rest <= g.out.Keys && xs == rest - {u}
    requires u.outgoing == Keep(g.out[u], rest)
    requires Holds(xs, g, so, rest) && Queued(xs, heap)
    modifies xs`incoming, xs`score, xs`heapItem, heap`item
    ensures Holds(xs, g, so, xs) && Queued(xs, heap') && (forall h :: h in heap' ==> h in heap || fresh(h))
    ensures AllEmpty(sources, g.inn, xs)
    ensures AllNewKnown(sources, g.inn, rest, xs)
  {
    hide Sum, Keep, Holds, Queued, AllNewKnown, AllEmpty, RowsOf, ScoresOf, Mirrored, Loopless;
    ghost var o, s := RowsOf(g.inn, xs), ScoresOf(g, xs, so, xs);
    DetachIncomingStart(u, g, rest, xs, so);
    heap', sources := DropFromIncoming(u, u.outgoing.Keys, heap, xs, o, s);
    NewKnown(sources, g.inn, rest, xs, u, u.outgoing.Keys, o);
    HoldsNow(xs, g, so, xs);
  }

  /** What the main loop keeps: the order grown so far, the working copies and the queue. */
  ghost predicate State(g: Graph, rest: set<Transfer>, s1: seq<Transfer>, s2: seq<Transfer>, heap: set<HeapItem>)
    reads rest, heap
  {
    && Progress(g, rest, s1, s2)
    && Holds(rest, g, rest, rest)
    && Queued(rest, heap)
  }

  lemma NoSuccessor(g: Graph, rest: set<Transfer>, u: Transfer, x: Transfer)
    requires Consistent(g) && u in rest && u in g.out && x in rest && x in g.inn
    requires Keep(g.out[u], rest) == map[]
    ensures Keep(g.inn[x], rest - {u}) == Keep(g.inn[x], rest)
  {
    assert x !in Keep(g.out[u], rest);
    KeepWithout(g.inn[x], rest, u);
  }

  lemma NoPredecessor(g: Graph, rest: set<Transfer>, u: Transfer, x: Transfer)
    requires Consistent(g) && u in rest && u in g.inn && x in rest && x in g.out
    requires Keep(g.inn[u], rest) == map[]
    ensures Keep(g.out[x], rest - {u}) == Keep(g.out[x], rest)
  {
    assert x !in Keep(g.inn[u], rest);
    KeepWithout(g.out[x], rest, u);
  }

  lemma EmptyAfter(xs: set<Transfer>, edges: map<Transfer, map<Transfer, nat>>, rest: set<Transfer>, less: set<Transfer>)
    requires AllEmpty(xs, edges, rest) && less <= rest
    ensures AllEmpty(xs, edges, less)
  {
    forall x | x in xs ensures Keep(edges[x], less) == map[] {
      assert Keep(edges[x], less).Keys <= Keep(edges[x], rest).Keys;
    }
  }

  lemma SinkPlaced(g: Graph, rest: set<Transfer>, u: Transfer, known: set<Transfer>, sinks: set<Transfer>)
    requires Consistent(g) && u in rest && rest <= g.out.Keys && Keep(g.out[u], rest) == map[]
    requires AllKnown(known + {u}, g.out, rest)
    requires AllNewKnown(sinks, g.out, rest, rest - {u})
    ensures AllKnown(known + sinks, g.out, rest - {u}) && NoneNew(g.inn, rest, rest - {u})
    ensures forall x :: x in rest - {u} ==> Keep(g.inn[x], rest - {u}) == Keep(g.inn[x], rest)
  {
    hide Keep;
    forall x | x in rest - {u} ensures Keep(g.inn[x], rest - {u}) == Keep(g.inn[x], rest) {
      NoSuccessor(g, rest, u, x);
    }
  }

  lemma SourcePlaced(g: Graph, rest: set<Transfer>, u: Transfer, known: set<Transfer>, sources: set<Transfer>)
    requires Consistent(g) && u in rest && rest <= g.out.Keys && Keep(g.inn[u], rest) == map[]
    requires AllKnown(known + {u}, g.inn, rest)
    requires AllNewKnown(sources, g.inn, rest, rest - {u})
    ensures AllKnown(known + sources, g.inn, rest - {u}) && NoneNew(g.out, rest, rest - {u})
    ensures forall x :: x in rest - {u} ==> Keep(g.out[x], rest - {u}) == Keep(g.out[x], rest)
  {
    hide Keep;
    forall x | x in rest - {u} ensures Keep(g.out[x], rest - {u}) == Keep(g.out[x], rest) {
      NoPredecessor(g, rest, u, x);
    }
  }

  /** A sink at the back or a source at the front keeps everything forward. */
  lemma GrownForward(g: Graph, rest: set<Transfer>, s1: seq<Transfer>, s2: seq<Transfer>, u: Transfer)
    requires Progress(g, rest, s1, s2) && u in rest && u in g.out && u in g.inn
    ensures Forward(g.inn, rest, s1, s2) ==> Forward(g.inn, rest - {u}, s1, [u] + s2)
    ensures Forward(g.inn, rest, s1, s2) && Keep(g.inn[u], rest) == map[] ==> Forward(g.inn, rest - {u}, s1 + [u], s2)
  {
    hide Forward, Paid, Backward, Keep;
    if Forward(g.inn, rest, s1, s2) {
      ForwardLast(g, rest, s1, s2, u);
      if Keep(g.inn[u], rest) == map[] {
        ForwardNext(g, rest, s1, s2, u);
      }
    }
  }

  method PlaceSink(u: Transfer, rest: set<Transfer>, heap: set<HeapItem>, s2: seq<Transfer>,
                   ghost g: Graph, ghost s1: seq<Transfer>, ghost known: set<Transfer>)
    returns (heap': set<HeapItem>, sinks: set<Transfer>)
    requires State(g, rest, s1, s2, heap) && u in rest && Keep(g.out[u], rest) == map[]
    requires AllEmpty(known, g.out, rest) && AllKnown(known + {u}, g.out, rest)
    modifies rest`outgoing, rest`score, rest`heapItem, heap`item
    ensures State(g, rest - {u}, s1, [u] + s2, heap') && (forall h :: h in heap' ==> h in heap || fresh(h))
    ensures AllEmpty(known + sinks, g.out, rest - {u}) && AllKnown(known + sinks, g.out, rest - {u})
    ensures NoneNew(g.inn, rest, rest - {u})
    ensures Forward(g.inn, rest, s1, s2) ==> Forward(g.inn, rest - {u}, s1, [u] + s2)
  {
    hide AllKnown, NoneNew, Forward, Backward, Paid, Keep, Sum;
    ghost var xs := rest - {u};
    EmptyAfter(known, g.out, rest, xs);
    GrownForward(g, rest, s1, s2, u);
    PutLast(g, rest, s1, s2, u);
    heap', sinks := DetachOutgoing(u, heap, g, rest, xs, rest);
    SinkPlaced(g, rest, u, known, sinks);
  }

  method PlaceSource(u: Transfer, rest: set<Transfer>, heap: set<HeapItem>, s1: seq<Transfer>,
                     ghost g: Graph, ghost s2: seq<Transfer>, ghost known: set<Transfer>)
    returns (heap': set<HeapItem>, sources: set<Transfer>)
    requires State(g, rest, s1, s2, heap) && u in rest && Keep(g.inn[u], rest) == map[]
    requires AllEmpty(known, g.inn, rest) && AllKnown(known + {u}, g.inn, rest)
    modifies rest`incoming, rest`score, rest`heapItem, heap`item
    ensures State(g, rest - {u}, s1 + [u], s2, heap') && (forall h :: h in heap' ==> h in heap || fresh(h))
    ensures AllEmpty(known + sources, g.inn, rest - {u}) && AllKnown(known + sources, g.inn, rest - {u})
    ensures NoneNew(g.out, rest, rest - {u})
    ensures Forward(g.inn, rest, s1, s2) ==> Forward(g.inn, rest - {u}, s1 + [u], s2)
  {
    hide AllKnown, NoneNew, Forward, Backward, Paid, Keep;
    ghost var xs := rest - {u};
    EmptyAfter(known, g.inn, rest, xs);
    GrownForward(g, rest, s1, s2, u);
    PutNext(g, rest, s1, s2, u);
    heap', sources := DetachIncoming(u, heap, g, rest, xs, rest);
    SourcePlaced(g, rest, u, known, sources);
  }

  /** One round over the known sinks; some of their predecessors become sinks. */
  method PlaceSinks(sinks: set<Transfer>, rest: set<Transfer>, heap: set<HeapItem>, s2: seq<Transfer>,
                    ghost g: Graph, ghost s1: seq<Transfer>, ghost t: Trace)
    returns (rest': set<Transfer>, heap': set<HeapItem>, s2': seq<Transfer>, more: set<Transfer>, ghost t': Trace)
    requires State(g, rest, s1, s2, heap) && AllEmpty(sinks, g.out, rest) && AllKnown(sinks, g.out, rest)
    requires Traced(g, t, rest, s1, s2)
    modifies rest`outgoing, rest`score, rest`heapItem, heap`item
    ensures State(g, rest', s1, s2', heap') && (forall h :: h in heap' ==> h in heap || fresh(h))
    ensures AllEmpty(more, g.out, rest') && AllKnown(more, g.out, rest')
    ensures rest' <= rest && (more != {} ==> rest' != rest)
    ensures NoneNew(g.inn, rest, rest') && Traced(g, t', rest', s1, s2')
    ensures Forward(g.inn, rest, s1, s2) ==> Forward(g.inn, rest', s1, s2')
  {
    hide State, AllEmpty, AllKnown, NoneNew, Forward, Keep, Traced;
    NoneNewSame(g.inn, rest);
    rest', heap', s2', more, t' := rest, heap, s2, {}, t;
    var todo := sinks;
    assert todo + more == sinks;
    while todo != {}
      invariant State(g, rest', s1, s2', heap') && (forall h :: h in heap' ==> h in heap || fresh(h))
      invariant AllEmpty(todo + more, g.out, rest') && AllKnown(todo + more, g.out, rest')
      invariant rest' <= rest && (more != {} ==> rest' != rest)
      invariant NoneNew(g.inn, rest, rest') && Traced(g, t', rest', s1, s2')
      invariant Forward(g.inn, rest, s1, s2) ==> Forward(g.inn, rest', s1, s2')
    {
      var u :| u in todo;
      TakeKnown(todo, more, u, g.out, rest');
      todo := todo - {u};
      if u in rest' {
        var newSinks;
        heap', newSinks := PlaceSink(u, rest', heap', s2', g, s1, todo + more);
        NoneNewAgain(g.inn, rest, rest', rest' - {u});
        TracedSink(g, t', rest', s1, s2', u);
        t' := Sink(t', u);
        assert todo + more + newSinks == todo + (more + newSinks);
        rest', s2', more := rest' - {u}, [u] + s2', more + newSinks;
      }
    }
    assert todo + more == more;
  }

  /** One round over the known sources; some of their successors become sources. */
  method PlaceSources(sources: set<Transfer>, rest: set<Transfer>, heap: set<HeapItem>, s1: seq<Transfer>,
                      ghost g: Graph, ghost s2: seq<Transfer>, ghost t: Trace)
    returns (rest': set<Transfer>, heap': set<HeapItem>, s1': seq<Transfer>, more: set<Transfer>, ghost t': Trace)
    requires State(g, rest, s1, s2, heap) && AllEmpty(sources, g.inn, rest) && AllKnown(sources, g.inn, rest)
    requires Traced(g, t, rest, s1, s2) && AllKnown({}, g.out, rest)
    modifies rest`incoming, rest`score, rest`heapItem, heap`item
    ensures State(g, rest', s1', s2, heap') && (forall h :: h in heap' ==> h in heap || fresh(h))
    ensures AllEmpty(more, g.inn, rest') && AllKnown(more, g.inn, rest')
    ensures rest' <= rest && (more != {} ==> rest' != rest)
    ensures NoneNew(g.out, rest, rest') && Traced(g, t', rest', s1', s2)
    ensures Forward(g.inn, rest, s1, s2) ==> Forward(g.inn, rest', s1', s2)
  {
    hide State, AllEmpty, AllKnown, NoneNew, Forward, Keep, Traced;
    NoneNewSame(g.out, rest);
    rest', heap', s1', more, t' := rest, heap, s1, {}, t;
    var todo := sources;
    assert todo + more == sources;
    while todo != {}
      invariant State(g, rest', s1', s2, heap') && (forall h :: h in heap' ==> h in heap || fresh(h))
      invariant AllEmpty(todo + more, g.inn, rest') && AllKnown(todo + more, g.inn, rest')
      invariant rest' <= rest && (more != {} ==> rest' != rest)
      invariant NoneNew(g.out, rest, rest') && Traced(g, t', rest', s1', s2)
      invariant Forward(g.inn, rest, s1, s2) ==> Forward(g.inn, rest', s1', s2)
    {
      var u :| u in todo;
      TakeKnown(todo, more, u, g.inn, rest');
      todo := todo - {u};
      if u in rest' {
        var newSources;
        heap', newSources := PlaceSource(u, rest', heap', s1', g, s2, todo + more);
        StillKnown({}, g.out, rest, rest');
        NoneNewAgain(g.out, rest, rest', rest' - {u});
        TracedSource(g, t', rest', s1', s2, u);
        t' := Source(t', u);
        assert todo + more + newSources == todo + (more + newSources);
        rest', s1', more := rest' - {u}, s1' + [u], more + newSources;
      }
    }
    assert todo + more == more;
  }

  method DrainSinks(sinks: set<Transfer>, rest: set<Transfer>, heap: set<HeapItem>, s2: seq<Transfer>,
                    ghost g: Graph, ghost s1: seq<Transfer>, ghost t: Trace)
    returns (rest': set<Transfer>, heap': set<HeapItem>, s2': seq<Transfer>, ghost t': Trace)
    requires State(g, rest, s1, s2, heap) && AllEmpty(sinks, g.out, rest) && AllKnown(sinks, g.out, rest)
    requires Traced(g, t, rest, s1, s2)
    modifies rest`outgoing, rest`score, rest`heapItem, heap`item
    ensures State(g, rest', s1, s2', heap') && (forall h :: h in heap' ==> h in heap || fresh(h))
    ensures rest' <= rest && AllKnown({}, g.out, rest')
    ensures NoneNew(g.inn, rest, rest') && Traced(g, t', rest', s1, s2')
    ensures Forward(g.inn, rest, s1, s2) ==> Forward(g.inn, rest', s1, s2')
  {
    hide State, AllEmpty, AllKnown, NoneNew, Forward, Traced;
    NoneNewSame(g.inn, rest);
    rest', heap', s2', t' := rest, heap, s2, t;
    var known := sinks;
    while known != {}
      invariant State(g, rest', s1, s2', heap') && (forall h :: h in heap' ==> h in heap || fresh(h))
      invariant AllEmpty(known, g.out, rest') && AllKnown(known, g.out, rest') && rest' <= rest
      invariant NoneNew(g.inn, rest, rest') && Traced(g, t', rest', s1, s2')
      invariant Forward(g.inn, rest, s1, s2) ==> Forward(g.inn, rest', s1, s2')
      decreases rest', known != {}
    {
      ghost var before := rest';
      rest', heap', s2', known, t' := PlaceSinks(known, rest', heap', s2', g, s1, t');
      NoneNewAgain(g.inn, rest, before, rest');
    }
  }

  method DrainSources(sources: set<Transfer>, rest: set<Transfer>, heap: set<HeapItem>, s1: seq<Transfer>,
                      ghost g: Graph, ghost s2: seq<Transfer>, ghost t: Trace)
    returns (rest': set<Transfer>, heap': set<HeapItem>, s1': seq<Transfer>, ghost t': Trace)
    requires State(g, rest, s1, s2, heap) && AllEmpty(sources, g.inn, rest) && AllKnown(sources, g.inn, rest)
    requires Traced(g, t, rest, s1, s2) && AllKnown({}, g.out, rest)
    modifies rest`incoming, rest`score, rest`heapItem, heap`item
    ensures State(g, rest', s1', s2, heap') && (forall h :: h in heap' ==> h in heap || fresh(h))
    ensures rest' <= rest && AllKnown({}, g.inn, rest')
    ensures NoneNew(g.out, rest, rest') && Traced(g, t', rest', s1', s2)
    ensures Forward(g.inn, rest, s1, s2) ==> Forward(g.inn, rest', s1', s2)
  {
    hide State, AllEmpty, AllKnown, NoneNew, Forward, Traced;
    NoneNewSame(g.out, rest);
    rest', heap', s1', t' := rest, heap, s1, t;
    var known := sources;
    while known != {}
      invariant State(g, rest', s1', s2, heap') && (forall h :: h in heap' ==> h in heap || fresh(h))
      invariant AllEmpty(known, g.inn, rest') && AllKnown(known, g.inn, rest') && rest' <= rest
      invariant NoneNew(g.out, rest, rest') && Traced(g, t', rest', s1', s2)
      invariant Forward(g.inn, rest, s1, s2) ==> Forward(g.inn, rest', s1', s2)
      decreases rest', known != {}
    {
      ghost var before := rest';
      StillKnown({}, g.out, rest, rest');
      rest', heap', s1', known, t' := PlaceSources(known, rest', heap', s1', g, s2, t');
      NoneNewAgain(g.out, rest, before, rest');
    }
  }

  /** Removes an entry with the lowest score; ties fall either way. */
  method HeapPop(heap: set<HeapItem>) returns (h: HeapItem, heap': set<HeapItem>)
    requires heap != {}
    ensures h in heap && heap' == heap - {h}
    ensures forall k :: k in heap ==> h.score <= k.score
  {
    h :| h in heap;
    var todo := heap - {h};
    while todo != {}
      invariant h in heap && todo <= heap
      invariant forall k :: k in heap && k !in todo ==> h.score <= k.score
    {
      var k :| k in todo;
      if k.score < h.score {
        h := k;
      }
      todo := todo - {k};
    }
    heap' := heap - {h};
  }

  /** Pops until an entry of an open vertex comes up: a vertex of the highest score. */
  method PopBest(rest: set<Transfer>, heap: set<HeapItem>) returns (u: Transfer, heap': set<HeapItem>)
    requires rest != {} && Queued(rest, heap)
    ensures u in rest && forall v :: v in rest ==> v.score <= u.score
    ensures heap' <= heap && Queued(rest - {u}, heap')
  {
    heap' := heap;
    ghost var some :| some in rest;
    while true
      invariant heap' <= heap && Queued(rest, heap')
      decreases heap'
    {
      assert some.heapItem in heap';
      var h;
      h, heap' := HeapPop(heap');
      if h.item != null && h.item in rest {
        u := h.item;
        break;
      }
    }
  }

  lemma BestPaysOff(u: Transfer, rest: set<Transfer>, g: Graph)
    requires Consistent(g) && u in rest && rest <= g.out.Keys && Holds(rest, g, rest, rest)
    requires forall v :: v in rest ==> v.score <= u.score
    ensures Sum(Keep(g.inn[u], rest)) <= Sum(Keep(g.out[u], rest))
  {
    var r := Restrict(g, rest);
    RestrictConsistent(g, rest);
    forall v | v in r.out ensures Score(r, v) <= Score(r, u) {
      assert Score(r, v) == v.score;
    }
    BestScore(r, u);
  }

  /** No sink or source is known: the vertex with the best balance goes next. */
  method PlaceBest(u: Transfer, rest: set<Transfer>, heap: set<HeapItem>, s1: seq<Transfer>,
                   ghost g: Graph, ghost s2: seq<Transfer>)
    returns (heap': set<HeapItem>, sources: set<Transfer>, sinks: set<Transfer>)
    requires Progress(g, rest, s1, s2) && Holds(rest, g, rest, rest) && u in rest
    requires Queued(rest - {u}, heap)
    requires forall v :: v in rest ==> v.score <= u.score
    modifies rest`incoming, rest`outgoing, rest`score, rest`heapItem, heap`item
    ensures State(g, rest - {u}, s1 + [u], s2, heap') && (forall h :: h in heap' ==> h in heap || fresh(h))
    ensures AllEmpty(sources, g.inn, rest - {u}) && AllEmpty(sinks, g.out, rest - {u})
    ensures AllKnown({}, g.inn, rest) ==> AllKnown(sources, g.inn, rest - {u})
    ensures AllKnown({}, g.out, rest) ==> AllKnown(sinks, g.out, rest - {u})
  {
    ghost var xs := rest - {u};
    BestPaysOff(u, rest, g);
    PutNext(g, rest, s1, s2, u);
    heap', sources := DetachIncoming(u, heap, g, rest, xs, rest);
    heap', sinks := DetachOutgoing(u, heap', g, rest, xs, xs);
  }

  method CopyEdges(transfers: seq<Transfer>)
    modifies Members(transfers)`incoming, Members(transfers)`outgoing, Members(transfers)`score
    ensures forall x :: x in Members(transfers) ==>
      && x.outgoing == x.goesBefore && x.incoming == x.goesAfter
      && x.score == Sum(x.goesBefore) - Sum(x.goesAfter)
  {
    ghost var done: set<Transfer> := {};
    for n := 0 to |transfers|
      invariant done == Members(transfers[..n])
      invariant forall x :: x in done ==>
        && x.outgoing == x.goesBefore && x.incoming == x.goesAfter
        && x.score == Sum(x.goesBefore) - Sum(x.goesAfter)
    {
      var xf := transfers[n];
      assert xf in Members(transfers);
      xf.incoming := xf.goesAfter;
      xf.outgoing := xf.goesBefore;
      var plus: int := SumValues(xf.outgoing);
      var minus: int := SumValues(xf.incoming);
      xf.score := plus - minus;
      TakeOne(transfers, n);
      done := done + {xf};
    }
    assert transfers[..|transfers|] == transfers;
  }

  method Enqueue(xf: Transfer, heap: set<HeapItem>, ghost done: set<Transfer>) returns (heap': set<HeapItem>)
    requires xf !in done && Queued(done, heap) && forall h :: h in heap ==> h.item in done
    modifies xf`heapItem
    ensures xf.heapItem != null && fresh(xf.heapItem) && heap' == heap + {xf.heapItem}
    ensures Queued(done + {xf}, heap') && forall h :: h in heap' ==> h.item in done + {xf}
  {
    xf.heapItem := new HeapItem(xf);
    heap' := heap + {xf.heapItem};
  }

  method BuildHeap(transfers: seq<Transfer>) returns (heap: set<HeapItem>)
    requires Distinct(transfers)
    modifies Members(transfers)`heapItem
    ensures Queued(Members(transfers), heap) && (forall h :: h in heap ==> fresh(h))
  {
    heap := {};
    ghost var done: set<Transfer> := {};
    for n := 0 to |transfers|
      invariant done == Members(transfers[..n])
      invariant Queued(done, heap)
      invariant forall h :: h in heap ==> h.item in done
      invariant forall h :: h in heap ==> fresh(h)
    {
      var xf := transfers[n];
      assert xf in Members(transfers) && xf !in done;
      heap := Enqueue(xf, heap, done);
      TakeOne(transfers, n);
      done := done + {xf};
    }
    assert transfers[..|transfers|] == transfers;
  }

  lemma Whole(g: Graph, x: Transfer)
    requires Consistent(g) && x in g.out
    ensures Keep(g.out[x], g.out.Keys) == g.out[x] && Keep(g.inn[x], g.out.Keys) == g.inn[x]
  {
    KeepAll(g.out[x], g.out.Keys);
    KeepAll(g.inn[x], g.out.Keys);
  }

  lemma AllOpen(g: Graph)
    requires Consistent(g)
    requires forall x :: x in g.out ==>
      && x.outgoing == g.out[x] && x.incoming == g.inn[x]
      && x.score == Sum(g.out[x]) - Sum(g.inn[x])
    ensures Holds(g.out.Keys, g, g.out.Keys, g.out.Keys)
  {
    forall x | x in g.out.Keys
      ensures x.outgoing == Keep(g.out[x], g.out.Keys) && x.incoming == Keep(g.inn[x], g.out.Keys)
      ensures x.score == Sum(Keep(g.out[x], g.out.Keys)) - Sum(Keep(g.inn[x], g.out.Keys))
    {
      Whole(g, x);
    }
  }

  method RecordOrder(transfers: seq<Transfer>)
    requires Distinct(transfers)
    modifies Members(transfers)`order
    ensures forall i :: 0 <= i < |transfers| ==> transfers[i].order == i
  {
    for n := 0 to |transfers|
      invariant forall i :: 0 <= i < n ==> transfers[i].order == i
    {
      assert transfers[n] in Members(transfers);
      transfers[n].order := n;
    }
  }

  method TakeBest(rest: set<Transfer>, heap: set<HeapItem>, s1: seq<Transfer>,
                  ghost g: Graph, ghost s2: seq<Transfer>)
    returns (u: Transfer, heap': set<HeapItem>, sources: set<Transfer>, sinks: set<Transfer>)
    requires State(g, rest, s1, s2, heap) && rest != {}
    modifies rest`incoming, rest`outgoing, rest`score, rest`heapItem, heap`item
    ensures u in rest && State(g, rest - {u}, s1 + [u], s2, heap') && rest <= g.out.Keys && rest <= g.inn.Keys
    ensures forall v :: v in rest ==> Balance(g, rest, v) <= Balance(g, rest, u)
    ensures forall h :: h in heap' ==> h in heap || fresh(h)
    ensures AllEmpty(sources, g.inn, rest - {u}) && AllEmpty(sinks, g.out, rest - {u})
    ensures AllKnown({}, g.inn, rest) ==> AllKnown(sources, g.inn, rest - {u})
    ensures AllKnown({}, g.out, rest) ==> AllKnown(sinks, g.out, rest - {u})
  {
    u, heap' := PopBest(rest, heap);
    assert forall v :: v in rest ==> v.score == Balance(g, rest, v);
    heap', sources, sinks := PlaceBest(u, rest, heap', s1, g, s2);
  }

  method Drain(sinks: set<Transfer>, sources: set<Transfer>, rest: set<Transfer>, heap: set<HeapItem>,
               s1: seq<Transfer>, s2: seq<Transfer>, ghost g: Graph, ghost t: Trace)
    returns (rest': set<Transfer>, heap': set<HeapItem>, s1': seq<Transfer>, s2': seq<Transfer>, ghost t': Trace)
    requires State(g, rest, s1, s2, heap) && AllEmpty(sinks, g.out, rest) && AllEmpty(sources, g.inn, rest)
    requires AllKnown(sinks, g.out, rest) && AllKnown(sources, g.inn, rest) && Traced(g, t, rest, s1, s2)
    modifies rest`incoming, rest`outgoing, rest`score, rest`heapItem, heap`item
    ensures State(g, rest', s1', s2', heap') && (forall h :: h in heap' ==> h in heap || fresh(h))
    ensures rest' <= rest && AllKnown({}, g.out, rest') && AllKnown({}, g.inn, rest') && Traced(g, t', rest', s1', s2')
    ensures Forward(g.inn, rest, s1, s2) ==> Forward(g.inn, rest', s1', s2')
  {
    hide State, AllEmpty, AllKnown, NoneNew, Forward, Traced;
    s1' := s1;
    rest', heap', s2', t' := DrainSinks(sinks, rest, heap, s2, g, s1, t);
    EmptyAfter(sources, g.inn, rest, rest');
    StillKnown(sources, g.inn, rest, rest');
    ghost var some := rest';
    rest', heap', s1', t' := DrainSources(sources, rest', heap', s1, g, s2', t');
    StillKnown({}, g.out, some, rest');
  }

  lemma StateParts(g: Graph, rest: set<Transfer>, s1: seq<Transfer>, s2: seq<Transfer>, heap: set<HeapItem>)
    requires State(g, rest, s1, s2, heap)
    ensures Consistent(g) && Progress(g, rest, s1, s2) && rest <= g.out.Keys
  {
  }

  /** At the start the sinks and sources are those that have no edges of their own. */
  lemma ArrangeStart(all: set<Transfer>, heap: set<HeapItem>, g: Graph)
    requires State(g, all, [], [], heap) && all == g.out.Keys
    ensures var sinks, sources := (set u | u in all && u.outgoing == map[]), (set u | u in all && u.incoming == map[]);
            && AllEmpty(sinks, g.out, all) && AllKnown(sinks, g.out, all)
            && AllEmpty(sources, g.inn, all) && AllKnown(sources, g.inn, all)
    ensures Forward(g.inn, all, [], []) && Traced(g, Start, all, [], [])
  {
  }

  lemma TracedParts(g: Graph, t: Trace, rest: set<Transfer>, s1: seq<Transfer>, s2: seq<Transfer>)
    requires Traced(g, t, rest, s1, s2)
    ensures Chosen(g, t) && Open(g, t) == rest && Front(t) == s1 && Back(t) == s2
  {
  }

  /** If there are no sources left, there is a cycle. */
  lemma NotRanked(g: Graph, rest: set<Transfer>, rank: map<Transfer, nat>)
    requires Consistent(g) && rest <= g.out.Keys && rest != {} && AllKnown({}, g.inn, rest)
    ensures !RankedBy(g, rank)
  {
    if RankedBy(g, rank) {
      var u := SourceLeft(g, rest, rank);
      assert false;
    }
  }

  /** The main loop: sinks go to the back, sources to the front, and when there are none
      the vertex with the best balance goes to the front. */
  method Arrange(all: set<Transfer>, startHeap: set<HeapItem>, ghost g: Graph, ghost acyclic: bool,
                 ghost rank: map<Transfer, nat>)
    returns (order: seq<Transfer>, ghost t: Trace)
    requires State(g, all, [], [], startHeap) && all == g.out.Keys && (acyclic ==> RankedBy(g, rank))
    modifies all`incoming, all`outgoing, all`score, all`heapItem, startHeap`item
    ensures Distinct(order) && Members(order) == all
    ensures 2 * Backward(g.inn, order, {}) <= Weight(g)
    ensures acyclic ==> NoBackward(g.inn, order)
    ensures Chosen(g, t) && Open(g, t) == {} && order == Front(t) + Back(t)
  {
    hide State, AllEmpty, AllKnown, Forward, RankedBy, NoBackward, Backward, Weight, Consistent, Traced, Balance;
    ArrangeStart(all, startHeap, g);
    var rest: set<Transfer>, heap: set<HeapItem> := all, startHeap;
    var s1: seq<Transfer>, s2: seq<Transfer> := [], [];
    t := Start;
    var sinks: set<Transfer> := set u | u in rest && u.outgoing == map[];
    var sources: set<Transfer> := set u | u in rest && u.incoming == map[];
    while rest != {}
      invariant State(g, rest, s1, s2, heap) && rest <= all
      invariant AllEmpty(sinks, g.out, rest) && AllEmpty(sources, g.inn, rest)
      invariant AllKnown(sinks, g.out, rest) && AllKnown(sources, g.inn, rest)
      invariant (acyclic ==> Forward(g.inn, rest, s1, s2)) && Traced(g, t, rest, s1, s2)
      invariant forall h :: h in heap ==> h in startHeap || fresh(h)
    {
      rest, heap, s1, s2, t := Drain(sinks, sources, rest, heap, s1, s2, g, t);
      if rest == {} {
        break;
      }
      StateParts(g, rest, s1, s2, heap);
      if acyclic { NotRanked(g, rest, rank); }
      var u: Transfer;
      u, heap, sources, sinks := TakeBest(rest, heap, s1, g, s2);
      TracedBest(g, t, rest, s1, s2, u);
      s1, rest, t := s1 + [u], rest - {u}, Best(t, u);
    }
    order := s1 + s2;
    TracedParts(g, t, rest, s1, s2);
    StateParts(g, rest, s1, s2, heap);
    ProgressDone(g, s1, s2);
    if acyclic { ForwardDone(g.inn, s1, s2); }
  }

  /** The sequence is a permutation of the transfers, and at most half of the weight of the dependency graph points
      backward in it; nothing does if the graph has no cycle. */
  method FindVertexSequence(transfers: seq<Transfer>, ghost g: Graph, ghost acyclic: bool, ghost rank: map<Transfer, nat>)
    returns (result: seq<Transfer>, ghost t: Trace)
    requires Distinct(transfers) && Members(transfers) == g.out.Keys && Consistent(g) && (acyclic ==> RankedBy(g, rank))
    requires forall x :: x in Members(transfers) ==> x.goesBefore == g.out[x] && x.goesAfter == g.inn[x]
    modifies Members(transfers)`incoming, Members(transfers)`outgoing, Members(transfers)`score
    modifies Members(transfers)`heapItem, Members(transfers)`order
    ensures Distinct(result) && Members(result) == Members(transfers)
    ensures 2 * Backward(g.inn, result, {}) <= Weight(g)
    ensures acyclic ==> NoBackward(g.inn, result)
    ensures Chosen(g, t) && Open(g, t) == {} && result == Front(t) + Back(t)
    ensures forall i :: 0 <= i < |result| ==> result[i].order == i
  {
    CopyEdges(transfers);
    var heap := BuildHeap(transfers);
    AllOpen(g);
    ProgressStart(g);
    var all: set<Transfer> := set x | x in transfers;
    result, t := Arrange(all, heap, g, acyclic, rank);
    RecordOrder(result);
  }
}
