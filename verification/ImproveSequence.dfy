/** The greedy topological sort that picks, among the transfers that may run next,
    one that leaves the least stashed data behind. */
module ImproveSequence {
  import opened Ranges
  import opened Transfers
  import opened FeedbackArc

  type Neighbours = map<Transfer, set<Transfer>>

  /** The dependency graph as values; `rank` shows that it has no cycle. */
  ghost predicate Ranked(succ: Neighbours, pred: Neighbours, rank: map<Transfer, nat>) {
    && succ.Keys == pred.Keys == rank.Keys
    && (forall x, y :: x in succ && y in succ[x] ==> y in pred && x in pred[y])
    && (forall x, y :: y in pred && x in pred[y] ==> x in succ && y in succ[x] && rank[x] < rank[y])
  }

  /** Stashed blocks after this transfer minus before it. */
  ghost function NetStashChange(x: Transfer): int
    reads x`stashBefore, x`useStash
  {
    StashSize(x.stashBefore) - StashSize(x.useStash)
  }

  type Entry = (int, nat, Transfer)

  ghost function EntryOf(x: Transfer): Entry
    reads x`stashBefore, x`useStash, x`order
  {
    (NetStashChange(x), x.order, x)
  }

  /** What a transfer is in the heap. */
  method MakeEntry(x: Transfer) returns (e: Entry)
    ensures e == EntryOf(x)
  {
    var before: int := SumSizes(x.stashBefore);
    var used := SumSizes(x.useStash);
    e := (before - used, x.order, x);
  }

  ghost predicate Precedes(a: Entry, b: Entry) {
    a.0 < b.0 || (a.0 == b.0 && a.1 <= b.1)
  }

  /** Everything that must run before an element of `order` runs before it in `order`. */
  ghost predicate Respects(pred: Neighbours, order: seq<Transfer>) {
    forall i :: 0 <= i < |order| ==> order[i] in pred && pred[order[i]] <= Members(order[..i])
  }

  /** Vertices of `rest` whose predecessors have all been placed. */
  ghost function Ready(pred: Neighbours, rest: set<Transfer>): set<Transfer> {
    set x | x in rest && x in pred && pred[x] * rest == {}
  }

  ghost predicate Sorting(succ: Neighbours, pred: Neighbours, rest: set<Transfer>, order: seq<Transfer>) {
    && Distinct(order) && Members(order) !! rest && Members(order) + rest == pred.Keys
    && Respects(pred, order)
  }

  /** Each element is the best of all that could have taken its place: those whose predecessors had been placed. */
  ghost predicate Greedy(pred: Neighbours, keys: map<Transfer, Entry>, order: seq<Transfer>) {
    forall i, y :: 0 <= i < |order| && y in Ready(pred, pred.Keys - Members(order[..i])) ==>
      order[i] in keys && y in keys && Precedes(keys[order[i]], keys[y])
  }

  lemma GreedyNone(pred: Neighbours, keys: map<Transfer, Entry>)
    ensures Greedy(pred, keys, [])
  {
  }

  lemma GreedyNext(succ: Neighbours, pred: Neighbours, rest: set<Transfer>, order: seq<Transfer>,
                   keys: map<Transfer, Entry>, x: Transfer)
    requires Sorting(succ, pred, rest, order) && Greedy(pred, keys, order)
    requires x in keys && forall y :: y in Ready(pred, rest) ==> y in keys && Precedes(keys[x], keys[y])
    ensures Greedy(pred, keys, order + [x])
  {
    hide Ready, Precedes, Respects;
    var more := order + [x];
    forall i, y | 0 <= i < |more| && y in Ready(pred, pred.Keys - Members(more[..i]))
      ensures more[i] in keys && y in keys && Precedes(keys[more[i]], keys[y])
    {
      if i < |order| {
        assert more[..i] == order[..i];
      } else {
        assert more[..i] == order && pred.Keys - Members(order) == rest;
      }
    }
  }

  lemma {:induction false} LowestExists(xs: set<Transfer>, rank: map<Transfer, nat>) returns (x: Transfer)
    requires xs != {} && xs <= rank.Keys
    ensures x in xs && forall y :: y in xs ==> rank[x] <= rank[y]
  {
    x :| x in xs;
    if xs - {x} != {} {
      var y := LowestExists(xs - {x}, rank);
      if rank[y] < rank[x] {
        x := y;
      }
    }
    assert forall z :: z in xs ==> z in xs - {x} || z == x;
  }

  /** A graph without cycles always has a vertex that is ready. */
  lemma ReadyExists(succ: Neighbours, pred: Neighbours, rank: map<Transfer, nat>, rest: set<Transfer>)
    returns (x: Transfer)
    requires Ranked(succ, pred, rank) && rest <= pred.Keys && rest != {}
    ensures x in Ready(pred, rest)
  {
    x := LowestExists(rest, rank);
    forall y | y in pred[x] ensures y !in rest {
      assert rank[y] < rank[x];
    }
  }

  lemma PlaceReady(succ: Neighbours, pred: Neighbours, rest: set<Transfer>, order: seq<Transfer>, x: Transfer)
    requires Sorting(succ, pred, rest, order) && x in Ready(pred, rest)
    requires pred[x] <= pred.Keys
    ensures Sorting(succ, pred, rest - {x}, order + [x])
  {
    MembersConcat(order, [x]);
    DistinctConcat(order, [x]);
    var more := order + [x];
    forall i | 0 <= i < |more| ensures more[i] in pred && pred[more[i]] <= Members(more[..i]) {
      if i < |order| {
        assert more[..i] == order[..i];
      } else {
        assert more[..i] == order;
        forall y | y in pred[x] ensures y in Members(order) {
          assert y !in pred[x] * rest && y in Members(order) + rest;
        }
      }
    }
  }

  /** The fields of the transfers hold the graph. */
  ghost predicate Linked(ts: set<Transfer>, succ: Neighbours, pred: Neighbours)
    reads ts
  {
    && ts == succ.Keys == pred.Keys
    && forall x :: x in ts ==> x.goesBefore.Keys == succ[x] && x.goesAfter.Keys == pred[x]
  }

  /** Removes the smallest entry. */
  method HeapPop(s: set<Entry>) returns (e: Entry, s': set<Entry>)
    requires s != {}
    ensures e in s && s' == s - {e}
    ensures forall k :: k in s ==> Precedes(e, k)
  {
    e :| e in s;
    var todo := s - {e};
    while todo != {}
      invariant e in s && todo <= s
      invariant forall k :: k in s && k !in todo ==> Precedes(e, k)
    {
      var k :| k in todo;
      if k.0 < e.0 || (k.0 == e.0 && k.1 < e.1) {
        e := k;
      }
      todo := todo - {k};
    }
    s' := s - {e};
  }

  /** The heap holds the entries of exactly these transfers. */
  ghost predicate Queue(s: set<Entry>, xs: set<Transfer>, keys: map<Transfer, Entry>) {
    && (forall e :: e in s ==> e.2 in xs && e.2 in keys && keys[e.2] == e)
    && (forall x :: x in xs ==> x in keys && keys[x] in s && keys[x].2 == x)
  }

  ghost predicate Keyed(ts: set<Transfer>, keys: map<Transfer, Entry>)
    reads ts`stashBefore, ts`useStash, ts`order
  {
    keys.Keys == ts && forall x :: x in ts ==> keys[x] == EntryOf(x)
  }

  lemma QueueAdd(s: set<Entry>, xs: set<Transfer>, keys: map<Transfer, Entry>, x: Transfer)
    requires Queue(s, xs, keys) && x in keys && keys[x].2 == x
    ensures Queue(s + {keys[x]}, xs + {x}, keys)
  {
  }

  ghost function Free(xs: set<Transfer>, inc: Neighbours): set<Transfer> {
    set x | x in xs && x in inc && inc[x] == {}
  }

  method ReleaseOne(xf: Transfer, u: Transfer, s: set<Entry>, ghost q: set<Transfer>, ghost keys: map<Transfer, Entry>)
    returns (s': set<Entry>, ghost q': set<Transfer>)
    requires Queue(s, q, keys) && u in keys && keys[u] == EntryOf(u)
    modifies u`incoming
    ensures u.incoming == old(u.incoming) - {xf}
    ensures q' == if u.incoming.Keys == {} then q + {u} else q
    ensures Queue(s', q', keys)
  {
    s', q' := s, q;
    u.incoming := u.incoming - {xf};
    if u.incoming == map[] {
      QueueAdd(s', q, keys, u);
      var e := MakeEntry(u);
      s' := s' + {e};
      q' := q + {u};
    }
  }

  /** Takes `xf` out of the incoming edges of its successors `succs`; those that wait for nothing else
      join the heap. `was` and `inc` are the incoming edges before and after. */
  method Release(xf: Transfer, succs: set<Transfer>, s: set<Entry>, ghost rest: set<Transfer>,
                 ghost was: Neighbours, ghost inc: Neighbours, ghost keys: map<Transfer, Entry>)
    returns (s': set<Entry>)
    requires succs <= rest && rest == was.Keys == inc.Keys
    requires Keyed(keys.Keys, keys) && rest <= keys.Keys
    requires forall x :: x in rest ==> x.incoming.Keys == was[x]
    requires forall x :: x in succs ==> inc[x] == was[x] - {xf}
    requires forall x :: x in rest && x !in succs ==> inc[x] == was[x]
    requires Queue(s, Free(rest - succs, inc), keys)
    modifies rest`incoming
    ensures forall x :: x in rest ==> x.incoming.Keys == inc[x]
    ensures Queue(s', Free(rest, inc), keys)
  {
    hide Queue, Keyed, EntryOf;
    s' := s;
    var todo := succs;
    ghost var q := Free(rest - succs, inc);
    while todo != {}
      invariant todo <= succs
      invariant forall x :: x in todo ==> x.incoming == old(x.incoming)
      invariant forall x :: x in rest && x !in todo ==> x.incoming.Keys == inc[x]
      invariant forall x :: x in q <==> x in rest && x !in todo && inc[x] == {}
      invariant Queue(s', q, keys) && Keyed(keys.Keys, keys)
    {
      var u :| u in todo;
      KeyedOne(keys, u);
      s', q := ReleaseOne(xf, u, s', q, keys);
      todo := todo - {u};
    }
    assert q == Free(rest, inc);
  }

  lemma KeyedOne(keys: map<Transfer, Entry>, u: Transfer)
    requires Keyed(keys.Keys, keys) && u in keys
    ensures keys[u] == EntryOf(u)
  {
  }

  /** The incoming edges of those in `xs` that come from `rest`. */
  ghost function Inner(pred: Neighbours, xs: set<Transfer>, rest: set<Transfer>): Neighbours {
    map x | x in xs && x in pred :: pred[x] * rest
  }

  ghost predicate Waiting(xs: set<Transfer>, inc: Neighbours)
    reads xs`incoming
  {
    forall x :: x in xs ==> x in inc && x.incoming.Keys == inc[x]
  }

  lemma SuccessorsWait(succ: Neighbours, pred: Neighbours, rank: map<Transfer, nat>,
                       rest: set<Transfer>, order: seq<Transfer>, xf: Transfer)
    requires Ranked(succ, pred, rank) && Sorting(succ, pred, rest, order) && xf in rest
    ensures succ[xf] <= rest - {xf}
  {
    forall u | u in succ[xf] ensures u in rest && u != xf {
      assert rank[xf] < rank[u];
      forall i | 0 <= i < |order| ensures order[i] != u {
        assert Members(order[..i]) <= Members(order);
        assert xf !in pred[order[i]];
      }
      assert u !in Members(order);
    }
  }

  lemma PlacingEdges(succ: Neighbours, pred: Neighbours, rank: map<Transfer, nat>,
                     rest: set<Transfer>, xf: Transfer)
    requires Ranked(succ, pred, rank) && rest <= pred.Keys && xf in rest && succ[xf] <= rest - {xf}
    ensures var (was, inc) := (Inner(pred, rest - {xf}, rest), Inner(pred, rest - {xf}, rest - {xf}));
            && was.Keys == inc.Keys == rest - {xf}
            && (forall x :: x in succ[xf] ==> inc[x] == was[x] - {xf})
            && (forall x :: x in rest - {xf} && x !in succ[xf] ==> inc[x] == was[x])
  {
  }

  lemma PlacingReady(succ: Neighbours, pred: Neighbours, rank: map<Transfer, nat>, rest: set<Transfer>, xf: Transfer)
    requires Ranked(succ, pred, rank) && rest <= pred.Keys && xf in rest && succ[xf] <= rest - {xf}
    ensures var inc := Inner(pred, rest - {xf}, rest - {xf});
            && Free(rest - {xf} - succ[xf], inc) == Ready(pred, rest) - {xf}
            && Free(rest - {xf}, inc) == Ready(pred, rest - {xf})
  {
    var left := rest - {xf};
    var inc := Inner(pred, left, left);
    forall x | x in left ensures x in Free(left - succ[xf], inc) <==> x in Ready(pred, rest) {
      if x in succ[xf] {
        assert xf in pred[x] * rest;
      } else {
        assert pred[x] * left == pred[x] * rest;
      }
    }
  }

  lemma QueueBest(s: set<Entry>, xs: set<Transfer>, keys: map<Transfer, Entry>, e: Entry)
    requires Queue(s, xs, keys) && e in s && forall k :: k in s ==> Precedes(e, k)
    ensures e.2 in xs && e.2 in keys && Queue(s - {e}, xs - {e.2}, keys)
    ensures forall y :: y in xs ==> y in keys && Precedes(keys[e.2], keys[y])
  {
  }

  /** What holds between two steps of the sort. */
  ghost predicate State(succ: Neighbours, pred: Neighbours, rest: set<Transfer>, order: seq<Transfer>,
                        s: set<Entry>, keys: map<Transfer, Entry>) {
    && Sorting(succ, pred, rest, order)
    && Queue(s, Ready(pred, rest), keys)
  }

  lemma Place(succ: Neighbours, pred: Neighbours, rank: map<Transfer, nat>, rest: set<Transfer>,
              order: seq<Transfer>, s: set<Entry>, keys: map<Transfer, Entry>, e: Entry)
    requires Ranked(succ, pred, rank) && State(succ, pred, rest, order, s, keys) && e in s
    requires forall k :: k in s ==> Precedes(e, k)
    ensures var (xf, left) := (e.2, rest - {e.2});
            && xf in rest && rest <= pred.Keys == succ.Keys && succ[xf] <= left
            && Sorting(succ, pred, left, order + [xf])
            && Queue(s - {e}, Free(left - succ[xf], Inner(pred, left, left)), keys)
            && Free(left, Inner(pred, left, left)) == Ready(pred, left)
            && xf in keys && forall y :: y in Ready(pred, rest) ==> y in keys && Precedes(keys[xf], keys[y])
  {
    var xf := e.2;
    QueueBest(s, Ready(pred, rest), keys, e);
    SuccessorsWait(succ, pred, rank, rest, order, xf);
    PlacingReady(succ, pred, rank, rest, xf);
    assert pred[xf] <= pred.Keys;
    PlaceReady(succ, pred, rest, order, xf);
  }

  ghost predicate Outgoing(ts: set<Transfer>, succ: Neighbours)
    reads ts`outgoing
  {
    forall x :: x in ts ==> x in succ && x.outgoing.Keys == succ[x]
  }

  lemma Shrink(rest: set<Transfer>, left: set<Transfer>, pred: Neighbours)
    requires left <= rest <= pred.Keys && Waiting(rest, Inner(pred, rest, rest))
    ensures Waiting(left, Inner(pred, left, rest))
  {
  }

  /** One step: the best of the ready transfers goes next. */
  method PlaceNext(s: set<Entry>, ghost succ: Neighbours, ghost pred: Neighbours, ghost rank: map<Transfer, nat>,
                   ghost rest: set<Transfer>, ghost order: seq<Transfer>, ghost keys: map<Transfer, Entry>)
    returns (xf: Transfer, s': set<Entry>)
    requires s != {} && Ranked(succ, pred, rank) && State(succ, pred, rest, order, s, keys)
    requires keys.Keys == succ.Keys && Keyed(keys.Keys, keys)
    requires Waiting(rest, Inner(pred, rest, rest)) && Outgoing(succ.Keys, succ)
    modifies rest`incoming
    ensures xf in rest && State(succ, pred, rest - {xf}, order + [xf], s', keys)
    ensures Waiting(rest - {xf}, Inner(pred, rest - {xf}, rest - {xf}))
    ensures xf in keys && forall y :: y in Ready(pred, rest) ==> y in keys && Precedes(keys[xf], keys[y])
  {
    hide Ranked, Sorting, Queue, Ready, Free, Inner, Keyed, EntryOf, Precedes;
    var e;
    e, s' := HeapPop(s);
    xf := e.2;
    Place(succ, pred, rank, rest, order, s, keys, e);
    ghost var left := rest - {xf};
    PlacingEdges(succ, pred, rank, rest, xf);
    Shrink(rest, left, pred);
    s' := Release(xf, xf.outgoing.Keys, s', left, Inner(pred, left, rest), Inner(pred, left, left), keys);
  }

  lemma {:induction false} DistinctLength(s: seq<Transfer>)
    requires Distinct(s)
    ensures |s| == |Members(s)|
  {
    if s == [] {
      assert Members(s) == {};
    } else {
      var n := |s| - 1;
      DistinctLength(s[..n]);
      TakeOne(s, n);
      assert s[..n + 1] == s;
      assert s[n] !in Members(s[..n]);
    }
  }

  method InitialHeap(ts: set<Transfer>, ghost pred: Neighbours, ghost keys: map<Transfer, Entry>)
    returns (s: set<Entry>)
    requires Keyed(ts, keys) && pred.Keys == ts && Waiting(ts, pred)
    requires forall x :: x in pred ==> pred[x] <= pred.Keys
    ensures Queue(s, Ready(pred, ts), keys)
  {
    s := {};
    ghost var q: set<Transfer> := {};
    var todo := ts;
    while todo != {}
      invariant todo <= ts && Queue(s, q, keys)
      invariant forall x :: x in q <==> x in ts && x !in todo && pred[x] == {}
    {
      var u :| u in todo;
      if u.incoming == map[] {
        QueueAdd(s, q, keys, u);
        var e := MakeEntry(u);
        s := s + {e};
        q := q + {u};
      }
      todo := todo - {u};
    }
    InitiallyReady(q, pred);
  }

  lemma InitiallyReady(q: set<Transfer>, pred: Neighbours)
    requires forall x :: x in q <==> x in pred && pred[x] == {}
    requires forall x :: x in pred ==> pred[x] <= pred.Keys
    ensures q == Ready(pred, pred.Keys)
  {
    forall x | x in pred ensures pred[x] * pred.Keys == pred[x] {
    }
  }

  lemma Start(succ: Neighbours, pred: Neighbours, rank: map<Transfer, nat>)
    requires Ranked(succ, pred, rank)
    ensures succ.Keys == pred.Keys && forall x :: x in pred ==> pred[x] <= pred.Keys
    ensures Sorting(succ, pred, pred.Keys, [])
    ensures Inner(pred, pred.Keys, pred.Keys) == pred
  {
    forall x | x in pred ensures pred[x] * pred.Keys == pred[x] {
    }
  }

  lemma Finish(succ: Neighbours, pred: Neighbours, rank: map<Transfer, nat>, rest: set<Transfer>,
               order: seq<Transfer>, keys: map<Transfer, Entry>)
    requires Ranked(succ, pred, rank) && State(succ, pred, rest, order, {}, keys)
    ensures Distinct(order) && Members(order) == pred.Keys && Respects(pred, order)
  {
    if rest != {} {
      var x := ReadyExists(succ, pred, rank, rest);
      assert false;
    }
  }

  method RecordOrder(order: seq<Transfer>)
    requires Distinct(order)
    modifies Members(order)`order
    ensures forall i :: 0 <= i < |order| ==> order[i].order == i
  {
    for n := 0 to |order|
      invariant forall i :: 0 <= i < n ==> order[i].order == i
    {
      assert order[n] in Members(order);
      order[n].order := n;
    }
  }

  method Sort(ts: set<Transfer>, ghost succ: Neighbours, ghost pred: Neighbours,
              ghost rank: map<Transfer, nat>, ghost keys: map<Transfer, Entry>)
    returns (l: seq<Transfer>)
    requires Ranked(succ, pred, rank) && ts == succ.Keys == keys.Keys
    requires Keyed(keys.Keys, keys) && Waiting(succ.Keys, pred) && Outgoing(succ.Keys, succ)
    modifies ts`incoming
    ensures Distinct(l) && Members(l) == ts && Respects(pred, l) && Greedy(pred, keys, l)
  {
    hide Ranked, Sorting, Queue, Ready, Inner, Keyed, Waiting, Outgoing, EntryOf, Precedes, Distinct, Members, Respects,
         Greedy;
    Start(succ, pred, rank);
    var s := InitialHeap(ts, pred, keys);
    l := [];
    GreedyNone(pred, keys);
    ghost var rest := ts;
    while s != {}
      invariant rest <= ts && State(succ, pred, rest, l, s, keys) && Greedy(pred, keys, l)
      invariant Keyed(keys.Keys, keys) && Outgoing(succ.Keys, succ) && Waiting(rest, Inner(pred, rest, rest))
      decreases rest
    {
      var xf;
      xf, s := PlaceNext(s, succ, pred, rank, rest, l, keys);
      GreedyNext(succ, pred, rest, l, keys, xf);
      l := l + [xf];
      rest := rest - {xf};
    }
    Finish(succ, pred, rank, rest, l, keys);
  }

  method CopyEdges(transfers: seq<Transfer>, ghost succ: Neighbours, ghost pred: Neighbours)
    requires Linked(Members(transfers), succ, pred)
    modifies Members(transfers)`incoming, Members(transfers)`outgoing
    ensures Waiting(Members(transfers), pred) && Outgoing(Members(transfers), succ)
  {
    for n := 0 to |transfers|
      invariant forall k :: 0 <= k < n ==>
        transfers[k].incoming.Keys == pred[transfers[k]] && transfers[k].outgoing.Keys == succ[transfers[k]]
    {
      assert transfers[n] in Members(transfers);
      transfers[n].incoming := transfers[n].goesAfter;
      transfers[n].outgoing := transfers[n].goesBefore;
    }
  }

  lemma SameLength(s: seq<Transfer>, t: seq<Transfer>)
    requires Distinct(s) && Distinct(t) && Members(s) == Members(t)
    ensures |s| == |t|
  {
    DistinctLength(s);
    DistinctLength(t);
  }

  /** The new sequence is a permutation in which every dependency is met, and it is greedy: whenever several transfers
      could go next, one with the least net change of stashed blocks does, the earliest of them in the old sequence. */
  method ImproveVertexSequence(transfers: seq<Transfer>, ghost succ: Neighbours, ghost pred: Neighbours,
                               ghost rank: map<Transfer, nat>)
    returns (l: seq<Transfer>)
    requires Distinct(transfers) && Ranked(succ, pred, rank) && Linked(Members(transfers), succ, pred)
    modifies Members(transfers)`incoming, Members(transfers)`outgoing, Members(transfers)`order
    ensures Distinct(l) && Members(l) == Members(transfers) && Respects(pred, l)
    ensures Greedy(pred, old(KeysOf(transfers)), l)
    ensures |l| == |transfers| && forall i :: 0 <= i < |l| ==> l[i].order == i
  {
    hide Ranked, Keyed, Waiting, Outgoing, Respects, Greedy, EntryOf, KeysOf;
    ghost var keys := KeysOf(transfers);
    CopyEdges(transfers, succ, pred);
    var ts: set<Transfer> := set x | x in transfers;
    assert ts == Members(transfers);
    l := Sort(ts, succ, pred, rank, keys);
    // A shorter list would mean that the graph has a cycle.
    assert |l| == |transfers| by {
      SameLength(l, transfers);
    }
    RecordOrder(l);
  }

  ghost function KeysOf(transfers: seq<Transfer>): (keys: map<Transfer, Entry>)
    reads Members(transfers)
    ensures keys.Keys == Members(transfers) && Keyed(keys.Keys, keys)
  {
    map x | x in transfers :: EntryOf(x)
  }
}
