/** The bottom-up walk: which conditions reach a target from below, and which nodes are pure aggregates. */
module BottomUp {
  import opened Policy
  import opened LicenseGraph

  /** The node has been walked, as a non-aggregate if that is asked for. */
  ghost predicate Done(amap: set<TargetNode>, pures: set<TargetNode>, d: TargetNode, aggregate: bool) {
    d in amap && (aggregate || d !in pures)
  }

  /** What follows from the node for its dependencies has been done. */
  ghost predicate Settled(g: Graph, amap: set<TargetNode>, pures: set<TargetNode>, x: TargetNode) {
    x in g && forall i :: 0 <= i < |g[x]| ==>
      var d := g[x][i].dependency;
      Done(amap, pures, d, d.isContainer) && (x !in pures ==> Done(amap, pures, d, false))
  }

  /** From one state of the walk to a later one: nothing is undone, and what has changed is settled. */
  ghost predicate Later(g: Graph, amap: set<TargetNode>, pures: set<TargetNode>, amap': set<TargetNode>, pures': set<TargetNode>) {
    && amap <= amap' <= g.Keys
    && (forall x :: x in amap && x !in pures ==> x !in pures')
    && (forall x :: x in amap' && (x !in amap || (x in pures && x !in pures')) ==> Settled(g, amap', pures', x))
  }

  lemma LaterSame(g: Graph, amap: set<TargetNode>, pures: set<TargetNode>)
    requires amap <= g.Keys
    ensures Later(g, amap, pures, amap, pures)
  {
  }

  lemma StillSettled(g: Graph, a: set<TargetNode>, p: set<TargetNode>, a': set<TargetNode>, p': set<TargetNode>,
                     x: TargetNode)
    requires Later(g, a, p, a', p') && Settled(g, a, p, x) && x in a
    ensures Settled(g, a', p', x)
  {
    if x in p && x !in p' {
    } else {
      forall i | 0 <= i < |g[x]|
        ensures var d := g[x][i].dependency;
                Done(a', p', d, d.isContainer) && (x !in p' ==> Done(a', p', d, false))
      {
        var d := g[x][i].dependency;
        assert Done(a, p, d, d.isContainer);
      }
    }
  }

  lemma LaterAgain(g: Graph, a: set<TargetNode>, p: set<TargetNode>, b: set<TargetNode>, q: set<TargetNode>,
                   c: set<TargetNode>, r: set<TargetNode>)
    requires Later(g, a, p, b, q) && Later(g, b, q, c, r)
    ensures Later(g, a, p, c, r)
  {
    hide Settled;
    forall x | x in c && (x !in a || (x in p && x !in r)) ensures Settled(g, c, r, x) {
      if x in b && !(x in q && x !in r) {
        StillSettled(g, b, q, c, r, x);
      }
    }
  }

  /** When all dependencies of the marked target have been walked, the target is settled as well. */
  lemma TargetSettled(g: Graph, t: TargetNode, aggregate: bool, a: set<TargetNode>, p: set<TargetNode>,
                      a1: set<TargetNode>, p1: set<TargetNode>, a2: set<TargetNode>, p2: set<TargetNode>)
    requires t in g && a1 == a + {t} && p1 == (if aggregate then p + {t} else p - {t}) && a <= g.Keys
    requires t in a ==> t in p && !aggregate
    requires Later(g, a1, p1, a2, p2)
    requires forall i :: 0 <= i < |g[t]| ==> Done(a2, p2, g[t][i].dependency, aggregate && g[t][i].dependency.isContainer)
    ensures Later(g, a, p, a2, p2)
  {
    if !(t in p1 && t !in p2) {
      forall i | 0 <= i < |g[t]|
        ensures var d := g[t][i].dependency;
                Done(a2, p2, d, d.isContainer) && (t !in p2 ==> Done(a2, p2, d, false))
      {
        assert Done(a2, p2, g[t][i].dependency, aggregate && g[t][i].dependency.isContainer);
      }
    }
    assert Settled(g, a2, p2, t);
  }

  /** Marks have a reason: a route from a root, through a non-container if the node is not pure. */
  ghost predicate Grounded(g: Graph, roots: seq<TargetNode>, amap: set<TargetNode>, pures: set<TargetNode>) {
    forall x :: x in amap ==>
      && (exists r: nat, p :: FromRoot(g, roots, r, p, x))
      && (x !in pures ==> exists r: nat, p :: FromRoot(g, roots, r, p, x) && !OnlyContainers(g, roots[r], p))
  }

  lemma GroundOne(g: Graph, roots: seq<TargetNode>, a: set<TargetNode>, ps: set<TargetNode>, t: TargetNode, aggregate: bool,
                  r: nat, p: Route)
    requires Grounded(g, roots, a, ps) && FromRoot(g, roots, r, p, t) && (aggregate <==> OnlyContainers(g, roots[r], p))
    requires t in a ==> t in ps && !aggregate
    ensures Grounded(g, roots, a + {t}, if aggregate then ps + {t} else ps - {t})
  {
  }

  // Resolutions on graphs without cycles.

  /** The conditions of a node and all that come up to it. */
  ghost function Up(g: Graph, rank: Ranks, own: TraceConditions, t: TargetNode): Conditions
    requires Closed(g) && Ranked(g, rank) && t in g
    decreases rank[t], |g[t]| + 1
  {
    own(t) + UpEdges(g, rank, own, t, |g[t]|)
  }

  ghost function UpEdges(g: Graph, rank: Ranks, own: TraceConditions, t: TargetNode, n: nat): Conditions
    requires Closed(g) && Ranked(g, rank) && t in g && n <= |g[t]|
    decreases rank[t], n
  {
    if n == 0 then {}
    else
      UpEdges(g, rank, own, t, n - 1)
      + DepConditionsPropagatingToTarget(g[t][n - 1], Up(g, rank, own, g[t][n - 1].dependency))
  }

  /** Walked nodes up to a rank have their final resolution, and nodes not walked have none; `but` is being walked. */
  ghost predicate Resolved(g: Graph, rank: Ranks, own: TraceConditions, amap: set<TargetNode>, res: map<TargetNode, Conditions>,
                           limit: nat, but: set<TargetNode>)
    requires Closed(g) && Ranked(g, rank)
  {
    && res.Keys == g.Keys
    && (forall x :: x in amap && x in g && x !in but && rank[x] <= limit ==> res[x] == Up(g, rank, own, x))
    && (forall x :: x in g && x !in amap ==> res[x] == {})
  }

  /** Nothing above the rank has been touched. */
  ghost predicate Above(g: Graph, rank: Ranks, amap: set<TargetNode>, res: map<TargetNode, Conditions>,
                        amap': set<TargetNode>, res': map<TargetNode, Conditions>, limit: nat)
    requires Ranked(g, rank) && res.Keys == res'.Keys == g.Keys
  {
    forall x :: x in g && rank[x] > limit ==> res'[x] == res[x] && (x in amap' <==> x in amap)
  }

  /** Before a dependency is walked. */
  lemma ResolvedBelow(g: Graph, rank: Ranks, own: TraceConditions, amap: set<TargetNode>, res: map<TargetNode, Conditions>,
                      t: TargetNode, i: nat)
    requires Closed(g) && Ranked(g, rank) && t in g && i < |g[t]| && Resolved(g, rank, own, amap, res, rank[t], {t})
    ensures Resolved(g, rank, own, amap, res, rank[g[t][i].dependency], {})
  {
  }

  /** And after it. */
  lemma ResolvedAfter(g: Graph, rank: Ranks, own: TraceConditions, amap: set<TargetNode>, res: map<TargetNode, Conditions>,
                      amap': set<TargetNode>, res': map<TargetNode, Conditions>, t: TargetNode, i: nat)
    requires Closed(g) && Ranked(g, rank) && t in g && i < |g[t]| && Resolved(g, rank, own, amap, res, rank[t], {t})
    requires Resolved(g, rank, own, amap', res', rank[g[t][i].dependency], {}) && amap <= amap'
    requires Above(g, rank, amap, res, amap', res', rank[g[t][i].dependency])
    ensures Resolved(g, rank, own, amap', res', rank[t], {t}) && res'[t] == res[t]
    ensures Above(g, rank, amap, res, amap', res', rank[t])
  {
    forall x | x in amap' && x in g && x != t && rank[x] <= rank[t] ensures res'[x] == Up(g, rank, own, x) {
      if rank[x] > rank[g[t][i].dependency] {
        assert x in amap && res'[x] == res[x];
      }
    }
  }

  lemma TargetRes(g: Graph, rank: Ranks, own: TraceConditions, amap: set<TargetNode>, res: map<TargetNode, Conditions>,
                  t: TargetNode, cs: Conditions, res': map<TargetNode, Conditions>)
    requires Closed(g) && Ranked(g, rank) && t in g && Resolved(g, rank, own, amap, res, rank[t], {t}) && t in amap
    requires res[t] == own(t) || res[t] == Up(g, rank, own, t)
    requires cs == res[t] + UpEdges(g, rank, own, t, |g[t]|)
    requires res'.Keys == g.Keys && (forall x :: x in g && x != t ==> res'[x] == res[x]) && res'[t] == res[t] + cs
    ensures res'[t] == Up(g, rank, own, t) && Resolved(g, rank, own, amap, res', rank[t], {})
  {
  }

  /** Marking a target as walked changes neither what is resolved elsewhere nor anything above. */
  lemma Marked(g: Graph, rank: Ranks, own: TraceConditions, amap: set<TargetNode>, res: map<TargetNode, Conditions>,
               t: TargetNode, res': map<TargetNode, Conditions>)
    requires Closed(g) && Ranked(g, rank) && t in g && Resolved(g, rank, own, amap, res, rank[t], {})
    requires res'.Keys == g.Keys && (forall x :: x in g && x != t ==> res'[x] == res[x])
    requires res'[t] == if t in amap then res[t] else res[t] + own(t)
    ensures Resolved(g, rank, own, amap + {t}, res', rank[t], {t})
    ensures res'[t] == own(t) || res'[t] == Up(g, rank, own, t)
    ensures Above(g, rank, amap, res, amap + {t}, res', rank[t])
  {
  }

  lemma AboveAgain(g: Graph, rank: Ranks, a: set<TargetNode>, r: map<TargetNode, Conditions>, b: set<TargetNode>,
                   s: map<TargetNode, Conditions>, c: set<TargetNode>, u: map<TargetNode, Conditions>, limit: nat)
    requires Ranked(g, rank) && r.Keys == s.Keys == u.Keys == g.Keys
    requires Above(g, rank, a, r, b, s, limit) && Above(g, rank, b, s, c, u, limit)
    ensures Above(g, rank, a, r, c, u, limit)
  {
  }

  /** Below the limit: what has been proved about resolutions when there are no cycles. */
  ghost predicate WhenAcyclic(dag: bool, g: Graph, rank: Ranks, own: TraceConditions, amap: set<TargetNode>,
                              res: map<TargetNode, Conditions>, t: TargetNode)
    requires Closed(g)
  {
    dag ==> Ranked(g, rank) && t in g && Resolved(g, rank, own, amap, res, rank[t], {})
  }

  /** The first part of a visit: there is nothing to do for a node that has been walked already, unless it was taken for
      a pure aggregate and is not one here. */
  method PriorWalkResults(target: TargetNode, treatAsAggregate: bool, amap: set<TargetNode>, conditionsFn: TraceConditions)
    returns (alreadyWalked: bool, amap': set<TargetNode>)
    modifies target`resolution, target`pure
    ensures alreadyWalked <==> target in amap && (treatAsAggregate || !old(target.pure))
    ensures alreadyWalked ==> amap' == amap && target.resolution == old(target.resolution) && target.pure == old(target.pure)
    ensures !alreadyWalked ==> amap' == amap + {target} && target.pure == treatAsAggregate
    ensures !alreadyWalked ==>
              target.resolution == if target in amap then old(target.resolution) else old(target.resolution) + conditionsFn(target)
  {
    amap' := amap;
    if target in amap {
      if treatAsAggregate {
        return true, amap';
      }
      if !target.pure {
        return true, amap';
      }
    } else {
      target.resolution := target.resolution + conditionsFn(target);
      amap' := amap + {target};
    }
    target.pure := treatAsAggregate;
    return false, amap';
  }

  lemma MarkedPure(g: Graph, t: TargetNode, aggregate: bool, before: set<TargetNode>, after: set<TargetNode>)
    requires forall x :: x in g && x != t ==> (x in after <==> x in before)
    requires before <= g.Keys && after <= g.Keys && t in g && (t in after <==> aggregate)
    ensures after == if aggregate then before + {t} else before - {t}
  {
  }

  lemma MarkedAcyclic(dag: bool, g: Graph, rank: Ranks, own: TraceConditions, amap: set<TargetNode>, res: map<TargetNode, Conditions>,
                      t: TargetNode, res': map<TargetNode, Conditions>)
    requires Closed(g) && t in g && WhenAcyclic(dag, g, rank, own, amap, res, t)
    requires res.Keys == res'.Keys == g.Keys && (forall x :: x in g && x != t ==> res'[x] == res[x])
    requires res'[t] == if t in amap then res[t] else res[t] + own(t)
    ensures dag ==>
              && Ranked(g, rank) && Resolved(g, rank, own, amap + {t}, res', rank[t], {t})
              && (res'[t] == own(t) || res'[t] == Up(g, rank, own, t))
              && Above(g, rank, amap, res, amap + {t}, res', rank[t])
  {
    if dag { Marked(g, rank, own, amap, res, t, res'); }
  }

  lemma WalkingLater(g: Graph, rank: Ranks, own: TraceConditions, dag: bool, t: TargetNode, aggregate: bool,
                     amap1: set<TargetNode>, pures1: set<TargetNode>, res1: map<TargetNode, Conditions>,
                     amap: set<TargetNode>, pures: set<TargetNode>, res: map<TargetNode, Conditions>, cs: Conditions, k: nat)
    requires Closed(g) && Walking(g, rank, own, dag, t, aggregate, amap1, pures1, res1, amap, pures, res, cs, k)
    ensures amap1 <= amap <= g.Keys && forall x :: x in amap1 && x !in pures1 ==> x !in pures
  {
  }

  /** What marking the target does to the marks. */
  ghost predicate Marking(t: TargetNode, aggregate: bool, a: set<TargetNode>, p: set<TargetNode>, a1: set<TargetNode>, p1: set<TargetNode>) {
    && a1 == a + {t} && p1 == (if aggregate then p + {t} else p - {t})
    && (t in a ==> t in p && !aggregate)
  }

  ghost predicate AboveIf(dag: bool, g: Graph, rank: Ranks, a: set<TargetNode>, r: map<TargetNode, Conditions>,
                          b: set<TargetNode>, s: map<TargetNode, Conditions>, t: TargetNode) {
    dag ==> Ranked(g, rank) && t in g && r.Keys == s.Keys == g.Keys && Above(g, rank, a, r, b, s, rank[t])
  }

  /** The result of a visit. */
  ghost predicate Visited(g: Graph, rank: Ranks, own: TraceConditions, dag: bool, t: TargetNode, aggregate: bool,
                          a: set<TargetNode>, p: set<TargetNode>, r: map<TargetNode, Conditions>,
                          b: set<TargetNode>, q: set<TargetNode>, s: map<TargetNode, Conditions>, cs: Conditions)
    requires Closed(g)
  {
    && Later(g, a, p, b, q) && Done(b, q, t, aggregate) && WhenAcyclic(dag, g, rank, own, b, s, t)
    && AboveIf(dag, g, rank, a, r, b, s, t) && (dag ==> Ranked(g, rank) && t in g && cs == Up(g, rank, own, t))
  }

  lemma VisitedBefore(g: Graph, rank: Ranks, own: TraceConditions, dag: bool, t: TargetNode, aggregate: bool,
                      a: set<TargetNode>, p: set<TargetNode>, r: map<TargetNode, Conditions>)
    requires Closed(g) && t in g && a <= g.Keys && WhenAcyclic(dag, g, rank, own, a, r, t) && r.Keys == g.Keys && Done(a, p, t, aggregate)
    ensures Visited(g, rank, own, dag, t, aggregate, a, p, r, a, p, r, r[t])
  {
    LaterSame(g, a, p);
  }

  /** Marks the target, if there is anything to do. */
  method MarkTarget(target: TargetNode, treatAsAggregate: bool, amap: set<TargetNode>, conditionsFn: TraceConditions,
                    ghost g: Graph, ghost roots: seq<TargetNode>, ghost r: nat, ghost p: Route, ghost dag: bool, ghost rank: Ranks)
    returns (alreadyWalked: bool, cs: Conditions, amap': set<TargetNode>)
    requires Closed(g) && target in g && amap <= g.Keys
    requires FromRoot(g, roots, r, p, target) && (treatAsAggregate <==> OnlyContainers(g, roots[r], p))
    requires Grounded(g, roots, amap, PureOf(g.Keys))
    requires WhenAcyclic(dag, g, rank, conditionsFn, amap, ResOf(g.Keys), target)
    modifies target`resolution, target`pure
    ensures cs == target.resolution && Grounded(g, roots, amap', PureOf(g.Keys))
    ensures alreadyWalked ==>
              Visited(g, rank, conditionsFn, dag, target, treatAsAggregate, amap, old(PureOf(g.Keys)), old(ResOf(g.Keys)),
                      amap', PureOf(g.Keys), ResOf(g.Keys), cs)
    ensures !alreadyWalked ==>
              && Marking(target, treatAsAggregate, amap, old(PureOf(g.Keys)), amap', PureOf(g.Keys))
              && AboveIf(dag, g, rank, amap, old(ResOf(g.Keys)), amap', ResOf(g.Keys), target)
              && Walking(g, rank, conditionsFn, dag, target, treatAsAggregate, amap', PureOf(g.Keys), ResOf(g.Keys),
                         amap', PureOf(g.Keys), ResOf(g.Keys), cs, 0)
  {
    hide Settled, Up, UpEdges, OnlyContainers, FromRoot, Grounded, Walking, Resolved, Above, Closed, WhenAcyclic, Later,
         Ranked, Visited;
    ghost var pures, res := PureOf(g.Keys), ResOf(g.Keys);
    alreadyWalked, amap' := PriorWalkResults(target, treatAsAggregate, amap, conditionsFn);
    cs := target.resolution;
    if alreadyWalked {
      assert PureOf(g.Keys) == pures && ResOf(g.Keys) == res;
      VisitedBefore(g, rank, conditionsFn, dag, target, treatAsAggregate, amap, pures, res);
      return;
    }
    MarkedPure(g, target, treatAsAggregate, pures, PureOf(g.Keys));
    GroundOne(g, roots, amap, pures, target, treatAsAggregate, r, p);
    MarkedAcyclic(dag, g, rank, conditionsFn, amap, res, target, ResOf(g.Keys));
    LoopStart(g, rank, conditionsFn, dag, target, treatAsAggregate, amap', PureOf(g.Keys), ResOf(g.Keys), cs);
  }

  /** Gives the target all that came up to it. */
  method CloseTarget(target: TargetNode, cs: Conditions, ghost own: TraceConditions, ghost g: Graph, ghost dag: bool, ghost rank: Ranks,
                     ghost aggregate: bool, ghost a: set<TargetNode>, ghost p: set<TargetNode>, ghost r: map<TargetNode, Conditions>,
                     ghost a1: set<TargetNode>, ghost p1: set<TargetNode>, ghost r1: map<TargetNode, Conditions>, ghost a2: set<TargetNode>)
    returns (cs': Conditions)
    requires Closed(g) && target in g && a <= g.Keys && r.Keys == g.Keys
    requires Marking(target, aggregate, a, p, a1, p1) && AboveIf(dag, g, rank, a, r, a1, r1, target)
    requires Walking(g, rank, own, dag, target, aggregate, a1, p1, r1, a2, PureOf(g.Keys), ResOf(g.Keys), cs, |g[target]|)
    modifies target`resolution
    ensures PureOf(g.Keys) == old(PureOf(g.Keys)) && cs' == target.resolution
    ensures Visited(g, rank, own, dag, target, aggregate, a, p, r, a2, PureOf(g.Keys), ResOf(g.Keys), cs')
  {
    hide Settled, Up, UpEdges, Walking, Resolved, Above, Closed, Later, Ranked, WhenAcyclic, Done;
    ghost var p2, r2 := PureOf(g.Keys), ResOf(g.Keys);
    target.resolution := target.resolution + cs;
    cs' := target.resolution;
    LoopEnd(g, rank, own, dag, target, aggregate, a, p, r, a1, p1, r1, a2, p2, r2, cs, ResOf(g.Keys));
  }

  /** One visit, with all the visits it leads to. It ends on any graph. */
  method Walk(target: TargetNode, treatAsAggregate: bool, amap: set<TargetNode>, conditionsFn: TraceConditions,
              ghost g: Graph, ghost roots: seq<TargetNode>, ghost r: nat, ghost p: Route, ghost dag: bool, ghost rank: Ranks)
    returns (cs: Conditions, amap': set<TargetNode>)
    requires Closed(g) && HasEdges(g) && target in g && amap <= g.Keys
    requires FromRoot(g, roots, r, p, target) && (treatAsAggregate <==> OnlyContainers(g, roots[r], p))
    requires Grounded(g, roots, amap, PureOf(g.Keys))
    requires WhenAcyclic(dag, g, rank, conditionsFn, amap, ResOf(g.Keys), target)
    modifies g.Keys`resolution, g.Keys`pure
    ensures Visited(g, rank, conditionsFn, dag, target, treatAsAggregate, amap, old(PureOf(g.Keys)), old(ResOf(g.Keys)),
                    amap', PureOf(g.Keys), ResOf(g.Keys), cs)
    ensures Grounded(g, roots, amap', PureOf(g.Keys))
    decreases |g.Keys - amap|, |amap * PureOf(g.Keys)|, 0
  {
    hide Settled, Up, UpEdges, OnlyContainers, FromRoot, Grounded, Walking, Resolved, Above, Closed, WhenAcyclic, Later,
         Ranked,
         Visited, Marking, AboveIf, Done, PureOf, ResOf, HasEdges;
    EdgesOf(g, target);
    ghost var pures, res := PureOf(g.Keys), ResOf(g.Keys);
    var alreadyWalked;
    alreadyWalked, cs, amap' := MarkTarget(target, treatAsAggregate, amap, conditionsFn, g, roots, r, p, dag, rank);
    if alreadyWalked {
      return;
    }
    ghost var amap1, pures1, res1 := amap', PureOf(g.Keys), ResOf(g.Keys);
    var n := |target.edges|;
    for k := 0 to n
      invariant HasEdges(g) && Grounded(g, roots, amap', PureOf(g.Keys))
      invariant Walking(g, rank, conditionsFn, dag, target, treatAsAggregate, amap1, pures1, res1, amap', PureOf(g.Keys), ResOf(g.Keys), cs, k)
    {
      WalkingLater(g, rank, conditionsFn, dag, target, treatAsAggregate, amap1, pures1, res1, amap', PureOf(g.Keys), ResOf(g.Keys), cs, k);
      MeasureLess(g, target, treatAsAggregate, amap, pures, amap1, pures1, amap', PureOf(g.Keys));
      cs, amap' := WalkEdge(target, treatAsAggregate, k, cs, amap', conditionsFn, g, roots, r, p, dag, rank, amap1, pures1, res1);
    }
    cs := CloseTarget(target, cs, conditionsFn, g, dag, rank, treatAsAggregate, amap, pures, res, amap1, pures1, res1, amap');
  }

  /** The state of a visit after `k` of its edges. */
  ghost predicate Walking(g: Graph, rank: Ranks, own: TraceConditions, dag: bool, t: TargetNode, aggregate: bool,
                          amap1: set<TargetNode>, pures1: set<TargetNode>, res1: map<TargetNode, Conditions>,
                          amap: set<TargetNode>, pures: set<TargetNode>, res: map<TargetNode, Conditions>, cs: Conditions, k: nat)
    requires Closed(g)
  {
    && t in g && k <= |g[t]| && amap1 <= g.Keys && Later(g, amap1, pures1, amap, pures) && Done(amap1, pures1, t, aggregate)
    && (forall j :: 0 <= j < k ==> Done(amap, pures, g[t][j].dependency, aggregate && g[t][j].dependency.isContainer))
    && (dag ==>
          && Ranked(g, rank) && Resolved(g, rank, own, amap, res, rank[t], {t}) && res1.Keys == g.Keys && res[t] == res1[t]
          && (res1[t] == own(t) || res1[t] == Up(g, rank, own, t)) && cs == res[t] + UpEdges(g, rank, own, t, k)
          && Above(g, rank, amap1, res1, amap, res, rank[t]))
  }

  lemma LoopStart(g: Graph, rank: Ranks, own: TraceConditions, dag: bool, t: TargetNode, aggregate: bool,
                  amap: set<TargetNode>, pures: set<TargetNode>, res: map<TargetNode, Conditions>, cs: Conditions)
    requires Closed(g) && t in g && amap <= g.Keys && Done(amap, pures, t, aggregate)
    requires dag ==> Ranked(g, rank) && Resolved(g, rank, own, amap, res, rank[t], {t}) && cs == res[t]
                     && (res[t] == own(t) || res[t] == Up(g, rank, own, t))
    ensures Walking(g, rank, own, dag, t, aggregate, amap, pures, res, amap, pures, res, cs, 0)
  {
    LaterSame(g, amap, pures);
  }

  /** Every visit that goes on leaves less to do: a node less to walk, or a pure one less. */
  lemma MeasureLess(g: Graph, t: TargetNode, aggregate: bool, a: set<TargetNode>, p: set<TargetNode>,
                    a1: set<TargetNode>, p1: set<TargetNode>, a2: set<TargetNode>, p2: set<TargetNode>)
    requires t in g && a <= g.Keys && Marking(t, aggregate, a, p, a1, p1)
    requires a1 <= a2 <= g.Keys && forall x :: x in a1 && x !in p1 ==> x !in p2
    ensures |g.Keys - a2| < |g.Keys - a| || (|g.Keys - a2| == |g.Keys - a| && |a2 * p2| < |a * p|)
  {
    if t !in a {
      Fewer(g.Keys - a2, g.Keys - a, t);
    } else if a2 == a {
      Fewer(a2 * p2, a * p, t);
    } else {
      var x :| x in a2 && x !in a;
      Fewer(g.Keys - a2, g.Keys - a, x);
    }
  }

  lemma Fewer(a: set<TargetNode>, b: set<TargetNode>, x: TargetNode)
    requires a <= b && x in b && x !in a
    ensures |a| < |b|
  {
    assert b == a + (b - a);
    assert x in b - a;
  }

  /** One edge of a visit: the conditions that come up it. */
  method WalkEdge(target: TargetNode, treatAsAggregate: bool, k: nat, cs: Conditions, amap: set<TargetNode>,
                  conditionsFn: TraceConditions, ghost g: Graph, ghost roots: seq<TargetNode>, ghost r: nat, ghost p: Route,
                  ghost dag: bool, ghost rank: Ranks, ghost amap1: set<TargetNode>, ghost pures1: set<TargetNode>,
                  ghost res1: map<TargetNode, Conditions>)
    returns (cs': Conditions, amap': set<TargetNode>)
    requires Closed(g) && HasEdges(g) && target in g && amap <= g.Keys && k < |g[target]|
    requires FromRoot(g, roots, r, p, target) && (treatAsAggregate <==> OnlyContainers(g, roots[r], p))
    requires Grounded(g, roots, amap, PureOf(g.Keys))
    requires Walking(g, rank, conditionsFn, dag, target, treatAsAggregate, amap1, pures1, res1, amap, PureOf(g.Keys), ResOf(g.Keys), cs, k)
    modifies g.Keys`resolution, g.Keys`pure
    ensures Grounded(g, roots, amap', PureOf(g.Keys))
    ensures Walking(g, rank, conditionsFn, dag, target, treatAsAggregate, amap1, pures1, res1, amap', PureOf(g.Keys), ResOf(g.Keys), cs', k + 1)
    decreases |g.Keys - amap|, |amap * PureOf(g.Keys)|, 1
  {
    ghost var pures, res := PureOf(g.Keys), ResOf(g.Keys);
    var edge := target.edges[k];
    FollowMore(g, roots[r], p, target, k);
    EdgeStart(g, rank, conditionsFn, dag, target, treatAsAggregate, amap1, pures1, res1, amap, pures, res, cs, k);
    var dcs;
    dcs, amap' := Walk(edge.dependency, treatAsAggregate && edge.dependency.isContainer, amap, conditionsFn,
                       g, roots, r, p + [k], dag, rank);
    EdgeEnd(g, rank, conditionsFn, dag, target, treatAsAggregate, amap1, pures1, res1, amap, pures, res,
            amap', PureOf(g.Keys), ResOf(g.Keys), cs, k, dcs);
    cs' := cs + DepConditionsPropagatingToTarget(edge, dcs);
  }

  lemma EdgeStart(g: Graph, rank: Ranks, own: TraceConditions, dag: bool, t: TargetNode, aggregate: bool,
                  amap1: set<TargetNode>, pures1: set<TargetNode>, res1: map<TargetNode, Conditions>,
                  amap: set<TargetNode>, pures: set<TargetNode>, res: map<TargetNode, Conditions>, cs: Conditions, k: nat)
    requires Closed(g) && Walking(g, rank, own, dag, t, aggregate, amap1, pures1, res1, amap, pures, res, cs, k) && k < |g[t]|
    ensures g[t][k].dependency in g && WhenAcyclic(dag, g, rank, own, amap, res, g[t][k].dependency)
  {
    if dag { ResolvedBelow(g, rank, own, amap, res, t, k); }
  }

  lemma EdgeEnd(g: Graph, rank: Ranks, own: TraceConditions, dag: bool, t: TargetNode, aggregate: bool,
                amap1: set<TargetNode>, pures1: set<TargetNode>, res1: map<TargetNode, Conditions>,
                amap: set<TargetNode>, pures: set<TargetNode>, res: map<TargetNode, Conditions>,
                amap': set<TargetNode>, pures': set<TargetNode>, res': map<TargetNode, Conditions>, cs: Conditions, k: nat, dcs: Conditions)
    requires Closed(g) && Walking(g, rank, own, dag, t, aggregate, amap1, pures1, res1, amap, pures, res, cs, k) && k < |g[t]|
    requires var d := g[t][k].dependency;
             Visited(g, rank, own, dag, d, aggregate && d.isContainer, amap, pures, res, amap', pures', res', dcs)
    ensures Walking(g, rank, own, dag, t, aggregate, amap1, pures1, res1, amap', pures', res',
                    cs + DepConditionsPropagatingToTarget(g[t][k], dcs), k + 1)
  {
    hide Settled;
    LaterAgain(g, amap1, pures1, amap, pures, amap', pures');
    if dag {
      EdgeResolved(g, rank, own, t, amap1, res1, amap, res, amap', res', k);
    }
  }

  lemma EdgeResolved(g: Graph, rank: Ranks, own: TraceConditions, t: TargetNode,
                     amap1: set<TargetNode>, res1: map<TargetNode, Conditions>, amap: set<TargetNode>, res: map<TargetNode, Conditions>,
                     amap': set<TargetNode>, res': map<TargetNode, Conditions>, k: nat)
    requires Closed(g) && Ranked(g, rank) && t in g && k < |g[t]| && amap <= amap' && res1.Keys == g.Keys
    requires Resolved(g, rank, own, amap, res, rank[t], {t}) && Above(g, rank, amap1, res1, amap, res, rank[t])
    requires Resolved(g, rank, own, amap', res', rank[g[t][k].dependency], {})
    requires Above(g, rank, amap, res, amap', res', rank[g[t][k].dependency])
    ensures Resolved(g, rank, own, amap', res', rank[t], {t}) && res'[t] == res[t] && Above(g, rank, amap1, res1, amap', res', rank[t])
  {
    hide Resolved, Above, Up;
    ResolvedKeys(g, rank, own, amap, res, rank[t], {t});
    ResolvedKeys(g, rank, own, amap', res', rank[g[t][k].dependency], {});
    ResolvedAfter(g, rank, own, amap, res, amap', res', t, k);
    AboveAgain(g, rank, amap1, res1, amap, res, amap', res', rank[t]);
  }

  lemma ResolvedKeys(g: Graph, rank: Ranks, own: TraceConditions, amap: set<TargetNode>, res: map<TargetNode, Conditions>,
                     limit: nat, but: set<TargetNode>)
    requires Closed(g) && Ranked(g, rank) && Resolved(g, rank, own, amap, res, limit, but)
    ensures res.Keys == g.Keys
  {
  }

  /** After the last edge: the target gets all that came up to it. */
  lemma LoopEnd(g: Graph, rank: Ranks, own: TraceConditions, dag: bool, t: TargetNode, aggregate: bool,
                a: set<TargetNode>, p: set<TargetNode>, r: map<TargetNode, Conditions>,
                a1: set<TargetNode>, p1: set<TargetNode>, r1: map<TargetNode, Conditions>,
                a2: set<TargetNode>, p2: set<TargetNode>, r2: map<TargetNode, Conditions>, cs: Conditions, r3: map<TargetNode, Conditions>)
    requires Closed(g) && t in g && a <= g.Keys && Marking(t, aggregate, a, p, a1, p1)
    requires r.Keys == r2.Keys == r3.Keys == g.Keys && AboveIf(dag, g, rank, a, r, a1, r1, t)
    requires Walking(g, rank, own, dag, t, aggregate, a1, p1, r1, a2, p2, r2, cs, |g[t]|)
    requires (forall x :: x in g && x != t ==> r3[x] == r2[x]) && r3[t] == r2[t] + cs
    ensures Visited(g, rank, own, dag, t, aggregate, a, p, r, a2, p2, r3, r3[t])
  {
    hide Settled, Later, Resolved, Up, UpEdges;
    WalkingDone(g, rank, own, dag, t, aggregate, a1, p1, r1, a2, p2, r2, cs);
    TargetSettled(g, t, aggregate, a, p, a1, p1, a2, p2);
    if dag {
      TargetRes(g, rank, own, a2, r2, t, cs, r3);
      AboveAgain(g, rank, a, r, a1, r1, a2, r2, rank[t]);
    }
  }

  lemma WalkingDone(g: Graph, rank: Ranks, own: TraceConditions, dag: bool, t: TargetNode, aggregate: bool,
                    a1: set<TargetNode>, p1: set<TargetNode>, r1: map<TargetNode, Conditions>,
                    a2: set<TargetNode>, p2: set<TargetNode>, r2: map<TargetNode, Conditions>, cs: Conditions)
    requires Closed(g) && t in g && Walking(g, rank, own, dag, t, aggregate, a1, p1, r1, a2, p2, r2, cs, |g[t]|)
    ensures t in a2 && Done(a2, p2, t, aggregate)
  {
  }

  // All roots.

  ghost predicate AllResolved(g: Graph, rank: Ranks, own: TraceConditions, amap: set<TargetNode>,
                              res: map<TargetNode, Conditions>)
    requires Closed(g) && Ranked(g, rank)
  {
    && res.Keys == g.Keys
    && (forall x :: x in amap && x in g ==> res[x] == Up(g, rank, own, x))
    && (forall x :: x in g && x !in amap ==> res[x] == {})
  }

  ghost predicate AllResolvedIf(dag: bool, g: Graph, rank: Ranks, own: TraceConditions, amap: set<TargetNode>,
                                res: map<TargetNode, Conditions>)
    requires Closed(g)
  {
    dag ==> Ranked(g, rank) && AllResolved(g, rank, own, amap, res)
  }

  lemma RootStart(dag: bool, g: Graph, rank: Ranks, own: TraceConditions, amap: set<TargetNode>, res: map<TargetNode, Conditions>,
                  t: TargetNode)
    requires Closed(g) && t in g && AllResolvedIf(dag, g, rank, own, amap, res)
    ensures WhenAcyclic(dag, g, rank, own, amap, res, t)
  {
  }

  lemma RootEnd(dag: bool, g: Graph, rank: Ranks, own: TraceConditions, t: TargetNode, aggregate: bool,
                a: set<TargetNode>, p: set<TargetNode>, r: map<TargetNode, Conditions>,
                b: set<TargetNode>, q: set<TargetNode>, s: map<TargetNode, Conditions>, cs: Conditions)
    requires Closed(g) && t in g && AllResolvedIf(dag, g, rank, own, a, r)
    requires Visited(g, rank, own, dag, t, aggregate, a, p, r, b, q, s, cs)
    ensures AllResolvedIf(dag, g, rank, own, b, s) && Later(g, a, p, b, q) && Done(b, q, t, aggregate)
  {
    if dag {
      forall x | x in b && x in g ensures s[x] == Up(g, rank, own, x) {
        if rank[x] > rank[t] {
          assert x in a && s[x] == r[x];
        }
      }
    }
  }

  ghost predicate RootsDone(roots: seq<TargetNode>, n: nat, amap: set<TargetNode>, pures: set<TargetNode>)
    requires n <= |roots|
  {
    forall j :: 0 <= j < n ==> Done(amap, pures, roots[j], roots[j].isContainer)
  }

  lemma RootsMore(g: Graph, roots: seq<TargetNode>, n: nat, a: set<TargetNode>, p: set<TargetNode>, b: set<TargetNode>,
                  q: set<TargetNode>)
    requires n < |roots| && RootsDone(roots, n, a, p) && Later(g, a, p, b, q) && Done(b, q, roots[n], roots[n].isContainer)
    ensures RootsDone(roots, n + 1, b, q)
  {
  }

  /** Every route has been followed with the right context. */
  lemma {:induction false} RouteDone(g: Graph, roots: seq<TargetNode>, amap: set<TargetNode>, pures: set<TargetNode>,
                                     r: nat, p: Route)
    requires RootsDone(roots, |roots|, amap, pures) && forall x :: x in amap ==> Settled(g, amap, pures, x)
    requires r < |roots| && Follow(g, roots[r], p).Some?
    ensures Done(amap, pures, Follow(g, roots[r], p).value, OnlyContainers(g, roots[r], p))
  {
    if p != [] {
      var init := p[..|p| - 1];
      RouteDone(g, roots, amap, pures, r, init);
      assert Settled(g, amap, pures, Follow(g, roots[r], init).value);
    } else {
      assert Done(amap, pures, roots[r], roots[r].isContainer);
    }
  }

  /** The marks in terms of routes: walked is reachable, and pure is reached through containers only. */
  lemma MarksMeanRoutes(g: Graph, roots: seq<TargetNode>, amap: set<TargetNode>, pures: set<TargetNode>, x: TargetNode)
    requires RootsDone(roots, |roots|, amap, pures) && (forall y :: y in amap ==> Settled(g, amap, pures, y))
    requires Grounded(g, roots, amap, pures)
    ensures x in amap <==> exists r: nat, p :: FromRoot(g, roots, r, p, x)
    ensures x in amap ==> (x in pures <==> forall r: nat, p :: FromRoot(g, roots, r, p, x) ==> OnlyContainers(g, roots[r], p))
  {
    hide Settled, OnlyContainers;
    forall r: nat, p | FromRoot(g, roots, r, p, x) ensures Done(amap, pures, x, OnlyContainers(g, roots[r], p)) {
      RouteDone(g, roots, amap, pures, r, p);
    }
  }

  /** The walk from all roots. It ends on any graph and marks as pure exactly the nodes that every route from a root
      reaches through containers only. Without cycles each node it reaches gets the conditions that come up to it. */
  method TraceBottomUpConditions(roots: seq<TargetNode>, conditionsFn: TraceConditions, ghost g: Graph, ghost dag: bool,
                                 ghost rank: Ranks)
    returns (ghost amap: set<TargetNode>)
    requires Closed(g) && HasEdges(g) && (forall t :: t in roots ==> t in g) && (dag ==> Ranked(g, rank))
    requires forall t :: t in g ==> t.resolution == {}
    modifies g.Keys`resolution, g.Keys`pure
    ensures forall x :: x in amap ==> x in g
    ensures forall x :: x in g ==> (x in amap <==> exists r: nat, p :: FromRoot(g, roots, r, p, x))
    ensures forall x :: x in amap ==>
              (x.pure <==> forall r: nat, p :: FromRoot(g, roots, r, p, x) ==> OnlyContainers(g, roots[r], p))
    ensures dag ==> forall x :: x in amap ==> x.resolution == Up(g, rank, conditionsFn, x)
    ensures dag ==> forall x :: x in amap && ToolchainOnly(g[x]) ==> x.resolution == conditionsFn(x)
  {
    hide Settled, Up, UpEdges, OnlyContainers, Follow, Grounded, Resolved, Above, Closed, Later, Ranked, Visited, WhenAcyclic,
         AllResolvedIf, RootsDone, Done;
    var walked: set<TargetNode> := {};
    ghost var pures := PureOf(g.Keys);
    LaterSame(g, {}, pures);
    NothingWalked(g, roots, rank, conditionsFn, dag, pures, ResOf(g.Keys));
    for j := 0 to |roots|
      invariant HasEdges(g) && Later(g, {}, pures, walked, PureOf(g.Keys)) && Grounded(g, roots, walked, PureOf(g.Keys))
      invariant RootsDone(roots, j, walked, PureOf(g.Keys)) && AllResolvedIf(dag, g, rank, conditionsFn, walked, ResOf(g.Keys))
      invariant walked <= g.Keys
    {
      ghost var a, p, r := walked, PureOf(g.Keys), ResOf(g.Keys);
      RootRoute(g, roots, j);
      RootStart(dag, g, rank, conditionsFn, walked, r, roots[j]);
      var cs;
      cs, walked := Walk(roots[j], roots[j].isContainer, walked, conditionsFn, g, roots, j, [], dag, rank);
      RootEnd(dag, g, rank, conditionsFn, roots[j], roots[j].isContainer, a, p, r, walked, PureOf(g.Keys), ResOf(g.Keys), cs);
      RootsMore(g, roots, j, a, p, walked, PureOf(g.Keys));
      LaterAgain(g, {}, pures, a, p, walked, PureOf(g.Keys));
      LaterKeys(g, {}, pures, walked, PureOf(g.Keys));
    }
    amap := walked;
    LaterKeys(g, {}, pures, walked, PureOf(g.Keys));
    forall x | x in g
      ensures x in amap <==> exists r: nat, p :: FromRoot(g, roots, r, p, x)
      ensures x in amap ==> (x.pure <==> forall r: nat, p :: FromRoot(g, roots, r, p, x) ==> OnlyContainers(g, roots[r], p))
    {
      MarksMeanRoutes(g, roots, amap, PureOf(g.Keys), x);
    }
    forall x | x in amap && dag
      ensures x.resolution == Up(g, rank, conditionsFn, x)
      ensures ToolchainOnly(g[x]) ==> x.resolution == conditionsFn(x)
    {
      ResolvedAt(dag, g, rank, conditionsFn, amap, ResOf(g.Keys), x);
      if ToolchainOnly(g[x]) {
        NothingFromToolchain(g, rank, conditionsFn, x);
      }
    }
  }

  lemma NothingWalked(g: Graph, roots: seq<TargetNode>, rank: Ranks, own: TraceConditions, dag: bool, pures: set<TargetNode>,
                      res: map<TargetNode, Conditions>)
    requires Closed(g) && (dag ==> Ranked(g, rank)) && res.Keys == g.Keys && forall t :: t in g ==> res[t] == {}
    ensures Grounded(g, roots, {}, pures) && RootsDone(roots, 0, {}, pures) && AllResolvedIf(dag, g, rank, own, {}, res)
  {
  }

  lemma RootRoute(g: Graph, roots: seq<TargetNode>, j: nat)
    requires j < |roots|
    ensures FromRoot(g, roots, j, [], roots[j]) && (OnlyContainers(g, roots[j], []) <==> roots[j].isContainer)
  {
  }

  lemma LaterKeys(g: Graph, a: set<TargetNode>, p: set<TargetNode>, b: set<TargetNode>, q: set<TargetNode>)
    requires Later(g, a, p, b, q) && a == {}
    ensures b <= g.Keys && forall x :: x in b ==> Settled(g, b, q, x)
  {
  }

  lemma ResolvedAt(dag: bool, g: Graph, rank: Ranks, own: TraceConditions, amap: set<TargetNode>, res: map<TargetNode, Conditions>,
                   x: TargetNode)
    requires Closed(g) && dag && AllResolvedIf(dag, g, rank, own, amap, res) && x in amap && x in g
    ensures Ranked(g, rank) && x in res && res[x] == Up(g, rank, own, x)
  {
  }

  // What comes up, in terms of routes.

  /** The condition can come up the whole route. */
  ghost predicate UpRoute(g: Graph, x: TargetNode, p: Route, c: Condition)
    decreases |p|
  {
    p == [] || (x in g && p[0] < |g[x]| && GoesUp(g[x][p[0]], c) && UpRoute(g, g[x][p[0]].dependency, p[1..], c))
  }

  ghost predicate Originates(g: Graph, own: TraceConditions, x: TargetNode, p: Route, c: Condition) {
    UpRoute(g, x, p, c) && Follow(g, x, p).Some? && c in own(Follow(g, x, p).value)
  }

  /** What a node ends up with: its own conditions; restricted, if a node reachable over links originates it; weakly
      restricted, if a node reachable over derivation alone does. Nothing else comes up. */
  lemma {:induction false} UpIsReach(g: Graph, rank: Ranks, own: TraceConditions, t: TargetNode, c: Condition)
    requires Closed(g) && Ranked(g, rank) && t in g
    ensures c in Up(g, rank, own, t) <==> exists p :: Originates(g, own, t, p, c)
    decreases rank[t]
  {
    if c in Up(g, rank, own, t) {
      if c in own(t) {
        assert Originates(g, own, t, [], c);
      } else {
        var i := FromEdge(g, rank, own, t, |g[t]|, c);
        UpIsReach(g, rank, own, g[t][i].dependency, c);
        var p :| Originates(g, own, g[t][i].dependency, p, c);
        Prepend(g, own, t, i, p, c);
      }
    }
    if p :| Originates(g, own, t, p, c) {
      if p != [] {
        FollowFront(g, t, p[0], p[1..]);
        assert p == [p[0]] + p[1..];
        assert Originates(g, own, g[t][p[0]].dependency, p[1..], c);
        UpIsReach(g, rank, own, g[t][p[0]].dependency, c);
        ToEdge(g, rank, own, t, |g[t]|, p[0], c);
      }
    }
  }

  lemma Prepend(g: Graph, own: TraceConditions, t: TargetNode, i: nat, p: Route, c: Condition)
    requires t in g && i < |g[t]| && GoesUp(g[t][i], c) && Originates(g, own, g[t][i].dependency, p, c)
    ensures Originates(g, own, t, [i] + p, c)
  {
    FollowFront(g, t, i, p);
    assert ([i] + p)[1..] == p;
  }

  lemma {:induction false} FromEdge(g: Graph, rank: Ranks, own: TraceConditions, t: TargetNode, n: nat,
                                    c: Condition) returns (i: nat)
    requires Closed(g) && Ranked(g, rank) && t in g && n <= |g[t]| && c in UpEdges(g, rank, own, t, n)
    ensures i < n && GoesUp(g[t][i], c) && c in Up(g, rank, own, g[t][i].dependency)
  {
    if c in UpEdges(g, rank, own, t, n - 1) {
      i := FromEdge(g, rank, own, t, n - 1, c);
    } else {
      i := n - 1;
    }
  }

  lemma {:induction false} ToEdge(g: Graph, rank: Ranks, own: TraceConditions, t: TargetNode, n: nat, i: nat, c: Condition)
    requires Closed(g) && Ranked(g, rank) && t in g && i < n <= |g[t]|
    requires GoesUp(g[t][i], c) && c in Up(g, rank, own, g[t][i].dependency)
    ensures c in UpEdges(g, rank, own, t, n)
  {
    if i < n - 1 {
      ToEdge(g, rank, own, t, n - 1, i, c);
    }
  }

  /** A target that has only toolchain edges keeps to its own conditions. */
  lemma NothingFromToolchain(g: Graph, rank: Ranks, own: TraceConditions, t: TargetNode)
    requires Closed(g) && Ranked(g, rank) && t in g && ToolchainOnly(g[t])
    ensures Up(g, rank, own, t) == own(t)
  {
    hide Up, UpEdges;
    forall c ensures c in Up(g, rank, own, t) <==> c in own(t) {
      UpIsReach(g, rank, own, t, c);
      if p :| Originates(g, own, t, p, c) {
        assert p == [];
      }
      if c in own(t) {
        assert Originates(g, own, t, [], c);
      }
    }
  }
}
