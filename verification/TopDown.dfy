/** The top-down walk: which conditions reach a dependency from above. */
module TopDown {
  import opened Policy
  import opened LicenseGraph
  import BottomUp

  type Resolutions = map<TargetNode, Conditions>

  /** How conditions may go down from a node.
      Plain: as if no node were an aggregate. Mixed: as if every container were one.
      Upper: all that may go down in the walk, of what is held at a node. Lower: what has to go down. In both, the
      containers in `sure` are known to be walked as aggregates only. */
  datatype Rule = Plain | Mixed | Upper(sure: set<TargetNode>, held: Resolutions) | Lower(sure: set<TargetNode>)

  ghost predicate Flows(rule: Rule, x: TargetNode, e: TargetEdge, own: Conditions, c: Condition) {
    if !x.isContainer then FlowsDown(e, c) && (rule.Upper? ==> x in rule.held && c in rule.held[x])
    else
      match rule
      case Plain => FlowsDown(e, c)
      case Mixed => FlowsFromAggregate(e, own, c)
      case Upper(sure, held) =>
        x in held && c in held[x] && (FlowsFromAggregate(e, own, c) || (x !in sure && FlowsDown(e, c)))
      case Lower(sure) => FlowsFromAggregate(e, own, c) && (x !in sure ==> FlowsDown(e, c))
  }

  // The walk never goes beyond what some route explains.

  /** Condition `c` of some node reaches the end of the route from there. */
  ghost predicate Carried(g: Graph, own: TraceConditions, rule: Rule, x: TargetNode, p: Route, c: Condition)
    decreases |p|
  {
    p == [] ||
    match Follow(g, x, p[..|p| - 1])
    case None => false
    case Some(y) =>
      && y in g && p[|p| - 1] < |g[y]| && Carried(g, own, rule, x, p[..|p| - 1], c)
      && Flows(rule, y, g[y][p[|p| - 1]], own(y), c)
  }

  /** The node is reached from a root. */
  ghost predicate Reached(g: Graph, roots: seq<TargetNode>, x: TargetNode) {
    exists r: nat, p :: FromRoot(g, roots, r, p, x)
  }

  /** `c` starts at a node on a route from a root and is carried on to `x`. */
  ghost predicate Explained(g: Graph, roots: seq<TargetNode>, own: TraceConditions, base: Resolutions, rule: Rule,
                            x: TargetNode, c: Condition)
  {
    exists r: nat, p, q :: ExplainedBy(g, roots, own, base, rule, r, p, q, x, c)
  }

  ghost predicate ExplainedBy(g: Graph, roots: seq<TargetNode>, own: TraceConditions, base: Resolutions, rule: Rule,
                              r: nat, p: Route, q: Route, x: TargetNode, c: Condition)
  {
    && r < |roots| && Follow(g, roots[r], p).Some?
    && var y := Follow(g, roots[r], p).value;
       && y in base && c in base[y] + own(y) && Follow(g, y, q) == Some(x) && Carried(g, own, rule, y, q, c)
  }

  lemma ExplainedHere(g: Graph, roots: seq<TargetNode>, own: TraceConditions, base: Resolutions, rule: Rule,
                      x: TargetNode, c: Condition)
    requires Reached(g, roots, x) && x in base && c in base[x] + own(x)
    ensures Explained(g, roots, own, base, rule, x, c)
  {
    var r: nat, p :| FromRoot(g, roots, r, p, x);
    assert ExplainedBy(g, roots, own, base, rule, r, p, [], x, c);
  }

  /** What is explained at a node and goes down an edge is explained at its end. */
  lemma ExplainedNext(g: Graph, roots: seq<TargetNode>, own: TraceConditions, base: Resolutions, rule: Rule,
                      x: TargetNode, i: nat, c: Condition)
    requires Explained(g, roots, own, base, rule, x, c) && x in g && i < |g[x]|
    requires Flows(rule, x, g[x][i], own(x), c)
    ensures Explained(g, roots, own, base, rule, g[x][i].dependency, c)
  {
    var r: nat, p, q :| ExplainedBy(g, roots, own, base, rule, r, p, q, x, c);
    var y := Follow(g, roots[r], p).value;
    FollowMore(g, y, q, x, i);
    assert (q + [i])[..|q|] == q;
    assert ExplainedBy(g, roots, own, base, rule, r, p, q + [i], g[x][i].dependency, c);
  }

  /** Resolutions that hold what is there at the start and are closed under the edge rule. */
  ghost predicate Solution(g: Graph, roots: seq<TargetNode>, own: TraceConditions, base: Resolutions, rule: Rule, res: Resolutions) {
    && g.Keys <= res.Keys && g.Keys <= base.Keys
    && (forall x :: x in g && Reached(g, roots, x) ==> base[x] + own(x) <= res[x])
    && (forall x, i, c :: x in g && Reached(g, roots, x) && 0 <= i < |g[x]| && c in res[x]
                          && Flows(rule, x, g[x][i], own(x), c) ==>
          g[x][i].dependency in res && c in res[g[x][i].dependency])
  }

  lemma ReachedNext(g: Graph, roots: seq<TargetNode>, x: TargetNode, i: nat)
    requires Reached(g, roots, x) && x in g && i < |g[x]|
    ensures Reached(g, roots, g[x][i].dependency)
  {
    var r: nat, p :| FromRoot(g, roots, r, p, x);
    FollowMore(g, roots[r], p, x, i);
    assert FromRoot(g, roots, r, p + [i], g[x][i].dependency);
  }

  /** Whatever is explained is in every solution. */
  lemma {:induction false} InEverySolution(g: Graph, roots: seq<TargetNode>, own: TraceConditions, base: Resolutions, rule: Rule,
                                           res: Resolutions, y: TargetNode, q: Route, c: Condition)
    requires Closed(g) && Solution(g, roots, own, base, rule, res) && Reached(g, roots, y) && y in g && c in base[y] + own(y)
    requires Follow(g, y, q).Some? && Carried(g, own, rule, y, q, c)
    ensures var x := Follow(g, y, q).value; x in g && Reached(g, roots, x) && c in res[x]
    decreases |q|
  {
    if q != [] {
      var init, i := q[..|q| - 1], q[|q| - 1];
      InEverySolution(g, roots, own, base, rule, res, y, init, c);
      ReachedNext(g, roots, Follow(g, y, init).value, i);
    }
  }

  /** The explained conditions are the least solution. */
  lemma ExplainedIsLeast(g: Graph, roots: seq<TargetNode>, own: TraceConditions, base: Resolutions, rule: Rule,
                         res: Resolutions, x: TargetNode, c: Condition)
    requires Closed(g) && Solution(g, roots, own, base, rule, res) && Explained(g, roots, own, base, rule, x, c)
    requires forall t :: t in roots ==> t in g
    ensures x in res && c in res[x]
  {
    var r: nat, p, q :| ExplainedBy(g, roots, own, base, rule, r, p, q, x, c);
    var y := Follow(g, roots[r], p).value;
    assert FromRoot(g, roots, r, p, y);
    InGraph(g, roots, r, p);
    InEverySolution(g, roots, own, base, rule, res, y, q, c);
  }

  lemma {:induction false} InGraph(g: Graph, roots: seq<TargetNode>, r: nat, p: Route)
    requires Closed(g) && (forall t :: t in roots ==> t in g) && r < |roots| && Follow(g, roots[r], p).Some?
    ensures Follow(g, roots[r], p).value in g
  {
    if p != [] {
      InGraph(g, roots, r, p[..|p| - 1]);
    }
  }

  // The walk.

  /** Every route from a root to the node leads through containers only, the node included. */
  ghost predicate ThroughContainers(g: Graph, roots: seq<TargetNode>, x: TargetNode) {
    forall r: nat, p :: FromRoot(g, roots, r, p, x) ==> OnlyContainers(g, roots[r], p)
  }

  /** The containers that the walk only meets as aggregates. */
  ghost function SureAggregates(g: Graph, roots: seq<TargetNode>): (s: set<TargetNode>) {
    set x | x in g && x.isContainer && ThroughContainers(g, roots, x)
  }

  /** What the walk needs to know of them: one that is met is met from another one. */
  ghost predicate Sure(g: Graph, roots: seq<TargetNode>, sure: set<TargetNode>) {
    && (forall t :: t in roots && t in sure ==> t.isContainer)
    && (forall x, i :: x in g && Reached(g, roots, x) && 0 <= i < |g[x]| && g[x][i].dependency in sure ==>
          x in sure && g[x][i].dependency.isContainer)
  }

  lemma SureHolds(g: Graph, roots: seq<TargetNode>)
    ensures Sure(g, roots, SureAggregates(g, roots))
  {
    hide Follow, OnlyContainers;
    var sure := SureAggregates(g, roots);
    forall x, i | x in g && Reached(g, roots, x) && 0 <= i < |g[x]| && g[x][i].dependency in sure
      ensures x in sure && g[x][i].dependency.isContainer
    {
      forall r: nat, p: Route | FromRoot(g, roots, r, p, x) ensures OnlyContainers(g, roots[r], p) && x.isContainer {
        OneMoreEdge(g, roots, r, p, x, i);
        assert OnlyContainers(g, roots[r], p + [i]);
      }
      var r: nat, p :| FromRoot(g, roots, r, p, x);
    }
  }

  lemma OneMoreEdge(g: Graph, roots: seq<TargetNode>, r: nat, p: Route, x: TargetNode, i: nat)
    requires FromRoot(g, roots, r, p, x) && x in g && i < |g[x]|
    ensures FromRoot(g, roots, r, p + [i], g[x][i].dependency)
    ensures OnlyContainers(g, roots[r], p + [i]) ==> OnlyContainers(g, roots[r], p) && x.isContainer
  {
    FollowMore(g, roots[r], p, x, i);
  }

  lemma SureBefore(g: Graph, roots: seq<TargetNode>, sure: set<TargetNode>, x: TargetNode, i: nat)
    requires Sure(g, roots, sure) && x in g && Reached(g, roots, x) && i < |g[x]|
    ensures g[x][i].dependency in sure ==> x in sure && g[x][i].dependency.isContainer
  {
  }

  /** What has to go down from the node has gone down all its edges. */
  ghost predicate Pushed(g: Graph, sure: set<TargetNode>, own: TraceConditions, res: Resolutions, x: TargetNode)
    requires Closed(g) && res.Keys == g.Keys
  {
    x in g && forall i, c :: 0 <= i < |g[x]| && c in res[x] && Flows(Lower(sure), x, g[x][i], own(x), c) ==>
                c in res[g[x][i].dependency]
  }

  ghost predicate DepsWalked(g: Graph, amap: set<TargetNode>, x: TargetNode) {
    x in g && forall i :: 0 <= i < |g[x]| ==> g[x][i].dependency in amap
  }

  /** From one state of the walk to a later one: nothing is lost, what has changed has been pushed, and
      nothing becomes pure unless something else has changed. */
  ghost predicate Grows(g: Graph, sure: set<TargetNode>, own: TraceConditions, a: set<TargetNode>, r: Resolutions, p: set<TargetNode>,
                        b: set<TargetNode>, s: Resolutions, q: set<TargetNode>)
    requires Closed(g)
  {
    && r.Keys == s.Keys == g.Keys && a <= b <= g.Keys
    && (forall x :: x in g ==> r[x] <= s[x])
    && (forall x :: x in b && (x !in a || s[x] != r[x]) ==> Pushed(g, sure, own, s, x))
    && (forall x :: x in b && x !in a ==> DepsWalked(g, b, x) && own(x) <= s[x])
    && (a == b && r == s ==> q <= p)
  }

  lemma GrowsSame(g: Graph, sure: set<TargetNode>, own: TraceConditions, a: set<TargetNode>, r: Resolutions,
                  p: set<TargetNode>)
    requires Closed(g) && a <= g.Keys == r.Keys
    ensures Grows(g, sure, own, a, r, p, a, r, p)
  {
  }

  lemma PushedStays(g: Graph, sure: set<TargetNode>, own: TraceConditions, r: Resolutions, s: Resolutions, x: TargetNode)
    requires Closed(g) && r.Keys == s.Keys == g.Keys && (forall y :: y in g ==> r[y] <= s[y])
    requires Pushed(g, sure, own, r, x) && s[x] == r[x]
    ensures Pushed(g, sure, own, s, x)
  {
    hide Flows;
    forall i, c | 0 <= i < |g[x]| && c in s[x] && Flows(Lower(sure), x, g[x][i], own(x), c) ensures c in s[g[x][i].dependency] {
      assert c in r[g[x][i].dependency];
    }
  }

  lemma SameMap(g: Graph, r: Resolutions, s: Resolutions)
    requires r.Keys == s.Keys == g.Keys && forall x :: x in g ==> r[x] == s[x]
    ensures r == s
  {
  }

  lemma GrowsAgain(g: Graph, sure: set<TargetNode>, own: TraceConditions, a: set<TargetNode>, r: Resolutions, p: set<TargetNode>,
                   b: set<TargetNode>, s: Resolutions, q: set<TargetNode>, c: set<TargetNode>, u: Resolutions, o: set<TargetNode>)
    requires Closed(g) && Grows(g, sure, own, a, r, p, b, s, q) && Grows(g, sure, own, b, s, q, c, u, o)
    ensures Grows(g, sure, own, a, r, p, c, u, o)
  {
    hide Pushed;
    forall x | x in c && (x !in a || u[x] != r[x]) ensures Pushed(g, sure, own, u, x) {
      if x in b && u[x] == s[x] {
        assert Pushed(g, sure, own, s, x);
        PushedStays(g, sure, own, s, u, x);
      }
    }
    if a == c && r == u {
      assert a == b && b == c;
      forall x | x in g ensures r[x] == s[x] && s[x] == u[x] {
      }
      SameMap(g, r, s);
      SameMap(g, s, u);
    }
  }

  /** What the first part of a visit does. */
  ghost predicate Entered(t: TargetNode, cs: Conditions, aggregate: bool, own: TraceConditions,
                          a: set<TargetNode>, r: Resolutions, p: set<TargetNode>,
                          b: set<TargetNode>, s: Resolutions, q: set<TargetNode>)
    requires t in r
  {
    && b == a + {t} && s == r[t := if t in a then r[t] + cs else r[t] + own(t) + cs]
    && q == (if aggregate then p + {t} else p - {t})
    && (t in a && cs <= r[t] ==> t in p && !aggregate)
  }

  lemma DepsAre(g: Graph, b: set<TargetNode>, t: TargetNode)
    requires t in g && forall i :: 0 <= i < |g[t]| ==> g[t][i].dependency in b
    ensures DepsWalked(g, b, t)
  {
  }

  /** After all edges of the target. */
  lemma TargetPushed(g: Graph, sure: set<TargetNode>, own: TraceConditions, t: TargetNode, cs: Conditions, aggregate: bool,
                     a: set<TargetNode>, r: Resolutions, p: set<TargetNode>, a1: set<TargetNode>, r1: Resolutions, p1: set<TargetNode>,
                     a2: set<TargetNode>, r2: Resolutions, p2: set<TargetNode>)
    requires Closed(g) && t in g && a <= g.Keys == r.Keys && Entered(t, cs, aggregate, own, a, r, p, a1, r1, p1)
    requires (aggregate ==> t.isContainer) && (t in sure ==> aggregate) && Grows(g, sure, own, a1, r1, p1, a2, r2, p2)
    requires forall i :: 0 <= i < |g[t]| ==>
      && g[t][i].dependency in a2
      && TargetConditionsPropagatingToDep(g[t][i], r1[t], aggregate, own(t)) <= r2[g[t][i].dependency]
    ensures Grows(g, sure, own, a, r, p, a2, r2, p2)
  {
    hide TargetConditionsPropagatingToDep, Flows, Pushed, DepsWalked;
    DepsAre(g, a2, t);
    forall x | x in a2 && (x !in a || r2[x] != r[x]) ensures Pushed(g, sure, own, r2, x) {
      if x == t && r2[t] == r1[t] {
        TargetPushes(g, sure, own, t, aggregate, r1, r2);
      }
    }
    if a == a2 && r == r2 {
      assert t in a && a1 == a;
      assert r1[t] == r[t];
      assert cs <= r[t];
      SameMap(g, r1, r);
      assert r1 == r2;
    }
  }

  lemma TargetPushes(g: Graph, sure: set<TargetNode>, own: TraceConditions, t: TargetNode, aggregate: bool,
                     r1: Resolutions, r2: Resolutions)
    requires Closed(g) && t in g && r1.Keys == r2.Keys == g.Keys && r2[t] == r1[t]
    requires (aggregate ==> t.isContainer) && (t in sure ==> aggregate)
    requires forall i :: 0 <= i < |g[t]| ==>
      TargetConditionsPropagatingToDep(g[t][i], r1[t], aggregate, own(t)) <= r2[g[t][i].dependency]
    ensures Pushed(g, sure, own, r2, t)
  {
    hide TargetConditionsPropagatingToDep;
    forall i, c | 0 <= i < |g[t]| && c in r2[t] && Flows(Lower(sure), t, g[t][i], own(t), c) ensures c in r2[g[t][i].dependency] {
      assert c in TargetConditionsPropagatingToDep(g[t][i], r1[t], aggregate, own(t));
    }
  }

  // How much there is left to do.

  ghost function AllConditions(): Conditions {
    {Unencumbered, Permissive, Notice, Reciprocal, Restricted, WeaklyRestricted, Proprietary, ByExceptionOnly, NotAllowed}
  }

  lemma EveryCondition(c: Condition)
    ensures c in AllConditions()
  {
    match c
    case NotAllowed =>
    case _ =>
  }

  ghost function Missing(g: Graph, r: Resolutions): set<(TargetNode, Condition)>
    requires r.Keys == g.Keys
  {
    set x, c | x in g && c in AllConditions() && c !in r[x] :: (x, c)
  }

  lemma Smaller<T>(a: set<T>, b: set<T>)
    requires a <= b
    ensures |a| <= |b| && (a != b ==> |a| < |b|)
  {
    assert b == a + (b - a);
    if a != b {
      assert b - a != {};
    }
  }

  lemma MissingLess(g: Graph, r: Resolutions, s: Resolutions)
    requires r.Keys == s.Keys == g.Keys && forall x :: x in g ==> r[x] <= s[x]
    ensures |Missing(g, s)| <= |Missing(g, r)|
    ensures r != s ==> |Missing(g, s)| < |Missing(g, r)|
  {
    Smaller(Missing(g, s), Missing(g, r));
    if r != s {
      var x :| x in g && r[x] != s[x];
      var c :| c in s[x] && c !in r[x];
      EveryCondition(c);
      assert (x, c) in Missing(g, r) && (x, c) !in Missing(g, s);
    }
  }

  ghost predicate Less(a: nat, b: nat, c: nat, x: nat, y: nat, z: nat) {
    a < x || (a == x && (b < y || (b == y && c < z)))
  }

  /** Each visit that goes on leaves less to do. */
  lemma WorkLess(g: Graph, sure: set<TargetNode>, own: TraceConditions, t: TargetNode, cs: Conditions, aggregate: bool,
                 a: set<TargetNode>, r: Resolutions, p: set<TargetNode>, a1: set<TargetNode>, r1: Resolutions, p1: set<TargetNode>,
                 a2: set<TargetNode>, r2: Resolutions, p2: set<TargetNode>)
    requires Closed(g) && t in g && a <= g.Keys == r.Keys && p <= g.Keys && Entered(t, cs, aggregate, own, a, r, p, a1, r1, p1)
    requires Grows(g, sure, own, a1, r1, p1, a2, r2, p2)
    ensures Less(|g.Keys - a2|, |Missing(g, r2)|, |p2|, |g.Keys - a|, |Missing(g, r)|, |p|)
  {
    hide Pushed, DepsWalked, Missing;
    Smaller(g.Keys - a2, g.Keys - a);
    MissingLess(g, r, r2);
    if a2 == a && r2 == r {
      assert a1 == a;
      forall x | x in g ensures r1[x] == r[x] {
      }
      SameMap(g, r1, r);
      assert t in a && cs <= r[t];
      Smaller(p2, p);
      assert t in p && t !in p2;
    } else if a2 != a {
      var x :| x in a2 && x !in a;
      assert x in g.Keys - a && x !in g.Keys - a2;
    }
  }

  // One visit.

  /** Every resolution is there from the start or explained by a route whose nodes hold it as well. */
  ghost predicate AllExplained(g: Graph, sure: set<TargetNode>, roots: seq<TargetNode>, own: TraceConditions, base: Resolutions,
                               res: Resolutions) {
    g.Keys == res.Keys == base.Keys
    && forall x, c :: x in g && c in res[x] ==> c in base[x] || Explained(g, roots, own, base, Upper(sure, res), x, c)
  }

  ghost predicate CsExplained(g: Graph, sure: set<TargetNode>, roots: seq<TargetNode>, own: TraceConditions, base: Resolutions,
                              res: Resolutions, x: TargetNode, cs: Conditions) {
    forall c :: c in cs ==> Explained(g, roots, own, base, Upper(sure, res), x, c)
  }

  /** The more is held, the more is explained. */
  lemma {:induction false} CarriedMore(g: Graph, own: TraceConditions, sure: set<TargetNode>, r: Resolutions, s: Resolutions,
                                       x: TargetNode, p: Route, c: Condition)
    requires (forall y :: y in r ==> y in s && r[y] <= s[y]) && Carried(g, own, Upper(sure, r), x, p, c)
    ensures Carried(g, own, Upper(sure, s), x, p, c)
    decreases |p|
  {
    if p != [] {
      CarriedMore(g, own, sure, r, s, x, p[..|p| - 1], c);
    }
  }

  lemma ExplainedMore(g: Graph, roots: seq<TargetNode>, own: TraceConditions, base: Resolutions, sure: set<TargetNode>,
                      r: Resolutions, s: Resolutions, x: TargetNode, c: Condition)
    requires (forall y :: y in r ==> y in s && r[y] <= s[y]) && Explained(g, roots, own, base, Upper(sure, r), x, c)
    ensures Explained(g, roots, own, base, Upper(sure, s), x, c)
  {
    hide Carried;
    var k: nat, p, q :| ExplainedBy(g, roots, own, base, Upper(sure, r), k, p, q, x, c);
    CarriedMore(g, own, sure, r, s, Follow(g, roots[k], p).value, q, c);
    assert ExplainedBy(g, roots, own, base, Upper(sure, s), k, p, q, x, c);
  }

  lemma CsExplainedMore(g: Graph, sure: set<TargetNode>, roots: seq<TargetNode>, own: TraceConditions, base: Resolutions,
                        r: Resolutions, s: Resolutions, x: TargetNode, cs: Conditions)
    requires (forall y :: y in r ==> y in s && r[y] <= s[y]) && CsExplained(g, sure, roots, own, base, r, x, cs)
    ensures CsExplained(g, sure, roots, own, base, s, x, cs)
  {
    hide Explained;
    forall c | c in cs ensures Explained(g, roots, own, base, Upper(sure, s), x, c) {
      ExplainedMore(g, roots, own, base, sure, r, s, x, c);
    }
  }

  lemma EnteredExplained(g: Graph, sure: set<TargetNode>, roots: seq<TargetNode>, own: TraceConditions, base: Resolutions,
                         t: TargetNode, cs: Conditions, aggregate: bool, a: set<TargetNode>, r: Resolutions, p: set<TargetNode>,
                         a1: set<TargetNode>, r1: Resolutions, p1: set<TargetNode>)
    requires AllExplained(g, sure, roots, own, base, r) && t in g && Reached(g, roots, t)
    requires CsExplained(g, sure, roots, own, base, r, t, cs)
    requires Entered(t, cs, aggregate, own, a, r, p, a1, r1, p1)
    ensures AllExplained(g, sure, roots, own, base, r1) && CsExplained(g, sure, roots, own, base, r1, t, r1[t])
  {
    hide Explained, Reached;
    forall x, c | x in g && c in r1[x] && (x == t || c !in base[x]) ensures Explained(g, roots, own, base, Upper(sure, r1), x, c) {
      if x == t && c in base[t] + own(t) {
        ExplainedHere(g, roots, own, base, Upper(sure, r1), t, c);
      } else {
        ExplainedMore(g, roots, own, base, sure, r, r1, x, c);
      }
    }
  }

  lemma EdgeExplained(g: Graph, sure: set<TargetNode>, roots: seq<TargetNode>, own: TraceConditions, base: Resolutions,
                      res: Resolutions, t: TargetNode, cs: Conditions, aggregate: bool, i: nat)
    requires t in g && i < |g[t]| && CsExplained(g, sure, roots, own, base, res, t, cs)
    requires (aggregate ==> t.isContainer) && (t in sure ==> aggregate) && t in res && cs <= res[t]
    ensures CsExplained(g, sure, roots, own, base, res, g[t][i].dependency,
                        TargetConditionsPropagatingToDep(g[t][i], cs, aggregate, own(t)))
  {
    hide Explained;
    var d := g[t][i].dependency;
    forall c | c in TargetConditionsPropagatingToDep(g[t][i], cs, aggregate, own(t))
      ensures Explained(g, roots, own, base, Upper(sure, res), d, c)
    {
      ExplainedNext(g, roots, own, base, Upper(sure, res), t, i, c);
    }
  }

  /** Whether there is anything to do for the node; if so it takes the conditions. */
  method ContinueWalk(fnode: TargetNode, cs: Conditions, treatAsAggregate: bool, amap: set<TargetNode>, conditionsFn: TraceConditions,
                      ghost g: Graph)
    returns (goOn: bool, cs': Conditions, amap': set<TargetNode>)
    requires fnode in g
    modifies fnode`resolution, fnode`pure
    ensures goOn <==> fnode !in amap || (cs != {} && (!(cs <= old(fnode.resolution)) || (!treatAsAggregate && old(fnode.pure))))
    ensures !goOn ==> amap' == amap && ResOf(g.Keys) == old(ResOf(g.Keys)) && PureOf(g.Keys) == old(PureOf(g.Keys))
                      && fnode in amap && cs <= ResOf(g.Keys)[fnode]
    ensures goOn ==> cs' == ResOf(g.Keys)[fnode]
                     && Entered(fnode, cs, treatAsAggregate, conditionsFn, amap, old(ResOf(g.Keys)), old(PureOf(g.Keys)),
                                amap', ResOf(g.Keys), PureOf(g.Keys))
  {
    ghost var res, pures := ResOf(g.Keys), PureOf(g.Keys);
    cs', amap' := cs, amap;
    if fnode in amap {
      if cs == {} {
        return false, cs', amap';
      }
      if cs - fnode.resolution == {} {
        NoNew(cs, fnode.resolution);
        if treatAsAggregate {
          return false, cs', amap';
        }
        if !fnode.pure {
          return false, cs', amap';
        }
      }
    } else {
      fnode.resolution := fnode.resolution + conditionsFn(fnode);
    }
    fnode.resolution := fnode.resolution + cs;
    fnode.pure := treatAsAggregate;
    amap' := amap + {fnode};
    cs' := fnode.resolution;
    goOn := true;
    EnteredNow(g, fnode, cs, treatAsAggregate, conditionsFn, amap, res, pures, ResOf(g.Keys), PureOf(g.Keys));
  }

  lemma NoNew(cs: Conditions, r: Conditions)
    requires cs - r == {}
    ensures cs <= r
  {
    forall c | c in cs ensures c in r {
      assert c !in cs - r;
    }
  }

  lemma EnteredNow(g: Graph, t: TargetNode, cs: Conditions, aggregate: bool, own: TraceConditions, a: set<TargetNode>,
                   r: Resolutions, p: set<TargetNode>, s: Resolutions, q: set<TargetNode>)
    requires t in g && r.Keys == s.Keys == g.Keys && p <= g.Keys && q <= g.Keys
    requires forall x :: x in g && x != t ==> s[x] == r[x] && (x in q <==> x in p)
    requires s[t] == if t in a then r[t] + cs else r[t] + own(t) + cs
    requires t in q <==> aggregate
    requires t in a && cs <= r[t] ==> t in p && !aggregate
    ensures Entered(t, cs, aggregate, own, a, r, p, a + {t}, s, q)
  {
    var want := r[t := if t in a then r[t] + cs else r[t] + own(t) + cs];
    assert s.Keys == want.Keys && forall x :: x in s ==> s[x] == want[x];
    assert s == want;
  }

  /** The result of a visit. */
  ghost predicate Visited(g: Graph, sure: set<TargetNode>, own: TraceConditions, t: TargetNode, cs: Conditions,
                          a: set<TargetNode>, r: Resolutions, p: set<TargetNode>, b: set<TargetNode>, s: Resolutions, q: set<TargetNode>)
    requires Closed(g)
  {
    Grows(g, sure, own, a, r, p, b, s, q) && t in b && t in s && cs <= s[t]
  }

  /** The state of a visit after `k` edges. */
  ghost predicate Walking(g: Graph, sure: set<TargetNode>, own: TraceConditions, t: TargetNode, cs: Conditions, aggregate: bool,
                          a1: set<TargetNode>, r1: Resolutions, p1: set<TargetNode>, a2: set<TargetNode>, r2: Resolutions, p2: set<TargetNode>, k: nat)
    requires Closed(g)
  {
    && t in g && k <= |g[t]| && Grows(g, sure, own, a1, r1, p1, a2, r2, p2)
    && forall i :: 0 <= i < k ==>
         && g[t][i].dependency in a2
         && TargetConditionsPropagatingToDep(g[t][i], cs, aggregate, own(t)) <= r2[g[t][i].dependency]
  }

  lemma WalkingParts(g: Graph, sure: set<TargetNode>, own: TraceConditions, t: TargetNode, cs: Conditions, aggregate: bool,
                     a1: set<TargetNode>, r1: Resolutions, p1: set<TargetNode>, a2: set<TargetNode>, r2: Resolutions, p2: set<TargetNode>, k: nat)
    requires Closed(g) && Walking(g, sure, own, t, cs, aggregate, a1, r1, p1, a2, r2, p2, k)
    ensures r1.Keys == r2.Keys == g.Keys && forall x :: x in g ==> r1[x] <= r2[x]
  {
    hide Pushed, DepsWalked;
  }

  lemma WalkingStart(g: Graph, sure: set<TargetNode>, own: TraceConditions, t: TargetNode, cs: Conditions,
                     aggregate: bool, a: set<TargetNode>, r: Resolutions, p: set<TargetNode>)
    requires Closed(g) && t in g && a <= g.Keys == r.Keys
    ensures Walking(g, sure, own, t, cs, aggregate, a, r, p, a, r, p, 0)
  {
    GrowsSame(g, sure, own, a, r, p);
  }

  lemma WalkingNext(g: Graph, sure: set<TargetNode>, own: TraceConditions, t: TargetNode, cs: Conditions, aggregate: bool,
                    a1: set<TargetNode>, r1: Resolutions, p1: set<TargetNode>, a2: set<TargetNode>, r2: Resolutions, p2: set<TargetNode>, k: nat,
                    a3: set<TargetNode>, r3: Resolutions, p3: set<TargetNode>)
    requires Closed(g) && Walking(g, sure, own, t, cs, aggregate, a1, r1, p1, a2, r2, p2, k) && k < |g[t]|
    requires Visited(g, sure, own, g[t][k].dependency, TargetConditionsPropagatingToDep(g[t][k], cs, aggregate, own(t)), a2, r2, p2, a3, r3, p3)
    ensures Walking(g, sure, own, t, cs, aggregate, a1, r1, p1, a3, r3, p3, k + 1)
  {
    hide Pushed, DepsWalked, TargetConditionsPropagatingToDep;
    GrowsAgain(g, sure, own, a1, r1, p1, a2, r2, p2, a3, r3, p3);
  }

  lemma WalkingEnd(g: Graph, sure: set<TargetNode>, own: TraceConditions, t: TargetNode, cs: Conditions, aggregate: bool,
                   a: set<TargetNode>, r: Resolutions, p: set<TargetNode>, a1: set<TargetNode>, r1: Resolutions, p1: set<TargetNode>,
                   a2: set<TargetNode>, r2: Resolutions, p2: set<TargetNode>)
    requires Closed(g) && t in g && a <= g.Keys == r.Keys && Entered(t, cs, aggregate, own, a, r, p, a1, r1, p1)
    requires (aggregate ==> t.isContainer) && (t in sure ==> aggregate)
    requires Walking(g, sure, own, t, r1[t], aggregate, a1, r1, p1, a2, r2, p2, |g[t]|)
    ensures Visited(g, sure, own, t, cs, a, r, p, a2, r2, p2)
  {
    hide Pushed, DepsWalked, TargetConditionsPropagatingToDep;
    TargetPushed(g, sure, own, t, cs, aggregate, a, r, p, a1, r1, p1, a2, r2, p2);
  }

  lemma WalkingWork(g: Graph, sure: set<TargetNode>, own: TraceConditions, t: TargetNode, cs: Conditions, aggregate: bool,
                    a: set<TargetNode>, r: Resolutions, p: set<TargetNode>, a1: set<TargetNode>, r1: Resolutions, p1: set<TargetNode>,
                    a2: set<TargetNode>, r2: Resolutions, p2: set<TargetNode>, k: nat)
    requires Closed(g) && t in g && a <= g.Keys == r.Keys && p <= g.Keys && Entered(t, cs, aggregate, own, a, r, p, a1, r1, p1)
    requires Walking(g, sure, own, t, r1[t], aggregate, a1, r1, p1, a2, r2, p2, k)
    ensures a2 <= g.Keys && r2.Keys == g.Keys
    ensures var u, v := |g.Keys - a2|, |g.Keys - a|;
            var m, n := |Missing(g, r2)|, |Missing(g, r)|;
            u < v || (u == v && (m < n || (m == n && |p2| < |p|)))
  {
    hide Missing, Pushed, DepsWalked;
    WorkLess(g, sure, own, t, cs, aggregate, a, r, p, a1, r1, p1, a2, r2, p2);
  }

  /** The first part of a visit, and where it leaves the walk. */
  method Enter(fnode: TargetNode, cs: Conditions, treatAsAggregate: bool, amap: set<TargetNode>, conditionsFn: TraceConditions,
               ghost g: Graph, ghost sure: set<TargetNode>, ghost roots: seq<TargetNode>, ghost base: Resolutions)
    returns (goOn: bool, now: Conditions, amap': set<TargetNode>)
    requires Closed(g) && fnode in g && amap <= g.Keys
    requires Reached(g, roots, fnode) && CsExplained(g, sure, roots, conditionsFn, base, ResOf(g.Keys), fnode, cs)
    requires AllExplained(g, sure, roots, conditionsFn, base, ResOf(g.Keys))
    modifies fnode`resolution, fnode`pure
    ensures AllExplained(g, sure, roots, conditionsFn, base, ResOf(g.Keys))
    ensures !goOn ==>
              Visited(g, sure, conditionsFn, fnode, cs, amap, old(ResOf(g.Keys)), old(PureOf(g.Keys)), amap', ResOf(g.Keys), PureOf(g.Keys))
    ensures goOn ==>
              && amap' <= g.Keys && now == ResOf(g.Keys)[fnode] && CsExplained(g, sure, roots, conditionsFn, base, ResOf(g.Keys), fnode, now)
              && Entered(fnode, cs, treatAsAggregate, conditionsFn, amap, old(ResOf(g.Keys)), old(PureOf(g.Keys)),
                         amap', ResOf(g.Keys), PureOf(g.Keys))
              && Walking(g, sure, conditionsFn, fnode, now, treatAsAggregate, amap', ResOf(g.Keys), PureOf(g.Keys),
                         amap', ResOf(g.Keys), PureOf(g.Keys), 0)
  {
    hide Grows, Visited, Walking, Explained, Reached, AllExplained, CsExplained, Entered, Closed, ResOf, PureOf;
    ghost var res, pures := ResOf(g.Keys), PureOf(g.Keys);
    goOn, now, amap' := ContinueWalk(fnode, cs, treatAsAggregate, amap, conditionsFn, g);
    if !goOn {
      StoppedVisit(g, sure, conditionsFn, fnode, cs, amap, res, pures);
      return;
    }
    ghost var res1, pures1 := ResOf(g.Keys), PureOf(g.Keys);
    EnteredExplained(g, sure, roots, conditionsFn, base, fnode, cs, treatAsAggregate, amap, res, pures, amap', res1, pures1);
    EnteredKeys(g, fnode, cs, treatAsAggregate, conditionsFn, amap, res, pures, amap', res1, pures1);
    WalkingStart(g, sure, conditionsFn, fnode, now, treatAsAggregate, amap', res1, pures1);
  }

  /** One visit, with all the visits it leads to. It ends on any graph, cycles or not. */
  method Walk(fnode: TargetNode, cs: Conditions, treatAsAggregate: bool, amap: set<TargetNode>, conditionsFn: TraceConditions,
              ghost g: Graph, ghost sure: set<TargetNode>, ghost roots: seq<TargetNode>, ghost base: Resolutions)
    returns (amap': set<TargetNode>)
    requires Closed(g) && HasEdges(g) && fnode in g && amap <= g.Keys
    requires (treatAsAggregate ==> fnode.isContainer) && (fnode in sure ==> treatAsAggregate) && Sure(g, roots, sure)
    requires Reached(g, roots, fnode) && CsExplained(g, sure, roots, conditionsFn, base, ResOf(g.Keys), fnode, cs)
    requires AllExplained(g, sure, roots, conditionsFn, base, ResOf(g.Keys))
    modifies g.Keys`resolution, g.Keys`pure
    ensures Visited(g, sure, conditionsFn, fnode, cs, amap, old(ResOf(g.Keys)), old(PureOf(g.Keys)), amap', ResOf(g.Keys), PureOf(g.Keys))
    ensures AllExplained(g, sure, roots, conditionsFn, base, ResOf(g.Keys))
    decreases |g.Keys - amap|, |Missing(g, ResOf(g.Keys))|, |PureOf(g.Keys)|, 0
  {
    hide Grows, Visited, Walking, Explained, Reached, AllExplained, CsExplained, Entered, Missing, Closed, HasEdges,
         TargetConditionsPropagatingToDep,
         ResOf, PureOf;
    EdgesOf(g, fnode);
    ghost var res, pures := ResOf(g.Keys), PureOf(g.Keys);
    var goOn, now;
    goOn, now, amap' := Enter(fnode, cs, treatAsAggregate, amap, conditionsFn, g, sure, roots, base);
    if !goOn {
      return;
    }
    ghost var amap1, res1, pures1 := amap', ResOf(g.Keys), PureOf(g.Keys);
    var n := |fnode.edges|;
    for k := 0 to n
      invariant HasEdges(g) && AllExplained(g, sure, roots, conditionsFn, base, ResOf(g.Keys))
      invariant Walking(g, sure, conditionsFn, fnode, now, treatAsAggregate, amap1, res1, pures1, amap', ResOf(g.Keys), PureOf(g.Keys), k)
    {
      WalkingWork(g, sure, conditionsFn, fnode, cs, treatAsAggregate, amap, res, pures, amap1, res1, pures1, amap', ResOf(g.Keys), PureOf(g.Keys), k);
      WalkingParts(g, sure, conditionsFn, fnode, now, treatAsAggregate, amap1, res1, pures1, amap', ResOf(g.Keys), PureOf(g.Keys), k);
      CsExplainedMore(g, sure, roots, conditionsFn, base, res1, ResOf(g.Keys), fnode, now);
      amap' := WalkEdge(fnode, k, now, treatAsAggregate, amap', conditionsFn, g, sure, roots, base, amap1, res1, pures1);
    }
    WalkingEnd(g, sure, conditionsFn, fnode, cs, treatAsAggregate, amap, res, pures, amap1, res1, pures1, amap', ResOf(g.Keys), PureOf(g.Keys));
  }

  lemma EnteredKeys(g: Graph, t: TargetNode, cs: Conditions, aggregate: bool, own: TraceConditions, a: set<TargetNode>, r: Resolutions,
                    p: set<TargetNode>, b: set<TargetNode>, s: Resolutions, q: set<TargetNode>)
    requires t in g && a <= g.Keys == r.Keys && Entered(t, cs, aggregate, own, a, r, p, b, s, q)
    ensures b <= g.Keys == s.Keys
  {
  }

  lemma StoppedVisit(g: Graph, sure: set<TargetNode>, own: TraceConditions, t: TargetNode, cs: Conditions,
                     a: set<TargetNode>, r: Resolutions, p: set<TargetNode>)
    requires Closed(g) && t in a && a <= g.Keys == r.Keys && cs <= r[t]
    ensures Visited(g, sure, own, t, cs, a, r, p, a, r, p)
  {
    GrowsSame(g, sure, own, a, r, p);
  }

  /** One edge of a visit: what goes down it. */
  method WalkEdge(fnode: TargetNode, k: nat, cs: Conditions, treatAsAggregate: bool, amap: set<TargetNode>,
                  conditionsFn: TraceConditions, ghost g: Graph, ghost sure: set<TargetNode>, ghost roots: seq<TargetNode>,
                  ghost base: Resolutions, ghost amap1: set<TargetNode>, ghost res1: Resolutions,
                  ghost pures1: set<TargetNode>)
    returns (amap': set<TargetNode>)
    requires Closed(g) && HasEdges(g) && fnode in g && amap <= g.Keys && k < |g[fnode]|
    requires (treatAsAggregate ==> fnode.isContainer) && (fnode in sure ==> treatAsAggregate) && Sure(g, roots, sure)
    requires cs <= ResOf(g.Keys)[fnode]
    requires Reached(g, roots, fnode) && CsExplained(g, sure, roots, conditionsFn, base, ResOf(g.Keys), fnode, cs)
    requires AllExplained(g, sure, roots, conditionsFn, base, ResOf(g.Keys))
    requires Walking(g, sure, conditionsFn, fnode, cs, treatAsAggregate, amap1, res1, pures1, amap, ResOf(g.Keys), PureOf(g.Keys), k)
    modifies g.Keys`resolution, g.Keys`pure
    ensures AllExplained(g, sure, roots, conditionsFn, base, ResOf(g.Keys))
    ensures Walking(g, sure, conditionsFn, fnode, cs, treatAsAggregate, amap1, res1, pures1, amap', ResOf(g.Keys), PureOf(g.Keys), k + 1)
    decreases |g.Keys - amap|, |Missing(g, ResOf(g.Keys))|, |PureOf(g.Keys)|, 1
  {
    hide Grows, Visited, Walking, Explained, Reached, AllExplained, CsExplained, Entered, Missing,
         TargetConditionsPropagatingToDep;
    ghost var res, pures := ResOf(g.Keys), PureOf(g.Keys);
    var edge := fnode.edges[k];
    ReachedNext(g, roots, fnode, k);
    SureBefore(g, roots, sure, fnode, k);
    EdgeExplained(g, sure, roots, conditionsFn, base, res, fnode, cs, treatAsAggregate, k);
    var dcs := TargetConditionsPropagatingToDep(edge, cs, treatAsAggregate, conditionsFn(fnode));
    amap' := Walk(edge.dependency, dcs, treatAsAggregate && edge.dependency.isContainer, amap, conditionsFn, g, sure, roots, base);
    WalkingNext(g, sure, conditionsFn, fnode, cs, treatAsAggregate, amap1, res1, pures1, amap, res, pures, k, amap', ResOf(g.Keys), PureOf(g.Keys));
  }

  // All roots.

  lemma GrownParts(g: Graph, sure: set<TargetNode>, own: TraceConditions, a: set<TargetNode>, r: Resolutions, p: set<TargetNode>,
                   b: set<TargetNode>, s: Resolutions, q: set<TargetNode>)
    requires Closed(g) && Grows(g, sure, own, a, r, p, b, s, q)
    ensures a <= b <= g.Keys == r.Keys == s.Keys && forall x :: x in g ==> r[x] <= s[x]
  {
  }

  /** Everything a route leads to has been walked. */
  lemma {:induction false} RouteWalked(g: Graph, sure: set<TargetNode>, own: TraceConditions, roots: seq<TargetNode>, base: Resolutions, p: set<TargetNode>,
                                       b: set<TargetNode>, s: Resolutions, q: set<TargetNode>, r: nat, route: Route)
    requires Closed(g) && Grows(g, sure, own, {}, base, p, b, s, q) && (forall t :: t in roots ==> t in b)
    requires r < |roots| && Follow(g, roots[r], route).Some?
    ensures Follow(g, roots[r], route).value in b
  {
    hide Pushed;
    if route != [] {
      RouteWalked(g, sure, own, roots, base, p, b, s, q, r, route[..|route| - 1]);
      assert DepsWalked(g, b, Follow(g, roots[r], route[..|route| - 1]).value);
    }
  }

  lemma ReachedWalked(g: Graph, sure: set<TargetNode>, own: TraceConditions, roots: seq<TargetNode>, base: Resolutions, p: set<TargetNode>,
                      b: set<TargetNode>, s: Resolutions, q: set<TargetNode>, x: TargetNode)
    requires Closed(g) && Grows(g, sure, own, {}, base, p, b, s, q) && (forall t :: t in roots ==> t in b) && Reached(g, roots, x)
    ensures x in b && x in g && base[x] + own(x) <= s[x] && Pushed(g, sure, own, s, x)
  {
    hide Pushed, DepsWalked;
    var r: nat, route :| FromRoot(g, roots, r, route, x);
    RouteWalked(g, sure, own, roots, base, p, b, s, q, r, route);
  }

  // What the walk comes to.

  /** All that has to go down by the lower rule is in the result. */
  lemma AtLeast(g: Graph, sure: set<TargetNode>, roots: seq<TargetNode>, own: TraceConditions, base: Resolutions, p: set<TargetNode>,
                b: set<TargetNode>, res: Resolutions, q: set<TargetNode>, x: TargetNode, c: Condition)
    requires Closed(g) && Grows(g, sure, own, {}, base, p, b, res, q) && (forall t :: t in roots ==> t in b && t in g)
    requires Explained(g, roots, own, base, Lower(sure), x, c)
    ensures x in res && c in res[x]
  {
    hide Explained, Reached, Grows, Flows;
    GrownParts(g, sure, own, {}, base, p, b, res, q);
    forall y | y in g && Reached(g, roots, y) ensures base[y] + own(y) <= res[y] && Pushed(g, sure, own, res, y) {
      ReachedWalked(g, sure, own, roots, base, p, b, res, q, y);
    }
    ExplainedIsLeast(g, roots, own, base, Lower(sure), res, x, c);
  }

  /** The result at a node is explained there, by the upper rule. */
  lemma AtMost(g: Graph, sure: set<TargetNode>, roots: seq<TargetNode>, own: TraceConditions, base: Resolutions, res: Resolutions,
               x: TargetNode, c: Condition)
    requires AllExplained(g, sure, roots, own, base, res) && x in g && Reached(g, roots, x) && c in res[x]
    ensures Explained(g, roots, own, base, Upper(sure, res), x, c)
  {
    hide Explained, Reached;
    if c in base[x] {
      ExplainedHere(g, roots, own, base, Upper(sure, res), x, c);
    }
  }

  /** What flows by one rule and is explained by it is explained by the other one, if whatever it reaches flows by that
      one too. */
  lemma {:induction false} CarriedBy(g: Graph, roots: seq<TargetNode>, own: TraceConditions, one: Rule, other: Rule,
                                     x: TargetNode, p: Route, c: Condition)
    requires Reached(g, roots, x) && Follow(g, x, p).Some? && Carried(g, own, one, x, p, c)
    requires forall y, i :: y in g && Reached(g, roots, y) && 0 <= i < |g[y]| && Flows(one, y, g[y][i], own(y), c) ==>
               Flows(other, y, g[y][i], own(y), c)
    ensures Carried(g, own, other, x, p, c) && Reached(g, roots, Follow(g, x, p).value)
    decreases |p|
  {
    hide Flows, Reached;
    if p != [] {
      CarriedBy(g, roots, own, one, other, x, p[..|p| - 1], c);
      ReachedNext(g, roots, Follow(g, x, p[..|p| - 1]).value, p[|p| - 1]);
    }
  }

  lemma ExplainedOther(g: Graph, roots: seq<TargetNode>, own: TraceConditions, base: Resolutions, one: Rule, other: Rule,
                       x: TargetNode, c: Condition)
    requires Explained(g, roots, own, base, one, x, c)
    requires forall y, i :: y in g && Reached(g, roots, y) && 0 <= i < |g[y]| && Flows(one, y, g[y][i], own(y), c) ==>
               Flows(other, y, g[y][i], own(y), c)
    ensures Explained(g, roots, own, base, other, x, c)
  {
    hide Flows, Carried;
    var r: nat, p, q :| ExplainedBy(g, roots, own, base, one, r, p, q, x, c);
    var y := Follow(g, roots[r], p).value;
    assert FromRoot(g, roots, r, p, y);
    CarriedBy(g, roots, own, one, other, y, q, c);
    assert ExplainedBy(g, roots, own, base, other, r, p, q, x, c);
  }

  /** Every container that is reached is reached through containers only. */
  ghost predicate AllSure(g: Graph, roots: seq<TargetNode>) {
    forall x :: x in g && Reached(g, roots, x) && x.isContainer ==> ThroughContainers(g, roots, x)
  }

  /** If so, the result is what the mixed rule explains: no more and no less. */
  lemma MixedExactly(g: Graph, roots: seq<TargetNode>, own: TraceConditions, base: Resolutions, p: set<TargetNode>,
                     b: set<TargetNode>, res: Resolutions, q: set<TargetNode>, x: TargetNode, c: Condition)
    requires Closed(g) && Grows(g, SureAggregates(g, roots), own, {}, base, p, b, res, q)
    requires AllExplained(g, SureAggregates(g, roots), roots, own, base, res) && (forall t :: t in roots ==> t in b && t in g)
    requires AllSure(g, roots) && x in g && Reached(g, roots, x)
    ensures c in res[x] <==> Explained(g, roots, own, base, Mixed, x, c)
  {
    hide Explained, Reached, Grows, AllExplained, Closed, ThroughContainers, FlowsDown, FlowsFromAggregate;
    GrownParts(g, SureAggregates(g, roots), own, {}, base, p, b, res, q);
    var sure := SureAggregates(g, roots);
    if c in res[x] {
      AtMost(g, sure, roots, own, base, res, x, c);
      ExplainedOther(g, roots, own, base, Upper(sure, res), Mixed, x, c);
    }
    if Explained(g, roots, own, base, Mixed, x, c) {
      ExplainedOther(g, roots, own, base, Mixed, Lower(sure), x, c);
      AtLeast(g, sure, roots, own, base, p, b, res, q, x, c);
    }
  }

  /** Without containers the mixed rule is the plain one. */
  lemma PlainIsMixed(g: Graph, roots: seq<TargetNode>, own: TraceConditions, base: Resolutions, x: TargetNode, c: Condition)
    requires forall y :: y in g ==> !y.isContainer
    ensures Explained(g, roots, own, base, Mixed, x, c) <==> Explained(g, roots, own, base, Plain, x, c)
  {
    hide Explained, Reached;
    if Explained(g, roots, own, base, Mixed, x, c) { ExplainedOther(g, roots, own, base, Mixed, Plain, x, c); }
    if Explained(g, roots, own, base, Plain, x, c) { ExplainedOther(g, roots, own, base, Plain, Mixed, x, c); }
  }

  /** All edges that lead to the node are toolchain edges. */
  ghost predicate ToolchainInto(g: Graph, x: TargetNode) {
    forall y, i :: y in g && 0 <= i < |g[y]| && g[y][i].dependency == x ==>
      "toolchain" in g[y][i].annotations && "dynamic" !in g[y][i].annotations
  }

  /** To such a node nothing comes down but what is not allowed anywhere. */
  lemma ToolchainKeepsOut(g: Graph, roots: seq<TargetNode>, own: TraceConditions, base: Resolutions, rule: Rule,
                          x: TargetNode, c: Condition)
    requires Explained(g, roots, own, base, rule, x, c) && ToolchainInto(g, x)
    ensures c == NotAllowed || (x in base && c in base[x] + own(x))
  {
    var r: nat, p, q :| ExplainedBy(g, roots, own, base, rule, r, p, q, x, c);
    if q != [] {
      var y := Follow(g, Follow(g, roots[r], p).value, q[..|q| - 1]).value;
      assert "toolchain" in g[y][q[|q| - 1]].annotations;
    }
  }

  // Beyond the least solution for non-aggregates.

  /** A condition is held beyond the least solution that treats every node as a non-aggregate. */
  ghost predicate Exceeds(g: Graph, roots: seq<TargetNode>, own: TraceConditions, base: Resolutions, res: Resolutions) {
    res.Keys == g.Keys
    && exists x, c :: x in g && Reached(g, roots, x) && c in res[x] && !Explained(g, roots, own, base, Plain, x, c)
  }

  /** A container that is itself restricted holds a weakly restricted condition and has a dynamic link to a node that the
      least solution keeps free of it. */
  ghost predicate LeakAt(g: Graph, roots: seq<TargetNode>, own: TraceConditions, base: Resolutions, res: Resolutions,
                         x: TargetNode, i: nat) {
    && x in g && x in res && i < |g[x]| && Reached(g, roots, x) && x.isContainer && IsRestricted(own(x))
    && WeaklyRestricted in res[x] && "dynamic" in g[x][i].annotations
    && !Explained(g, roots, own, base, Plain, g[x][i].dependency, WeaklyRestricted)
  }

  ghost predicate Leaks(g: Graph, roots: seq<TargetNode>, own: TraceConditions, base: Resolutions, res: Resolutions) {
    exists x, i: nat :: x in g && LeakAt(g, roots, own, base, res, x, i)
  }

  /** The first node on a route where the least solution is left: there is a leak right before it. */
  lemma {:induction false} FirstLeak(g: Graph, sure: set<TargetNode>, roots: seq<TargetNode>, own: TraceConditions, base: Resolutions,
                                     res: Resolutions, y: TargetNode, q: Route, c: Condition)
    requires Reached(g, roots, y) && Follow(g, y, q).Some? && Carried(g, own, Upper(sure, res), y, q, c)
    requires Explained(g, roots, own, base, Plain, y, c)
    ensures Reached(g, roots, Follow(g, y, q).value)
    ensures Explained(g, roots, own, base, Plain, Follow(g, y, q).value, c) || Leaks(g, roots, own, base, res)
    decreases |q|
  {
    hide Explained, Reached;
    if q != [] {
      var init, i := q[..|q| - 1], q[|q| - 1];
      var x := Follow(g, y, init).value;
      FirstLeak(g, sure, roots, own, base, res, y, init, c);
      ReachedNext(g, roots, x, i);
      if Explained(g, roots, own, base, Plain, x, c) {
        if FlowsDown(g[x][i], c) {
          ExplainedNext(g, roots, own, base, Plain, x, i, c);
        } else if !Explained(g, roots, own, base, Plain, g[x][i].dependency, c) {
          OnlyLeak(g, sure, own, res, x, i, c);
          assert LeakAt(g, roots, own, base, res, x, i);
        }
      }
    }
  }

  lemma OnlyLeak(g: Graph, sure: set<TargetNode>, own: TraceConditions, res: Resolutions, x: TargetNode, i: nat, c: Condition)
    requires x in g && i < |g[x]| && Flows(Upper(sure, res), x, g[x][i], own(x), c) && !FlowsDown(g[x][i], c)
    ensures x.isContainer && IsRestricted(own(x)) && c == WeaklyRestricted && "dynamic" in g[x][i].annotations
    ensures x in res && c in res[x]
  {
  }

  /** On any graph: the result goes beyond the least solution for non-aggregates only if there is a leak. */
  lemma ExceedsLeaks(g: Graph, sure: set<TargetNode>, roots: seq<TargetNode>, own: TraceConditions, base: Resolutions,
                     res: Resolutions)
    requires AllExplained(g, sure, roots, own, base, res) && Exceeds(g, roots, own, base, res)
    ensures Leaks(g, roots, own, base, res)
  {
    hide Explained, Reached, Leaks, AllExplained, Carried;
    var x, c :| x in g && Reached(g, roots, x) && c in res[x] && !Explained(g, roots, own, base, Plain, x, c);
    AtMost(g, sure, roots, own, base, res, x, c);
    var r: nat, p, q := ExplainedParts(g, roots, own, base, Upper(sure, res), x, c);
    var y := Follow(g, roots[r], p).value;
    ExplainedHere(g, roots, own, base, Plain, y, c);
    FirstLeak(g, sure, roots, own, base, res, y, q, c);
  }

  lemma ExplainedParts(g: Graph, roots: seq<TargetNode>, own: TraceConditions, base: Resolutions, rule: Rule,
                       x: TargetNode, c: Condition)
    returns (r: nat, p: Route, q: Route)
    requires Explained(g, roots, own, base, rule, x, c)
    ensures ExplainedBy(g, roots, own, base, rule, r, p, q, x, c)
    ensures Reached(g, roots, Follow(g, roots[r], p).value)
  {
    r, p, q :| ExplainedBy(g, roots, own, base, rule, r, p, q, x, c);
    assert FromRoot(g, roots, r, p, Follow(g, roots[r], p).value);
  }

  /** A leak at a container that is only met as an aggregate does take the result beyond the least solution. */
  lemma LeakExceeds(g: Graph, sure: set<TargetNode>, roots: seq<TargetNode>, own: TraceConditions, base: Resolutions,
                    res: Resolutions, x: TargetNode, i: nat)
    requires Closed(g) && res.Keys == g.Keys && x in sure && LeakAt(g, roots, own, base, res, x, i)
    requires Pushed(g, sure, own, res, x)
    ensures Exceeds(g, roots, own, base, res)
  {
    hide Explained, Reached;
    ReachedNext(g, roots, x, i);
    assert Flows(Lower(sure), x, g[x][i], own(x), WeaklyRestricted);
    assert WeaklyRestricted in res[g[x][i].dependency];
  }

  /** No container that is itself restricted has a dynamic link. */
  ghost predicate NoLeak(g: Graph, own: TraceConditions) {
    forall x, i :: x in g && 0 <= i < |g[x]| && x.isContainer ==>
      !("dynamic" in g[x][i].annotations && IsRestricted(own(x)))
  }

  /** What goes down an edge in the end: from a non-container, by the rule for non-aggregates; from a container that is only
      met as an aggregate, by the rule for aggregates; from any other container, at least what both rules let down. */
  ghost predicate MustPass(g: Graph, roots: seq<TargetNode>, own: TraceConditions, x: TargetNode, i: nat, c: Condition)
    requires Closed(g) && x in g && i < |g[x]|
  {
    if !x.isContainer then FlowsDown(g[x][i], c)
    else FlowsFromAggregate(g[x][i], own(x), c) && (ThroughContainers(g, roots, x) || FlowsDown(g[x][i], c))
  }

  ghost predicate PushedDown(g: Graph, roots: seq<TargetNode>, own: TraceConditions, res: Resolutions, x: TargetNode)
    requires Closed(g) && res.Keys == g.Keys
  {
    x in g && forall i, c :: 0 <= i < |g[x]| && c in res[x] && MustPass(g, roots, own, x, i, c) ==> c in res[g[x][i].dependency]
  }

  /** The walk from all roots, after the bottom-up walk, on any graph. Every resolution is explained by a route; every node
      that is reached has pushed its final resolution down all its edges. The result goes beyond the least solution for
      non-aggregates only if there is a leak. If every container that is reached is reached through containers only, the
      result is the least solution of the mixed rule, and it goes beyond the other one exactly if there is a leak; without
      containers the two are the same. */
  method TraceTopDownConditions(roots: seq<TargetNode>, conditionsFn: TraceConditions, ghost g: Graph, ghost dag: bool,
                                ghost rank: Ranks)
    returns (ghost base: Resolutions, ghost res: Resolutions)
    requires Closed(g) && HasEdges(g) && (forall t :: t in roots ==> t in g) && (dag ==> Ranked(g, rank))
    requires forall t :: t in g ==> t.resolution == {}
    modifies g.Keys`resolution, g.Keys`pure
    ensures base.Keys == g.Keys && res == ResOf(g.Keys)
    ensures dag ==> forall x :: x in g && Reached(g, roots, x) ==> base[x] == BottomUp.Up(g, rank, conditionsFn, x)
    ensures AllExplained(g, SureAggregates(g, roots), roots, conditionsFn, base, res)
    ensures forall x :: x in g && Reached(g, roots, x) ==>
              base[x] + conditionsFn(x) <= res[x] && PushedDown(g, roots, conditionsFn, res, x)
    ensures forall x, c :: x in g && Reached(g, roots, x) && ToolchainInto(g, x) && c in res[x] ==>
              c == NotAllowed || c in base[x] + conditionsFn(x)
    ensures Exceeds(g, roots, conditionsFn, base, res) ==> Leaks(g, roots, conditionsFn, base, res)
    ensures NoLeak(g, conditionsFn) ==> !Exceeds(g, roots, conditionsFn, base, res)
    ensures AllSure(g, roots) ==>
              (forall x, c :: x in g && Reached(g, roots, x) ==>
                 (c in res[x] <==> Explained(g, roots, conditionsFn, base, Mixed, x, c)))
              && (Exceeds(g, roots, conditionsFn, base, res) <==> Leaks(g, roots, conditionsFn, base, res))
    ensures (forall y :: y in g ==> !y.isContainer) ==>
              forall x, c :: x in g && Reached(g, roots, x) ==>
                (c in res[x] <==> Explained(g, roots, conditionsFn, base, Plain, x, c))
  {
    hide Explained, Reached, Grows, AllExplained, Closed, PushedDown, NoLeak, Exceeds, Leaks, AllSure, Sure, SureAggregates,
         BottomUp.Up, Follow, OnlyContainers, Ranked, HasEdges, ToolchainInto;
    ghost var up := BottomUp.TraceBottomUpConditions(roots, conditionsFn, g, dag, rank);
    base := ResOf(g.Keys);
    if dag { BaseIsUp(g, roots, rank, conditionsFn, up, base); }
    ghost var pures := PureOf(g.Keys);
    SureHolds(g, roots);
    ghost var amap := WalkRoots(roots, conditionsFn, g, SureAggregates(g, roots), base);
    res := ResOf(g.Keys);
    Conclusions(g, roots, conditionsFn, base, pures, amap, res, PureOf(g.Keys));
  }

  /** All visits from the roots. */
  method WalkRoots(roots: seq<TargetNode>, conditionsFn: TraceConditions, ghost g: Graph, ghost sure: set<TargetNode>,
                   ghost base: Resolutions)
    returns (amap: set<TargetNode>)
    requires Closed(g) && HasEdges(g) && (forall t :: t in roots ==> t in g) && base == ResOf(g.Keys) && Sure(g, roots, sure)
    modifies g.Keys`resolution, g.Keys`pure
    ensures Grows(g, sure, conditionsFn, {}, base, old(PureOf(g.Keys)), amap, ResOf(g.Keys), PureOf(g.Keys))
    ensures AllExplained(g, sure, roots, conditionsFn, base, ResOf(g.Keys))
    ensures forall t :: t in roots ==> t in amap && t in g
  {
    hide Explained, Reached, Grows, Visited, AllExplained, CsExplained, Closed, Pushed, HasEdges, ResOf, PureOf, Sure;
    ghost var pures := PureOf(g.Keys);
    amap := {};
    WalkStart(g, sure, roots, conditionsFn, base, pures);
    for j := 0 to |roots|
      invariant HasEdges(g) && amap <= g.Keys && Grows(g, sure, conditionsFn, {}, base, pures, amap, ResOf(g.Keys), PureOf(g.Keys))
      invariant AllExplained(g, sure, roots, conditionsFn, base, ResOf(g.Keys))
      invariant forall i :: 0 <= i < j ==> roots[i] in amap
    {
      ghost var a, r, p := amap, ResOf(g.Keys), PureOf(g.Keys);
      RootReached(g, sure, roots, conditionsFn, base, r, j);
      amap := Walk(roots[j], {}, roots[j].isContainer, amap, conditionsFn, g, sure, roots, base);
      RootVisited(g, sure, conditionsFn, roots[j], {}, base, pures, a, r, p, amap, ResOf(g.Keys), PureOf(g.Keys));
    }
  }

  lemma Conclusions(g: Graph, roots: seq<TargetNode>, own: TraceConditions, base: Resolutions, p: set<TargetNode>,
                    b: set<TargetNode>, res: Resolutions, q: set<TargetNode>)
    requires Closed(g) && Grows(g, SureAggregates(g, roots), own, {}, base, p, b, res, q)
    requires (forall t :: t in roots ==> t in b && t in g) && AllExplained(g, SureAggregates(g, roots), roots, own, base, res)
    ensures base.Keys == res.Keys == g.Keys
    ensures forall x :: x in g && Reached(g, roots, x) ==> base[x] + own(x) <= res[x] && PushedDown(g, roots, own, res, x)
    ensures forall x, c :: x in g && Reached(g, roots, x) && ToolchainInto(g, x) && c in res[x] ==>
              c == NotAllowed || c in base[x] + own(x)
    ensures Exceeds(g, roots, own, base, res) ==> Leaks(g, roots, own, base, res)
    ensures NoLeak(g, own) ==> !Exceeds(g, roots, own, base, res)
    ensures AllSure(g, roots) ==>
              (forall x, c :: x in g && Reached(g, roots, x) ==> (c in res[x] <==> Explained(g, roots, own, base, Mixed, x, c)))
              && (Exceeds(g, roots, own, base, res) <==> Leaks(g, roots, own, base, res))
    ensures (forall y :: y in g ==> !y.isContainer) ==>
              forall x, c :: x in g && Reached(g, roots, x) ==> (c in res[x] <==> Explained(g, roots, own, base, Plain, x, c))
  {
    hide Explained, Reached, Grows, AllExplained, Closed, Pushed, PushedDown, NoLeak, Exceeds, Leaks, LeakAt, AllSure,
         SureAggregates, ToolchainInto;
    var sure := SureAggregates(g, roots);
    GrownParts(g, sure, own, {}, base, p, b, res, q);
    forall x | x in g && Reached(g, roots, x)
      ensures base[x] + own(x) <= res[x] && PushedDown(g, roots, own, res, x) && Pushed(g, sure, own, res, x)
    {
      ReachedWalked(g, sure, own, roots, base, p, b, res, q, x);
      PushedIs(g, roots, own, res, x);
    }
    forall x, c | x in g && Reached(g, roots, x) && ToolchainInto(g, x) && c in res[x]
      ensures c == NotAllowed || c in base[x] + own(x)
    {
      AtMost(g, sure, roots, own, base, res, x, c);
      ToolchainKeepsOut(g, roots, own, base, Upper(sure, res), x, c);
    }
    if Exceeds(g, roots, own, base, res) {
      ExceedsLeaks(g, sure, roots, own, base, res);
      LeaksNeedLink(g, roots, own, base, res);
    }
    if AllSure(g, roots) {
      forall x, c | x in g && Reached(g, roots, x) ensures c in res[x] <==> Explained(g, roots, own, base, Mixed, x, c) {
        MixedExactly(g, roots, own, base, p, b, res, q, x, c);
      }
      if Leaks(g, roots, own, base, res) {
        var x, i := LeakSure(g, roots, own, base, res);
        LeakExceeds(g, sure, roots, own, base, res, x, i);
      }
    }
    if forall y :: y in g ==> !y.isContainer {
      NoContainers(g, roots);
      forall x, c | x in g && Reached(g, roots, x) ensures c in res[x] <==> Explained(g, roots, own, base, Plain, x, c) {
        PlainIsMixed(g, roots, own, base, x, c);
      }
    }
  }

  lemma PushedIs(g: Graph, roots: seq<TargetNode>, own: TraceConditions, res: Resolutions, x: TargetNode)
    requires Closed(g) && res.Keys == g.Keys && Pushed(g, SureAggregates(g, roots), own, res, x)
    ensures PushedDown(g, roots, own, res, x)
  {
    hide ThroughContainers, FlowsDown, FlowsFromAggregate, Closed;
  }

  lemma LeaksNeedLink(g: Graph, roots: seq<TargetNode>, own: TraceConditions, base: Resolutions, res: Resolutions)
    requires Leaks(g, roots, own, base, res)
    ensures !NoLeak(g, own)
  {
    hide Explained, Reached;
  }

  lemma LeakSure(g: Graph, roots: seq<TargetNode>, own: TraceConditions, base: Resolutions, res: Resolutions)
    returns (x: TargetNode, i: nat)
    requires AllSure(g, roots) && Leaks(g, roots, own, base, res)
    ensures LeakAt(g, roots, own, base, res, x, i) && x in SureAggregates(g, roots) && x in g && Reached(g, roots, x)
  {
    hide Explained, Reached, ThroughContainers;
    x, i :| LeakAt(g, roots, own, base, res, x, i);
  }

  lemma NoContainers(g: Graph, roots: seq<TargetNode>)
    requires forall y :: y in g ==> !y.isContainer
    ensures AllSure(g, roots)
  {
    hide Reached, ThroughContainers;
  }

  lemma BaseIsUp(g: Graph, roots: seq<TargetNode>, rank: Ranks, own: TraceConditions, up: set<TargetNode>, base: Resolutions)
    requires Closed(g) && Ranked(g, rank) && base.Keys == g.Keys && (forall x :: x in up ==> x in g)
    requires forall x :: x in g ==> (x in up <==> exists r: nat, p :: FromRoot(g, roots, r, p, x))
    requires forall x :: x in up ==> base[x] == BottomUp.Up(g, rank, own, x)
    ensures forall x :: x in g && Reached(g, roots, x) ==> base[x] == BottomUp.Up(g, rank, own, x)
  {
    hide BottomUp.Up;
  }

  lemma WalkStart(g: Graph, sure: set<TargetNode>, roots: seq<TargetNode>, own: TraceConditions, base: Resolutions,
                  p: set<TargetNode>)
    requires Closed(g) && base.Keys == g.Keys
    ensures Grows(g, sure, own, {}, base, p, {}, base, p) && AllExplained(g, sure, roots, own, base, base)
  {
    GrowsSame(g, sure, own, {}, base, p);
  }

  lemma RootReached(g: Graph, sure: set<TargetNode>, roots: seq<TargetNode>, own: TraceConditions, base: Resolutions,
                    res: Resolutions, j: nat)
    requires j < |roots| && Sure(g, roots, sure)
    ensures Reached(g, roots, roots[j]) && CsExplained(g, sure, roots, own, base, res, roots[j], {})
    ensures roots[j] in sure ==> roots[j].isContainer
  {
    assert FromRoot(g, roots, j, [], roots[j]);
  }

  lemma RootVisited(g: Graph, sure: set<TargetNode>, own: TraceConditions, t: TargetNode, cs: Conditions, base: Resolutions, p0: set<TargetNode>,
                    a: set<TargetNode>, r: Resolutions, p: set<TargetNode>, b: set<TargetNode>, s: Resolutions, q: set<TargetNode>)
    requires Closed(g) && Grows(g, sure, own, {}, base, p0, a, r, p) && Visited(g, sure, own, t, cs, a, r, p, b, s, q)
    ensures Grows(g, sure, own, {}, base, p0, b, s, q) && t in b && a <= b <= g.Keys
  {
    GrowsAgain(g, sure, own, {}, base, p0, a, r, p, b, s, q);
  }

  // The one case in which the walk goes beyond the least solution for non-aggregates.

  ghost predicate LeakGraph(g: Graph, root: TargetNode, dep: TargetNode) {
    && root != dep && root.isContainer && !dep.isContainer && g.Keys == {root, dep}
    && g[root] == [TargetEdge(dep, {"dynamic"})] && g[dep] == []
  }

  lemma LeakNotExplained(g: Graph, own: TraceConditions, base: Resolutions, root: TargetNode, dep: TargetNode)
    requires LeakGraph(g, root, dep) && own(dep) == {} && dep in base && base[dep] == {}
    ensures !Explained(g, [root], own, base, Plain, dep, WeaklyRestricted)
  {
    forall r: nat, p, q ensures !ExplainedBy(g, [root], own, base, Plain, r, p, q, dep, WeaklyRestricted) {
      if r < 1 && Follow(g, root, p).Some? {
        var y := Follow(g, root, p).value;
        if q != [] && Follow(g, y, q) == Some(dep) {
          assert Follow(g, y, q[..|q| - 1]) == Some(root);
          assert !Carried(g, own, Plain, y, q, WeaklyRestricted);
        }
      }
    }
  }

  lemma LeakReached(g: Graph, root: TargetNode, dep: TargetNode)
    requires LeakGraph(g, root, dep)
    ensures Reached(g, [root], root) && Reached(g, [root], dep) && ThroughContainers(g, [root], root)
  {
    assert FromRoot(g, [root], 0, [], root);
    assert Follow(g, root, [0][..0]) == Some(root);
    assert FromRoot(g, [root], 0, [0], dep);
    forall r: nat, p: Route | FromRoot(g, [root], r, p, root) ensures OnlyContainers(g, [root][r], p) {
      assert p == [];
    }
  }

  /** A weakly restricted container with a dynamic link to a library. */
  method MakeLeakGraph() returns (root: TargetNode, dep: TargetNode, ghost g: Graph)
    ensures fresh(root) && fresh(dep) && LeakGraph(g, root, dep) && HasEdges(g) && Closed(g)
    ensures root.resolution == {} == dep.resolution
  {
    root := new TargetNode(true);
    dep := new TargetNode(false);
    root.edges := [TargetEdge(dep, {"dynamic"})];
    g := map[root := root.edges, dep := []];
  }

  /** The walk on that graph: the library ends up weakly restricted, although treating the container as a non-aggregate
      would leave it without any condition. */
  method AggregateLeak() returns (root: TargetNode, dep: TargetNode, ghost g: Graph, ghost base: Resolutions,
                       own: TraceConditions)
    ensures LeakGraph(g, root, dep) && own(root) == {WeaklyRestricted} && own(dep) == {}
    ensures WeaklyRestricted in dep.resolution && Exceeds(g, [root], own, base, ResOf(g.Keys))
  {
    hide Explained, Reached, PushedDown, Exceeds, Leaks, AllSure, AllExplained, BottomUp.Up;
    root, dep, g := MakeLeakGraph();
    var container := root;
    own := (t: TargetNode) => if t == container then {WeaklyRestricted} else {};
    ghost var rank: Ranks := map[root := 1, dep := 0];
    LeakReached(g, root, dep);
    ghost var res;
    base, res := TraceTopDownConditions([root], own, g, true, rank);
    LeakBase(g, rank, own, root, dep);
    LeakResult(g, own, root, dep, base, res);
  }

  lemma LeakBase(g: Graph, rank: Ranks, own: TraceConditions, root: TargetNode, dep: TargetNode)
    requires LeakGraph(g, root, dep) && Closed(g) && Ranked(g, rank) && own(dep) == {}
    ensures BottomUp.Up(g, rank, own, dep) == {}
  {
  }

  lemma LeakResult(g: Graph, own: TraceConditions, root: TargetNode, dep: TargetNode, base: Resolutions, res: Resolutions)
    requires LeakGraph(g, root, dep) && Closed(g) && base.Keys == res.Keys == g.Keys && base[dep] == {}
    requires own(root) == {WeaklyRestricted} && own(dep) == {} && own(root) <= res[root]
    requires Reached(g, [root], dep) && ThroughContainers(g, [root], root) && PushedDown(g, [root], own, res, root)
    ensures WeaklyRestricted in res[dep] && Exceeds(g, [root], own, base, res)
  {
    hide Explained, Reached, ThroughContainers;
    LeakNotExplained(g, own, base, root, dep);
    assert IsRestricted(own(root));
    assert MustPass(g, [root], own, root, 0, WeaklyRestricted);
  }

  // When a container is met both ways, it depends on the order of the roots.

  /** A binary and, below it, a container that is a root as well and has a dynamic link to a library. */
  ghost predicate OrderGraph(g: Graph, top: TargetNode, mid: TargetNode, dep: TargetNode) {
    && !top.isContainer && mid.isContainer && !dep.isContainer && top != dep && g.Keys == {top, mid, dep}
    && g[top] == [TargetEdge(mid, {"dynamic"})] && g[mid] == [TargetEdge(dep, {"dynamic"})] && g[dep] == []
  }

  method MakeOrderGraph() returns (top: TargetNode, mid: TargetNode, dep: TargetNode, ghost g: Graph)
    ensures fresh(top) && fresh(mid) && fresh(dep) && OrderGraph(g, top, mid, dep) && HasEdges(g) && Closed(g)
    ensures top.resolution == {} == mid.resolution && dep.resolution == {}
  {
    top := new TargetNode(false);
    mid := new TargetNode(true);
    dep := new TargetNode(false);
    top.edges := [TargetEdge(mid, {"dynamic"})];
    mid.edges := [TargetEdge(dep, {"dynamic"})];
    g := map[top := top.edges, mid := mid.edges, dep := []];
  }

  lemma OrderBase(g: Graph, rank: Ranks, own: TraceConditions, top: TargetNode, mid: TargetNode, dep: TargetNode)
    requires OrderGraph(g, top, mid, dep) && Closed(g) && Ranked(g, rank)
    requires own(top) == {} == own(dep) && own(mid) == {WeaklyRestricted}
    ensures BottomUp.Up(g, rank, own, dep) == {} == BottomUp.Up(g, rank, own, top)
    ensures BottomUp.Up(g, rank, own, mid) == {WeaklyRestricted}
  {
    assert BottomUp.UpEdges(g, rank, own, dep, 0) == {};
    assert BottomUp.UpEdges(g, rank, own, mid, 0) == {};
    assert BottomUp.UpEdges(g, rank, own, mid, 1) == {};
    assert BottomUp.UpEdges(g, rank, own, top, 0) == {};
    assert BottomUp.UpEdges(g, rank, own, top, 1) == {};
  }

  lemma OrderReached(g: Graph, roots: seq<TargetNode>, top: TargetNode, mid: TargetNode, dep: TargetNode)
    requires OrderGraph(g, top, mid, dep) && (roots == [mid, top] || roots == [top, mid])
    ensures forall x :: x in g ==> exists r: nat, p :: FromRoot(g, roots, r, p, x)
  {
    var m := if roots[0] == mid then 0 else 1;
    assert FromRoot(g, roots, m, [], mid);
    assert FromRoot(g, roots, 1 - m, [], top);
    assert Follow(g, mid, [0][..0]) == Some(mid);
    assert FromRoot(g, roots, m, [0], dep);
  }

  /** The bottom-up walk there, with the roots in either order. */
  method OrderBottomUp(roots: seq<TargetNode>, top: TargetNode, mid: TargetNode, dep: TargetNode, own: TraceConditions,
                       ghost g: Graph)
    requires OrderGraph(g, top, mid, dep) && HasEdges(g) && Closed(g) && (roots == [mid, top] || roots == [top, mid])
    requires top.resolution == {} == mid.resolution && dep.resolution == {}
    requires own(top) == {} == own(dep) && own(mid) == {WeaklyRestricted}
    modifies g.Keys`resolution, g.Keys`pure
    ensures top.resolution == {} == dep.resolution && mid.resolution == {WeaklyRestricted}
  {
    hide BottomUp.Up, FromRoot, OnlyContainers;
    ghost var rank: Ranks := map[top := 2, mid := 1, dep := 0];
    OrderReached(g, roots, top, mid, dep);
    ghost var up := BottomUp.TraceBottomUpConditions(roots, own, g, true, rank);
    OrderBase(g, rank, own, top, mid, dep);
  }

  /** The visits of the top-down walk if the container is the first root. */
  method ContainerFirst(top: TargetNode, mid: TargetNode, dep: TargetNode, own: TraceConditions, ghost g: Graph)
    requires OrderGraph(g, top, mid, dep) && HasEdges(g)
    requires top.resolution == {} == dep.resolution && mid.resolution == {WeaklyRestricted}
    requires own(top) == {} == own(dep) && own(mid) == {WeaklyRestricted}
    modifies g.Keys`resolution, g.Keys`pure
    ensures dep.resolution == {WeaklyRestricted}
  {
    hide TargetConditionsPropagatingToDep, HasEdges, ResOf, PureOf;
    EdgesOf(g, top);
    EdgesOf(g, mid);
    var goOn, cs, amap := Visit(mid, {}, true, {}, own, g);
    var dcs := TargetConditionsPropagatingToDep(mid.edges[0], cs, true, own(mid));
    DynamicPasses(mid.edges[0], own(mid));
    goOn, cs, amap := Visit(dep, dcs, false, amap, own, g);
    goOn, cs, amap := Visit(top, {}, false, amap, own, g);
    dcs := TargetConditionsPropagatingToDep(top.edges[0], cs, false, own(top));
    assert dcs == {};
    goOn, cs, amap := Visit(mid, dcs, false, amap, own, g);
    assert !goOn;
  }

  /** The visits if the binary is the first root: the container is never walked as an aggregate. */
  method ContainerSecond(top: TargetNode, mid: TargetNode, dep: TargetNode, own: TraceConditions, ghost g: Graph)
    requires OrderGraph(g, top, mid, dep) && HasEdges(g)
    requires top.resolution == {} == dep.resolution && mid.resolution == {WeaklyRestricted}
    requires own(top) == {} == own(dep) && own(mid) == {WeaklyRestricted}
    modifies g.Keys`resolution, g.Keys`pure
    ensures dep.resolution == {}
  {
    hide TargetConditionsPropagatingToDep, HasEdges, ResOf, PureOf;
    EdgesOf(g, top);
    EdgesOf(g, mid);
    var goOn, cs, amap := Visit(top, {}, false, {}, own, g);
    var dcs := TargetConditionsPropagatingToDep(top.edges[0], cs, false, own(top));
    assert dcs == {};
    goOn, cs, amap := Visit(mid, dcs, false, amap, own, g);
    dcs := TargetConditionsPropagatingToDep(mid.edges[0], cs, false, own(mid));
    DynamicPasses(mid.edges[0], own(mid));
    goOn, cs, amap := Visit(dep, dcs, false, amap, own, g);
    goOn, cs, amap := Visit(mid, {}, true, amap, own, g);
    assert !goOn;
  }

  /** One visit seen from the fields of its node. */
  method Visit(t: TargetNode, cs: Conditions, aggregate: bool, amap: set<TargetNode>, own: TraceConditions, ghost g: Graph)
    returns (goOn: bool, cs': Conditions, amap': set<TargetNode>)
    requires t in g
    modifies t`resolution, t`pure
    ensures goOn <==> t !in amap || (cs != {} && (!(cs <= old(t.resolution)) || (!aggregate && old(t.pure))))
    ensures t.resolution == old(t.resolution) + (if !goOn then {} else if t in amap then cs else own(t) + cs)
    ensures amap' == amap + {t} && (goOn ==> cs' == t.resolution)
  {
    goOn, cs', amap' := ContinueWalk(t, cs, aggregate, amap, own, g);
    assert ResOf(g.Keys)[t] == t.resolution;
  }

  lemma DynamicPasses(e: TargetEdge, own: Conditions)
    requires e.annotations == {"dynamic"} && own == {WeaklyRestricted}
    ensures TargetConditionsPropagatingToDep(e, own, true, own) == own
    ensures TargetConditionsPropagatingToDep(e, own, false, own) == {}
  {
    assert IsRestricted(own);
    var passed := TargetConditionsPropagatingToDep(e, own, true, own);
    assert forall c :: c in passed <==> c in own;
  }

  lemma OrderNotExplained(g: Graph, roots: seq<TargetNode>, own: TraceConditions, base: Resolutions, top: TargetNode, mid: TargetNode,
                          dep: TargetNode, c: Condition)
    requires OrderGraph(g, top, mid, dep) && base == map[top := {}, mid := {WeaklyRestricted}, dep := {}]
    requires own(top) == {} == own(dep) && own(mid) == {WeaklyRestricted}
    ensures !Explained(g, roots, own, base, Plain, dep, c)
  {
    forall r: nat, p, q ensures !ExplainedBy(g, roots, own, base, Plain, r, p, q, dep, c) {
      if r < |roots| && Follow(g, roots[r], p).Some? {
        var y := Follow(g, roots[r], p).value;
        if q != [] && Follow(g, y, q) == Some(dep) {
          assert Follow(g, y, q[..|q| - 1]) == Some(mid);
        }
      }
    }
  }

  /** The same licence graph, walked from the same two roots in either order: the least solution for non-aggregates keeps
      the library free of every condition, and the walk leaves it free only if the binary comes first. So where a
      container is also met as a non-aggregate, no condition on the graph can say whether that solution is exceeded. */
  method OrderDecides(containerFirst: bool)
    returns (roots: seq<TargetNode>, dep: TargetNode, own: TraceConditions, ghost g: Graph, ghost base: Resolutions)
    ensures exists top, mid :: top in g && mid in g && OrderGraph(g, top, mid, dep)
                               && roots == if containerFirst then [mid, top] else [top, mid]
    ensures forall c :: !Explained(g, roots, own, base, Plain, dep, c)
    ensures dep.resolution == if containerFirst then {WeaklyRestricted} else {}
  {
    hide HasEdges, Closed, Explained;
    var top, mid;
    top, mid, dep, g := MakeOrderGraph();
    var container := mid;
    own := (t: TargetNode) => if t == container then {WeaklyRestricted} else {};
    roots := if containerFirst then [mid, top] else [top, mid];
    OrderBottomUp(roots, top, mid, dep, own, g);
    base := ResOf(g.Keys);
    assert base == map[top := {}, mid := {WeaklyRestricted}, dep := {}];
    forall c ensures !Explained(g, roots, own, base, Plain, dep, c) {
      OrderNotExplained(g, roots, own, base, top, mid, dep, c);
    }
    if containerFirst {
      ContainerFirst(top, mid, dep, own, g);
    } else {
      ContainerSecond(top, mid, dep, own, g);
    }
  }
}
