/** The shape of a licence graph, and what it means for one node to be reached from another. */
module LicenseGraph {
  import opened Policy

  /** The edges of every node, taken as a value. */
  type Graph = map<TargetNode, seq<TargetEdge>>

  /** The conditions that originate at a node. */
  type TraceConditions = TargetNode -> Conditions

  ghost predicate Closed(g: Graph) {
    forall t, i :: t in g && 0 <= i < |g[t]| ==> g[t][i].dependency in g
  }

  ghost predicate HasEdges(g: Graph)
    reads (set t | t in g)`edges
  {
    forall t :: t in g ==> t.edges == g[t]
  }

  lemma EdgesOf(g: Graph, t: TargetNode)
    requires HasEdges(g) && t in g
    ensures t.edges == g[t]
  {
  }

  /** The pure nodes, and the resolutions, as values. */
  ghost function PureOf(xs: set<TargetNode>): (r: set<TargetNode>)
    reads xs`pure
    ensures r <= xs
  {
    set x | x in xs && x.pure
  }

  ghost function ResOf(xs: set<TargetNode>): (r: map<TargetNode, Conditions>)
    reads xs`resolution
    ensures r.Keys == xs
  {
    map x | x in xs :: x.resolution
  }

  // Paths: which edge to take from each node.

  datatype Option<T> = None | Some(value: T)

  type Route = seq<nat>

  /** Where the route leads from `x`. */
  ghost function Follow(g: Graph, x: TargetNode, p: Route): Option<TargetNode> {
    if p == [] then Some(x)
    else
      match Follow(g, x, p[..|p| - 1])
      case None => None
      case Some(y) => if y in g && p[|p| - 1] < |g[y]| then Some(g[y][p[|p| - 1]].dependency) else None
  }

  /** Whether there are only containers on the route, both ends included. */
  ghost predicate OnlyContainers(g: Graph, x: TargetNode, p: Route) {
    && Follow(g, x, p).Some? && Follow(g, x, p).value.isContainer
    && (p == [] || OnlyContainers(g, x, p[..|p| - 1]))
  }

  /** The route leads from the `r`-th root to `x`. */
  ghost predicate FromRoot(g: Graph, roots: seq<TargetNode>, r: nat, p: Route, x: TargetNode) {
    r < |roots| && Follow(g, roots[r], p) == Some(x)
  }

  lemma FollowMore(g: Graph, x: TargetNode, p: Route, y: TargetNode, i: nat)
    requires Follow(g, x, p) == Some(y) && y in g && i < |g[y]|
    ensures Follow(g, x, p + [i]) == Some(g[y][i].dependency)
    ensures OnlyContainers(g, x, p + [i]) <==> OnlyContainers(g, x, p) && g[y][i].dependency.isContainer
  {
    assert (p + [i])[..|p|] == p;
  }

  /** A route taken from its front. */
  lemma {:induction false} FollowFront(g: Graph, x: TargetNode, i: nat, p: Route)
    requires x in g && i < |g[x]|
    ensures Follow(g, x, [i] + p) == Follow(g, g[x][i].dependency, p)
  {
    var q := [i] + p;
    if p == [] {
      assert q == [i] && q[..0] == [];
      assert Follow(g, x, q[..0]) == Some(x);
    } else {
      assert q[..|q| - 1] == [i] + p[..|p| - 1];
      FollowFront(g, x, i, p[..|p| - 1]);
    }
  }

  // Graphs without cycles.

  type Ranks = map<TargetNode, nat>

  ghost predicate Ranked(g: Graph, rank: Ranks) {
    g.Keys <= rank.Keys
    && forall t, i :: t in g && 0 <= i < |g[t]| ==> g[t][i].dependency in rank && rank[g[t][i].dependency] < rank[t]
  }
}
