/** Licence conditions and how they cross the edges of a licence graph. */
module Policy {

  datatype Condition =
    | Unencumbered | Permissive | Notice | Reciprocal | Restricted | WeaklyRestricted | Proprietary | ByExceptionOnly
    | NotAllowed

  type Conditions = set<Condition>

  function ImpliesRestricted(): Conditions {
    {Restricted, WeaklyRestricted}
  }

  class TargetNode {
    const isContainer: bool
    var edges: seq<TargetEdge>
    var resolution: Conditions
    var pure: bool

    constructor (isContainer: bool)
      ensures this.isContainer == isContainer && edges == [] && resolution == {} && !pure
    {
      this.isContainer := isContainer;
      edges, resolution, pure := [], {}, false;
    }
  }

  /** An edge from a target to something it depends on. */
  datatype TargetEdge = TargetEdge(dependency: TargetNode, annotations: set<string>)

  predicate EdgeIsDynamicLink(e: TargetEdge) {
    "dynamic" in e.annotations
  }

  predicate EdgeIsDerivation(e: TargetEdge) {
    "dynamic" !in e.annotations && "toolchain" !in e.annotations
  }

  /** Which conditions of a dependency reach the target: none over an edge that is for the toolchain only, restricted ones
      over every other edge, weakly restricted ones unless it is dynamic. Nothing else does. */
  function DepConditionsPropagatingToTarget(e: TargetEdge, depConditions: Conditions): (r: Conditions)
    ensures forall c :: c in r <==> c in depConditions && GoesUp(e, c)
  {
    if EdgeIsDerivation(e) then depConditions * ImpliesRestricted()
    else if !EdgeIsDynamicLink(e) then {}
    else depConditions * {Restricted}
  }

  // What crosses an edge, by its annotations.

  ghost predicate GoesUp(e: TargetEdge, c: Condition) {
    || (c == Restricted && ("dynamic" in e.annotations || "toolchain" !in e.annotations))
    || (c == WeaklyRestricted && "dynamic" !in e.annotations && "toolchain" !in e.annotations)
  }

  /** Whether condition `c` goes down edge `e` when its target is not treated as an aggregate. */
  ghost predicate FlowsDown(e: TargetEdge, c: Condition) {
    || c == NotAllowed
    || (c == Restricted && ("dynamic" in e.annotations || "toolchain" !in e.annotations))
    || (c == WeaklyRestricted && "dynamic" !in e.annotations && "toolchain" !in e.annotations)
  }

  ghost predicate ToolchainOnly(es: seq<TargetEdge>) {
    forall e :: e in es ==> "toolchain" in e.annotations && "dynamic" !in e.annotations
  }

  ghost predicate IsRestricted(own: Conditions) {
    Restricted in own || WeaklyRestricted in own
  }

  /** The same for a target, with conditions `own` of its own, that is treated as an aggregate. */
  ghost predicate FlowsFromAggregate(e: TargetEdge, own: Conditions, c: Condition) {
    || c == NotAllowed
    || ((c == Restricted || c == WeaklyRestricted) && IsRestricted(own)
        && ("dynamic" in e.annotations || "toolchain" !in e.annotations))
  }

  /** Which conditions of a target reach a dependency. A condition that is not allowed goes down every edge. */
  function TargetConditionsPropagatingToDep(e: TargetEdge, targetConditions: Conditions, treatAsAggregate: bool,
                                            own: Conditions): (r: Conditions)
    ensures forall c ::
              c in r <==> (c in targetConditions && (if treatAsAggregate then FlowsFromAggregate(e, own, c) else FlowsDown(e, c)))
  {
    var kept := targetConditions - {Unencumbered, Permissive, Notice, Reciprocal, Proprietary, ByExceptionOnly};
    if !EdgeIsDerivation(e) && !EdgeIsDynamicLink(e) then kept - ImpliesRestricted()
    else if treatAsAggregate then
      assert forall c :: c in own * ImpliesRestricted() <==> c in own && (c == Restricted || c == WeaklyRestricted);
      if own * ImpliesRestricted() == {} then kept - ImpliesRestricted() else kept
    else if EdgeIsDerivation(e) then kept
    else kept - {WeaklyRestricted}
  }

  /** An aggregate passes on no more than it would if it were not treated as one, except in one case: a dynamic link of
      an aggregate that is itself restricted lets weakly restricted conditions through. */
  lemma AggregatePassesLess(e: TargetEdge, own: Conditions)
    ensures (forall cs :: TargetConditionsPropagatingToDep(e, cs, true, own) <= TargetConditionsPropagatingToDep(e, cs, false, own))
            <==> !("dynamic" in e.annotations && IsRestricted(own))
  {
    if "dynamic" in e.annotations && IsRestricted(own) {
      var cs := {WeaklyRestricted};
      assert WeaklyRestricted in TargetConditionsPropagatingToDep(e, cs, true, own);
      assert WeaklyRestricted !in TargetConditionsPropagatingToDep(e, cs, false, own);
    } else {
      forall cs ensures TargetConditionsPropagatingToDep(e, cs, true, own) <= TargetConditionsPropagatingToDep(e, cs, false, own) {
      }
    }
  }
}
