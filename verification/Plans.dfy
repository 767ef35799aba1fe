/** A sequence of transfers as a value, and what makes it safe to run in order. */
module Plans {
  import opened Ranges
  import opened Transfers

  datatype Xfer = Xfer(tgt: RangeSet, src: RangeSet, style: Style, stashes: seq<Stash>, uses: seq<Stash>)

  type Plan = seq<Xfer>

  /** A stash id: what is saved, by which command, and for which later command. */
  datatype StashInfo = StashInfo(range: RangeSet, def: nat, use: nat)

  type StashMap = map<nat, StashInfo>

  ghost predicate TargetsDisjoint(p: Plan) {
    forall k, j :: 0 <= k < j < |p| ==> p[k].tgt !! p[j].tgt
  }

  ghost predicate NoRepeat(s: seq<Stash>) {
    forall i, j :: 0 <= i < j < |s| ==> s[i].0 != s[j].0
  }

  /** Every id has one definer and one strictly later user, and saves all that the user
      reads of what the definer writes. */
  ghost predicate IdsGood(p: Plan, m: StashMap) {
    && (forall id :: id in m ==>
          && m[id].def < m[id].use < |p|
          && m[id].range == p[m[id].use].src * p[m[id].def].tgt && m[id].range != {})
    && (forall i, j :: i in m && j in m && m[i].def == m[j].def && m[i].use == m[j].use ==> i == j)
  }

  ghost predicate DefinedBy(m: StashMap, k: nat, s: Stash) {
    s.0 in m && m[s.0].def == k && m[s.0].range == s.1
  }

  ghost predicate UsedBy(m: StashMap, k: nat, s: Stash) {
    s.0 in m && m[s.0].use == k && m[s.0].range == s.1
  }

  /** The stash lists of the commands hold exactly the ids they define and use. */
  ghost predicate DefsListed(p: Plan, m: StashMap) {
    forall k :: 0 <= k < |p| ==>
      NoRepeat(p[k].stashes) && forall s :: s in p[k].stashes <==> DefinedBy(m, k, s)
  }

  ghost predicate UsesListed(p: Plan, m: StashMap) {
    forall k :: 0 <= k < |p| ==>
      NoRepeat(p[k].uses) && forall s :: s in p[k].uses <==> UsedBy(m, k, s)
  }

  ghost predicate Stashed(m: StashMap, k: nat, j: nat) {
    exists id :: id in m && m[id].def == k && m[id].use == j
  }

  /** Whenever a command reads what an earlier one has overwritten, it reads a stash. */
  ghost predicate LateReadsStashed(p: Plan, m: StashMap) {
    forall k, j :: 0 <= k < j < |p| && p[j].src * p[k].tgt != {} ==> Stashed(m, k, j)
  }

  ghost predicate GoodPlan(p: Plan, m: StashMap) {
    TargetsDisjoint(p) && IdsGood(p, m) && DefsListed(p, m) && UsesListed(p, m) && LateReadsStashed(p, m)
  }

  ghost function Snap(x: Transfer): Xfer
    reads x
  {
    Xfer(x.tgtRanges, x.srcRanges, x.style, x.stashBefore, x.useStash)
  }

  ghost function Snapshot(ts: seq<Transfer>): (p: Plan)
    reads set x | x in ts
    ensures |p| == |ts|
  {
    seq(|ts|, i requires 0 <= i < |ts| reads ts => Snap(ts[i]))
  }

  /** The blocks stashed for a command. */
  ghost function StashedFor(uses: seq<Stash>): RangeSet {
    set s, x | s in uses && x in s.1 :: x
  }

  /** Every block that an earlier command writes reaches a later reader through a stash. */
  lemma LateBlockStashed(p: Plan, m: StashMap, k: nat, j: nat, x: nat)
    requires GoodPlan(p, m) && k < j < |p|
    requires x in p[j].src && x in p[k].tgt
    ensures x in StashedFor(p[j].uses)
  {
    assert x in p[j].src * p[k].tgt;
    var id :| id in m && m[id].def == k && m[id].use == j;
    assert UsedBy(m, j, (id, m[id].range));
  }
}
