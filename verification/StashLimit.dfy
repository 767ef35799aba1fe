/** How much stash space a plan needs, and what turning a command into "new" does to it. */
module StashLimit {
  import opened Ranges
  import opened Transfers
  import opened Plans
  import opened Slots

  ghost predicate RangesFit(img: Image, m: StashMap) {
    forall id :: id in m ==> Fits(m[id].range, img)
  }

  /** The ids that have to be held while command `k` runs, with what they hold. */
  ghost function PendingAt(img: Image, m: StashMap, k: nat): Pending
    requires RangesFit(img, m)
  {
    map id | id in m && m[id].def <= k <= m[id].use :: Read(img, m[id].range)
  }

  /** The blocks in the slots while command `k` runs: equal contents share a slot. */
  ghost function StashBlocks(img: Image, m: StashMap, k: nat): nat
    requires RangesFit(img, m)
  {
    Size(PendingAt(img, m, k).Values)
  }

  /** The updater sets aside the whole source of a command that overwrites part of it. */
  ghost predicate NeedsCopy(x: Xfer) {
    !x.style.New? && !x.style.Zero? && x.src * x.tgt != {}
  }

  /** `most` blocks of stash space are enough while command `k` runs. */
  ghost predicate WithinAt(img: Image, p: Plan, m: StashMap, k: nat, most: nat)
    requires RangesFit(img, m) && k < |p|
  {
    && StashBlocks(img, m, k) <= most
    && (NeedsCopy(p[k]) ==> StashBlocks(img, m, k) + |p[k].src| <= most)
  }

  ghost predicate Within(img: Image, p: Plan, m: StashMap, n: nat, most: nat)
    requires RangesFit(img, m) && n <= |p|
  {
    forall k :: 0 <= k < n ==> WithinAt(img, p, m, k, most)
  }

  /** Before patches are computed every command is a diff, new or zero command; diffs have a source. */
  ghost predicate Drafted(p: Plan) {
    forall k :: 0 <= k < |p| ==>
      && p[k].tgt != {}
      && match p[k].style {
           case Diff => p[k].src != {}
           case New => p[k].src == {}
           case Zero => true
           case _ => false
         }
  }

  /** The ids that are left when command `j` no longer reads anything. */
  ghost function Dropped(m: StashMap, j: nat): StashMap {
    map id | id in m && m[id].use != j :: m[id]
  }

  ghost function AsNew(x: Xfer): Xfer {
    x.(src := {}, style := New, uses := [])
  }

  /** Equal except for the stashes that are made. */
  ghost predicate SameBut(x: Xfer, y: Xfer) {
    x.(stashes := []) == y.(stashes := [])
  }

  ghost predicate Converted(p: Plan, p': Plan, j: nat) {
    |p'| == |p| && j < |p| && forall k :: 0 <= k < |p| ==> SameBut(p'[k], if k == j then AsNew(p[k]) else p[k])
  }

  lemma NewHasNoIds(p: Plan, m: StashMap, j: nat, id: nat)
    requires IdsGood(p, m) && Drafted(p) && id in m && m[id].use == j
    ensures j < |p| && p[j].style != New
  {
    assert p[j].src != {};
  }

  /** A plan stays good when a command gives up its source and its stashes are no longer made. */
  lemma ConvertGood(p: Plan, m: StashMap, p': Plan, j: nat)
    requires GoodPlan(p, m) && Converted(p, p', j) && DefsListed(p', Dropped(m, j))
    ensures GoodPlan(p', Dropped(m, j))
  {
    ConvertIds(p, m, p', j);
    ConvertUses(p, m, p', j);
    ConvertReads(p, m, p', j);
    forall k, i | 0 <= k < i < |p'| ensures p'[k].tgt !! p'[i].tgt {
      assert SameBut(p'[k], if k == j then AsNew(p[k]) else p[k]);
      assert SameBut(p'[i], if i == j then AsNew(p[i]) else p[i]);
    }
  }

  lemma ConvertIds(p: Plan, m: StashMap, p': Plan, j: nat)
    requires GoodPlan(p, m) && Converted(p, p', j)
    ensures IdsGood(p', Dropped(m, j))
  {
    var m' := Dropped(m, j);
    forall id | id in m'
      ensures m'[id].def < m'[id].use < |p'|
      ensures m'[id].range == p'[m'[id].use].src * p'[m'[id].def].tgt && m'[id].range != {}
    {
      var u, d := m[id].use, m[id].def;
      assert SameBut(p'[u], p[u]);
      assert SameBut(p'[d], if d == j then AsNew(p[d]) else p[d]);
    }
  }

  lemma ConvertUses(p: Plan, m: StashMap, p': Plan, j: nat)
    requires GoodPlan(p, m) && Converted(p, p', j)
    ensures UsesListed(p', Dropped(m, j))
  {
    forall k | 0 <= k < |p'|
      ensures NoRepeat(p'[k].uses) && forall s :: s in p'[k].uses <==> UsedBy(Dropped(m, j), k, s)
    {
      assert SameBut(p'[k], if k == j then AsNew(p[k]) else p[k]);
    }
  }

  lemma ConvertReads(p: Plan, m: StashMap, p': Plan, j: nat)
    requires GoodPlan(p, m) && Converted(p, p', j)
    ensures LateReadsStashed(p', Dropped(m, j))
  {
    hide TargetsDisjoint, IdsGood, DefsListed, UsesListed;
    assert SameBut(p'[j], AsNew(p[j]));
    forall k, i | 0 <= k < i < |p'| && p'[i].src * p'[k].tgt != {} ensures Stashed(Dropped(m, j), k, i) {
      assert SameBut(p'[k], if k == j then AsNew(p[k]) else p[k]);
      assert SameBut(p'[i], p[i]);
      var id :| id in m && m[id].def == k && m[id].use == i;
      assert id in Dropped(m, j);
    }
  }

  lemma ConvertDrafted(p: Plan, p': Plan, j: nat)
    requires Drafted(p) && Converted(p, p', j)
    ensures Drafted(p')
  {
    forall k | 0 <= k < |p'| ensures SameBut(p'[k], if k == j then AsNew(p[k]) else p[k]) {
    }
  }

  /** Fewer ids never need more space. */
  lemma FewerBlocks(img: Image, m: StashMap, m': StashMap, k: nat)
    requires RangesFit(img, m) && forall id :: id in m' ==> id in m && m'[id] == m[id]
    ensures RangesFit(img, m') && StashBlocks(img, m', k) <= StashBlocks(img, m, k)
  {
    var a, b := PendingAt(img, m', k), PendingAt(img, m, k);
    forall h | h in a.Values ensures h in b.Values {
      var id :| id in a && a[id] == h;
      assert id in b && b[id] == h;
    }
    SizeMonotone(a.Values, b.Values);
  }

  lemma ConvertWithin(img: Image, p: Plan, m: StashMap, p': Plan, j: nat, n: nat, most: nat)
    requires RangesFit(img, m) && Converted(p, p', j) && n <= |p|
    requires Within(img, p, m, n, most)
    ensures RangesFit(img, Dropped(m, j)) && Within(img, p', Dropped(m, j), n, most)
  {
    forall k | 0 <= k < n ensures WithinAt(img, p', Dropped(m, j), k, most) {
      FewerBlocks(img, m, Dropped(m, j), k);
      assert WithinAt(img, p, m, k, most);
      assert SameBut(p'[k], if k == j then AsNew(p[k]) else p[k]);
    }
  }

  // From one command to the next.

  /** The ids that are held between the commands `k - 1` and `k`. */
  ghost function PendingBefore(img: Image, m: StashMap, k: nat): Pending
    requires RangesFit(img, m)
  {
    map id | id in m && m[id].def < k <= m[id].use :: Read(img, m[id].range)
  }

  lemma StashRange(p: Plan, m: StashMap, k: nat, s: Stash)
    requires GoodPlan(p, m) && k < |p| && s in p[k].stashes
    ensures DefinedBy(m, k, s) && m[s.0].use > k && s.1 <= p[k].tgt
  {
  }

  lemma MadePending(img: Image, p: Plan, m: StashMap, k: nat)
    requires GoodPlan(p, m) && RangesFit(img, m) && k < |p| && AllFit(p[k].stashes, img)
    ensures NoRepeat(p[k].stashes) && forall s :: s in p[k].stashes ==> s.0 !in PendingBefore(img, m, k)
    ensures Adding(PendingBefore(img, m, k), img, p[k].stashes) == PendingAt(img, m, k)
  {
    hide Read, Adding;
    var list := p[k].stashes;
    var a, b := Adding(PendingBefore(img, m, k), img, list), PendingAt(img, m, k);
    forall s | s in list ensures s.0 !in PendingBefore(img, m, k) {
      StashRange(p, m, k, s);
    }
    forall id ensures (id in a <==> id in b) && (id in a ==> a[id] == b[id]) {
      AddingMember(PendingBefore(img, m, k), img, list, id);
      if id in Ids(list) {
        var s :| s in list && s.0 == id;
        StashRange(p, m, k, s);
      }
      if id in m && m[id].def == k {
        assert DefinedBy(m, k, (id, m[id].range));
      }
    }
  }

  lemma UseRange(p: Plan, m: StashMap, k: nat, s: Stash)
    requires GoodPlan(p, m) && k < |p| && s in p[k].uses
    ensures UsedBy(m, k, s) && m[s.0].def < k && s.1 == p[k].src * p[m[s.0].def].tgt
  {
  }

  lemma UsesPending(img: Image, p: Plan, m: StashMap, k: nat)
    requires GoodPlan(p, m) && RangesFit(img, m) && k < |p|
    ensures AllHeld(p[k].uses, PendingAt(img, m, k), img)
    ensures Without(PendingAt(img, m, k), Ids(p[k].uses)) == PendingBefore(img, m, k + 1)
  {
    hide Read;
    var uses := p[k].uses;
    forall s | s in uses
      ensures Fits(s.1, img) && s.0 in PendingAt(img, m, k) && PendingAt(img, m, k)[s.0] == Read(img, s.1)
    {
      UseRange(p, m, k, s);
    }
    forall id | id in m && m[id].def <= k <= m[id].use ensures id in Ids(uses) <==> m[id].use == k {
      if id in Ids(uses) {
        var s :| s in uses && s.0 == id;
        UseRange(p, m, k, s);
      }
      if m[id].use == k {
        assert UsedBy(m, k, (id, m[id].range));
        assert (id, m[id].range) in uses;
      }
    }
  }

  lemma BlocksAt(img: Image, m: StashMap, k: nat)
    requires RangesFit(img, m)
    ensures StashBlocks(img, m, k) == Size(PendingAt(img, m, k).Values)
  {
  }

  /** The stash space command `k` needs. */
  ghost function Demand(img: Image, p: Plan, m: StashMap, k: nat): nat
    requires RangesFit(img, m) && k < |p|
  {
    StashBlocks(img, m, k) + (if NeedsCopy(p[k]) then |p[k].src| else 0)
  }

  ghost function Larger(a: nat, b: nat): nat {
    if a < b then b else a
  }

  /** The most that any of the first `n` commands needs. */
  ghost function PeakDemand(img: Image, p: Plan, m: StashMap, n: nat): nat
    requires RangesFit(img, m) && n <= |p|
  {
    if n == 0 then 0 else Larger(PeakDemand(img, p, m, n - 1), Demand(img, p, m, n - 1))
  }

  lemma {:induction false} DemandBelowPeak(img: Image, p: Plan, m: StashMap, k: nat, n: nat)
    requires RangesFit(img, m) && k < n <= |p|
    ensures Demand(img, p, m, k) <= PeakDemand(img, p, m, n)
  {
    if k < n - 1 {
      DemandBelowPeak(img, p, m, k, n - 1);
    }
  }

  /** Enough for every command is the same as no less than the peak. */
  lemma {:induction false} WithinPeak(img: Image, p: Plan, m: StashMap, n: nat, most: nat)
    requires RangesFit(img, m) && n <= |p|
    ensures Within(img, p, m, n, most) <==> PeakDemand(img, p, m, n) <= most
  {
    hide StashBlocks, NeedsCopy, RangesFit;
    if n > 0 {
      WithinPeak(img, p, m, n - 1, most);
      assert WithinAt(img, p, m, n - 1, most) <==> Demand(img, p, m, n - 1) <= most;
    }
  }

  /** No command makes a stash, and none overwrites part of what it reads. */
  ghost predicate Stashless(p: Plan) {
    forall k :: 0 <= k < |p| ==> p[k].stashes == [] && !NeedsCopy(p[k])
  }

  /** No stash space is needed exactly if no command makes a stash or overwrites part of what it reads. */
  lemma NoNeed(img: Image, p: Plan, m: StashMap)
    requires GoodPlan(p, m) && RangesFit(img, m)
    ensures PeakDemand(img, p, m, |p|) == 0 <==> Stashless(p)
  {
    hide GoodPlan, Demand, PeakDemand, RangesFit;
    forall k | 0 <= k < |p| ensures p[k].stashes != [] || NeedsCopy(p[k]) ==> 0 < Demand(img, p, m, k) <= PeakDemand(img, p, m, |p|) {
      CommandNeeds(img, p, m, k);
      DemandBelowPeak(img, p, m, k, |p|);
    }
    if Stashless(p) {
      NoIds(p, m);
      NoPeak(img, p, m, |p|);
    }
  }

  lemma CommandNeeds(img: Image, p: Plan, m: StashMap, k: nat)
    requires GoodPlan(p, m) && RangesFit(img, m) && k < |p|
    ensures p[k].stashes != [] || NeedsCopy(p[k]) ==> Demand(img, p, m, k) > 0
  {
    if p[k].stashes != [] {
      var s := p[k].stashes[0];
      assert s in p[k].stashes;
      StashRange(p, m, k, s);
      var held := PendingAt(img, m, k);
      assert m[s.0].range != {};
      assert held[s.0] == Read(img, m[s.0].range) && held[s.0] in held.Values;
      SizeRemove(held.Values, held[s.0]);
    }
  }

  lemma NoIds(p: Plan, m: StashMap)
    requires GoodPlan(p, m) && Stashless(p)
    ensures m == map[]
  {
    if m != map[] {
      var id :| id in m;
      DefinerStashes(p, m, id);
      assert false;
    }
  }

  lemma DefinerStashes(p: Plan, m: StashMap, id: nat)
    requires GoodPlan(p, m) && id in m
    ensures m[id].def < |p| && p[m[id].def].stashes != []
  {
    var s := (id, m[id].range);
    assert DefinedBy(m, m[id].def, s);
    assert s in p[m[id].def].stashes;
  }

  lemma {:induction false} NoPeak(img: Image, p: Plan, m: StashMap, n: nat)
    requires RangesFit(img, m) && m == map[] && Stashless(p) && n <= |p|
    ensures PeakDemand(img, p, m, n) == 0
  {
    if n > 0 {
      NoPeak(img, p, m, n - 1);
      var held := PendingAt(img, m, n - 1);
      NoSize(held);
    }
  }

  lemma NoSize(held: Pending)
    requires held == map[]
    ensures Size(held.Values) == 0
  {
    var m: map<Hash, nat> := map h | h in held.Values :: |h|;
    assert m == map[];
  }
}
