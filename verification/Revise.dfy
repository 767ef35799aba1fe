/** Keeping the stash within the space there is: what does not fit is shipped as new data. */
module Revise {
  import opened Ranges
  import opened Transfers
  import opened FeedbackArc
  import opened Plans
  import opened Slots
  import opened StashLimit

  /** A stash with the command that makes it and, once seen, the one that uses it. */
  datatype StashRec = StashRec(range: RangeSet, def: Transfer, use: Option<Transfer>)

  type DefUse = map<nat, StashRec>

  /** The def/use map agrees with the plan's ids. */
  ghost predicate MapOf(sm: DefUse, ts: seq<Transfer>, m: StashMap) {
    forall id :: id in m ==>
      && m[id].def < |ts| && m[id].use < |ts|
      && id in sm && sm[id] == StashRec(m[id].range, ts[m[id].def], Some(ts[m[id].use]))
  }

  method AddDefs(sm: DefUse, xf: Transfer) returns (sm': DefUse)
    requires NoRepeat(xf.stashBefore)
    ensures forall s :: s in xf.stashBefore ==> s.0 in sm' && sm'[s.0] == StashRec(s.1, xf, None)
    ensures forall id :: id in sm && (forall s :: s in xf.stashBefore ==> s.0 != id) ==> id in sm' && sm'[id] == sm[id]
  {
    sm' := sm;
    for n := 0 to |xf.stashBefore|
      invariant forall i :: 0 <= i < n ==>
        xf.stashBefore[i].0 in sm' && sm'[xf.stashBefore[i].0] == StashRec(xf.stashBefore[i].1, xf, None)
      invariant forall id :: id in sm && (forall s :: s in xf.stashBefore ==> s.0 != id) ==> id in sm' && sm'[id] == sm[id]
    {
      var (rawId, sr) := xf.stashBefore[n];
      sm' := sm'[rawId := StashRec(sr, xf, None)];
    }
  }

  method AddUses(sm: DefUse, xf: Transfer) returns (sm': DefUse)
    requires NoRepeat(xf.useStash)
    requires forall s :: s in xf.useStash ==> s.0 in sm
    ensures forall s :: s in xf.useStash ==> s.0 in sm' && sm'[s.0] == sm[s.0].(use := Some(xf))
    ensures forall id :: id in sm && (forall s :: s in xf.useStash ==> s.0 != id) ==> id in sm' && sm'[id] == sm[id]
  {
    sm' := sm;
    for n := 0 to |xf.useStash|
      invariant forall i :: 0 <= i < n ==>
        xf.useStash[i].0 in sm' && sm'[xf.useStash[i].0] == sm[xf.useStash[i].0].(use := Some(xf))
      invariant forall i :: n <= i < |xf.useStash| ==>
        xf.useStash[i].0 in sm' && sm'[xf.useStash[i].0] == sm[xf.useStash[i].0]
      invariant forall id :: id in sm && (forall s :: s in xf.useStash ==> s.0 != id) ==> id in sm' && sm'[id] == sm[id]
    {
      var rawId := xf.useStash[n].0;
      assert rawId in sm';
      sm' := sm'[rawId := sm'[rawId].(use := Some(xf))];
    }
  }

  /** The def/use map after `d` commands were asked for their definitions and `u` for their uses. */
  ghost predicate MapSoFar(sm: DefUse, ts: seq<Transfer>, m: StashMap, d: nat, u: nat)
    requires forall id :: id in m ==> m[id].def < |ts| && m[id].use < |ts|
  {
    forall id :: id in m && m[id].def < d ==>
      id in sm && sm[id] == StashRec(m[id].range, ts[m[id].def], if m[id].use < u then Some(ts[m[id].use]) else None)
  }

  ghost predicate Spans(m: StashMap, n: nat) {
    forall id :: id in m ==> m[id].def < m[id].use < n
  }

  lemma DefsStep(sm: DefUse, sm': DefUse, ts: seq<Transfer>, m: StashMap, n: nat, list: seq<Stash>)
    requires n < |ts| && Spans(m, |ts|) && MapSoFar(sm, ts, m, n, n)
    requires forall s :: s in list <==> DefinedBy(m, n, s)
    requires forall s :: s in list ==> s.0 in sm' && sm'[s.0] == StashRec(s.1, ts[n], None)
    requires forall id :: id in sm && (forall s :: s in list ==> s.0 != id) ==> id in sm' && sm'[id] == sm[id]
    ensures MapSoFar(sm', ts, m, n + 1, n)
  {
    forall id | id in m && m[id].def < n + 1
      ensures id in sm' && sm'[id] == StashRec(m[id].range, ts[m[id].def], if m[id].use < n then Some(ts[m[id].use]) else None)
    {
      if m[id].def == n {
        assert DefinedBy(m, n, (id, m[id].range));
      } else {
        assert forall s :: s in list ==> s.0 != id;
      }
    }
  }

  lemma UsesStep(sm: DefUse, sm': DefUse, ts: seq<Transfer>, m: StashMap, n: nat, list: seq<Stash>)
    requires n < |ts| && Spans(m, |ts|) && MapSoFar(sm, ts, m, n + 1, n)
    requires forall s :: s in list <==> UsedBy(m, n, s)
    requires forall s :: s in list ==> s.0 in sm && s.0 in sm' && sm'[s.0] == sm[s.0].(use := Some(ts[n]))
    requires forall id :: id in sm && (forall s :: s in list ==> s.0 != id) ==> id in sm' && sm'[id] == sm[id]
    ensures MapSoFar(sm', ts, m, n + 1, n + 1)
  {
    forall id | id in m && m[id].def < n + 1
      ensures id in sm' && sm'[id] == StashRec(m[id].range, ts[m[id].def], if m[id].use < n + 1 then Some(ts[m[id].use]) else None)
    {
      if m[id].use == n {
        assert UsedBy(m, n, (id, m[id].range));
      } else {
        assert forall s :: s in list ==> s.0 != id;
      }
    }
  }

  lemma GoodSpans(p: Plan, m: StashMap)
    requires GoodPlan(p, m)
    ensures Spans(m, |p|)
  {
  }

  lemma ListedAt(ts: seq<Transfer>, m: StashMap, n: nat)
    requires GoodPlan(Snapshot(ts), m) && n < |ts|
    ensures NoRepeat(ts[n].stashBefore) && NoRepeat(ts[n].useStash)
    ensures forall s :: s in ts[n].stashBefore <==> DefinedBy(m, n, s)
    ensures forall s :: s in ts[n].useStash <==> UsedBy(m, n, s)
  {
    hide GoodPlan, DefinedBy, UsedBy, NoRepeat;
    GoodListedAt(Snapshot(ts), m, n);
  }

  lemma GoodListedAt(p: Plan, m: StashMap, n: nat)
    requires GoodPlan(p, m) && n < |p|
    ensures NoRepeat(p[n].stashes) && NoRepeat(p[n].uses)
    ensures forall s :: s in p[n].stashes <==> DefinedBy(m, n, s)
    ensures forall s :: s in p[n].uses <==> UsedBy(m, n, s)
  {
  }

  lemma UsesKnown(sm: DefUse, ts: seq<Transfer>, m: StashMap, n: nat, list: seq<Stash>)
    requires n < |ts| && Spans(m, |ts|) && MapSoFar(sm, ts, m, n + 1, n)
    requires forall s :: s in list <==> UsedBy(m, n, s)
    ensures forall s :: s in list ==> s.0 in sm
  {
  }

  lemma MapDone(sm: DefUse, ts: seq<Transfer>, m: StashMap)
    requires Spans(m, |ts|) && MapSoFar(sm, ts, m, |ts|, |ts|)
    ensures MapOf(sm, ts, m)
  {
  }

  /** Every id is found with its definer and its user, and each use follows its definition. */
  method BuildDefUse(ts: seq<Transfer>, ghost m: StashMap) returns (sm: DefUse)
    requires GoodPlan(Snapshot(ts), m)
    ensures MapOf(sm, ts, m)
  {
    hide *;
    GoodSpans(Snapshot(ts), m);
    SnapshotLength(ts);
    sm := map[];
    MapStart(sm, ts, m);
    for n := 0 to |ts|
      invariant MapSoFar(sm, ts, m, n, n)
    {
      ListedAt(ts, m, n);
      ghost var was := sm;
      sm := AddDefs(sm, ts[n]);
      DefsStep(was, sm, ts, m, n, ts[n].stashBefore);
      UsesKnown(sm, ts, m, n, ts[n].useStash);
      was := sm;
      sm := AddUses(sm, ts[n]);
      UsesStep(was, sm, ts, m, n, ts[n].useStash);
    }
    MapDone(sm, ts, m);
  }

  lemma SnapshotLength(ts: seq<Transfer>)
    ensures |Snapshot(ts)| == |ts|
  {
  }

  lemma MapStart(sm: DefUse, ts: seq<Transfer>, m: StashMap)
    requires Spans(m, |ts|)
    ensures forall id :: id in m ==> m[id].def < |ts| && m[id].use < |ts|
    ensures MapSoFar(sm, ts, m, 0, 0)
  {
  }

  /** More blocks than allowed; a limit of zero is no limit. */
  ghost predicate Exceeds(limit: Option<real>, blocks: nat) {
    limit.Some? && limit.value != 0.0 && blocks as real > limit.value
  }

  /** One stash is made, or its user is marked to be replaced because there is no room. */
  method StashOne(s: Stash, img: Image, limit: Option<real>, c: Counts, blocks: nat, ghost held: Pending)
    returns (c': Counts, blocks': nat, refused: bool, ghost held': Pending)
    requires Books(held, c, blocks) && Fits(s.1, img) && s.0 !in held
    ensures Books(held', c', blocks')
    ensures held' == if refused then held else held[s.0 := Read(img, s.1)]
    ensures refused ==> limit.Some? && blocks' == blocks
    ensures refused <==> Exceeds(limit, Size(held[s.0 := Read(img, s.1)].Values))
    ensures blocks' >= blocks && (!refused ==> !Exceeds(limit, blocks'))
  {
    hide Counted, Size, Read, Acquire, Books;
    var sh := Read(img, s.1);
    ReadSize(img, s.1);
    TakeBooks(held, c, blocks, s.0, sh);
    BooksSize(held[s.0 := sh], Acquire(c, sh), blocks + (if sh in c then 0 else |sh|));
    var after := blocks;
    if sh !in c {
      after := after + |s.1|;
    }
    if limit.Some? && limit.value != 0.0 && after as real > limit.value {
      c', blocks', refused, held' := c, blocks, true, held;
    } else {
      c', blocks', refused, held' := Acquire(c, sh), after, false, held[s.0 := sh];
    }
  }

  /** What is true of the stashes in `list` once they have been dealt with. */
  ghost predicate Settled(list: seq<Stash>, sm: DefUse, img: Image, held: Pending, replaced: seq<Transfer>) {
    forall s :: s in list ==>
      Fits(s.1, img) && s.0 in sm && sm[s.0].use.Some? &&
      ((s.0 in held && held[s.0] == Read(img, s.1)) || sm[s.0].use.value in replaced)
  }

  ghost predicate Usable(list: seq<Stash>, sm: DefUse, img: Image) {
    && NoRepeat(list)
    && forall s :: s in list ==> Fits(s.1, img) && s.0 in sm && sm[s.0].use.Some?
  }

  ghost predicate UsersOf(replaced: seq<Transfer>, list: seq<Stash>, sm: DefUse) {
    forall r :: r in replaced ==> exists s :: s in list && s.0 in sm && sm[s.0].use == Some(r)
  }

  /** Distinct stashes of one definer have distinct users. */
  ghost predicate DistinctUsers(list: seq<Stash>, sm: DefUse) {
    forall i, j :: 0 <= i < j < |list| ==> list[i].0 in sm && list[j].0 in sm && sm[list[i].0].use != sm[list[j].0].use
  }

  ghost predicate Keeps(held: Pending, held': Pending) {
    forall id :: id in held ==> id in held' && held'[id] == held[id]
  }

  ghost predicate OnlyAdds(held: Pending, held': Pending, list: seq<Stash>) {
    forall id :: id in held' && id !in held ==> exists s :: s in list && s.0 == id
  }

  lemma SettleOne(list: seq<Stash>, n: nat, sm: DefUse, img: Image, held: Pending, held': Pending,
                  replaced: seq<Transfer>, refused: bool)
    requires n < |list| && Usable(list, sm, img) && DistinctUsers(list, sm)
    requires Settled(list[..n], sm, img, held, replaced) && UsersOf(replaced, list[..n], sm) && Distinct(replaced)
    requires list[n].0 !in held
    requires held' == if refused then held else held[list[n].0 := Read(img, list[n].1)]
    ensures list[n].0 in sm && sm[list[n].0].use.Some?
    ensures var more := if refused then replaced + [sm[list[n].0].use.value] else replaced;
            Settled(list[..n + 1], sm, img, held', more) && UsersOf(more, list[..n + 1], sm) && Distinct(more)
  {
    assert list[..n + 1] == list[..n] + [list[n]];
    var u := sm[list[n].0].use.value;
    forall s | s in list[..n] ensures s.0 in sm && sm[s.0].use != Some(u) && s.0 != list[n].0 {
      var i :| 0 <= i < n && list[i] == s;
    }
    assert u !in replaced;
  }

  lemma HeldGrows(held: Pending, held': Pending, s: Stash, list: seq<Stash>, n: nat, h: Hash, refused: bool, held0: Pending)
    requires n < |list| && s == list[n] && s.0 !in held
    requires held' == if refused then held else held[s.0 := h]
    requires Keeps(held0, held) && OnlyAdds(held0, held, list[..n])
    ensures Keeps(held0, held') && OnlyAdds(held0, held', list[..n + 1])
  {
    assert list[..n + 1] == list[..n] + [s];
    forall id | id in held' && id !in held0 ensures exists t :: t in list[..n + 1] && t.0 == id {
      if id == s.0 {
        assert s in list[..n + 1];
      } else {
        var t :| t in list[..n] && t.0 == id;
        assert t in list[..n + 1];
      }
    }
  }

  /** What a command has stashed itself, on top of what was there before. */
  ghost predicate Between(before: Pending, held: Pending, list: seq<Stash>, img: Image) {
    forall id :: id in held ==>
      || (id in before && held[id] == before[id])
      || (exists s :: s in list && s.0 == id && Fits(s.1, img) && held[id] == Read(img, s.1))
  }

  /** A stash for this transfer did not fit beside what was held. */
  ghost predicate Refused(r: Transfer, list: seq<Stash>, sm: DefUse, img: Image, limit: Option<real>, before: Pending) {
    exists s, h :: s in list && s.0 in sm && sm[s.0].use == Some(r) && Fits(s.1, img) && Between(before, h, list, img)
                   && Exceeds(limit, Size(h[s.0 := Read(img, s.1)].Values))
  }

  ghost predicate AllRefused(replaced: seq<Transfer>, list: seq<Stash>, sm: DefUse, img: Image, limit: Option<real>, before: Pending) {
    forall r :: r in replaced ==> Refused(r, list, sm, img, limit, before)
  }

  lemma RefusedNext(replaced: seq<Transfer>, list: seq<Stash>, n: nat, sm: DefUse, img: Image, limit: Option<real>,
                    before: Pending, held: Pending, refused: bool, held': Pending)
    requires n < |list| && Fits(list[n].1, img) && list[n].0 in sm && sm[list[n].0].use.Some?
    requires AllRefused(replaced, list, sm, img, limit, before) && Between(before, held, list, img)
    requires refused <==> Exceeds(limit, Size(held[list[n].0 := Read(img, list[n].1)].Values))
    requires held' == if refused then held else held[list[n].0 := Read(img, list[n].1)]
    ensures Between(before, held', list, img)
    ensures refused ==> AllRefused(replaced + [sm[list[n].0].use.value], list, sm, img, limit, before)
  {
    hide Exceeds, Size, Read;
    if refused {
      BetweenHides(before, held, list, img, list[n], sm, limit, sm[list[n].0].use.value);
      var more := replaced + [sm[list[n].0].use.value];
      forall r | r in more ensures Refused(r, list, sm, img, limit, before) {
        assert r in replaced || r == sm[list[n].0].use.value;
      }
    }
  }

  lemma BetweenHides(before: Pending, held: Pending, list: seq<Stash>, img: Image, s: Stash, sm: DefUse, limit: Option<real>,
                     r: Transfer)
    requires s in list && s.0 in sm && sm[s.0].use == Some(r) && Fits(s.1, img) && Between(before, held, list, img)
    requires Exceeds(limit, Size(held[s.0 := Read(img, s.1)].Values))
    ensures Refused(r, list, sm, img, limit, before)
  {
    hide Exceeds, Size, Read, Between;
  }

  lemma NoneRefused(list: seq<Stash>, sm: DefUse, img: Image, limit: Option<real>, before: Pending)
    ensures AllRefused([], list, sm, img, limit, before) && Between(before, before, list, img)
  {
  }

  lemma NotYetHeld(list: seq<Stash>, n: nat, held0: Pending, held: Pending)
    requires n < |list| && NoRepeat(list) && list[n].0 !in held0
    requires OnlyAdds(held0, held, list[..n])
    ensures list[n].0 !in held
  {
    forall s | s in list[..n] ensures s.0 != list[n].0 {
      var i :| 0 <= i < n && list[i] == s;
    }
  }

  /** The explicit stashes of one command; what does not fit puts its user on the list to be replaced. */
  method StashExplicit(list: seq<Stash>, sm: DefUse, img: Image, limit: Option<real>,
                       c: Counts, blocks: nat, most: nat, ghost held: Pending)
    returns (c': Counts, blocks': nat, most': nat, replaced: seq<Transfer>, ghost held': Pending)
    requires Books(held, c, blocks) && Usable(list, sm, img) && DistinctUsers(list, sm)
    requires AllFit(list, img) && blocks <= most && forall s :: s in list ==> s.0 !in held
    ensures Books(held', c', blocks')
    ensures Settled(list, sm, img, held', replaced) && UsersOf(replaced, list, sm) && Distinct(replaced)
    ensures Keeps(held, held') && OnlyAdds(held, held', list)
    ensures AllRefused(replaced, list, sm, img, limit, held) && Between(held, held', list, img)
    ensures limit.None? ==> replaced == []
    ensures most' >= most && most' >= blocks'
    ensures !Exceeds(limit, most) ==> !Exceeds(limit, most')
    ensures !Exceeds(limit, Size(Adding(held, img, list).Values)) ==>
              replaced == [] && held' == Adding(held, img, list) && most' == Larger(most, blocks')
  {
    c', blocks', most', replaced, held' := c, blocks, most, [], held;
    hide Books, Settled, UsersOf, Keeps, OnlyAdds, Usable, DistinctUsers, Distinct, Read, Exceeds, NoRepeat, Adding,
         AllFit, Size,
         AllRefused, Between;
    StartExplicit(list, sm, img, held);
    NoneRefused(list, sm, img, limit, held);
    ghost var roomy := !Exceeds(limit, Size(Adding(held, img, list).Values));
    for n := 0 to |list|
      invariant Books(held', c', blocks')
      invariant Settled(list[..n], sm, img, held', replaced) && UsersOf(replaced, list[..n], sm) && Distinct(replaced)
      invariant Keeps(held, held') && OnlyAdds(held, held', list[..n])
      invariant AllRefused(replaced, list, sm, img, limit, held) && Between(held, held', list, img)
      invariant limit.None? ==> replaced == []
      invariant most' >= most && most' >= blocks'
      invariant !Exceeds(limit, most) ==> !Exceeds(limit, most')
      invariant AllFit(list[..n], img)
      invariant roomy ==> replaced == [] && held' == Adding(held, img, list[..n]) && most' == Larger(most, blocks')
    {
      var refused;
      ghost var before := held';
      UsableAt(list, sm, img, n);
      NotYetHeld(list, n, held, held');
      AddingNext(list, img, n, held, limit);
      c', blocks', refused, held' := StashOne(list[n], img, limit, c', blocks', held');
      SettleOne(list, n, sm, img, before, held', replaced, refused);
      HeldGrows(before, held', list[n], list, n, Read(img, list[n].1), refused, held);
      RefusedNext(replaced, list, n, sm, img, limit, held, before, refused, held');
      if refused {
        replaced := replaced + [sm[list[n].0].use.value];
      } else {
        if most' < blocks' {
          most' := blocks';
        }
      }
    }
    assert list[..|list|] == list;
  }

  lemma ExceedsMore(limit: Option<real>, a: nat, b: nat)
    requires a <= b && Exceeds(limit, a)
    ensures Exceeds(limit, b)
  {
  }

  /** The stashes up to one of them take no more than all of them. */
  lemma AddingNext(list: seq<Stash>, img: Image, n: nat, held: Pending, limit: Option<real>)
    requires n < |list| && AllFit(list, img) && NoRepeat(list) && forall s :: s in list ==> s.0 !in held
    ensures AllFit(list[..n], img) && AllFit(list[..n + 1], img) && Fits(list[n].1, img)
    ensures Adding(held, img, list[..n + 1]) == Adding(held, img, list[..n])[list[n].0 := Read(img, list[n].1)]
    ensures Exceeds(limit, Size(Adding(held, img, list[..n + 1]).Values)) ==>
              Exceeds(limit, Size(Adding(held, img, list).Values))
  {
    hide Size, Read, Exceeds;
    assert list[..n + 1][..n] == list[..n];
    AddingMonotone(held, img, list, n + 1);
    SizeMonotone(Adding(held, img, list[..n + 1]).Values, Adding(held, img, list).Values);
    if Exceeds(limit, Size(Adding(held, img, list[..n + 1]).Values)) {
      ExceedsMore(limit, Size(Adding(held, img, list[..n + 1]).Values), Size(Adding(held, img, list).Values));
    }
  }

  lemma AddingMonotone(held: Pending, img: Image, list: seq<Stash>, n: nat)
    requires n <= |list| && AllFit(list, img) && NoRepeat(list) && forall s :: s in list ==> s.0 !in held
    ensures AllFit(list[..n], img)
    ensures Adding(held, img, list[..n]).Values <= Adding(held, img, list).Values
  {
    hide Read, Adding;
    var a, b := Adding(held, img, list[..n]), Adding(held, img, list);
    forall h | h in a.Values ensures h in b.Values {
      var id :| id in a && a[id] == h;
      AddingMember(held, img, list[..n], id);
      AddingMember(held, img, list, id);
      if id in Ids(list[..n]) {
        var s :| s in list[..n] && s.0 == id;
        assert s in list;
      } else {
        assert id in held && id !in Ids(list);
      }
      assert id in b && b[id] == h;
    }
  }

  lemma StartExplicit(list: seq<Stash>, sm: DefUse, img: Image, held: Pending)
    ensures AllFit(list[..0], img) && Adding(held, img, list[..0]) == held
    ensures Settled(list[..0], sm, img, held, []) && UsersOf([], list[..0], sm) && Distinct<Transfer>([])
    ensures Keeps(held, held) && OnlyAdds(held, held, list[..0])
  {
  }

  lemma UsableAt(list: seq<Stash>, sm: DefUse, img: Image, n: nat)
    requires Usable(list, sm, img) && n < |list|
    ensures NoRepeat(list) && Fits(list[n].1, img) && list[n].0 in sm && sm[list[n].0].use.Some?
  {
  }

  // Replacing a command.

  /** Nothing about the command's source has changed, or it has been given up. */
  twostate predicate KeptOrNew(x: Transfer)
    reads x
  {
    || (x.style == old(x.style) && x.srcRanges == old(x.srcRanges) && x.patchInfo == old(x.patchInfo))
    || (x.style == New && x.srcRanges == {} && x.patchInfo == None)
  }

  function RemoveFirst(list: seq<Stash>, s: Stash): (r: seq<Stash>)
  {
    if list == [] then [] else if list[0] == s then list[1..] else [list[0]] + RemoveFirst(list[1..], s)
  }

  lemma {:induction false} RemoveFirstElements(list: seq<Stash>, s: Stash)
    requires NoRepeat(list)
    ensures NoRepeat(RemoveFirst(list, s))
    ensures forall t :: t in RemoveFirst(list, s) <==> t in list && t != s
  {
    if list != [] {
      var rest := list[1..];
      assert list == [list[0]] + rest;
      assert NoRepeat(rest);
      RemoveFirstElements(rest, s);
      if list[0] != s {
        var r := RemoveFirst(rest, s);
        forall i | 0 <= i < |r| ensures r[i].0 != list[0].0 {
          assert r[i] in rest;
        }
        assert forall t :: t in RemoveFirst(list, s) <==> t == list[0] || t in r;
      } else {
        assert forall i :: 0 <= i < |rest| ==> rest[i] == list[i + 1];
      }
    }
  }

  method RemoveStash(def: Transfer, s: Stash)
    requires s in def.stashBefore
    modifies def`stashBefore
    ensures def.stashBefore == RemoveFirst(old(def.stashBefore), s)
  {
    def.stashBefore := RemoveFirst(def.stashBefore, s);
  }

  /** Editing one transfer edits one place of the plan. */
  method RemoveAt(ts: seq<Transfer>, ghost d: nat, def: Transfer, s: Stash)
    requires Distinct(ts) && d < |ts| && ts[d] == def && s in def.stashBefore
    modifies def`stashBefore
    ensures var p := old(Snapshot(ts));
            Snapshot(ts) == p[d := p[d].(stashes := RemoveFirst(p[d].stashes, s))]
  {
    RemoveStash(def, s);
    ghost var p := old(Snapshot(ts));
    var q := p[d := p[d].(stashes := RemoveFirst(p[d].stashes, s))];
    forall k | 0 <= k < |ts| ensures Snapshot(ts)[k] == q[k] {
      assert k != d ==> ts[k] != def;
    }
  }

  method ConvertAt(ts: seq<Transfer>, ghost j: nat, cmd: Transfer)
    requires Distinct(ts) && j < |ts| && ts[j] == cmd && cmd.style != New
    modifies cmd`useStash, cmd`style, cmd`srcRanges, cmd`patchInfo
    ensures Snapshot(ts) == old(Snapshot(ts))[j := AsNew(old(Snapshot(ts))[j])]
    ensures cmd.style == New && cmd.srcRanges == {} && cmd.patchInfo == None
  {
    cmd.ConvertToNew();
    ghost var p := old(Snapshot(ts));
    forall k | 0 <= k < |ts| ensures Snapshot(ts)[k] == p[j := AsNew(p[j])][k] {
      assert k != j ==> ts[k] != cmd;
    }
  }

  ghost function Minus(m: StashMap, ids: set<nat>): StashMap {
    map id | id in m && id !in ids :: m[id]
  }

  lemma RemoveListed(p: Plan, m: StashMap, d: nat, s: Stash)
    requires DefsListed(p, m) && d < |p| && DefinedBy(m, d, s)
    ensures DefsListed(p[d := p[d].(stashes := RemoveFirst(p[d].stashes, s))], Minus(m, {s.0}))
  {
    var q, m' := p[d := p[d].(stashes := RemoveFirst(p[d].stashes, s))], Minus(m, {s.0});
    forall k | 0 <= k < |q|
      ensures NoRepeat(q[k].stashes) && forall t :: t in q[k].stashes <==> DefinedBy(m', k, t)
    {
      if k == d {
        RemoveFirstElements(p[d].stashes, s);
      }
    }
  }

  ghost predicate AllSameBut(p: Plan, q: Plan) {
    |p| == |q| && forall k :: 0 <= k < |p| ==> SameBut(q[k], p[k])
  }

  /** State of a replacement after `n` of the uses have been taken from their definers. */
  ghost predicate Removing(p0: Plan, p: Plan, m: StashMap, uses: seq<Stash>, n: nat)
    requires n <= |uses|
  {
    AllSameBut(p0, p) && DefsListed(p, Minus(m, Ids(uses[..n])))
  }

  lemma RemoveNext(p0: Plan, p: Plan, m: StashMap, j: nat, uses: seq<Stash>, n: nat)
    requires n < |uses| && Removing(p0, p, m, uses, n) && NoRepeat(uses) && Spans(m, |p0|)
    requires forall s :: s in uses <==> UsedBy(m, j, s)
    ensures uses[n].0 in m && m[uses[n].0].def < |p| && uses[n] in p[m[uses[n].0].def].stashes
    ensures var (s, d) := (uses[n], m[uses[n].0].def);
            Removing(p0, p[d := p[d].(stashes := RemoveFirst(p[d].stashes, s))], m, uses, n + 1)
  {
    var s := uses[n];
    assert UsedBy(m, j, s);
    var d := m[s.0].def;
    forall t | t in uses[..n] ensures t.0 != s.0 {
      var i :| 0 <= i < n && uses[i] == t;
    }
    assert DefinedBy(Minus(m, Ids(uses[..n])), d, s);
    RemoveListed(p, Minus(m, Ids(uses[..n])), d, s);
    IdsNext(uses, n);
    assert Minus(Minus(m, Ids(uses[..n])), {s.0}) == Minus(m, Ids(uses[..n + 1]));
  }

  lemma RemoveDone(p0: Plan, p: Plan, m: StashMap, j: nat, uses: seq<Stash>)
    requires j < |p0| && Removing(p0, p, m, uses, |uses|)
    requires forall s :: s in uses <==> UsedBy(m, j, s)
    ensures DefsListed(p[j := AsNew(p[j])], Dropped(m, j)) && Converted(p0, p[j := AsNew(p[j])], j)
  {
    assert uses[..|uses|] == uses;
    forall id | id in m ensures id in Ids(uses) <==> m[id].use == j {
      if m[id].use == j {
        assert UsedBy(m, j, (id, m[id].range));
      }
    }
    assert Minus(m, Ids(uses)) == Dropped(m, j);
    var q := p[j := AsNew(p[j])];
    forall k | 0 <= k < |q|
      ensures NoRepeat(q[k].stashes) && forall t :: t in q[k].stashes <==> DefinedBy(Dropped(m, j), k, t)
    {
      assert q[k].stashes == p[k].stashes;
    }
  }

  lemma RemoveStart(p: Plan, m: StashMap, uses: seq<Stash>)
    requires GoodPlan(p, m)
    ensures Removing(p, p, m, uses, 0) && Spans(m, |p|)
  {
    assert Minus(m, Ids(uses[..0])) == m;
  }

  lemma SnapAt(ts: seq<Transfer>, k: nat)
    requires k < |ts|
    ensures Snapshot(ts)[k] == Snap(ts[k])
  {
  }

  lemma MapAt(sm: DefUse, ts: seq<Transfer>, m: StashMap, id: nat)
    requires MapOf(sm, ts, m) && id in m
    ensures m[id].def < |ts| && m[id].use < |ts|
    ensures id in sm && sm[id] == StashRec(m[id].range, ts[m[id].def], Some(ts[m[id].use]))
  {
  }

  /** The command gives up its source, and what was to be stashed for it no longer is. */
  method ReplaceCmd(cmd: Transfer, ts: seq<Transfer>, sm: DefUse, ghost m: StashMap, ghost j: nat)
    requires Distinct(ts) && j < |ts| && ts[j] == cmd && cmd.style != New
    requires GoodPlan(Snapshot(ts), m) && MapOf(sm, ts, m)
    modifies Members(ts)`stashBefore, cmd`useStash, cmd`style, cmd`srcRanges, cmd`patchInfo
    ensures DefsListed(Snapshot(ts), Dropped(m, j)) && Converted(old(Snapshot(ts)), Snapshot(ts), j)
    ensures cmd.style == New && cmd.srcRanges == {} && cmd.patchInfo == None
  {
    hide Distinct, GoodPlan, MapOf, UsedBy, Removing, DefsListed, Converted, Dropped, AsNew, Spans, NoRepeat, Snap,
         Snapshot, RemoveFirst;
    ghost var p0 := Snapshot(ts);
    var uses := cmd.useStash;
    ListedAt(ts, m, j);
    RemoveStart(p0, m, uses);
    for n := 0 to |uses|
      invariant Removing(p0, Snapshot(ts), m, uses, n) && cmd.style != New
    {
      RemoveNext(p0, Snapshot(ts), m, j, uses, n);
      ghost var d := m[uses[n].0].def;
      MapAt(sm, ts, m, uses[n].0);
      SnapAt(ts, d);
      var def := sm[uses[n].0].def;
      assert uses[n] in def.stashBefore by {
        SnapFields(def);
      }
      RemoveAt(ts, d, def, uses[n]);
    }
    RemoveDone(p0, Snapshot(ts), m, j, uses);
    ConvertAt(ts, j, cmd);
  }

  lemma SnapFields(x: Transfer)
    ensures Snap(x) == Xfer(x.tgtRanges, x.srcRanges, x.style, x.stashBefore, x.useStash)
  {
  }

  /** A good plan whose first `i` commands need no more than `most` blocks. */
  ghost predicate Revised(img: Image, p: Plan, m: StashMap, i: nat, most: nat) {
    GoodPlan(p, m) && Drafted(p) && RangesFit(img, m) && i <= |p| && Within(img, p, m, i, most)
  }

  lemma ConvertRevised(img: Image, p: Plan, m: StashMap, p': Plan, j: nat, i: nat, most: nat)
    requires Revised(img, p, m, i, most) && Converted(p, p', j) && DefsListed(p', Dropped(m, j))
    ensures Revised(img, p', Dropped(m, j), i, most)
  {
    ConvertGood(p, m, p', j);
    ConvertDrafted(p, p', j);
    ConvertWithin(img, p, m, p', j, i, most);
  }

  /** After the transfers in `done` have become new commands. */
  ghost predicate Replaced(p: Plan, p': Plan, ts: seq<Transfer>, done: set<Transfer>) {
    |p| == |p'| == |ts| && forall k :: 0 <= k < |ts| ==> SameBut(p'[k], if ts[k] in done then AsNew(p[k]) else p[k])
  }

  ghost function MinusUsers(m: StashMap, ts: seq<Transfer>, done: set<Transfer>): StashMap {
    map id | id in m && !(m[id].use < |ts| && ts[m[id].use] in done) :: m[id]
  }

  lemma ReplacedNext(p: Plan, p': Plan, q: Plan, ts: seq<Transfer>, done: set<Transfer>, m: StashMap, j: nat)
    requires Distinct(ts) && j < |ts| && ts[j] !in done
    requires Replaced(p, p', ts, done) && Converted(p', q, j)
    ensures Replaced(p, q, ts, done + {ts[j]})
    ensures Dropped(MinusUsers(m, ts, done), j) == MinusUsers(m, ts, done + {ts[j]})
  {
    forall k | 0 <= k < |ts| ensures SameBut(q[k], if ts[k] in done + {ts[j]} then AsNew(p[k]) else p[k]) {
      assert SameBut(p'[k], if ts[k] in done then AsNew(p[k]) else p[k]);
      assert SameBut(q[k], if k == j then AsNew(p'[k]) else p'[k]);
    }
  }

  ghost function IndexOf(ts: seq<Transfer>, x: Transfer): nat
    requires x in Members(ts)
    ensures IndexOf(ts, x) < |ts| && ts[IndexOf(ts, x)] == x
  {
    var i :| 0 <= i < |ts| && ts[i] == x;
    i
  }

  lemma NotNew(p: Plan, p': Plan, ts: seq<Transfer>, done: set<Transfer>, j: nat)
    requires Replaced(p, p', ts, done) && j < |ts| && ts[j] !in done && p[j].style != New
    ensures p'[j].style != New
  {
    assert SameBut(p'[j], p[j]);
  }

  lemma MapShrinks(sm: DefUse, ts: seq<Transfer>, m: StashMap, done: set<Transfer>)
    requires MapOf(sm, ts, m)
    ensures MapOf(sm, ts, MinusUsers(m, ts, done))
  {
  }

  ghost predicate Replaceable(replaced: seq<Transfer>, ts: seq<Transfer>, p: Plan) {
    && Distinct(replaced) && |p| == |ts|
    && forall r :: r in replaced ==> r in Members(ts) && p[IndexOf(ts, r)].style != New
  }

  lemma ReplaceableAt(replaced: seq<Transfer>, ts: seq<Transfer>, p: Plan, n: nat, done: set<Transfer>)
    requires Replaceable(replaced, ts, p) && n < |replaced| && done == Members(replaced[..n])
    ensures replaced[n] in Members(ts) && replaced[n] !in done
    ensures IndexOf(ts, replaced[n]) < |p| == |ts| && p[IndexOf(ts, replaced[n])].style != New
    ensures done + {replaced[n]} == Members(replaced[..n + 1])
  {
    TakeOne(replaced, n);
  }

  /** Each command on the list becomes a new command, exactly once. */
  method ReplaceAll(replaced: seq<Transfer>, ts: seq<Transfer>, sm: DefUse, ghost img: Image,
                    ghost m: StashMap, ghost i: nat, ghost most: nat)
    returns (newBlocks: nat, ghost m': StashMap)
    requires Distinct(ts) && Replaceable(replaced, ts, Snapshot(ts)) && MapOf(sm, ts, m)
    requires Revised(img, Snapshot(ts), m, i, most)
    modifies Members(ts)`stashBefore, Members(ts)`useStash, Members(ts)`style, Members(ts)`srcRanges, Members(ts)`patchInfo
    ensures m' == MinusUsers(m, ts, Members(replaced)) && MapOf(sm, ts, m')
    ensures Revised(img, Snapshot(ts), m', i, most)
    ensures Replaced(old(Snapshot(ts)), Snapshot(ts), ts, Members(replaced))
    ensures replaced == [] ==> Snapshot(ts) == old(Snapshot(ts))
    ensures newBlocks == NewTotal(old(Snapshot(ts)), Snapshot(ts), |ts|) && NewStays(old(Snapshot(ts)), Snapshot(ts))
    ensures forall x :: x in ts ==> KeptOrNew(x)
  {
    hide NewTotal, Distinct, MapOf, Revised, Replaceable, Replaced, MinusUsers, Dropped, Converted, DefsListed, IndexOf,
         Snapshot, Snap, GoodPlan;
    newBlocks := 0;
    ghost var p := Snapshot(ts);
    ghost var done: set<Transfer> := {};
    ReplaceStart(p, ts, m);
    NewTotalNone(p, |p|);
    m' := m;
    for n := 0 to |replaced|
      invariant done == Members(replaced[..n])
      invariant m' == MinusUsers(m, ts, done) && MapOf(sm, ts, m')
      invariant Revised(img, Snapshot(ts), m', i, most) && Replaced(p, Snapshot(ts), ts, done)
      invariant n == 0 ==> Snapshot(ts) == p
      invariant newBlocks == NewTotal(p, Snapshot(ts), |ts|)
      invariant forall x :: x in ts ==> KeptOrNew(x)
    {
      var cmd := replaced[n];
      ghost var q := Snapshot(ts);
      ReplaceableAt(replaced, ts, p, n, done);
      ghost var j := IndexOf(ts, cmd);
      NotNew(p, q, ts, done, j);
      RevisedGood(img, q, m', i, most);
      SnapAt(ts, j);
      SnapFields(cmd);
      ReplacedTarget(p, q, ts, done, j);
      newBlocks := newBlocks + |cmd.tgtRanges|;
      ReplaceCmd(cmd, ts, sm, m', j);
      ConvertRevised(img, q, m', Snapshot(ts), j, i, most);
      NewTotalNext(p, q, Snapshot(ts), j, |ts|);
      ReplacedNext(p, q, Snapshot(ts), ts, done, m, j);
      MapShrinks(sm, ts, m, done + {cmd});
      done := done + {cmd};
      m' := MinusUsers(m, ts, done);
    }
    assert replaced[..|replaced|] == replaced;
    ReplacedStays(p, Snapshot(ts), ts, done);
  }

  /** The target blocks of the first `n` commands that have become new commands. */
  ghost function NewTotal(p: Plan, p': Plan, n: nat): nat
    requires n <= |p| == |p'|
  {
    if n == 0 then 0
    else NewTotal(p, p', n - 1) + (if p[n - 1].style != New && p'[n - 1].style == New then |p[n - 1].tgt| else 0)
  }

  /** Targets stay, and a new command stays one. */
  ghost predicate NewStays(p: Plan, p': Plan) {
    |p| == |p'| && forall k :: 0 <= k < |p| ==> p'[k].tgt == p[k].tgt && (p[k].style == New ==> p'[k].style == New)
  }

  lemma {:induction false} NewTotalNone(p: Plan, n: nat)
    requires n <= |p|
    ensures NewTotal(p, p, n) == 0
  {
    if n > 0 {
      NewTotalNone(p, n - 1);
    }
  }

  lemma {:induction false} NewTotalNext(p: Plan, q: Plan, r: Plan, j: nat, n: nat)
    requires Converted(q, r, j) && n <= |p| == |q| && p[j].style != New && q[j].style != New
    ensures NewTotal(p, r, n) == NewTotal(p, q, n) + (if j < n then |p[j].tgt| else 0)
  {
    if n > 0 {
      NewTotalNext(p, q, r, j, n - 1);
      assert SameBut(r[n - 1], if n - 1 == j then AsNew(q[n - 1]) else q[n - 1]);
    }
  }

  lemma {:induction false} NewTotalChain(p: Plan, q: Plan, r: Plan, n: nat)
    requires NewStays(p, q) && NewStays(q, r) && n <= |p|
    ensures NewTotal(p, r, n) == NewTotal(p, q, n) + NewTotal(q, r, n)
  {
    if n > 0 {
      NewTotalChain(p, q, r, n - 1);
    }
  }

  lemma NewStaysChain(p: Plan, q: Plan, r: Plan)
    requires NewStays(p, q) && NewStays(q, r)
    ensures NewStays(p, r)
  {
  }

  lemma ReplacedTarget(p: Plan, q: Plan, ts: seq<Transfer>, done: set<Transfer>, j: nat)
    requires Replaced(p, q, ts, done) && j < |ts| && ts[j] !in done
    ensures p[j].tgt == q[j].tgt && p[j].style == q[j].style
  {
    assert SameBut(q[j], p[j]);
  }

  lemma ReplacedStays(p: Plan, q: Plan, ts: seq<Transfer>, done: set<Transfer>)
    requires Replaced(p, q, ts, done)
    ensures NewStays(p, q)
  {
    forall k | 0 <= k < |p| ensures q[k].tgt == p[k].tgt && (p[k].style == New ==> q[k].style == New) {
      assert SameBut(q[k], if ts[k] in done then AsNew(p[k]) else p[k]);
    }
  }

  lemma ReplaceStart(p: Plan, ts: seq<Transfer>, m: StashMap)
    requires |p| == |ts|
    ensures Replaced(p, p, ts, {}) && MinusUsers(m, ts, {}) == m
  {
  }

  lemma RevisedGood(img: Image, p: Plan, m: StashMap, i: nat, most: nat)
    requires Revised(img, p, m, i, most)
    ensures GoodPlan(p, m) && i <= |p|
  {
  }

  // Using stashes.

  /** The stashes a command has used; a slot goes when nothing else needs it. */
  method ReleaseUses(list: seq<Stash>, img: Image, c: Counts, blocks: nat, ghost held: Pending)
    returns (c': Counts, blocks': nat)
    requires Books(held, c, blocks) && NoRepeat(list) && AllHeld(list, held, img)
    ensures Books(Without(held, Ids(list)), c', blocks')
    ensures blocks' <= blocks
  {
    c', blocks' := c, blocks;
    assert Without(held, Ids(list[..0])) == held;
    hide Books, NoRepeat, AllHeld, Without, Read, Ids, Slots.Release;
    for n := 0 to |list|
      invariant Books(Without(held, Ids(list[..n])), c', blocks')
      invariant blocks' <= blocks
    {
      var sr := list[n].1;
      UseNext(list, n, held, img);
      ReleaseBooks(Without(held, Ids(list[..n])), c', blocks', list[n].0);
      ReadSize(img, sr);
      var sh := Read(img, sr);
      assert sh in c';
      if c'[sh] == 1 {
        blocks' := blocks' - |sr|;
      }
      c' := Slots.Release(c', sh);
    }
    assert list[..|list|] == list;
  }

  // One command.

  /** What is held before command `i`: everything it or a later command needs from before. */
  ghost predicate Tracking(img: Image, m: StashMap, held: Pending, i: nat)
    requires RangesFit(img, m)
  {
    && (forall id :: id in m && m[id].def < i <= m[id].use ==> id in held && held[id] == Read(img, m[id].range))
    && (forall id :: id in m && m[id].def >= i ==> id !in held)
  }

  /** ... and while command `i` runs. */
  ghost predicate Holding(img: Image, m: StashMap, held: Pending, i: nat)
    requires RangesFit(img, m)
  {
    && (forall id :: id in m && m[id].def <= i <= m[id].use ==> id in held && held[id] == Read(img, m[id].range))
    && (forall id :: id in m && m[id].def > i ==> id !in held)
  }

  lemma ExplicitReady(img: Image, p: Plan, m: StashMap, held: Pending, i: nat, most: nat, ts: seq<Transfer>, sm: DefUse)
    requires Revised(img, p, m, i, most) && i < |p| && MapOf(sm, ts, m) && Tracking(img, m, held, i) && Distinct(ts)
    ensures Usable(p[i].stashes, sm, img) && DistinctUsers(p[i].stashes, sm)
    ensures forall s :: s in p[i].stashes ==> s.0 !in held
  {
    var list := p[i].stashes;
    forall s | s in list ensures Fits(s.1, img) && s.0 in sm && sm[s.0].use.Some? && s.0 !in held {
      assert DefinedBy(m, i, s);
    }
    forall a, b | 0 <= a < b < |list|
      ensures list[a].0 in sm && list[b].0 in sm && sm[list[a].0].use != sm[list[b].0].use
    {
      assert DefinedBy(m, i, list[a]) && DefinedBy(m, i, list[b]);
      assert m[list[a].0].use != m[list[b].0].use;
    }
  }

  lemma ExplicitDone(img: Image, p: Plan, m: StashMap, held: Pending, held': Pending, i: nat, most: nat,
                     ts: seq<Transfer>, sm: DefUse, replaced: seq<Transfer>)
    requires Revised(img, p, m, i, most) && i < |p| && MapOf(sm, ts, m) && Tracking(img, m, held, i)
    requires Settled(p[i].stashes, sm, img, held', replaced)
    requires Keeps(held, held') && OnlyAdds(held, held', p[i].stashes)
    ensures RangesFit(img, MinusUsers(m, ts, Members(replaced)))
    ensures Holding(img, MinusUsers(m, ts, Members(replaced)), held', i)
  {
    var m' := MinusUsers(m, ts, Members(replaced));
    forall id | id in m' && m'[id].def <= i <= m'[id].use ensures id in held' && held'[id] == Read(img, m'[id].range) {
      if m[id].def == i {
        assert DefinedBy(m, i, (id, m[id].range));
        assert (id, m[id].range) in p[i].stashes;
      }
    }
    forall s | s in p[i].stashes ensures s.0 in m && m[s.0].def == i {
      assert DefinedBy(m, i, s);
    }
  }

  lemma UsersReplaceable(img: Image, p: Plan, m: StashMap, i: nat, most: nat, ts: seq<Transfer>, sm: DefUse,
                         replaced: seq<Transfer>)
    requires Revised(img, p, m, i, most) && i < |p| == |ts| && MapOf(sm, ts, m) && Distinct(ts)
    requires UsersOf(replaced, p[i].stashes, sm) && Distinct(replaced)
    ensures Replaceable(replaced, ts, p) && ts[i] !in replaced
  {
    forall r | r in replaced ensures r in Members(ts) && p[IndexOf(ts, r)].style != New && r != ts[i] {
      var s :| s in p[i].stashes && s.0 in sm && sm[s.0].use == Some(r);
      assert DefinedBy(m, i, s);
      var u := m[s.0].use;
      assert ts[u] == r;
      assert IndexOf(ts, r) == u;
      NewHasNoIds(p, m, u, s.0);
    }
  }

  lemma AlsoReplaceable(replaced: seq<Transfer>, ts: seq<Transfer>, p: Plan, i: nat)
    requires Replaceable(replaced, ts, p) && Distinct(ts) && i < |ts| && ts[i] !in replaced && p[i].style != New
    ensures Replaceable(replaced + [ts[i]], ts, p)
  {
    assert IndexOf(ts, ts[i]) == i;
  }

  lemma Overlap(p: Plan, ts: seq<Transfer>, i: nat, replaced: seq<Transfer>, p': Plan)
    requires Replaced(p, p', ts, Members(replaced)) && i < |p| && Drafted(p)
    ensures ts[i] in replaced ==> p'[i].style == New
    ensures ts[i] !in replaced ==> SameBut(p'[i], p[i])
    ensures NeedsCopy(p[i]) <==> p[i].style == Diff && p[i].src * p[i].tgt != {}
  {
  }

  /** Command `i` and all before it stay within `most` blocks. */
  lemma StillWithin(img: Image, p: Plan, m: StashMap, i: nat, most: nat, more: nat,
                    held: Pending, c: Counts, blocks: nat)
    requires Revised(img, p, m, i, most) && i < |p| && most <= more && Holding(img, m, held, i)
    requires Books(held, c, blocks) && blocks <= more
    requires NeedsCopy(p[i]) ==> blocks + |p[i].src| <= more
    ensures Revised(img, p, m, i + 1, more)
  {
    var a := PendingAt(img, m, i);
    forall h | h in a.Values ensures h in c.Keys {
      var id :| id in a && a[id] == h;
      assert id in held && held[id] == h;
    }
    SizeMonotone(a.Values, c.Keys);
    assert WithinAt(img, p, m, i, more);
    forall k | 0 <= k < i ensures WithinAt(img, p, m, k, more) {
      assert WithinAt(img, p, m, k, most);
    }
  }

  lemma UsesHeld(img: Image, p: Plan, m: StashMap, i: nat, most: nat, held: Pending)
    requires Revised(img, p, m, i + 1, most) && i < |p| && Holding(img, m, held, i)
    ensures NoRepeat(p[i].uses) && AllHeld(p[i].uses, held, img)
    ensures Tracking(img, m, Without(held, Ids(p[i].uses)), i + 1)
  {
    var list := p[i].uses;
    forall s | s in list ensures Fits(s.1, img) && s.0 in held && held[s.0] == Read(img, s.1) {
      assert UsedBy(m, i, s);
    }
    forall id | id in m && m[id].use > i ensures id !in Ids(list) {
      forall s | s in list ensures s.0 != id {
        assert UsedBy(m, i, s);
      }
    }
  }

  /** What the pass keeps from command to command. */
  ghost predicate PassState(img: Image, p: Plan, m: StashMap, i: nat, most: nat, ts: seq<Transfer>, sm: DefUse,
                            held: Pending, c: Counts, blocks: nat) {
    && Revised(img, p, m, i, most) && |p| == |ts| && MapOf(sm, ts, m) && Distinct(ts)
    && Tracking(img, m, held, i) && Books(held, c, blocks) && blocks <= most
  }

  lemma PassParts(img: Image, p: Plan, m: StashMap, i: nat, most: nat, ts: seq<Transfer>, sm: DefUse,
                  held: Pending, c: Counts, blocks: nat)
    requires PassState(img, p, m, i, most, ts, sm, held, c, blocks)
    ensures Revised(img, p, m, i, most) && |p| == |ts| && MapOf(sm, ts, m) && Distinct(ts) && RangesFit(img, m)
    ensures Tracking(img, m, held, i) && Books(held, c, blocks) && blocks <= most
  {
  }

  lemma RevisedMore(img: Image, p: Plan, m: StashMap, i: nat, most: nat, more: nat)
    requires Revised(img, p, m, i, most) && most <= more
    ensures Revised(img, p, m, i, more)
  {
    forall k | 0 <= k < i ensures WithinAt(img, p, m, k, more) {
      assert WithinAt(img, p, m, k, most);
    }
  }

  lemma DraftedAt(img: Image, p: Plan, m: StashMap, i: nat, most: nat)
    requires Revised(img, p, m, i, most) && i < |p|
    ensures p[i].style == Diff ==> p[i].tgt != {} && p[i].src != {}
    ensures NeedsCopy(p[i]) <==> p[i].style == Diff && p[i].src * p[i].tgt != {}
    ensures Drafted(p)
  {
  }

  lemma SettledMore(list: seq<Stash>, sm: DefUse, img: Image, held: Pending, replaced: seq<Transfer>, x: Transfer)
    requires Settled(list, sm, img, held, replaced)
    ensures Settled(list, sm, img, held, replaced + [x])
  {
  }

  /** A diff that overwrites part of its own source needs the whole source set aside. */
  method CheckCopy(xf: Transfer, limit: Option<real>, blocks: nat, most: nat) returns (refused: bool, most': nat)
    requires xf.style == Diff ==> xf.tgtRanges != {} && xf.srcRanges != {}
    ensures refused <==> xf.style == Diff && xf.srcRanges * xf.tgtRanges != {} && Exceeds(limit, blocks + |xf.srcRanges|)
    ensures !refused ==>
              most' == Larger(most, if xf.style == Diff && xf.srcRanges * xf.tgtRanges != {} then blocks + |xf.srcRanges| else 0)
    ensures !refused && xf.style == Diff && xf.srcRanges * xf.tgtRanges != {} ==> blocks + |xf.srcRanges| <= most'
    ensures most' >= most && (!Exceeds(limit, most) ==> !Exceeds(limit, most'))
  {
    refused, most' := false, most;
    if xf.style == Diff {
      assert xf.tgtRanges != {} && xf.srcRanges != {};
      if xf.srcRanges * xf.tgtRanges != {} {
        if limit.Some? && limit.value != 0.0 && (blocks + |xf.srcRanges|) as real > limit.value {
          refused := true;
        } else {
          if most < blocks + |xf.srcRanges| {
            most' := blocks + |xf.srcRanges|;
          }
        }
      }
    }
  }

  lemma UsableFit(img: Image, p: Plan, m: StashMap, i: nat, most: nat, ts: seq<Transfer>, sm: DefUse, held: Pending)
    requires Revised(img, p, m, i, most) && i < |p|
    ensures AllFit(p[i].stashes, img)
  {
    forall n | 0 <= n < |p[i].stashes| ensures Fits(p[i].stashes[n].1, img) {
      assert DefinedBy(m, i, p[i].stashes[n]);
    }
  }

  /** If a command's whole demand fits, then so do its stashes alone. */
  lemma RoomFor(img: Image, p: Plan, m: StashMap, i: nat, limit: Option<real>)
    requires RangesFit(img, m) && i < |p|
    ensures !Exceeds(limit, Demand(img, p, m, i)) ==> !Exceeds(limit, Size(PendingAt(img, m, i).Values))
  {
    hide Size, PendingAt, NeedsCopy;
  }

  lemma Spared(img: Image, p: Plan, m: StashMap, i: nat, most: nat, blocks: nat, most1: nat)
    requires RangesFit(img, m) && i < |p| && Drafted(p) && blocks == Size(PendingAt(img, m, i).Values)
    requires most1 == Larger(most, blocks)
    ensures Demand(img, p, m, i) ==
            blocks + (if p[i].style == Diff && p[i].src * p[i].tgt != {} then |p[i].src| else 0)
    ensures Larger(most1, if p[i].style == Diff && p[i].src * p[i].tgt != {} then blocks + |p[i].src| else 0) ==
            Larger(most, Demand(img, p, m, i))
  {
    hide Size, PendingAt;
  }

  // Why a command is given up.

  ghost predicate Part(m: StashMap, m0: StashMap) {
    forall id :: id in m ==> id in m0 && m0[id] == m[id]
  }

  /** What may be held: stashes that commands before `d` have made for command `i` or a later one, or for one that has been
      given up. */
  ghost predicate HeldOf(img: Image, m0: StashMap, m: StashMap, held: Pending, d: nat, i: nat)
    requires RangesFit(img, m0)
  {
    forall id :: id in held ==>
      id in m0 && m0[id].def < d && held[id] == Read(img, m0[id].range) && (m0[id].use >= i || id !in m)
  }

  /** When command `i` ran, a stash for command `k`, or the source that it overwrites itself, did not fit beside what was
      held. */
  ghost predicate NoRoom(img: Image, p0: Plan, m0: StashMap, m: StashMap, k: nat, limit: real, i: nat, held: Pending)
    requires RangesFit(img, m0) && k < |p0|
  {
    && HeldOf(img, m0, m, held, i + 1, i)
    && (|| (exists id :: id in m0 && m0[id].def == i && m0[id].use == k && Size(held[id := Read(img, m0[id].range)].Values) as real > limit)
        || (i == k && NeedsCopy(p0[k]) && (Size(held.Values) + |p0[k].src|) as real > limit))
  }

  ghost predicate HadNoRoom(img: Image, p0: Plan, m0: StashMap, m: StashMap, k: nat, limit: Option<real>)
    requires RangesFit(img, m0) && k < |p0|
  {
    limit.Some? && limit.value != 0.0 && exists i, held: Pending :: NoRoom(img, p0, m0, m, k, limit.value, i, held)
  }

  /** Only commands are given up for which there was no room. */
  ghost predicate GivenUpForRoom(img: Image, p0: Plan, m0: StashMap, p: Plan, m: StashMap, limit: Option<real>)
    requires RangesFit(img, m0)
  {
    |p| == |p0| && forall k :: 0 <= k < |p0| && p0[k].style != New && p[k].style == New ==> HadNoRoom(img, p0, m0, m, k, limit)
  }

  ghost predicate SameSource(p0: Plan, p: Plan) {
    |p| == |p0| && forall k :: 0 <= k < |p0| ==>
      p[k].tgt == p0[k].tgt && (p[k].style == New || (p[k].style == p0[k].style && p[k].src == p0[k].src))
  }

  lemma StillNoRoom(img: Image, p0: Plan, m0: StashMap, m: StashMap, m': StashMap, k: nat, limit: Option<real>)
    requires RangesFit(img, m0) && k < |p0| && Part(m', m) && HadNoRoom(img, p0, m0, m, k, limit)
    ensures HadNoRoom(img, p0, m0, m', k, limit)
  {
    hide Size, Read, NeedsCopy;
    var i, held: Pending :| NoRoom(img, p0, m0, m, k, limit.value, i, held);
    assert NoRoom(img, p0, m0, m', k, limit.value, i, held);
  }

  lemma BetweenHeldOf(img: Image, p: Plan, m0: StashMap, m: StashMap, i: nat, held: Pending, h: Pending)
    requires RangesFit(img, m0) && GoodPlan(p, m) && Part(m, m0) && i < |p|
    requires HeldOf(img, m0, m, held, i, i) && Between(held, h, p[i].stashes, img)
    ensures HeldOf(img, m0, m, h, i + 1, i)
  {
    hide Read, TargetsDisjoint, LateReadsStashed, UsesListed;
    forall id | id in h && !(id in held && h[id] == held[id])
      ensures id in m0 && m0[id].def < i + 1 && h[id] == Read(img, m0[id].range) && (m0[id].use >= i || id !in m)
    {
      var s :| s in p[i].stashes && s.0 == id && Fits(s.1, img) && h[id] == Read(img, s.1);
      assert DefinedBy(m, i, s);
    }
  }

  /** What does not fit is the reason to give up its user. */
  lemma RefusedNoRoom(img: Image, p0: Plan, p: Plan, m0: StashMap, m: StashMap, i: nat, ts: seq<Transfer>, sm: DefUse,
                      held: Pending, limit: Option<real>, replaced: seq<Transfer>, k: nat)
    requires RangesFit(img, m0) && GoodPlan(p, m) && Part(m, m0) && i < |p| == |p0| == |ts| && MapOf(sm, ts, m) && Distinct(ts)
    requires HeldOf(img, m0, m, held, i, i) && AllRefused(replaced, p[i].stashes, sm, img, limit, held)
    requires k < |ts| && ts[k] in replaced
    ensures HadNoRoom(img, p0, m0, m, k, limit)
  {
    hide Size, Read, GoodPlan, HeldOf, Between;
    assert Refused(ts[k], p[i].stashes, sm, img, limit, held);
    var s, h :| s in p[i].stashes && s.0 in sm && sm[s.0].use == Some(ts[k]) && Fits(s.1, img)
                && Between(held, h, p[i].stashes, img) && Exceeds(limit, Size(h[s.0 := Read(img, s.1)].Values));
    GoodListedAt(p, m, i);
    assert DefinedBy(m, i, s);
    BetweenHeldOf(img, p, m0, m, i, held, h);
    assert NoRoom(img, p0, m0, m, k, limit.value, i, h);
  }

  /** So is a copy that does not fit. */
  lemma CopyNoRoom(img: Image, p0: Plan, m0: StashMap, m: StashMap, i: nat, held: Pending, limit: Option<real>)
    requires RangesFit(img, m0) && i < |p0| && HeldOf(img, m0, m, held, i + 1, i)
    requires NeedsCopy(p0[i]) && Exceeds(limit, Size(held.Values) + |p0[i].src|)
    ensures HadNoRoom(img, p0, m0, m, i, limit)
  {
    hide Size, HeldOf, NeedsCopy;
    assert NoRoom(img, p0, m0, m, i, limit.value, i, held);
  }

  lemma CopySame(p0: Plan, p: Plan, i: nat)
    requires SameSource(p0, p) && i < |p| && p[i].style == Diff
    ensures i < |p0| && p0[i].src == p[i].src && (NeedsCopy(p0[i]) <==> p[i].src * p[i].tgt != {})
  {
  }

  /** The commands on the list have become new, and nothing else has. */
  lemma GivenUpNext(img: Image, p0: Plan, m0: StashMap, p: Plan, m: StashMap, p': Plan, ts: seq<Transfer>,
                    replaced: seq<Transfer>, limit: Option<real>)
    requires RangesFit(img, m0) && Part(m, m0) && SameSource(p0, p) && GivenUpForRoom(img, p0, m0, p, m, limit)
    requires Replaced(p, p', ts, Members(replaced)) && |p0| == |ts|
    requires forall k :: 0 <= k < |ts| && ts[k] in replaced ==> HadNoRoom(img, p0, m0, m, k, limit)
    ensures var m' := MinusUsers(m, ts, Members(replaced));
            Part(m', m0) && Part(m', m) && GivenUpForRoom(img, p0, m0, p', m', limit)
    ensures SameSource(p0, p')
  {
    hide HadNoRoom;
    var m' := MinusUsers(m, ts, Members(replaced));
    forall k | 0 <= k < |p0| ensures SameBut(p'[k], if ts[k] in replaced then AsNew(p[k]) else p[k]) {
    }
    forall k | 0 <= k < |p0| && p0[k].style != New && p'[k].style == New ensures HadNoRoom(img, p0, m0, m', k, limit) {
      StillNoRoom(img, p0, m0, m, m', k, limit);
    }
  }

  /** When the command has run its stashes are gone. */
  lemma HeldOfNext(img: Image, p: Plan, m0: StashMap, m: StashMap, m': StashMap, i: nat, held: Pending)
    requires RangesFit(img, m0) && GoodPlan(p, m') && Part(m', m) && Part(m', m0) && i < |p| && HeldOf(img, m0, m, held, i + 1, i)
    ensures HeldOf(img, m0, m', Without(held, Ids(p[i].uses)), i + 1, i + 1)
  {
    hide Read, TargetsDisjoint, LateReadsStashed, DefsListed;
    forall id | id in held && id in m' && m0[id].use == i ensures id in Ids(p[i].uses) {
      assert UsedBy(m', i, (id, m'[id].range));
    }
  }

  /** The first half of one command: what is to be stashed for or by it, and who has to give way. */
  method Admit(i: nat, ts: seq<Transfer>, sm: DefUse, img: Image, limit: Option<real>,
               c: Counts, blocks: nat, most: nat, ghost m: StashMap, ghost held: Pending, ghost p0: Plan, ghost m0: StashMap)
    returns (c': Counts, blocks': nat, most': nat, replaced: seq<Transfer>, ghost held': Pending)
    requires i < |ts| && PassState(img, Snapshot(ts), m, i, most, ts, sm, held, c, blocks)
    requires RangesFit(img, m0) && Part(m, m0) && SameSource(p0, Snapshot(ts)) && HeldOf(img, m0, m, held, i, i)
    ensures most <= most' && blocks' <= most' && Books(held', c', blocks')
    ensures !Exceeds(limit, most) ==> !Exceeds(limit, most')
    ensures Replaceable(replaced, ts, Snapshot(ts))
    ensures RangesFit(img, MinusUsers(m, ts, Members(replaced)))
    ensures Holding(img, MinusUsers(m, ts, Members(replaced)), held', i)
    ensures ts[i] !in replaced && NeedsCopy(Snapshot(ts)[i]) ==> blocks' + |Snapshot(ts)[i].src| <= most'
    ensures RangesFit(img, m)
    ensures HeldOf(img, m0, m, held', i + 1, i) && |p0| == |ts|
    ensures forall k :: 0 <= k < |ts| && ts[k] in replaced ==> HadNoRoom(img, p0, m0, m, k, limit)
    ensures held == PendingBefore(img, m, i) && !Exceeds(limit, Demand(img, Snapshot(ts), m, i)) ==>
              replaced == [] && held' == PendingAt(img, m, i)
              && most' == Larger(most, Demand(img, Snapshot(ts), m, i))
  {
    hide *;
    var xf := ts[i];
    ghost var p := Snapshot(ts);
    PassParts(img, p, m, i, most, ts, sm, held, c, blocks);
    RevisedGood(img, p, m, i, most);
    UsableFit(img, p, m, i, most, ts, sm, held);
    MadePending(img, p, m, i);
    RoomFor(img, p, m, i, limit);
    SnapAt(ts, i);
    SnapFields(xf);
    SnapshotLength(ts);
    DraftedAt(img, p, m, i, most);
    ExplicitReady(img, p, m, held, i, most, ts, sm);
    c', blocks', most', replaced, held' := StashExplicit(xf.stashBefore, sm, img, limit, c, blocks, most, held);
    UsersReplaceable(img, p, m, i, most, ts, sm, replaced);
    SameLength(p0, p);
    BetweenHeldOf(img, p, m0, m, i, held, held');
    forall k | 0 <= k < |ts| && ts[k] in replaced ensures HadNoRoom(img, p0, m0, m, k, limit) {
      RefusedNoRoom(img, p0, p, m0, m, i, ts, sm, held, limit, replaced, k);
    }
    BooksSize(held', c', blocks');
    ghost var most1 := most';
    var refused;
    refused, most' := CheckCopy(xf, limit, blocks', most');
    if held == PendingBefore(img, m, i) && !Exceeds(limit, Demand(img, p, m, i)) {
      Spared(img, p, m, i, most, blocks', most1);
    }
    if refused {
      AlsoReplaceable(replaced, ts, p, i);
      CopySame(p0, p, i);
      CopyNoRoom(img, p0, m0, m, i, held', limit);
      AlsoNoRoom(img, p0, m0, m, ts, i, limit, replaced);
      SettledMore(xf.stashBefore, sm, img, held', replaced, xf);
      replaced := replaced + [xf];
    }
    ExplicitDone(img, p, m, held, held', i, most, ts, sm, replaced);
  }

  lemma SameLength(p0: Plan, p: Plan)
    requires SameSource(p0, p)
    ensures |p0| == |p|
  {
  }

  lemma AlsoNoRoom(img: Image, p0: Plan, m0: StashMap, m: StashMap, ts: seq<Transfer>, i: nat, limit: Option<real>,
                   replaced: seq<Transfer>)
    requires RangesFit(img, m0) && |p0| == |ts| && i < |ts| && Distinct(ts) && HadNoRoom(img, p0, m0, m, i, limit)
    requires forall k :: 0 <= k < |ts| && ts[k] in replaced ==> HadNoRoom(img, p0, m0, m, k, limit)
    ensures forall k :: 0 <= k < |ts| && ts[k] in replaced + [ts[i]] ==> HadNoRoom(img, p0, m0, m, k, limit)
  {
    hide HadNoRoom;
  }

  lemma PassAgain(img: Image, p: Plan, m: StashMap, i: nat, most: nat, ts: seq<Transfer>, sm: DefUse,
                  held: Pending, c: Counts, blocks: nat)
    requires Revised(img, p, m, i, most) && |p| == |ts| && MapOf(sm, ts, m) && Distinct(ts) && RangesFit(img, m)
    requires Tracking(img, m, held, i) && Books(held, c, blocks) && blocks <= most
    ensures PassState(img, p, m, i, most, ts, sm, held, c, blocks)
  {
  }

  lemma NoneReplaced(ts: seq<Transfer>, m: StashMap)
    ensures MinusUsers(m, ts, Members<Transfer>([])) == m
  {
  }

  ghost predicate OnlyForRoom(img: Image, p0: Plan, m0: StashMap, p: Plan, m: StashMap, limit: Option<real>,
                              held: Pending, i: nat)
    requires RangesFit(img, m0)
  {
    Part(m, m0) && SameSource(p0, p) && GivenUpForRoom(img, p0, m0, p, m, limit) && HeldOf(img, m0, m, held, i, i)
  }

  lemma ForRoomParts(img: Image, p0: Plan, m0: StashMap, p: Plan, m: StashMap, limit: Option<real>, held: Pending, i: nat)
    requires RangesFit(img, m0) && OnlyForRoom(img, p0, m0, p, m, limit, held, i)
    ensures Part(m, m0) && SameSource(p0, p) && GivenUpForRoom(img, p0, m0, p, m, limit) && HeldOf(img, m0, m, held, i, i)
  {
  }

  lemma ForRoomAgain(img: Image, p0: Plan, m0: StashMap, p: Plan, m: StashMap, limit: Option<real>, held: Pending, i: nat)
    requires RangesFit(img, m0) && Part(m, m0) && SameSource(p0, p) && GivenUpForRoom(img, p0, m0, p, m, limit)
    requires HeldOf(img, m0, m, held, i, i)
    ensures OnlyForRoom(img, p0, m0, p, m, limit, held, i)
  {
  }

  lemma ForRoomStart(img: Image, p: Plan, m: StashMap, limit: Option<real>)
    requires RangesFit(img, m)
    ensures OnlyForRoom(img, p, m, p, m, limit, map[], 0)
  {
  }

  /** One command of the pass: explicit stashes, the implicit one, replacements, released slots. */
  method ReviseOne(i: nat, ts: seq<Transfer>, sm: DefUse, img: Image, limit: Option<real>,
                   c: Counts, blocks: nat, most: nat, ghost m: StashMap, ghost held: Pending, ghost p0: Plan, ghost m0: StashMap)
    returns (c': Counts, blocks': nat, most': nat, newBlocks: nat, ghost m': StashMap, ghost held': Pending)
    requires i < |ts| && PassState(img, Snapshot(ts), m, i, most, ts, sm, held, c, blocks)
    requires RangesFit(img, m0) && OnlyForRoom(img, p0, m0, Snapshot(ts), m, limit, held, i)
    modifies Members(ts)`stashBefore, Members(ts)`useStash, Members(ts)`style, Members(ts)`srcRanges, Members(ts)`patchInfo
    ensures PassState(img, Snapshot(ts), m', i + 1, most', ts, sm, held', c', blocks')
    ensures OnlyForRoom(img, p0, m0, Snapshot(ts), m', limit, held', i + 1)
    ensures !Exceeds(limit, most) ==> !Exceeds(limit, most')
    ensures newBlocks == NewTotal(old(Snapshot(ts)), Snapshot(ts), |ts|) && NewStays(old(Snapshot(ts)), Snapshot(ts))
    ensures RangesFit(img, m)
    ensures held == PendingBefore(img, m, i) && !Exceeds(limit, Demand(img, old(Snapshot(ts)), m, i)) ==>
              Snapshot(ts) == old(Snapshot(ts)) && m' == m && held' == PendingBefore(img, m, i + 1)
              && most' == Larger(most, Demand(img, Snapshot(ts), m, i))
    ensures forall x :: x in ts ==> KeptOrNew(x)
  {
    hide PassState, Revised, Replaced, Replaceable, Snapshot, Snap, Tracking, Holding, Books, AllHeld, MinusUsers, MapOf,
         Distinct,
      Drafted, NeedsCopy, SameBut, RangesFit, Without, Ids, Exceeds, NoRepeat, NewTotal, NewStays, PendingBefore,
      PendingAt, Demand,
      OnlyForRoom, Part, SameSource, HeldOf, HadNoRoom, GivenUpForRoom;
    ghost var p := Snapshot(ts);
    ForRoomParts(img, p0, m0, p, m, limit, held, i);
    PassParts(img, p, m, i, most, ts, sm, held, c, blocks);
    DraftedAt(img, p, m, i, most);
    SnapshotLength(ts);
    var replaced;
    c', blocks', most', replaced, held' := Admit(i, ts, sm, img, limit, c, blocks, most, m, held, p0, m0);
    RevisedMore(img, p, m, i, most, most');
    newBlocks, m' := ReplaceAll(replaced, ts, sm, img, m, i, most');
    GivenUpNext(img, p0, m0, p, m, Snapshot(ts), ts, replaced, limit);
    NoneReplaced(ts, m);
    Overlap(p, ts, i, replaced, Snapshot(ts));
    NewNeedsNoCopy(Snapshot(ts)[i], p[i]);
    StillWithin(img, Snapshot(ts), m', i, most', most', held', c', blocks');
    UsesHeld(img, Snapshot(ts), m', i, most', held');
    SnapAt(ts, i);
    SnapFields(ts[i]);
    c', blocks' := ReleaseUses(ts[i].useStash, img, c', blocks', held');
    if held' == PendingAt(img, m, i) && replaced == [] {
      RevisedGood(img, p, m, i, most);
      UsesPending(img, p, m, i);
    }
    RevisedGood(img, Snapshot(ts), m', i + 1, most');
    HeldOfNext(img, Snapshot(ts), m0, m, m', i, held');
    held' := Without(held', Ids(ts[i].useStash));
    ForRoomAgain(img, p0, m0, Snapshot(ts), m', limit, held', i + 1);
    PassAgain(img, Snapshot(ts), m', i + 1, most', ts, sm, held', c', blocks');
  }

  lemma NewNeedsNoCopy(x: Xfer, y: Xfer)
    ensures x.style == New ==> !NeedsCopy(x)
    ensures SameBut(x, y) ==> (NeedsCopy(x) <==> NeedsCopy(y)) && x.src == y.src
  {
  }

  lemma PassStart(img: Image, p: Plan, m: StashMap, ts: seq<Transfer>, sm: DefUse)
    requires GoodPlan(p, m) && Drafted(p) && RangesFit(img, m) && |p| == |ts| && MapOf(sm, ts, m) && Distinct(ts)
    ensures PassState(img, p, m, 0, 0, ts, sm, map[], map[], 0)
  {
  }

  lemma PassEnd(img: Image, p: Plan, m: StashMap, n: nat, most: nat, ts: seq<Transfer>, sm: DefUse,
                held: Pending, c: Counts, blocks: nat)
    requires PassState(img, p, m, n, most, ts, sm, held, c, blocks)
    ensures Revised(img, p, m, n, most) && |p| == |ts|
  {
  }

  /** The pass over all commands. Whatever the limit, the plan stays good, `most` blocks are enough for it, and
      `newBlocks` counts the target blocks given up. With a positive limit `most` is within it. When the plan
      needs no more than the limit, nothing changes and `most` is its exact peak. A command is given up only if a stash for
      it, or its own source, did not fit beside what was held. A limit of zero is taken for no limit, so it is kept exactly
      by a plan in which no command makes a stash or overwrites part of what it reads. */
  method ReviseStashSize(ts: seq<Transfer>, img: Image, limit: Option<real>, ghost m: StashMap)
    returns (newBlocks: nat, most: nat, ghost m': StashMap)
    requires Distinct(ts) && GoodPlan(Snapshot(ts), m) && Drafted(Snapshot(ts)) && RangesFit(img, m)
    modifies Members(ts)`stashBefore, Members(ts)`useStash, Members(ts)`style, Members(ts)`srcRanges, Members(ts)`patchInfo
    ensures Revised(img, Snapshot(ts), m', |ts|, most)
    ensures limit.Some? && limit.value > 0.0 ==> most as real <= limit.value
    ensures limit == Some(0.0) ==> (most == 0 <==> Stashless(old(Snapshot(ts))))
    ensures newBlocks == NewTotal(old(Snapshot(ts)), Snapshot(ts), |ts|) && NewStays(old(Snapshot(ts)), Snapshot(ts))
    ensures limit.None? || limit.value == 0.0 || PeakDemand(img, old(Snapshot(ts)), m, |ts|) as real <= limit.value ==>
              Snapshot(ts) == old(Snapshot(ts)) && m' == m && most == PeakDemand(img, Snapshot(ts), m, |ts|)
    ensures GivenUpForRoom(img, old(Snapshot(ts)), m, Snapshot(ts), m', limit)
    ensures forall x :: x in ts ==> KeptOrNew(x)
  {
    assert limit.Some? && limit.value > 0.0 ==> !Exceeds(limit, 0);
    var sm := BuildDefUse(ts, m);
    SnapshotLength(ts);
    NoNeed(img, Snapshot(ts), m);
    PassStart(img, Snapshot(ts), m, ts, sm);
    newBlocks, most, m' := RunPass(ts, sm, img, limit, m);
    assert !Exceeds(limit, most) && limit.Some? && limit.value > 0.0 ==> most as real <= limit.value;
  }

  method RunPass(ts: seq<Transfer>, sm: DefUse, img: Image, limit: Option<real>, ghost m: StashMap)
    returns (newBlocks: nat, most: nat, ghost m': StashMap)
    requires PassState(img, Snapshot(ts), m, 0, 0, ts, sm, map[], map[], 0) && RangesFit(img, m)
    modifies Members(ts)`stashBefore, Members(ts)`useStash, Members(ts)`style, Members(ts)`srcRanges, Members(ts)`patchInfo
    ensures Revised(img, Snapshot(ts), m', |ts|, most)
    ensures GivenUpForRoom(img, old(Snapshot(ts)), m, Snapshot(ts), m', limit)
    ensures !Exceeds(limit, 0) ==> !Exceeds(limit, most)
    ensures newBlocks == NewTotal(old(Snapshot(ts)), Snapshot(ts), |ts|) && NewStays(old(Snapshot(ts)), Snapshot(ts))
    ensures !Exceeds(limit, PeakDemand(img, old(Snapshot(ts)), m, |ts|)) ==>
              Snapshot(ts) == old(Snapshot(ts)) && m' == m && most == PeakDemand(img, Snapshot(ts), m, |ts|)
    ensures forall x :: x in ts ==> KeptOrNew(x)
  {
    hide PassState, Revised, Exceeds, Snapshot, Members, RangesFit, PeakDemand, Demand, PendingBefore, NewTotal, NewStays,
         OnlyForRoom, GivenUpForRoom;
    var stashes: Counts, blocks: nat := map[], 0;
    ghost var held: Pending := map[];
    ghost var p := Snapshot(ts);
    ghost var roomy := !Exceeds(limit, PeakDemand(img, p, m, |ts|));
    newBlocks, most, m' := 0, 0, m;
    RoomyStart(img, p, m);
    ForRoomStart(img, p, m, limit);
    for i := 0 to |ts|
      invariant PassState(img, Snapshot(ts), m', i, most, ts, sm, held, stashes, blocks)
      invariant OnlyForRoom(img, p, m, Snapshot(ts), m', limit, held, i)
      invariant !Exceeds(limit, 0) ==> !Exceeds(limit, most)
      invariant newBlocks == NewTotal(p, Snapshot(ts), |ts|) && NewStays(p, Snapshot(ts))
      invariant roomy ==> Snapshot(ts) == p && m' == m && held == PendingBefore(img, m, i) && most == PeakDemand(img, p, m, i)
      invariant forall x :: x in ts ==> KeptOrNew(x)
    {
      ghost var q := Snapshot(ts);
      RoomyNext(img, p, m, i, limit);
      var more;
      stashes, blocks, most, more, m', held := ReviseOne(i, ts, sm, img, limit, stashes, blocks, most, m', held, p, m);
      NewTotalChain(p, q, Snapshot(ts), |ts|);
      NewStaysChain(p, q, Snapshot(ts));
      newBlocks := newBlocks + more;
    }
    PassEnd(img, Snapshot(ts), m', |ts|, most, ts, sm, held, stashes, blocks);
    ForRoomParts(img, p, m, Snapshot(ts), m', limit, held, |ts|);
  }

  lemma RoomyStart(img: Image, p: Plan, m: StashMap)
    requires RangesFit(img, m)
    ensures PendingBefore(img, m, 0) == map[] && PeakDemand(img, p, m, 0) == 0
    ensures NewTotal(p, p, |p|) == 0 && NewStays(p, p)
  {
    NewTotalNone(p, |p|);
  }

  lemma RoomyNext(img: Image, p: Plan, m: StashMap, i: nat, limit: Option<real>)
    requires RangesFit(img, m) && i < |p|
    ensures PeakDemand(img, p, m, i + 1) == Larger(PeakDemand(img, p, m, i), Demand(img, p, m, i))
    ensures !Exceeds(limit, PeakDemand(img, p, m, |p|)) ==> !Exceeds(limit, Demand(img, p, m, i))
  {
    hide Demand;
    DemandBelowPeak(img, p, m, i, |p|);
  }

  /** A plan that a limit of zero does not stop from using two blocks: one command that overwrites part of
      its own source. */
  lemma ZeroLimitNotKept(img: Image) returns (p: Plan)
    requires |img| >= 2
    ensures GoodPlan(p, map[]) && Drafted(p) && RangesFit(img, map[])
    ensures PeakDemand(img, p, map[], |p|) == 2
  {
    p := [Xfer({0}, {0, 1}, Diff, [], [])];
    assert 0 in p[0].src * p[0].tgt;
    assert PendingAt(img, map[], 0) == map[];
    NoSize(PendingAt(img, map[], 0));
    assert PeakDemand(img, p, map[], 0) == 0;
    assert Demand(img, p, map[], 0) == 2;
  }
}
