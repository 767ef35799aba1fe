/** Stash slots are keyed by content hash and shared: a slot counts the ids that still need it. */
module Slots {
  import opened Ranges
  import opened Transfers
  import opened Sums
  import opened Plans

  /** The content each pending stash id stands for. */
  type Pending = map<nat, Hash>

  type Counts = map<Hash, nat>

  ghost function Holders(held: Pending, h: Hash): set<nat> {
    set id | id in held && held[id] == h
  }

  ghost predicate Counted(held: Pending, c: Counts) {
    && (forall id :: id in held ==> held[id] in c)
    && (forall h :: h in c ==> c[h] > 0 && c[h] == |Holders(held, h)|)
  }

  /** The blocks that a set of slots takes. */
  ghost function Size(slots: set<Hash>): nat {
    Sum(map h | h in slots :: |h|)
  }

  function Acquire(c: Counts, h: Hash): Counts {
    c[h := if h in c then c[h] + 1 else 1]
  }

  function Release(c: Counts, h: Hash): Counts
    requires h in c && c[h] > 0
  {
    if c[h] == 1 then c - {h} else c[h := c[h] - 1]
  }

  lemma SizeAdd(slots: set<Hash>, h: Hash)
    ensures Size(slots + {h}) == Size(slots) + (if h in slots then 0 else |h|)
  {
    var m, n := map k | k in slots :: |k|, map k | k in slots + {h} :: |k|;
    if h in slots {
      assert slots + {h} == slots;
    } else {
      SumAdd(m, h, |h|);
      assert n == m[h := |h|];
    }
  }

  lemma SizeRemove(slots: set<Hash>, h: Hash)
    requires h in slots
    ensures Size(slots - {h}) == Size(slots) - |h|
  {
    SizeAdd(slots - {h}, h);
    assert slots - {h} + {h} == slots;
  }

  lemma SizeMonotone(a: set<Hash>, b: set<Hash>)
    requires a <= b
    ensures Size(a) <= Size(b)
  {
    var m, n := map k | k in a :: |k|, map k | k in b :: |k|;
    SumMonotone(m, n);
  }

  lemma HoldersAdd(held: Pending, id: nat, h: Hash, k: Hash)
    requires id !in held
    ensures Holders(held[id := h], k) == Holders(held, k) + (if k == h then {id} else {})
  {
  }

  lemma HoldersRemove(held: Pending, id: nat, k: Hash)
    requires id in held
    ensures Holders(held - {id}, k) == Holders(held, k) - (if k == held[id] then {id} else {})
  {
  }

  /** One more id needs the slot of `h`. */
  lemma AcquireCounts(held: Pending, c: Counts, id: nat, h: Hash)
    requires Counted(held, c) && id !in held
    ensures Counted(held[id := h], Acquire(c, h))
    ensures Size(Acquire(c, h).Keys) == Size(c.Keys) + (if h in c then 0 else |h|)
  {
    var c' := Acquire(c, h);
    forall k | k in c' ensures c'[k] > 0 && c'[k] == |Holders(held[id := h], k)| {
      HoldersAdd(held, id, h, k);
      if k == h && h !in c {
        assert Holders(held, h) == {};
      }
    }
    SizeAdd(c.Keys, h);
    assert c'.Keys == c.Keys + {h};
  }

  /** An id has been served: its slot is live, and it is freed with the last id. */
  lemma ReleaseCounts(held: Pending, c: Counts, id: nat)
    requires Counted(held, c) && id in held
    ensures held[id] in c && c[held[id]] > 0
    ensures Counted(held - {id}, Release(c, held[id]))
    ensures Size(Release(c, held[id]).Keys) == Size(c.Keys) - (if c[held[id]] == 1 then |held[id]| else 0)
  {
    var h := held[id];
    var c' := Release(c, h);
    assert id in Holders(held, h);
    forall k | k in c' ensures c'[k] > 0 && c'[k] == |Holders(held - {id}, k)| {
      HoldersRemove(held, id, k);
    }
    forall j | j in held - {id} ensures (held - {id})[j] in c' {
      if held[j] == h && c[h] == 1 {
        TwoHolders(held, h, id, j);
      }
    }
    if c[h] == 1 {
      SizeRemove(c.Keys, h);
      assert c'.Keys == c.Keys - {h};
    } else {
      assert c'.Keys == c.Keys;
    }
  }

  lemma TwoHolders(held: Pending, h: Hash, i: nat, j: nat)
    requires i in Holders(held, h) && j in Holders(held, h) && i != j
    ensures |Holders(held, h)| >= 2
  {
    SubsetSize({i, j}, Holders(held, h));
  }

  /** The counters agree with the ids that are held. */
  ghost predicate Books(held: Pending, c: Counts, blocks: nat) {
    Counted(held, c) && blocks == Size(c.Keys)
  }

  lemma TakeBooks(held: Pending, c: Counts, blocks: nat, id: nat, h: Hash)
    requires Books(held, c, blocks) && id !in held
    ensures Books(held[id := h], Acquire(c, h), blocks + (if h in c then 0 else |h|))
  {
    AcquireCounts(held, c, id, h);
  }

  lemma ReleaseBooks(held: Pending, c: Counts, blocks: nat, id: nat)
    requires Books(held, c, blocks) && id in held
    ensures held[id] in c && c[held[id]] > 0
    ensures c[held[id]] == 1 ==> blocks >= |held[id]|
    ensures Books(held - {id}, Release(c, held[id]), if c[held[id]] == 1 then blocks - |held[id]| else blocks)
  {
    ReleaseCounts(held, c, id);
  }

  // The stash lists of the commands.

  ghost function Ids(list: seq<Stash>): set<nat> {
    set s | s in list :: s.0
  }

  lemma IdsNext(uses: seq<Stash>, n: nat)
    requires n < |uses|
    ensures Ids(uses[..n + 1]) == Ids(uses[..n]) + {uses[n].0}
  {
    assert uses[..n + 1] == uses[..n] + [uses[n]];
    forall id ensures id in Ids(uses[..n + 1]) <==> id in Ids(uses[..n]) || id == uses[n].0 {
      if id in Ids(uses[..n]) {
        var s :| s in uses[..n] && s.0 == id;
        assert s in uses[..n + 1];
      }
      if id == uses[n].0 {
        assert uses[n] in uses[..n + 1];
      }
    }
  }

  ghost function Without(held: Pending, ids: set<nat>): Pending {
    map id | id in held && id !in ids :: held[id]
  }

  ghost predicate AllHeld(list: seq<Stash>, held: Pending, img: Image) {
    forall s :: s in list ==> Fits(s.1, img) && s.0 in held && held[s.0] == Read(img, s.1)
  }

  lemma UseNext(list: seq<Stash>, n: nat, held: Pending, img: Image)
    requires n < |list| && NoRepeat(list) && AllHeld(list, held, img)
    ensures Fits(list[n].1, img)
    ensures var now := Without(held, Ids(list[..n]));
            && list[n].0 in now && now[list[n].0] == Read(img, list[n].1)
            && now - {list[n].0} == Without(held, Ids(list[..n + 1]))
  {
    forall t | t in list[..n] ensures t.0 != list[n].0 {
      var i :| 0 <= i < n && list[i] == t;
    }
    IdsNext(list, n);
  }

  lemma ReadSize(img: Image, s: RangeSet)
    requires Fits(s, img)
    ensures |Read(img, s)| == |s|
  {
  }

  // Stashes that are made.

  ghost predicate AllFit(uses: seq<Stash>, img: Image) {
    forall i :: 0 <= i < |uses| ==> Fits(uses[i].1, img)
  }

  ghost function Adding(held: Pending, img: Image, list: seq<Stash>): Pending
    requires AllFit(list, img)
  {
    if list == [] then held
    else
      var n := |list| - 1;
      Adding(held, img, list[..n])[list[n].0 := Read(img, list[n].1)]
  }

  lemma {:induction false} AddingMember(held: Pending, img: Image, list: seq<Stash>, id: nat)
    requires AllFit(list, img) && NoRepeat(list)
    ensures id in Adding(held, img, list) <==> id in held || id in Ids(list)
    ensures forall s :: s in list && s.0 == id ==> id in Adding(held, img, list) && Adding(held, img, list)[id] == Read(img, s.1)
    ensures id in held && id !in Ids(list) ==> Adding(held, img, list)[id] == held[id]
  {
    if list != [] {
      var n := |list| - 1;
      AddingMember(held, img, list[..n], id);
      IdsNext(list, n);
      assert list[..n + 1] == list;
    }
  }

  lemma BooksKeys(held: Pending, c: Counts, blocks: nat)
    requires Books(held, c, blocks)
    ensures held.Values == c.Keys
  {
    hide Size;
    forall h | h in c ensures h in held.Values {
      var id :| id in Holders(held, h);
    }
  }

  /** The counted blocks are those of the contents that are held. */
  lemma BooksSize(held: Pending, c: Counts, blocks: nat)
    requires Books(held, c, blocks)
    ensures blocks == Size(held.Values)
  {
    BooksKeys(held, c, blocks);
  }
}
