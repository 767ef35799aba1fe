/** Bringing a runfiles tree in line with a manifest. */
module Runfiles {
  import opened FileTree
  import opened Manifest

  /** The entry is already what the manifest asks for. */
  ghost predicate Match(t: Tree, m: Tree, q: Path) {
    q in t && q in m && m[q] == t[q]
  }

  lemma MatchUp(t: Tree, m: Tree, q: Path)
    requires WellFormed(t) && WellFormed(m) && Match(t, m, q) && HasParent(q)
    ensures Match(t, m, Parent(q))
  {
  }

  /** Below something that does not match nothing matches. */
  lemma {:induction false} MatchAbove(t: Tree, m: Tree, c: Path, q: Path)
    requires WellFormed(t) && WellFormed(m) && Match(t, m, q) && Under(c, q)
    ensures Match(t, m, c)
  {
    if q != c {
      MatchUp(t, m, q);
      MatchAbove(t, m, c, Parent(q));
    }
  }

  /** What has to go, and what can stay, of the entries under some of the paths in `d`. */
  ghost function Dropped(t: Tree, m: Tree, d: set<Path>): (r: set<Path>) {
    set q | q in t && UnderAny(d, q) && !Match(t, m, q)
  }

  ghost function Kept(t: Tree, m: Tree, d: set<Path>): (r: set<Path>) {
    set q | q in t && UnderAny(d, q) && Match(t, m, q)
  }

  ghost function Subtree(t: Tree, c: Path): (r: set<Path>) {
    set q | q in t && Under(c, q)
  }

  lemma UnderOne(d: set<Path>, c: Path, q: Path)
    ensures UnderAny(d + {c}, q) <==> UnderAny(d, q) || Under(c, q)
  {
    if UnderAny(d + {c}, q) {
      var x :| x in d + {c} && Under(x, q);
      if x in d { assert UnderAny(d, q); }
    }
    if UnderAny(d, q) {
      var x :| x in d && Under(x, q);
      assert x in d + {c};
    }
    if Under(c, q) {
      assert c in d + {c};
    }
  }

  lemma NothingUnder(t: Tree, m: Tree)
    ensures Dropped(t, m, {}) == {} && Kept(t, m, {}) == {}
  {
  }

  /** One more child that does not match: all of it goes. */
  lemma DropChild(t: Tree, m: Tree, d: set<Path>, c: Path)
    requires WellFormed(t) && WellFormed(m) && c in t && !Match(t, m, c)
    ensures Dropped(t, m, d + {c}) == Dropped(t, m, d) + Subtree(t, c)
    ensures Kept(t, m, d + {c}) == Kept(t, m, d)
  {
    forall q | q in t ensures UnderAny(d + {c}, q) <==> UnderAny(d, q) || Under(c, q) {
      UnderOne(d, c, q);
    }
    forall q | q in t && Under(c, q) ensures !Match(t, m, q) {
      if Match(t, m, q) { MatchAbove(t, m, c, q); }
    }
  }

  /** One more child that matches: it stays, and what is in it is dealt with in the same way. */
  lemma KeepChild(t: Tree, m: Tree, d: set<Path>, c: Path)
    requires WellFormed(t) && WellFormed(m) && Match(t, m, c)
    ensures Dropped(t, m, d + {c}) == Dropped(t, m, d) + Dropped(t, m, Children(t, Some(c)))
    ensures Kept(t, m, d + {c}) == Kept(t, m, d) + {c} + Kept(t, m, Children(t, Some(c)))
  {
    hide Match;
    forall q | q in t
      ensures UnderAny(d + {c}, q) <==> UnderAny(d, q) || Under(c, q)
      ensures Under(c, q) <==> q == c || UnderAny(Children(t, Some(c)), q)
    {
      UnderOne(d, c, q);
      UnderChild(t, c, q);
    }
    assert Under(c, c) && c in t by { MatchThere(t, m, c); }
  }

  lemma MatchThere(t: Tree, m: Tree, c: Path)
    requires Match(t, m, c)
    ensures c in t && c in m
  {
  }

  /** Children that have not been visited yet are untouched. */
  lemma StillThere(t: Tree, m: Tree, dir: Option<Path>, d: set<Path>, c: Path, q: Path)
    requires d <= Children(t, dir) && c in Children(t, dir) && c !in d && Under(c, q)
    ensures q !in Dropped(t, m, d) && q !in Kept(t, m, d)
  {
    forall x | x in d ensures !Under(x, q) {
      Siblings(t, dir, c, x, q);
    }
  }

  // Deleting a subtree.

  lemma SubtreeParts(t: Tree, p: Path)
    requires WellFormed(t) && p in t
    ensures Subtree(t, p) == {p} + SubtreesOf(t, Children(t, Some(p)))
  {
    forall q | q in t ensures Under(p, q) <==> q == p || UnderAny(Children(t, Some(p)), q) {
      UnderChild(t, p, q);
    }
  }

  ghost function SubtreesOf(t: Tree, d: set<Path>): (r: set<Path>) {
    set q | q in t && UnderAny(d, q)
  }

  lemma SubtreesNext(t: Tree, d: set<Path>, c: Path)
    ensures SubtreesOf(t, d + {c}) == SubtreesOf(t, d) + Subtree(t, c)
  {
    forall q | q in t ensures UnderAny(d + {c}, q) <==> UnderAny(d, q) || Under(c, q) {
      UnderOne(d, c, q);
    }
  }

  lemma SubtreeSmaller(t: Tree, p: Path, c: Path)
    requires WellFormed(t) && p in t && c in Children(t, Some(p))
    ensures |Subtree(t, c)| < |Subtree(t, p)|
  {
    forall q | q in Subtree(t, c) ensures q in Subtree(t, p) {
      assert Under(p, c);
      UnderAgain(p, c, q);
    }
    NotUnderShorter(c, p);
    Fewer(Subtree(t, c), Subtree(t, p), p);
  }

  lemma Fewer(a: set<Path>, b: set<Path>, x: Path)
    requires a <= b && x in b && x !in a
    ensures |a| < |b|
  {
    assert b == a + (b - a);
    assert x in b - a;
  }

  /** What is left of the tree when some children are gone. */
  lemma LeftOver(t: Tree, p: Path, d: set<Path>, c: Path, left: Tree)
    requires WellFormed(t) && p in t && d <= Children(t, Some(p)) && c in Children(t, Some(p)) && c !in d
    requires left == t - SubtreesOf(t, d)
    ensures c in left && left[c] == t[c] && WellFormed(left) && Subtree(left, c) == Subtree(t, c)
    ensures left - Subtree(left, c) == t - SubtreesOf(t, d + {c})
  {
    SubtreesNext(t, d, c);
    forall q | q in t && Under(c, q) ensures q !in SubtreesOf(t, d) {
      forall x | x in d ensures !Under(x, q) {
        Siblings(t, Some(p), c, x, q);
      }
    }
    assert Under(c, c);
    StillWellFormed(t, d, left);
  }

  lemma StillWellFormed(t: Tree, d: set<Path>, left: Tree)
    requires WellFormed(t) && left == t - SubtreesOf(t, d)
    ensures WellFormed(left)
  {
    forall q | q in left && HasParent(q) ensures Parent(q) in left && left[Parent(q)] == Directory {
      forall x | x in d ensures !Under(x, Parent(q)) {
        assert !Under(x, q);
      }
    }
  }

  lemma EmptyNow(t: Tree, p: Path, left: Tree)
    requires WellFormed(t) && p in t && left == t - SubtreesOf(t, Children(t, Some(p)))
    ensures Children(left, Some(p)) == {} && p in left && left[p] == t[p]
    ensures left - {p} == t - Subtree(t, p)
  {
    SubtreeParts(t, p);
    forall q | q in Children(t, Some(p)) ensures q in SubtreesOf(t, Children(t, Some(p))) {
      assert Under(q, q);
    }
    forall x | x in Children(t, Some(p)) ensures !Under(x, p) {
      NotUnderShorter(x, p);
    }
  }

  /** Deletes the path and everything in it; never fails. */
  method DelTree(files: Files, path: Path, info: Info)
    requires WellFormed(files.entries) && path in files.entries && files.entries[path] == info
    modifies files
    ensures files.entries == old(files.entries) - Subtree(old(files.entries), path)
    ensures files.removed == old(files.removed) + Subtree(old(files.entries), path)
    ensures CopiesOutside(old(files.copies), files.copies, path)
    decreases |Subtree(files.entries, path)|
  {
    hide WellFormed, Under, Subtree, SubtreesOf, Children, CopiesOutside;
    ghost var t := files.entries;
    if info != Directory {
      LeafTree(t, path);
      var ok := files.Unlink(path);
      assert ok;
      OneGone(old(files.copies), path);
      return;
    }
    var children := Children(files.entries, Some(path));
    var todo := children;
    ghost var done: set<Path> := {};
    DelStart(t, path);
    SameCopies(files.copies, path);
    while todo != {}
      invariant done + todo == children && done !! todo && files.entries == t - SubtreesOf(t, done)
      invariant files.removed == old(files.removed) + SubtreesOf(t, done)
      invariant CopiesOutside(old(files.copies), files.copies, path)
      decreases |todo|
    {
      var c :| c in todo;
      OneMore(children, todo, done, c);
      LeftOver(t, path, done, c, files.entries);
      SubtreeSmaller(t, path, c);
      SubtreesNext(t, done, c);
      ghost var copies := files.copies;
      Regroup(old(files.removed), SubtreesOf(t, done), Subtree(t, c));
      DelTree(files, c, files.entries[c]);
      FewerCopies(t, path, c, old(files.copies), copies, files.copies);
      todo, done := todo - {c}, done + {c};
    }
    assert done == children;
    EmptyNow(t, path, files.entries);
    SubtreeParts(t, path);
    var ok := files.Rmdir(path);
    assert ok;
  }

  /** Copies that are not under the path are still there. */
  ghost predicate CopiesOutside(before: set<Path>, after: set<Path>, path: Path) {
    after <= before && forall q :: q in before && !Under(path, q) ==> q in after
  }

  lemma SameCopies(copies: set<Path>, path: Path)
    ensures CopiesOutside(copies, copies, path)
  {
  }

  lemma OneGone(copies: set<Path>, path: Path)
    ensures CopiesOutside(copies, copies - {path}, path)
  {
    UnderItself(path);
  }

  lemma FewerCopies(t: Tree, p: Path, c: Path, before: set<Path>, now: set<Path>, after: set<Path>)
    requires c in Children(t, Some(p)) && CopiesOutside(before, now, p) && CopiesOutside(now, after, c)
    ensures CopiesOutside(before, after, p)
  {
    UnderParent(t, p, c);
  }

  lemma UnderItself(p: Path)
    ensures Under(p, p)
  {
  }

  lemma UnderParent(t: Tree, p: Path, c: Path)
    requires c in Children(t, Some(p))
    ensures forall q :: Under(c, q) ==> Under(p, q)
  {
    forall q | Under(c, q) ensures Under(p, q) {
      assert Under(p, c);
      UnderAgain(p, c, q);
    }
  }

  lemma LeafTree(t: Tree, p: Path)
    requires WellFormed(t) && p in t && t[p] != Directory
    ensures Subtree(t, p) == {p}
  {
    forall q | q in t && Under(p, q) ensures q == p {
      UnderIsThere(t, p, q);
    }
  }

  lemma DelStart(t: Tree, p: Path)
    ensures SubtreesOf(t, {}) == {} && t - {} == t
  {
  }

  // Pruning.

  /** Nothing under these paths is among the gone. */
  ghost predicate Clean(t: Tree, gone: set<Path>, d: set<Path>) {
    forall q :: UnderAny(d, q) ==> q !in gone
  }

  lemma SameChildren(t: Tree, gone: set<Path>, dir: Option<Path>)
    requires Clean(t, gone, Children(t, dir))
    ensures Children(t - gone, dir) == Children(t, dir)
  {
    forall q | q in Children(t, dir) ensures q !in gone {
      assert Under(q, q) && UnderAny(Children(t, dir), q);
    }
  }

  lemma ChildClean(t: Tree, m: Tree, gone: set<Path>, dir: Option<Path>, d: set<Path>, c: Path)
    requires Clean(t, gone, Children(t, dir)) && d <= Children(t, dir) && c in Children(t, dir) && c !in d
    ensures forall q :: Under(c, q) ==> q !in gone + Dropped(t, m, d) && q !in gone + Kept(t, m, d)
  {
    forall q | Under(c, q) ensures q !in gone && q !in Dropped(t, m, d) && q !in Kept(t, m, d) {
      StillThere(t, m, dir, d, c, q);
      assert UnderAny(Children(t, dir), q);
    }
  }

  lemma InsideClean(t: Tree, gone: set<Path>, c: Path)
    requires forall q :: Under(c, q) ==> q !in gone
    ensures Clean(t, gone, Children(t, Some(c))) && Clean(t, gone + {c}, Children(t, Some(c)))
  {
    forall q | UnderAny(Children(t, Some(c)), q) ensures Under(c, q) && q != c {
      var x :| x in Children(t, Some(c)) && Under(x, q);
      assert Under(c, x);
      UnderAgain(c, x, q);
      NotUnderShorter(x, c);
    }
  }

  lemma SubtreeLeft(t: Tree, gone: set<Path>, c: Path)
    requires forall q :: Under(c, q) ==> q !in gone
    ensures Subtree(t - gone, c) == Subtree(t, c) && t - gone - Subtree(t, c) == t - (gone + Subtree(t, c))
    ensures c in t ==> c in t - gone && (t - gone)[c] == t[c]
  {
    assert Under(c, c);
  }

  lemma DeletedWellFormed(t: Tree, c: Path)
    requires WellFormed(t)
    ensures WellFormed(t - Subtree(t, c))
  {
    forall q | q in t && q !in Subtree(t, c) && HasParent(q) ensures Parent(q) !in Subtree(t, c) {
      assert !Under(c, q);
    }
  }

  /** How much there is to scan. */
  ghost function Inside(t: Tree, dir: Option<Path>): (r: set<Path>) {
    SubtreesOf(t, Children(t, dir))
  }

  lemma InsideSmaller(t: Tree, dir: Option<Path>, c: Path)
    requires WellFormed(t) && c in Children(t, dir)
    ensures |Inside(t, Some(c))| < |Inside(t, dir)|
  {
    assert Under(c, c) && UnderAny(Children(t, dir), c);
    forall q | q in Inside(t, Some(c)) ensures q in Inside(t, dir) && q != c {
      UnderChild(t, c, q);
      assert UnderAny(Children(t, dir), q);
      var x :| x in Children(t, Some(c)) && Under(x, q);
      NotUnderShorter(x, c);
    }
    Fewer(Inside(t, Some(c)), Inside(t, dir), c);
  }

  lemma KeyGone(m: Tree, kept: set<Path>, c: Path)
    requires c !in kept
    ensures c in m <==> c in m - kept
    ensures c in m ==> (m - kept)[c] == m[c]
    ensures m - kept - {c} == m - (kept + {c})
  {
  }

  /** Copies of the manifest survive as long as their files do. */
  ghost predicate CopiesKept(before: set<Path>, after: set<Path>, t: Tree, dropped: set<Path>) {
    after <= before && forall q :: q in before && q in t && q !in dropped ==> q in after
  }

  lemma CopiesStart(c: set<Path>, t: Tree, dropped: set<Path>)
    ensures CopiesKept(c, c, t, dropped)
  {
  }

  lemma CopiesFewer(a: set<Path>, b: set<Path>, t: Tree, few: set<Path>, many: set<Path>)
    requires CopiesKept(a, b, t, few) && few <= many
    ensures CopiesKept(a, b, t, many)
  {
  }

  lemma CopiesAgain(a: set<Path>, b: set<Path>, c: set<Path>, t: Tree, few: set<Path>, many: set<Path>)
    requires CopiesKept(a, b, t, few) && CopiesKept(b, c, t, many) && few <= many
    ensures CopiesKept(a, c, t, many)
  {
  }

  lemma DeletedCopies(a: set<Path>, b: set<Path>, t: Tree, c: Path, dropped: set<Path>)
    requires CopiesOutside(a, b, c) && Subtree(t, c) <= dropped
    ensures CopiesKept(a, b, t, dropped)
  {
  }

  lemma OneMore(whole: set<Path>, todo: set<Path>, done: set<Path>, c: Path)
    requires done + todo == whole && done !! todo && c in todo
    ensures (done + {c}) + (todo - {c}) == whole && done + {c} !! todo - {c}
    ensures c in whole && c !in done && done <= whole && |todo - {c}| < |todo|
  {
  }

  class RunfilesCreator {
    const files: Files
    var manifest: Tree

    constructor (files: Files)
      ensures this.files == files && manifest == map[]
    {
      this.files := files;
      manifest := map[];
    }

    /** What is true while the directory is scanned: `gone` has been deleted from the tree `t` and `kept` has been taken
        out of the manifest `m`. */
    ghost predicate Scanning(t: Tree, m: Tree, gone: set<Path>, kept: set<Path>)
      reads this, files
    {
      files.entries == t - gone && WellFormed(files.entries) && manifest == m - kept
    }

    /** One entry of the directory: it goes if the manifest has no such entry; otherwise it stays, and so does in it what
        matches. */
    method PruneEntry(c: Path, dir: Option<Path>, ghost t: Tree, ghost m: Tree, ghost gone: set<Path>,
                      ghost kept: set<Path>, ghost done: set<Path>)
      requires WellFormed(t) && WellFormed(m) && c in Children(t, dir) && c !in done && done <= Children(t, dir)
      requires Clean(t, gone, Children(t, dir)) && Clean(t, kept, Children(t, dir))
      requires Scanning(t, m, gone + Dropped(t, m, done), kept + Kept(t, m, done))
      modifies this, files
      ensures Scanning(t, m, gone + Dropped(t, m, done + {c}), kept + Kept(t, m, done + {c}))
      ensures files.removed <= old(files.removed) + Dropped(t, m, done + {c})
      ensures CopiesKept(old(files.copies), files.copies, t, Dropped(t, m, done + {c}))
      decreases |Inside(t, dir)|, 0
    {
      hide WellFormed, Under, Subtree, Children, Dropped, Kept, Clean, Inside, CopiesKept, CopiesOutside;
      CopiesStart(files.copies, t, Dropped(t, m, done + {c}));
      ghost var gone1, kept1 := gone + Dropped(t, m, done), kept + Kept(t, m, done);
      ChildClean(t, m, gone, dir, done, c);
      ChildClean(t, m, kept, dir, done, c);
      UnderItself(c);
      ChildThere(t, dir, c);
      SubtreeLeft(t, gone1, c);
      KeyGone(m, kept1, c);
      var actual := files.entries[c];
      if c !in manifest || manifest[c] != actual {
        assert !Match(t, m, c);
        DropChild(t, m, done, c);
        DeletedWellFormed(files.entries, c);
        DelTree(files, c, actual);
        DeletedCopies(old(files.copies), files.copies, t, c, Dropped(t, m, done + {c}));
        Regroup(gone, Dropped(t, m, done), Subtree(t, c));
      } else {
        assert Match(t, m, c);
        KeepChild(t, m, done, c);
        manifest := manifest - {c};
        InsideClean(t, gone1, c);
        InsideClean(t, kept1, c);
        InsideSmaller(t, dir, c);
        if actual == Directory {
          ScanTreeAndPrune(Some(c), t, m, gone1, kept1 + {c});
          CopiesFewer(old(files.copies), files.copies, t, Dropped(t, m, Children(t, Some(c))), Dropped(t, m, done + {c}));
        } else {
          LeafEmpty(t, m, c);
        }
        Regroup(gone, Dropped(t, m, done), Dropped(t, m, Children(t, Some(c))));
        Regroup(kept, Kept(t, m, done) + {c}, Kept(t, m, Children(t, Some(c))));
        Regroup(kept, Kept(t, m, done), {c});
      }
    }

    /** Scans a directory; everything that does not match the manifest is deleted, and everything that does is taken out
        of the manifest. Nothing that matches is ever deleted. */
    method ScanTreeAndPrune(dir: Option<Path>, ghost t: Tree, ghost m: Tree, ghost gone: set<Path>, ghost kept: set<Path>)
      requires WellFormed(t) && WellFormed(m)
      requires Clean(t, gone, Children(t, dir)) && Clean(t, kept, Children(t, dir))
      requires Scanning(t, m, gone, kept)
      modifies this, files
      ensures Scanning(t, m, gone + Dropped(t, m, Children(t, dir)), kept + Kept(t, m, Children(t, dir)))
      ensures files.removed <= old(files.removed) + Dropped(t, m, Children(t, dir))
      ensures CopiesKept(old(files.copies), files.copies, t, Dropped(t, m, Children(t, dir)))
      decreases |Inside(t, dir)|, 1
    {
      hide WellFormed, Under, Subtree, Children, Dropped, Kept, Clean, Inside, Scanning, CopiesKept;
      CopiesStart(files.copies, t, {});
      ScanningEntries(t, m, gone, kept);
      SameChildren(t, gone, dir);
      var children := Children(files.entries, dir);
      var todo := children;
      ghost var done: set<Path> := {};
      NothingUnder(t, m);
      assert gone + {} == gone && kept + {} == kept;
      while todo != {}
        invariant done + todo == children && done !! todo && children == Children(t, dir)
        invariant Scanning(t, m, gone + Dropped(t, m, done), kept + Kept(t, m, done))
        invariant files.removed <= old(files.removed) + Dropped(t, m, done)
        invariant CopiesKept(old(files.copies), files.copies, t, Dropped(t, m, done))
        decreases |todo|
      {
        var c :| c in todo;
        OneMore(children, todo, done, c);
        ghost var copies := files.copies;
        PruneEntry(c, dir, t, m, gone, kept, done);
        DroppedMore(t, m, done, c);
        CopiesAgain(old(files.copies), copies, files.copies, t, Dropped(t, m, done), Dropped(t, m, done + {c}));
        todo, done := todo - {c}, done + {c};
      }
      assert done == children;
    }

    lemma ScanningEntries(t: Tree, m: Tree, gone: set<Path>, kept: set<Path>)
      requires Scanning(t, m, gone, kept)
      ensures files.entries == t - gone
    {
    }

    /** Creates what is still missing, in the order of the map. Nothing fails: what a path is in comes before it, and
        nothing that is to be created is there. */
    method CreateFiles(ghost whole: Tree)
      requires WellFormed(whole) && manifest.Keys !! files.entries.Keys && whole == files.entries + manifest
      modifies files
      ensures files.entries == whole && files.removed == old(files.removed) && files.copies == old(files.copies)
    {
      hide WellFormed, Less;
      ghost var start := files.entries;
      var todo := manifest.Keys;
      assert start + map[] == start;
      CreateStart(start, manifest, whole);
      while todo != {}
        invariant todo <= manifest.Keys && files.entries == Built(whole, start, manifest, todo)
        invariant forall p, q :: p in todo && q in manifest && q !in todo ==> Less(q, p)
        invariant files.removed == old(files.removed) && files.copies == old(files.copies)
        decreases |todo|
      {
        assert exists p :: IsLeast(p, todo) by {
          var p := LeastExists(todo);
        }
        var p :| p in todo && IsLeast(p, todo);
        CreateNext(whole, start, manifest, todo, p);
        var ok := files.Create(p, manifest[p]);
        assert ok;
        todo := todo - {p};
      }
      CreateEnd(whole, start, manifest);
    }

    /** Prunes and creates: the tree becomes exactly what the manifest asks for, and nothing that matched is deleted on
        the way. */
    method PruneAndCreate(ghost t: Tree, ghost m: Tree)
      requires files.entries == t && WellFormed(t) && manifest == m && WellFormed(m)
      modifies this, files
      ensures files.entries == m
      ensures files.removed <= old(files.removed) + NotMatching(t, m)
      ensures CopiesKept(old(files.copies), files.copies, t, NotMatching(t, m))
    {
      hide WellFormed, Children, CopiesKept, Less, NotMatching, Dropped, Kept;
      StartClean(t, m);
      ScanTreeAndPrune(None, t, m, {}, {});
      AllUnderTop(t, m);
      ScanResult(t, m, files.entries, manifest);
      CreateFiles(m);
    }

    /** Prunes, creates and puts the copy of the manifest into place. The one thing that can go wrong is a directory with
        the name of the copy. */
    method CreateRunfiles(ghost t: Tree, ghost w: Tree) returns (ok: bool)
      requires files.entries == t && WellFormed(t) && PrefixFree(w) && manifest == Closure(w)[TEMP := Regular]
      requires MANIFEST !in Closure(w) && TEMP !in Closure(w) && TEMP in t && t[TEMP] != Directory
      requires TEMP in files.copies ==> t[TEMP] == Regular
      modifies this, files
      ensures ok <==> !(MANIFEST in t && t[MANIFEST] == Directory)
      ensures ok ==> files.entries == Closure(w)[MANIFEST := Regular]
      ensures ok ==> files.removed <= old(files.removed) + NotMatching(t, Closure(w)[TEMP := Regular])
      ensures ok ==> (MANIFEST in files.copies <==> TEMP in old(files.copies))
      ensures !ok ==> files.removed == old(files.removed) && files.entries == t
    {
      hide WellFormed, Closure, PrefixFree, Under, Children, CopiesKept, Less, NotMatching;
      ghost var m := manifest;
      TempWellFormed(w);
      NamesAreTop();
      var gone := files.Unlink(MANIFEST);
      if !gone && MANIFEST in files.entries {
        return false;
      }
      ghost var t1, copies := files.entries, files.copies;
      UnlinkedWellFormed(t, t1);
      RemovedEnd(t, t1, w, m);
      PruneAndCreate(t1, m);
      CopiesEnd(copies, files.copies, t1, m);
      ok := files.Rename(TEMP, MANIFEST);
      Renamed(w, m, files.entries);
    }
  }

  /** The entries that have no business in the tree. */
  ghost function NotMatching(t: Tree, m: Tree): (r: set<Path>) {
    set q | q in t && !Match(t, m, q)
  }

  // Map order.

  /** The order of the map: by the first character in which two paths differ. */
  predicate Less(p: Path, q: Path) {
    q != [] && (p == [] || p[0] < q[0] || (p[0] == q[0] && Less(p[1..], q[1..])))
  }

  /** That is: one is the beginning of the other, or has the smaller character at the first place where they differ. */
  lemma {:induction false} LessMeans(p: Path, q: Path)
    ensures Less(p, q) <==> p < q || exists k :: 0 <= k < |p| && k < |q| && p[..k] == q[..k] && p[k] < q[k]
  {
    if p != [] && q != [] && p[0] == q[0] {
      LessMeans(p[1..], q[1..]);
      assert p == [p[0]] + p[1..] && q == [q[0]] + q[1..];
      if k :| 0 <= k < |p[1..]| && k < |q[1..]| && p[1..][..k] == q[1..][..k] && p[1..][k] < q[1..][k] {
        assert p[..k + 1] == [p[0]] + p[1..][..k] && q[..k + 1] == [q[0]] + q[1..][..k];
      }
      if k :| 0 <= k < |p| && k < |q| && p[..k] == q[..k] && p[k] < q[k] {
        assert p[1..][..k - 1] == p[..k][1..] && q[1..][..k - 1] == q[..k][1..];
      }
    } else if p != [] && q != [] {
      assert p[..0] == q[..0];
      forall k | 0 < k <= |p| && k <= |q| ensures p[..k] != q[..k] {
        assert p[..k][0] != q[..k][0];
      }
    }
  }

  lemma {:induction false} PrefixLess(p: Path, q: Path)
    requires p < q
    ensures Less(p, q)
  {
    if p != [] {
      assert p[1..] < q[1..];
      PrefixLess(p[1..], q[1..]);
    }
  }

  lemma {:induction false} LessOneWay(p: Path, q: Path)
    requires Less(p, q)
    ensures !Less(q, p) && p != q
  {
    if p != [] && p[0] == q[0] {
      LessOneWay(p[1..], q[1..]);
    }
  }

  lemma {:induction false} LessTotal(p: Path, q: Path)
    ensures p == q || Less(p, q) || Less(q, p)
  {
    if p != [] && q != [] && p[0] == q[0] {
      LessTotal(p[1..], q[1..]);
      assert p == [p[0]] + p[1..] && q == [q[0]] + q[1..];
    }
  }

  lemma {:induction false} LessAgain(p: Path, q: Path, r: Path)
    requires Less(p, q) && Less(q, r)
    ensures Less(p, r)
  {
    if p != [] && p[0] == q[0] == r[0] {
      LessAgain(p[1..], q[1..], r[1..]);
    }
  }

  predicate IsLeast(p: Path, s: set<Path>) {
    p in s && forall q :: q in s && q != p ==> Less(p, q)
  }

  lemma {:induction false} LeastExists(s: set<Path>) returns (p: Path)
    requires s != {}
    ensures IsLeast(p, s)
  {
    var x :| x in s;
    var rest := s - {x};
    if rest == {} {
      assert s == {x};
      p := x;
    } else {
      var y := LeastExists(rest);
      LessTotal(x, y);
      p := if Less(x, y) then x else y;
      forall q | q in s && q != p ensures Less(p, q) {
        if q != x && q != y && p == x {
          LessAgain(x, y, q);
        }
      }
    }
  }

  // Creation.

  /** What is there when the paths in `todo` are still missing. */
  ghost function Built(whole: Tree, start: Tree, m: Tree, todo: set<Path>): Tree {
    map q | q in whole && (q in start || q !in todo) :: whole[q]
  }

  lemma CreateStart(start: Tree, m: Tree, whole: Tree)
    requires m.Keys !! start.Keys && whole == start + m
    ensures Built(whole, start, m, m.Keys) == start
  {
  }

  lemma CreateEnd(whole: Tree, start: Tree, m: Tree)
    ensures Built(whole, start, m, {}) == whole
  {
  }

  lemma CreateNext(whole: Tree, start: Tree, m: Tree, todo: set<Path>, p: Path)
    requires WellFormed(whole) && m.Keys !! start.Keys && whole == start + m && todo <= m.Keys && p in todo && IsLeast(p, todo)
    ensures var built := Built(whole, start, m, todo);
            && p !in built && (HasParent(p) ==> Parent(p) in built && built[Parent(p)] == Directory)
            && built[p := m[p]] == Built(whole, start, m, todo - {p})
  {
    if HasParent(p) {
      PrefixLess(Parent(p), p);
      LessOneWay(Parent(p), p);
    }
  }

  // The whole run.

  lemma NamesAreTop()
    ensures !HasParent(MANIFEST) && !HasParent(TEMP) && MANIFEST != TEMP
  {
    NoSlash(MANIFEST);
    NoSlash(TEMP);
  }

  lemma NoSlash(p: Path)
    requires forall i :: 0 <= i < |p| ==> p[i] != '/'
    ensures !HasParent(p)
  {
  }

  lemma TempWellFormed(w: Tree)
    requires PrefixFree(w) && TEMP !in Closure(w)
    ensures WellFormed(Closure(w)[TEMP := Regular])
  {
    hide Closure;
    ClosureWellFormed(w);
    NamesAreTop();
  }

  lemma UnlinkedWellFormed(t: Tree, t1: Tree)
    requires WellFormed(t) && (t1 == t || (t1 == t - {MANIFEST} && MANIFEST in t && t[MANIFEST] != Directory))
    ensures WellFormed(t1)
  {
  }

  lemma StartClean(t: Tree, m: Tree)
    ensures Clean(t, {}, Children(t, None)) && t - {} == t && m - {} == m
  {
  }

  lemma AllUnderTop(t: Tree, m: Tree)
    requires WellFormed(t)
    ensures {} + Dropped(t, m, Children(t, None)) == Dropped(t, m, Children(t, None)) == NotMatching(t, m)
    ensures Kept(t, m, Children(t, None)) == set q | q in t && Match(t, m, q)
  {
    forall q | q in t ensures UnderAny(Children(t, None), q) {
      UnderTop(t, q);
    }
  }

  /** After pruning, the tree and what is left of the manifest make up the manifest. */
  lemma ScanResult(t: Tree, m: Tree, left: Tree, rest: Tree)
    requires WellFormed(t)
    requires left == t - ({} + Dropped(t, m, Children(t, None))) && rest == m - ({} + Kept(t, m, Children(t, None)))
    ensures rest.Keys !! left.Keys && left + rest == m
  {
    AllUnderTop(t, m);
  }

  lemma Renamed(w: Tree, m: Tree, entries: Tree)
    requires m == Closure(w)[TEMP := Regular] && TEMP !in Closure(w) && MANIFEST !in Closure(w)
    requires entries == (m - {TEMP})[MANIFEST := m[TEMP]]
    ensures entries == Closure(w)[MANIFEST := Regular]
  {
    hide Closure;
  }

  lemma CopiesEnd(before: set<Path>, after: set<Path>, t: Tree, m: Tree)
    requires CopiesKept(before, after, t, NotMatching(t, m)) && TEMP in t && TEMP in m && m[TEMP] == Regular
    requires TEMP in before ==> t[TEMP] == Regular
    ensures TEMP in after <==> TEMP in before
  {
  }

  lemma RemovedEnd(t: Tree, t1: Tree, w: Tree, m: Tree)
    requires m == Closure(w)[TEMP := Regular] && MANIFEST !in Closure(w)
    requires t1 == t || t1 == t - {MANIFEST}
    ensures NotMatching(t1, m) <= NotMatching(t, m) && (MANIFEST in t ==> MANIFEST in NotMatching(t, m))
  {
    hide Closure;
    NamesAreTop();
  }

  lemma ChildThere(t: Tree, dir: Option<Path>, c: Path)
    requires c in Children(t, dir)
    ensures c in t
  {
  }

  lemma Regroup(a: set<Path>, b: set<Path>, c: set<Path>)
    ensures a + b + c == a + (b + c)
  {
  }

  lemma LeafEmpty(t: Tree, m: Tree, c: Path)
    requires WellFormed(t) && c in t && t[c] != Directory
    ensures Dropped(t, m, Children(t, Some(c))) == {} == Kept(t, m, Children(t, Some(c)))
  {
    assert Children(t, Some(c)) == {};
  }

  lemma DroppedMore(t: Tree, m: Tree, d: set<Path>, c: Path)
    ensures Dropped(t, m, d) <= Dropped(t, m, d + {c})
  {
    forall q | q in t ensures UnderAny(d, q) ==> UnderAny(d + {c}, q) {
      UnderOne(d, c, q);
    }
  }

  lemma OpenedWellFormed(t: Tree, leadsTo: string -> Landing)
    requires WellFormed(t) && CanOpen(t, TEMP, leadsTo) && LinkLands(t, leadsTo)
    ensures WellFormed(Opened(t, TEMP, leadsTo))
  {
    NamesAreTop();
  }

  /** A link in the place of the temporary file does not lead to itself, and what it makes is not a directory. */
  lemma OpenedNames(t: Tree, leadsTo: string -> Landing)
    requires CanOpen(t, TEMP, leadsTo) && LinkLands(t, leadsTo)
    ensures var now := Opened(t, TEMP, leadsTo);
            && TEMP in now && now[TEMP] != Directory
            && (MANIFEST in now && now[MANIFEST] == Directory <==> MANIFEST in t && t[MANIFEST] == Directory)
    ensures TEMP in OpenedAt(t, TEMP, leadsTo) <==> !(TEMP in t && t[TEMP].Symlink?)
    ensures TEMP in OpenedAt(t, TEMP, leadsTo) ==> Opened(t, TEMP, leadsTo)[TEMP] == Regular
  {
    NamesAreTop();
  }

  lemma RemovedAtEnd(t: Tree, leadsTo: string -> Landing, w: Tree, removed: set<Path>)
    requires CanOpen(t, TEMP, leadsTo) && LinkLands(t, leadsTo) && TEMP !in Closure(w)
    requires removed <= NotMatching(Opened(t, TEMP, leadsTo), Closure(w)[TEMP := Regular])
    ensures forall q :: q in removed ==> !Match(t, Closure(w), q)
  {
    hide Closure;
  }

  /** If there is a link in the place of the temporary file, it leads somewhere as links do. */
  ghost predicate LinkLands(t: Tree, leadsTo: string -> Landing) {
    TEMP in t && t[TEMP].Symlink? ==> Lands(t, leadsTo(t[TEMP].target))
  }

  /** The tree that the lines ask for. Of the lines with tokens every one counts, or, if there is metadata, lines 1, 3, 5 and
      so on. One token is a file, two are a link with its target. They lie in directories, next to the manifest there is
      nothing else. */
  ghost predicate AsAsked(t: Tree, lines: seq<Line>, useMetadata: bool) {
    && MANIFEST in t && t[MANIFEST] == Regular
    && (forall n :: 0 <= n < |lines| && lines[n] != [] && (useMetadata ==> n % 2 == 0) ==>
          && lines[n][0] in t
          && t[lines[n][0]] == (if |lines[n]| == 1 then Regular else Symlink(lines[n][1]))
          && forall q: Path :: q + "/" <= lines[n][0] ==> q in t && t[q] == Directory)
    && (forall q :: q in t && q != MANIFEST ==>
          exists n :: 0 <= n < |lines| && lines[n] != [] && (useMetadata ==> n % 2 == 0)
                      && (q == lines[n][0] || q + "/" <= lines[n][0]))
  }

  lemma ClosureAsAsked(lines: seq<Line>, useMetadata: bool)
    requires Tokens(lines) && RulesKept(lines, useMetadata)
    ensures AsAsked(Closure(Wanted(lines, useMetadata, |lines|))[MANIFEST := Regular], lines, useMetadata)
  {
    hide Closure, Wanted, Under, RulesKept;
    var w := Wanted(lines, useMetadata, |lines|);
    var t := Closure(w)[MANIFEST := Regular];
    OwnFilesApart(lines, useMetadata);
    forall n | 0 <= n < |lines| && lines[n] != [] && (useMetadata ==> n % 2 == 0)
      ensures lines[n][0] in t && t[lines[n][0]] == (if |lines[n]| == 1 then Regular else Symlink(lines[n][1]))
      ensures forall q: Path :: q + "/" <= lines[n][0] ==> q in t && t[q] == Directory
    {
      LineAsAsked(lines, useMetadata, n);
    }
    forall q | q in t && q != MANIFEST
      ensures exists n :: 0 <= n < |lines| && lines[n] != [] && (useMetadata ==> n % 2 == 0)
                          && (q == lines[n][0] || q + "/" <= lines[n][0])
    {
      ClosureAt(w, q);
      var p :| p in w && Under(q, p);
      WantedFrom(lines, useMetadata, |lines|, p);
      UnderMeans(q, p);
    }
  }

  lemma LineAsAsked(lines: seq<Line>, useMetadata: bool, n: nat)
    requires RulesKept(lines, useMetadata) && n < |lines| && !Skipped(lines, useMetadata, n)
    ensures var w := Wanted(lines, useMetadata, |lines|);
            && lines[n][0] in Closure(w)
            && Closure(w)[lines[n][0]] == (if |lines[n]| == 1 then Regular else Symlink(lines[n][1]))
            && forall q: Path :: q + "/" <= lines[n][0] ==> q in Closure(w) && Closure(w)[q] == Directory
  {
    hide Closure, Wanted, Under;
    var w, l := Wanted(lines, useMetadata, |lines|), lines[n][0];
    WantedAt(lines, useMetadata, |lines|, n);
    ClosureAt(w, l);
    forall q: Path | q + "/" <= l ensures q in Closure(w) && Closure(w)[q] == Directory {
      UnderMeans(q, l);
      ClosureAt(w, q);
      if q in w {
        WantedFrom(lines, useMetadata, |lines|, q);
        NotAbove(lines, useMetadata, n, q);
      }
    }
  }

  lemma NotAbove(lines: seq<Line>, useMetadata: bool, n: nat, q: Path)
    requires RulesKept(lines, useMetadata) && n < |lines| && !Skipped(lines, useMetadata, n) && |q| < |lines[n][0]|
    requires exists i :: 0 <= i < |lines| && !Skipped(lines, useMetadata, i) && lines[i][0] == q
    ensures !Under(q, lines[n][0])
  {
    hide Under;
  }

  /** The whole tool, from any tree. It succeeds exactly if the lines are well formed, no directory is in the way of its
      own two files, and no link that cannot be opened is in the place of the temporary one. Then the tree is as the lines
      ask; no entry that was right from the start has been removed; and the copy of the manifest is in place, unless its
      temporary file was a link. If it fails nothing has been removed. */
  method MakeRunfiles(files: Files, lines: seq<Line>, allowRelative: bool, useMetadata: bool) returns (ok: bool)
    requires WellFormed(files.entries) && files.copies == {} && files.removed == {}
    requires LinkLands(files.entries, files.leadsTo)
    requires Tokens(lines) && RulesKept(lines, useMetadata)
    modifies files
    ensures ok <==>
              && LinesOk(lines, allowRelative, useMetadata, |lines|)
              && !(TEMP in old(files.entries) && old(files.entries)[TEMP] == Directory)
              && !(MANIFEST in old(files.entries) && old(files.entries)[MANIFEST] == Directory)
              && !(TEMP in old(files.entries) && old(files.entries)[TEMP].Symlink?
                   && files.leadsTo(old(files.entries)[TEMP].target) == Nowhere)
    ensures ok ==> files.entries == Closure(Wanted(lines, useMetadata, |lines|))[MANIFEST := Regular]
    ensures ok ==> AsAsked(files.entries, lines, useMetadata)
    ensures !ok ==> files.removed == {}
    ensures ok ==> forall q :: q in files.removed ==> !Match(old(files.entries), Closure(Wanted(lines, useMetadata, |lines|)), q)
    ensures ok ==> (MANIFEST in files.copies <==> !(TEMP in old(files.entries) && old(files.entries)[TEMP].Symlink?))
  {
    hide WellFormed, Closure, PrefixFree, Under, Match, LinesOk, RulesKept, Wanted, NotMatching, Opened, OpenedAt,
         LinkLands, AsAsked;
    ghost var t0, w := files.entries, Wanted(lines, useMetadata, |lines|);
    NamesAreTop();
    ok := files.WriteCopy(TEMP);
    if !ok {
      return;
    }
    ghost var t := files.entries;
    OpenedWellFormed(t0, files.leadsTo);
    OpenedNames(t0, files.leadsTo);
    OwnFilesApart(lines, useMetadata);
    var creator := new RunfilesCreator(files);
    ok, creator.manifest := ReadManifest(lines, allowRelative, useMetadata);
    if !ok {
      return;
    }
    ok := creator.CreateRunfiles(t, w);
    if ok {
      ClosureAsAsked(lines, useMetadata);
      RemovedAtEnd(t0, files.leadsTo, w, files.removed);
    }
  }

  /** A link in the place of the temporary file that leads to a directory makes the tool fail on any manifest. */
  method LinkInTheWay(lines: seq<Line>) returns (files: Files, ok: bool)
    requires Tokens(lines) && RulesKept(lines, false)
    ensures !ok
  {
    files := new Files(map["d" := Directory, TEMP := Symlink("d")], target => if target == "d" then Nowhere else Outside);
    NamesAreTop();
    NoSlash("d");
    ok := MakeRunfiles(files, lines, true, false);
  }
}
