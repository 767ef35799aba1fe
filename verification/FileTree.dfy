/** A directory tree by path, and the file operations the runfiles tool uses. */
module FileTree {

  type Path = string

  datatype Info = Regular | Directory | Symlink(target: string)

  type Tree = map<Path, Info>

  /** Where the last slash is, if there is one. */
  function LastSlash(p: Path): (k: int)
    ensures -1 <= k < |p| && (k >= 0 ==> p[k] == '/') && forall i :: k < i < |p| ==> p[i] != '/'
  {
    if p == [] then -1 else if p[|p| - 1] == '/' then |p| - 1 else LastSlash(p[..|p| - 1])
  }

  predicate HasParent(p: Path) {
    LastSlash(p) >= 0
  }

  function Parent(p: Path): (q: Path)
    requires HasParent(p)
    ensures |q| < |p| && q < p
  {
    p[..LastSlash(p)]
  }

  /** Every entry is in a directory. */
  ghost predicate WellFormed(t: Tree) {
    forall p :: p in t && HasParent(p) ==> Parent(p) in t && t[Parent(p)] == Directory
  }

  /** `q` is `p` or lies in the directory `p`, at any depth. */
  ghost predicate Under(p: Path, q: Path)
    decreases |q|
  {
    q == p || (HasParent(q) && Under(p, Parent(q)))
  }

  /** In characters: a path is under its own prefixes that end before a slash. */
  lemma {:induction false} UnderMeans(p: Path, q: Path)
    ensures Under(p, q) <==> q == p || p + "/" <= q
    decreases |q|
  {
    if HasParent(q) {
      UnderMeans(p, Parent(q));
      if p + "/" <= q {
        assert q[|p|] == '/';
        assert p == q[..|p|];
      }
    } else {
      assert |p| < |q| ==> q[|p|] != '/';
    }
  }

  /** What lies directly in a directory, or at the top. */
  function Children(t: Tree, dir: Option<Path>): (s: set<Path>)
    ensures s <= t.Keys
  {
    set p | p in t && (if dir.None? then !HasParent(p) else HasParent(p) && Parent(p) == dir.value)
  }

  datatype Option<T> = None | Some(value: T)

  ghost predicate UnderAny(d: set<Path>, q: Path) {
    exists c :: c in d && Under(c, q)
  }

  lemma {:induction false} UnderShorter(p: Path, q: Path)
    requires Under(p, q)
    ensures |p| <= |q| && (|p| == |q| ==> p == q)
  {
    if q != p {
      UnderShorter(p, Parent(q));
    }
  }

  lemma {:induction false} UnderAgain(p: Path, q: Path, r: Path)
    requires Under(p, q) && Under(q, r)
    ensures Under(p, r)
  {
    if r != q {
      UnderAgain(p, q, Parent(r));
    }
  }

  lemma {:induction false} UnderIsThere(t: Tree, c: Path, q: Path)
    requires WellFormed(t) && q in t && Under(c, q)
    ensures c in t && (q != c ==> t[c] == Directory)
  {
    if q != c {
      UnderIsThere(t, c, Parent(q));
    }
  }

  /** Whatever is in a directory is under one of its children. */
  lemma {:induction false} UnderChild(t: Tree, c: Path, q: Path)
    requires WellFormed(t) && q in t
    ensures Under(c, q) <==> q == c || UnderAny(Children(t, Some(c)), q)
    decreases |q|
  {
    if q != c && Under(c, q) {
      if Parent(q) == c {
        assert q in Children(t, Some(c)) && Under(q, q);
      } else {
        UnderChild(t, c, Parent(q));
        var d :| d in Children(t, Some(c)) && Under(d, Parent(q));
        assert Under(d, q);
      }
    }
    if UnderAny(Children(t, Some(c)), q) {
      var d :| d in Children(t, Some(c)) && Under(d, q);
      assert Under(c, d);
      UnderAgain(c, d, q);
    }
  }

  lemma {:induction false} UnderTop(t: Tree, q: Path)
    requires WellFormed(t) && q in t
    ensures UnderAny(Children(t, None), q)
    decreases |q|
  {
    if HasParent(q) {
      UnderTop(t, Parent(q));
      var d :| d in Children(t, None) && Under(d, Parent(q));
      assert Under(d, q);
    } else {
      assert q in Children(t, None) && Under(q, q);
    }
  }

  lemma {:induction false} NotUnderShorter(p: Path, q: Path)
    requires |q| < |p|
    ensures !Under(p, q)
  {
    if HasParent(q) {
      NotUnderShorter(p, Parent(q));
    }
  }

  lemma SiblingOutside(t: Tree, dir: Option<Path>, c: Path, d: Path)
    requires c in Children(t, dir) && d in Children(t, dir) && c != d
    ensures !Under(d, c)
  {
    if HasParent(c) {
      NotUnderShorter(d, Parent(c));
    }
  }

  /** Two entries of one directory have nothing in common. */
  lemma {:induction false} Siblings(t: Tree, dir: Option<Path>, c: Path, d: Path, q: Path)
    requires c in Children(t, dir) && d in Children(t, dir) && c != d && Under(c, q)
    ensures !Under(d, q)
    decreases |q|
  {
    if q == c {
      SiblingOutside(t, dir, c, d);
    } else if q == d {
      SiblingOutside(t, dir, d, c);
    } else {
      Siblings(t, dir, c, d, Parent(q));
    }
  }

  /** What opening a link for writing leads to: nothing that can be opened, a file outside of the tree, or one in it. */
  datatype Landing = Nowhere | Outside | At(path: Path)

  /** Inside of the tree that is a regular file, or a new one in a directory that is there. */
  ghost predicate Lands(t: Tree, l: Landing) {
    l.At? ==>
      if l.path in t then t[l.path] == Regular
      else HasParent(l.path) ==> Parent(l.path) in t && t[Parent(l.path)] == Directory
  }

  /** The tree after a file has been opened for writing. */
  ghost function Opened(t: Tree, p: Path, leadsTo: string -> Landing): Tree {
    if p !in t then t[p := Regular]
    else if t[p].Symlink? && leadsTo(t[p].target).At? && leadsTo(t[p].target).path !in t then
      t[leadsTo(t[p].target).path := Regular]
    else t
  }

  /** Where the content goes, if the file can be opened and is in the tree. */
  ghost function OpenedAt(t: Tree, p: Path, leadsTo: string -> Landing): (r: set<Path>) {
    if p !in t || t[p] == Regular then {p}
    else if t[p].Symlink? && leadsTo(t[p].target).At? then {leadsTo(t[p].target).path}
    else {}
  }

  ghost predicate CanOpen(t: Tree, p: Path, leadsTo: string -> Landing) {
    p in t ==> t[p] != Directory && (t[p].Symlink? ==> leadsTo(t[p].target) != Nowhere)
  }

  class Files {
    // What a link with a given target leads to.
    const leadsTo: string -> Landing
    var entries: Tree
    // Regular files the manifest has been copied to.
    var copies: set<Path>
    // Everything that has ever been removed.
    ghost var removed: set<Path>

    constructor (entries: Tree, leadsTo: string -> Landing)
      ensures this.entries == entries && this.leadsTo == leadsTo && copies == {} && removed == {}
    {
      this.entries, this.leadsTo := entries, leadsTo;
      copies, removed := {}, {};
    }

    /** Removes something that is not a directory. */
    method Unlink(p: Path) returns (ok: bool)
      modifies this
      ensures ok <==> p in old(entries) && old(entries)[p] != Directory
      ensures entries == (if ok then old(entries) - {p} else old(entries))
      ensures removed == (if ok then old(removed) + {p} else old(removed))
      ensures copies == (if ok then old(copies) - {p} else old(copies))
    {
      if p !in entries || entries[p] == Directory {
        return false;
      }
      entries := entries - {p};
      copies := copies - {p};
      removed := removed + {p};
      return true;
    }

    /** Removes an empty directory. */
    method Rmdir(p: Path) returns (ok: bool)
      modifies this
      ensures ok <==> p in old(entries) && old(entries)[p] == Directory && Children(old(entries), Some(p)) == {}
      ensures entries == (if ok then old(entries) - {p} else old(entries))
      ensures removed == (if ok then old(removed) + {p} else old(removed))
      ensures copies == old(copies)
    {
      if p !in entries || entries[p] != Directory || Children(entries, Some(p)) != {} {
        return false;
      }
      entries := entries - {p};
      removed := removed + {p};
      return true;
    }

    /** Makes something new; fails if the path exists or is not in a directory. */
    method Create(p: Path, info: Info) returns (ok: bool)
      modifies this
      ensures ok <==> p !in old(entries)
                      && (HasParent(p) ==> Parent(p) in old(entries) && old(entries)[Parent(p)] == Directory)
      ensures entries == (if ok then old(entries)[p := info] else old(entries))
      ensures removed == old(removed) && copies == old(copies)
    {
      if p in entries || (HasParent(p) && (Parent(p) !in entries || entries[Parent(p)] != Directory)) {
        return false;
      }
      entries := entries[p := info];
      return true;
    }

    /** Opens a file at the top for writing and writes the copy of the manifest to it. A link is followed, so that the
        copy ends up somewhere else, or nowhere; a directory cannot be opened. */
    method WriteCopy(p: Path) returns (ok: bool)
      requires !HasParent(p)
      modifies this
      ensures ok <==> CanOpen(old(entries), p, leadsTo)
      ensures entries == if ok then Opened(old(entries), p, leadsTo) else old(entries)
      ensures copies == if ok then old(copies) + OpenedAt(old(entries), p, leadsTo) else old(copies)
      ensures removed == old(removed)
    {
      var q := p;
      if p in entries && entries[p] == Directory {
        return false;
      }
      if p in entries && entries[p].Symlink? {
        match leadsTo(entries[p].target)
        case Nowhere => return false;
        case Outside => return true;
        case At(path) => q := path;
      }
      if q !in entries {
        entries := entries[q := Regular];
      }
      copies := copies + {q};
      return true;
    }

    /** Renames a file at the top. */
    method Rename(from: Path, to: Path) returns (ok: bool)
      requires !HasParent(from) && !HasParent(to) && from != to
      modifies this
      ensures ok <==> from in old(entries) && old(entries)[from] != Directory
                      && !(to in old(entries) && old(entries)[to] == Directory)
      ensures entries == (if ok then (old(entries) - {from})[to := old(entries)[from]] else old(entries))
      ensures copies == (if ok then (old(copies) - {from, to}) + (if from in old(copies) then {to} else {}) else old(copies))
      ensures removed == old(removed)
    {
      if from !in entries || entries[from] == Directory || (to in entries && entries[to] == Directory) {
        return false;
      }
      var info := entries[from];
      entries := (entries - {from})[to := info];
      copies := (copies - {from, to}) + (if from in copies then {to} else {});
      return true;
    }
  }
}
