/** Reading a runfiles manifest. */
module Manifest {
  import opened FileTree

  /** The tokens of one line. */
  type Line = seq<string>

  const MANIFEST: Path := "MANIFEST"

  const TEMP: Path := "MANIFEST.tmp"

  ghost predicate Tokens(lines: seq<Line>) {
    forall n, k :: 0 <= n < |lines| && 0 <= k < |lines[n]| ==> lines[n][k] != ""
  }

  /** Every other line is metadata when that is asked for; lines without tokens say nothing. */
  ghost predicate Skipped(lines: seq<Line>, useMetadata: bool, n: nat)
    requires n < |lines|
  {
    (useMetadata && (n + 1) % 2 == 0) || lines[n] == []
  }

  ghost predicate LineOk(line: Line, allowRelative: bool)
    requires line != [] && forall k :: 0 <= k < |line| ==> line[k] != ""
  {
    line[0][0] != '/' && |line| <= 2 && (|line| == 2 && !allowRelative ==> line[1][0] == '/')
  }

  ghost predicate LinesOk(lines: seq<Line>, allowRelative: bool, useMetadata: bool, upto: nat)
    requires Tokens(lines) && upto <= |lines|
  {
    forall n :: 0 <= n < upto && !Skipped(lines, useMetadata, n) ==> LineOk(lines[n], allowRelative)
  }

  ghost function InfoOf(line: Line): Info
    requires line != []
  {
    if |line| == 1 then Regular else Symlink(line[1])
  }

  /** The links the first `n` lines ask for. */
  ghost function Wanted(lines: seq<Line>, useMetadata: bool, n: nat): Tree
    requires n <= |lines|
  {
    if n == 0 then map[]
    else if Skipped(lines, useMetadata, n - 1) then Wanted(lines, useMetadata, n - 1)
    else Wanted(lines, useMetadata, n - 1)[lines[n - 1][0] := InfoOf(lines[n - 1])]
  }

  /** No output path is given twice, and none is a directory of another or of the tool's own files. */
  ghost predicate RulesKept(lines: seq<Line>, useMetadata: bool) {
    && (forall i, j :: 0 <= i < j < |lines| && !Skipped(lines, useMetadata, i) && !Skipped(lines, useMetadata, j) ==>
          !Under(lines[i][0], lines[j][0]) && !Under(lines[j][0], lines[i][0]))
    && (forall i :: 0 <= i < |lines| && !Skipped(lines, useMetadata, i) ==>
          !Under(MANIFEST, lines[i][0]) && !Under(TEMP, lines[i][0]))
  }

  // Paths and the directories they are in.

  ghost function Ancestors(p: Path): (s: set<Path>)
    decreases |p|
    ensures forall q :: q in s <==> Under(q, p)
  {
    if HasParent(p) then {p} + Ancestors(Parent(p)) else {p}
  }

  /** The wanted links and all directories they are in. */
  ghost function Closure(w: Tree): (t: Tree) {
    map q | q in AllAncestors(w.Keys) :: if q in w then w[q] else Directory
  }

  ghost function AllAncestors(s: set<Path>): (r: set<Path>) {
    set p, q | p in s && q in Ancestors(p) :: q
  }

  lemma InAncestors(s: set<Path>, q: Path)
    ensures q in AllAncestors(s) <==> exists p :: p in s && Under(q, p)
  {
    if p :| p in s && Under(q, p) {
      assert q in Ancestors(p);
    }
  }

  /** Only directories are above links. */
  ghost predicate PrefixFree(w: Tree) {
    forall p, q :: p in w && q in w && p != q ==> !Under(p, q)
  }

  lemma ClosureWellFormed(w: Tree)
    requires PrefixFree(w)
    ensures WellFormed(Closure(w))
  {
    forall q | q in Closure(w) && HasParent(q) ensures Parent(q) in Closure(w) && Closure(w)[Parent(q)] == Directory {
      InAncestors(w.Keys, q);
      var p :| p in w && Under(q, p);
      assert Under(Parent(q), q);
      UnderAgain(Parent(q), q, p);
      InAncestors(w.Keys, Parent(q));
      UnderShorter(q, p);
      assert Parent(q) != p;
    }
  }

  /** Adds the directories a path is in, from the inside out, until one of them is there. */
  ghost function InsertParents(m: Tree, p: Path): Tree
    decreases |p|
  {
    if !HasParent(p) || Parent(p) in m then m else InsertParents(m[Parent(p) := Directory], Parent(p))
  }

  /** Apart from `p` everything is in a directory that is there. */
  ghost predicate ClosedBut(m: Tree, p: Path) {
    p in m && forall x :: x in m && x != p && HasParent(x) ==> Parent(x) in m
  }

  lemma {:induction false} ParentsThere(m: Tree, p: Path, q: Path)
    requires (forall x :: x in m && HasParent(x) ==> Parent(x) in m) && p in m && Under(q, p)
    ensures q in m
    decreases |p|
  {
    if q != p {
      ParentsThere(m, Parent(p), q);
    }
  }

  lemma {:induction false} InsertedHas(m: Tree, p: Path, q: Path)
    requires ClosedBut(m, p)
    ensures var r := InsertParents(m, p);
            && (q in r <==> q in m || Under(q, p))
            && (q in r ==> r[q] == if q in m then m[q] else Directory)
    decreases |p|
  {
    if HasParent(p) {
      if Parent(p) in m {
        if Under(q, p) {
          ParentsThere(m, p, q);
        }
      } else {
        assert ClosedBut(m[Parent(p) := Directory], Parent(p));
        InsertedHas(m[Parent(p) := Directory], Parent(p), q);
      }
    }
  }

  /** A new link with its directories. */
  lemma ClosureNext(w: Tree, link: Path, info: Info)
    requires PrefixFree(w) && forall p :: p in w ==> !Under(p, link) && !Under(link, p)
    ensures InsertParents(Closure(w)[link := info], link) == Closure(w[link := info])
    ensures PrefixFree(w[link := info])
  {
    hide Closure, InsertParents;
    var m := Closure(w)[link := info];
    var r, want := InsertParents(m, link), Closure(w[link := info]);
    ClosureWellFormed(w);
    ClosureAt(w, link);
    assert link !in Closure(w);
    forall q ensures (q in r <==> q in want) && (q in r ==> r[q] == want[q]) {
      assert ClosedBut(m, link);
      InsertedHas(m, link, q);
      ClosureAt(w, q);
      ClosureAt(w[link := info], q);
    }
    assert r == want;
  }

  lemma ClosureAt(w: Tree, q: Path)
    ensures q in Closure(w) <==> exists p :: p in w && Under(q, p)
    ensures q in w ==> Under(q, q) && q in Closure(w)
    ensures q in Closure(w) ==> Closure(w)[q] == if q in w then w[q] else Directory
  {
    InAncestors(w.Keys, q);
    assert Under(q, q);
  }

  /** The links so far do not get in the way of the next one. */
  lemma {:induction false} WantedFrom(lines: seq<Line>, useMetadata: bool, n: nat, p: Path)
    requires n <= |lines| && p in Wanted(lines, useMetadata, n)
    ensures exists i :: 0 <= i < n && !Skipped(lines, useMetadata, i) && lines[i][0] == p
  {
    if p !in Wanted(lines, useMetadata, n - 1) {
      assert !Skipped(lines, useMetadata, n - 1) && lines[n - 1][0] == p;
    } else {
      WantedFrom(lines, useMetadata, n - 1, p);
    }
  }

  /** Each line that says something is there with what it says. */
  lemma {:induction false} WantedAt(lines: seq<Line>, useMetadata: bool, n: nat, i: nat)
    requires RulesKept(lines, useMetadata) && i < n <= |lines| && !Skipped(lines, useMetadata, i)
    ensures lines[i][0] in Wanted(lines, useMetadata, n) && Wanted(lines, useMetadata, n)[lines[i][0]] == InfoOf(lines[i])
  {
    if i < n - 1 {
      WantedAt(lines, useMetadata, n - 1, i);
      if !Skipped(lines, useMetadata, n - 1) {
        assert Under(lines[i][0], lines[i][0]);
        assert lines[n - 1][0] != lines[i][0];
      }
    }
  }

  lemma NextApart(lines: seq<Line>, useMetadata: bool, n: nat)
    requires RulesKept(lines, useMetadata) && n < |lines| && !Skipped(lines, useMetadata, n)
    ensures forall p :: p in Wanted(lines, useMetadata, n) ==> !Under(p, lines[n][0]) && !Under(lines[n][0], p)
  {
    forall p | p in Wanted(lines, useMetadata, n) ensures !Under(p, lines[n][0]) && !Under(lines[n][0], p) {
      WantedFrom(lines, useMetadata, n, p);
    }
  }

  lemma OwnFilesApart(lines: seq<Line>, useMetadata: bool)
    requires RulesKept(lines, useMetadata)
    ensures MANIFEST !in Closure(Wanted(lines, useMetadata, |lines|)) && TEMP !in Closure(Wanted(lines, useMetadata, |lines|))
  {
    var w := Wanted(lines, useMetadata, |lines|);
    ClosureAt(w, MANIFEST);
    ClosureAt(w, TEMP);
    forall p | p in w ensures !Under(MANIFEST, p) && !Under(TEMP, p) {
      WantedFrom(lines, useMetadata, |lines|, p);
    }
  }

  /** Adds the directories of one link to the manifest. */
  method AddParents(manifest: Tree, link: Path) returns (r: Tree)
    ensures r == InsertParents(manifest, link)
  {
    r := manifest;
    var p := link;
    while HasParent(p)
      invariant InsertParents(r, p) == InsertParents(manifest, link)
      decreases |p|
    {
      p := Parent(p);
      if p in r {
        return;
      }
      r := r[p := Directory];
    }
  }

  /** Reads the manifest; it is refused exactly if a line does not have the right form. The result is what is wanted with
      all the directories around it, and the tool's own temporary file. */
  method ReadManifest(lines: seq<Line>, allowRelative: bool, useMetadata: bool) returns (ok: bool, manifest: Tree)
    requires Tokens(lines) && RulesKept(lines, useMetadata)
    ensures ok <==> LinesOk(lines, allowRelative, useMetadata, |lines|)
    ensures ok ==> manifest == Closure(Wanted(lines, useMetadata, |lines|))[TEMP := Regular]
    ensures ok ==> PrefixFree(Wanted(lines, useMetadata, |lines|))
  {
    hide Closure, InsertParents, RulesKept, PrefixFree, Under;
    manifest := map[];
    EmptyClosure();
    for n := 0 to |lines|
      invariant LinesOk(lines, allowRelative, useMetadata, n)
      invariant manifest == Closure(Wanted(lines, useMetadata, n)) && PrefixFree(Wanted(lines, useMetadata, n))
    {
      // Metadata lines are for dependency checking only.
      if useMetadata && (n + 1) % 2 == 0 {
        continue;
      }
      if lines[n] == [] {
        continue;
      }
      var link := lines[n][0];
      if link[0] == '/' {
        return false, manifest;
      }
      var target := "";
      if |lines[n]| > 1 {
        target := lines[n][1];
        if |lines[n]| > 2 {
          return false, manifest;
        }
        if !allowRelative && target[0] != '/' {
          return false, manifest;
        }
      }
      var info := if target == "" then Regular else Symlink(target);
      NextApart(lines, useMetadata, n);
      ClosureNext(Wanted(lines, useMetadata, n), link, info);
      manifest := AddParents(manifest[link := info], link);
    }
    manifest := manifest[TEMP := Regular];
    ok := true;
  }

  lemma EmptyClosure()
    ensures Closure(map[]) == map[] && PrefixFree(map[])
  {
  }
}
