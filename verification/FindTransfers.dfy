/** From the files of the two images to a list of transfers. */
module FindTransfers {
  import opened Ranges
  import opened Transfers
  import opened FeedbackArc
  import opened Writer
  import opened Patches
  import opened Splitting
  import opened FilePieces

  /** What the planner asks about file names, and whether it may use imgdiff on two files. */
  datatype Names = Names(basename: string -> string, numberPattern: string -> string, isOdex: string -> bool,
                         isArchive: string -> bool, canUseImgdiff: (string, RangeSet, RangeSet) -> bool)

  type Files = map<string, RangeSet>

  /** The transfers and archives are sound and make up `claimed`. */
  ghost predicate Listed(byId: seq<Transfer>, apks: seq<Apk>, env: Setting, claimed: RangeSet)
    reads set x | x in byId
  {
    Distinct(byId) && Clean(DraftsOf(byId), apks, env) && claimed == Claimed(DraftsOf(byId), apks)
  }

  ghost predicate FileFine(r: RangeSet, img: Image) {
    r != {} && Fits(r, img)
  }

  // What becomes of a file.

  ghost predicate Small(tgt: RangeSet, src: RangeSet, limit: nat) {
    |tgt| <= limit && |src| <= limit
  }

  /** An odex file of unchanged size with more than half of its blocks unchanged. */
  ghost predicate MostlySame(f: string, tgt: RangeSet, src: RangeSet, names: Names, env: Setting)
    requires FileFine(tgt, env.tgt) && FileFine(src, env.src)
  {
    names.isOdex(f) && |tgt| == |src| && 2 * Differing(env, tgt, src, |tgt|) < |tgt|
  }

  /** A file that imgdiff cuts up itself. */
  ghost predicate LargeArchive(f: string, tgt: RangeSet, src: RangeSet, limit: nat, names: Names, env: Setting)
    requires FileFine(tgt, env.tgt) && FileFine(src, env.src)
  {
    && !Small(tgt, src, limit) && names.isArchive(f) && Read(env.tgt, tgt) != Read(env.src, src)
    && names.canUseImgdiff(f, tgt, src)
  }

  /** Part of a file and of its source; if most blocks are the same, of those or of the others. */
  ghost predicate SidesOf(t: RangeSet, s: RangeSet, f: string, tgt: RangeSet, src: RangeSet, names: Names, env: Setting)
    requires FileFine(tgt, env.tgt) && FileFine(src, env.src)
  {
    && t <= tgt && s <= src
    && (MostlySame(f, tgt, src, names, env) ==>
          var (same, was) := Equal(env, tgt, src, |tgt|);
          (t <= same && s <= was) || (t !! same && s !! was))
  }

  /** One of the transfers of a file with the source `src`. Small files stay whole, large archives are left to imgdiff, and
      no other piece is longer than the limit on both sides. */
  ghost predicate DiffOf(d: Draft, f: string, tgt: RangeSet, src: RangeSet, zeroSource: bool, limit: nat, names: Names,
                         env: Setting)
    requires FileFine(tgt, env.tgt) && FileFine(src, env.src)
  {
    && d.style == Diff && SidesOf(d.tgt, d.src, f, tgt, src, names, env)
    && (d.info == None ==> |d.tgt| <= limit || |d.src| <= limit)
    && (d.fromZero <==> zeroSource && Small(tgt, src, limit) && !MostlySame(f, tgt, src, names, env))
    && (!MostlySame(f, tgt, src, names, env) ==>
          if Small(tgt, src, limit) then d.tgt == tgt && d.src == src && d.info == None
          else d.info.Some? <==> LargeArchive(f, tgt, src, limit, names, env))
  }

  ghost predicate ApkOf(a: Apk, f: string, tgt: RangeSet, src: RangeSet, limit: nat, names: Names, env: Setting)
    requires FileFine(tgt, env.tgt) && FileFine(src, env.src)
  {
    && SidesOf(a.tgt, a.src, f, tgt, src, names, env)
    && (!MostlySame(f, tgt, src, names, env) ==> LargeArchive(f, tgt, src, limit, names, env))
  }

  /** No two of the new transfers and archives read the same block of the source. */
  ghost predicate ReadsApart(ds: seq<Draft>, from: nat, apks: seq<Apk>, apksFrom: nat) {
    && SourcesApart(ds, from)
    && (forall k, m :: apksFrom <= k < m < |apks| ==> apks[k].src !! apks[m].src)
    && (forall i, k :: from <= i < |ds| && apksFrom <= k < |apks| ==> ds[i].src !! apks[k].src)
  }

  /** Small files stay whole, large archives are left to imgdiff, and the rest is cut. */
  method AddSplitTransfers(byId: seq<Transfer>, apks: seq<Apk>, name: string, tgt: RangeSet, src: RangeSet,
                           zeroSource: bool, limit: nat, names: Names, env: Setting, ghost claimed: RangeSet)
    returns (byId': seq<Transfer>, apks': seq<Apk>)
    requires Listed(byId, apks, env, claimed) && limit > 0
    requires FileFine(tgt, env.tgt) && FileFine(src, env.src) && tgt !! claimed
    ensures Listed(byId', apks', env, claimed + tgt)
    ensures byId <= byId' && forall i :: |byId| <= i < |byId'| ==> fresh(byId'[i])
    ensures if LargeArchive(name, tgt, src, limit, names, env) then byId' == byId && apks' == apks + [Apk(tgt, src)] else apks' == apks
    ensures SplitInto(DraftsOf(byId'), |byId|, tgt, src, zeroSource, limit)
  {
    hide Read, Clean, Claimed, DraftsOf, FullPieces, ApkFine, Grown, Rest, SourcesApart, PartOf;
    byId', apks' := byId, apks;
    ghost var ds := DraftsOf(byId);
    NothingNew(ds, tgt, src, zeroSource, limit);
    if |tgt| <= limit && |src| <= limit {
      byId' := NewTransfer(byId, apks, tgt, src, Diff, zeroSource, env);
      GrownParts(byId, ds, byId');
      WholeInto(DraftsOf(byId'), |byId|, tgt, src, zeroSource, limit);
    } else if names.isArchive(name) && Read(env.tgt, tgt) != Read(env.src, src) && names.canUseImgdiff(name, tgt, src) {
      ApkIsFine(Apk(tgt, src), env);
      AddApk(ds, apks, env, Apk(tgt, src));
      apks' := apks + [Apk(tgt, src)];
    } else {
      byId' := AddSplitTransfersWithFixedSizeChunks(byId, apks, tgt, src, limit, env);
      GrownParts(byId, ds, byId');
      PiecesApart(DraftsOf(byId'), |byId|, tgt, src, limit);
      AllNew(byId', |byId|);
    }
  }

  /** The transfers from `from` on are parts of the two ranges with sources apart; of short ranges there is only the whole. */
  ghost predicate SplitInto(ds: seq<Draft>, from: nat, tgt: RangeSet, src: RangeSet, zeroSource: bool, limit: nat) {
    && SourcesApart(ds, from)
    && (forall i :: from <= i < |ds| ==>
          && PartOf(ds[i], tgt, src, limit) && (ds[i].fromZero <==> zeroSource && Small(tgt, src, limit))
          && (Small(tgt, src, limit) ==> ds[i].tgt == tgt && ds[i].src == src))
  }

  lemma NothingNew(ds: seq<Draft>, tgt: RangeSet, src: RangeSet, zeroSource: bool, limit: nat)
    ensures SplitInto(ds, |ds|, tgt, src, zeroSource, limit)
  {
  }

  lemma WholeInto(ds: seq<Draft>, from: nat, tgt: RangeSet, src: RangeSet, zeroSource: bool, limit: nat)
    requires |ds| == from + 1 && ds[from].tgt == tgt && ds[from].src == src && ds[from].style == Diff && ds[from].info == None
    requires Small(tgt, src, limit) && ds[from].fromZero == zeroSource
    ensures SplitInto(ds, from, tgt, src, zeroSource, limit)
  {
  }

  twostate lemma AllNew(new byId: seq<Transfer>, n: nat)
    requires FreshFrom(byId, n)
    ensures forall i :: n <= i < |byId| ==> fresh(byId[i])
  {
  }

  lemma ApkIsFine(a: Apk, env: Setting)
    requires FileFine(a.tgt, env.tgt) && FileFine(a.src, env.src)
    ensures ApkFine(a, env)
  {
  }

  /** What is new all belongs to this file. */
  ghost predicate AllOf(ds: seq<Draft>, from: nat, apks: seq<Apk>, apksFrom: nat, f: string, tgt: RangeSet, src: RangeSet,
                        zeroSource: bool, limit: nat, names: Names, env: Setting)
    requires FileFine(tgt, env.tgt) && FileFine(src, env.src)
  {
    && ReadsApart(ds, from, apks, apksFrom)
    && (forall i :: from <= i < |ds| ==> ds[i].info == None && DiffOf(ds[i], f, tgt, src, zeroSource, limit, names, env))
    && (forall k :: apksFrom <= k < |apks| ==> ApkOf(apks[k], f, tgt, src, limit, names, env))
  }

  lemma OneSide(ds: seq<Draft>, from: nat, apks: seq<Apk>, apks': seq<Apk>, f: string, tgt: RangeSet, src: RangeSet,
                zeroSource: bool, limit: nat, names: Names, env: Setting)
    requires FileFine(tgt, env.tgt) && FileFine(src, env.src) && !MostlySame(f, tgt, src, names, env) && from <= |ds|
    requires SplitInto(ds, from, tgt, src, zeroSource, limit)
    requires if LargeArchive(f, tgt, src, limit, names, env) then |ds| == from && apks' == apks + [Apk(tgt, src)] else apks' == apks
    ensures AllOf(ds, from, apks', |apks|, f, tgt, src, zeroSource, limit, names, env)
  {
    hide Read;
  }

  lemma BothSides(ds: seq<Draft>, from: nat, ds': seq<Draft>, apks: seq<Apk>, mid: seq<Apk>, apks': seq<Apk>, f: string,
                  tgt: RangeSet, src: RangeSet, same: RangeSet, was: RangeSet, zeroSource: bool, limit: nat, names: Names, env: Setting)
    requires FileFine(tgt, env.tgt) && FileFine(src, env.src) && MostlySame(f, tgt, src, names, env)
    requires (same, was) == Equal(env, tgt, src, |tgt|) && same <= tgt && was <= src
    requires from <= |ds| <= |ds'| && ds'[..|ds|] == ds && SplitInto(ds, from, same, was, false, limit)
    requires SplitInto(ds', |ds|, tgt - same, src - was, false, limit)
    requires mid == apks || (mid == apks + [Apk(same, was)] && |ds| == from)
    requires apks' == mid || (apks' == mid + [Apk(tgt - same, src - was)] && |ds'| == |ds|)
    ensures AllOf(ds', from, apks', |apks|, f, tgt, src, zeroSource, limit, names, env)
  {
    hide Equal, Differing, Read, LargeArchive;
    forall i | from <= i < |ds| ensures ds'[i] == ds[i] {
      assert ds'[..|ds|][i] == ds'[i];
    }
    var rest := src - was;
    forall i | from <= i < |ds'|
      ensures PartOf(ds'[i], if i < |ds| then same else tgt - same, if i < |ds| then was else rest, limit)
      ensures DiffOf(ds'[i], f, tgt, src, zeroSource, limit, names, env) && ds'[i].info == None
    {
    }
    forall k | |apks| <= k < |apks'|
      ensures apks'[k] == if k < |mid| then Apk(same, was) else Apk(tgt - same, rest)
      ensures ApkOf(apks'[k], f, tgt, src, limit, names, env)
    {
    }
    assert SourcesApart(ds', from) by {
      forall i, j | from <= i < j < |ds'| ensures ds'[i].src !! ds'[j].src {
      }
    }
    forall i, k | from <= i < |ds'| && |apks| <= k < |apks'| ensures ds'[i].src !! apks'[k].src {
      assert (i < |ds|) != (k < |mid|);
    }
  }

  /** A file that has a source; an odex file of unchanged size may have its equal blocks taken out first. */
  method AddDiffTransfer(byId: seq<Transfer>, apks: seq<Apk>, name: string, tgt: RangeSet, src: RangeSet,
                         zeroSource: bool, limit: nat, names: Names, env: Setting, ghost claimed: RangeSet)
    returns (byId': seq<Transfer>, apks': seq<Apk>)
    requires Listed(byId, apks, env, claimed) && limit > 0
    requires FileFine(tgt, env.tgt) && FileFine(src, env.src) && tgt !! claimed
    ensures Listed(byId', apks', env, claimed + tgt)
    ensures byId <= byId' && forall i :: |byId| <= i < |byId'| ==> fresh(byId'[i])
    ensures apks <= apks' && AllOf(DraftsOf(byId'), |byId|, apks', |apks|, name, tgt, src, zeroSource, limit, names, env)
  {
    hide Listed, Differing, Equal, SplitInto, AllOf, LargeArchive, DraftsOf;
    byId', apks' := byId, apks;
    var tgtLeft, srcLeft, file, fromZero := tgt, src, name, zeroSource;
    ghost var now, same, was := claimed, {}, {};
    var cropped := false;
    if names.isOdex(name) && |tgt| == |src| {
      var tgtSkipped, srcSkipped;
      cropped, tgtSkipped, srcSkipped := CropEqual(tgt, src, env);
      if cropped {
        byId', apks' := AddSplitTransfers(byId, apks, name + "-skipped", tgtSkipped, srcSkipped, false, limit,
                                          names, env, claimed);
        file, fromZero := name + "-cropped", false;
        tgtLeft, srcLeft := tgt - tgtSkipped, src - srcSkipped;
        CropRest(tgt, src, tgtSkipped, srcSkipped, claimed);
        now, same, was := claimed + tgtSkipped, tgtSkipped, srcSkipped;
        if tgtLeft == {} {
          SameDrafts(byId, byId');
          NothingNew(DraftsOf(byId'), tgtLeft, srcLeft, false, limit);
          BothSides(DraftsOf(byId'), |byId|, DraftsOf(byId'), apks, apks', apks', name, tgt, src, same, was, zeroSource, limit, names, env);
          return;
        }
      }
    }
    ghost var mid, apksMid := byId', apks';
    byId', apks' := AddSplitTransfers(byId', apks', file, tgtLeft, srcLeft, fromZero, limit, names, env, now);
    PrefixOfPrefix(byId, mid, byId');
    SameDrafts(mid, byId');
    if cropped {
      BothSides(DraftsOf(mid), |byId|, DraftsOf(byId'), apks, apksMid, apks', name, tgt, src, same, was, zeroSource, limit, names, env);
    } else {
      OneSide(DraftsOf(byId'), |byId|, apks, apks', name, tgt, src, zeroSource, limit, names, env);
    }
  }

  lemma SameDrafts(mid: seq<Transfer>, byId: seq<Transfer>)
    requires mid <= byId
    ensures |DraftsOf(mid)| == |mid| <= |DraftsOf(byId)| == |byId| && DraftsOf(byId)[..|mid|] == DraftsOf(mid)
  {
  }

  lemma PrefixOfPrefix(a: seq<Transfer>, b: seq<Transfer>, c: seq<Transfer>)
    requires |a| <= |b| <= |c| && b[..|a|] == a && c[..|b|] == b
    ensures c[..|a|] == a && forall i :: 0 <= i < |b| ==> c[i] == b[i]
  {
    forall i | 0 <= i < |b| ensures c[i] == b[i] {
      assert c[..|b|][i] == c[i];
    }
    assert c[..|a|] == b[..|a|];
  }

  lemma CropRest(tgt: RangeSet, src: RangeSet, tgtSkipped: RangeSet, srcSkipped: RangeSet, claimed: RangeSet)
    requires tgtSkipped <= tgt && srcSkipped <= src && |tgtSkipped| == |srcSkipped| && |tgt| == |src| && tgt !! claimed
    ensures tgt - tgtSkipped == {} <==> src - srcSkipped == {}
    ensures tgt - tgtSkipped !! claimed + tgtSkipped
    ensures claimed + tgtSkipped + (tgt - tgtSkipped) == claimed + tgt
    ensures tgt - tgtSkipped == {} ==> claimed + tgtSkipped == claimed + tgt
  {
    RestSize(tgt, tgtSkipped);
    RestSize(src, srcSkipped);
    RestJoins(tgt, tgtSkipped, claimed);
  }

  lemma RestSize(all: RangeSet, skipped: RangeSet)
    requires skipped <= all
    ensures |all - skipped| == |all| - |skipped|
  {
    assert skipped + (all - skipped) == all;
  }

  lemma RestJoins(tgt: RangeSet, tgtSkipped: RangeSet, claimed: RangeSet)
    requires tgtSkipped <= tgt && tgt !! claimed
    ensures tgt - tgtSkipped !! claimed + tgtSkipped
    ensures claimed + tgtSkipped + (tgt - tgtSkipped) == claimed + tgt
    ensures tgt - tgtSkipped == {} ==> claimed + tgtSkipped == claimed + tgt
  {
    assert tgtSkipped + (tgt - tgtSkipped) == tgt;
  }

  // Finding a source for each file.

  /** Every source file is found under its base name and its number pattern, and nothing else is. */
  ghost predicate Indexed(basenames: map<string, string>, patterns: map<string, string>, srcFiles: Files, names: Names) {
    && (forall b :: b in basenames ==> basenames[b] in srcFiles && names.basename(basenames[b]) == b)
    && (forall n :: n in patterns ==> patterns[n] in srcFiles && names.numberPattern(names.basename(patterns[n])) == n)
    && (forall k :: k in srcFiles ==> names.basename(k) in basenames && names.numberPattern(names.basename(k)) in patterns)
  }

  /** The source files by base name and by number pattern; if several share one, any of them. */
  method AbbreviateSourceNames(srcFiles: Files, names: Names)
    returns (basenames: map<string, string>, patterns: map<string, string>)
    ensures Indexed(basenames, patterns, srcFiles, names)
  {
    basenames, patterns := map[], map[];
    var todo := srcFiles.Keys;
    while todo != {}
      invariant todo <= srcFiles.Keys
      invariant forall b :: b in basenames ==> basenames[b] in srcFiles && names.basename(basenames[b]) == b
      invariant forall n :: n in patterns ==> patterns[n] in srcFiles && names.numberPattern(names.basename(patterns[n])) == n
      invariant forall k :: k in srcFiles && k !in todo ==>
                  names.basename(k) in basenames && names.numberPattern(names.basename(k)) in patterns
      decreases |todo|
    {
      var k :| k in todo;
      var b := names.basename(k);
      basenames := basenames[b := k];
      patterns := patterns[names.numberPattern(b) := k];
      todo := todo - {k};
    }
  }

  /** The files of both images are sound, and zero files hold nothing but zeros. */
  ghost predicate FilesFine(tgtFiles: Files, srcFiles: Files, env: Setting) {
    && (forall f :: f in tgtFiles ==> FileFine(tgtFiles[f], env.tgt))
    && (forall f :: f in srcFiles ==> FileFine(srcFiles[f], env.src))
    && (forall f, g :: f in tgtFiles && g in tgtFiles && f != g ==> tgtFiles[f] !! tgtFiles[g])
    && ZeroFine(tgtFiles, env.tgt) && ZeroFine(srcFiles, env.src)
  }

  ghost predicate ZeroFine(files: Files, img: Image) {
    "__ZERO" in files ==> Fits(files["__ZERO"], img) && AllZero(img, files["__ZERO"])
  }

  lemma ZeroFits(files: Files, img: Image)
    requires ZeroFine(files, img)
    ensures "__ZERO" in files ==> Fits(files["__ZERO"], img) && AllZero(img, files["__ZERO"])
  {
  }

  /** The blocks of some of the files; hash tree blocks are computed on the device and left out. */
  ghost function BlocksOf(files: Files, keys: set<string>): RangeSet {
    set f, b | f in keys && f in files && f != "__HASHTREE" && b in files[f] :: b
  }

  lemma BlocksNext(files: Files, keys: set<string>, f: string)
    requires f in files && forall g :: g in files && g != f ==> files[f] !! files[g]
    requires f !in keys
    ensures f != "__HASHTREE" ==> files[f] !! BlocksOf(files, keys)
    ensures BlocksOf(files, keys + {f}) == BlocksOf(files, keys) + (if f == "__HASHTREE" then {} else files[f])
  {
  }

  lemma BlocksNone(files: Files)
    ensures BlocksOf(files, {}) == {}
  {
  }

  lemma FileAt(tgtFiles: Files, srcFiles: Files, env: Setting, f: string)
    requires FilesFine(tgtFiles, srcFiles, env) && f in tgtFiles
    ensures FileFine(tgtFiles[f], env.tgt) && (f == "__ZERO" ==> AllZero(env.tgt, tgtFiles[f]))
    ensures forall g :: g in tgtFiles && g != f ==> tgtFiles[f] !! tgtFiles[g]
    ensures forall g :: g in srcFiles ==> FileFine(srcFiles[g], env.src)
    ensures ZeroFine(srcFiles, env.src)
  {
  }

  /** The source of a file: the one of the same name; else one of the same base name, if there is any; else one of the same
      number pattern. There is none exactly if all three miss. */
  ghost predicate SourceOf(f: string, source: Option<string>, srcFiles: Files, names: Names) {
    match source
    case Some(g) =>
      && g in srcFiles
      && if f in srcFiles then g == f
         else if exists h :: h in srcFiles && names.basename(h) == names.basename(f) then names.basename(g) == names.basename(f)
         else names.numberPattern(names.basename(g)) == names.numberPattern(names.basename(f))
    case None =>
      forall g :: g in srcFiles ==>
        && g != f && names.basename(g) != names.basename(f)
        && names.numberPattern(names.basename(g)) != names.numberPattern(names.basename(f))
  }

  method SourceOfFile(f: string, srcFiles: Files, basenames: map<string, string>, patterns: map<string, string>, names: Names)
    returns (r: Option<string>)
    requires Indexed(basenames, patterns, srcFiles, names)
    ensures SourceOf(f, r, srcFiles, names)
  {
    var b := names.basename(f);
    var n := names.numberPattern(b);
    if f in srcFiles {
      r := Some(f);
    } else if b in basenames {
      r := Some(basenames[b]);
    } else if n in patterns {
      r := Some(patterns[n]);
    } else {
      r := None;
    }
  }

  /** One transfer that is not a diff. */
  method AddPlain(byId: seq<Transfer>, ghost apks: seq<Apk>, tgt: RangeSet, src: RangeSet, style: Style, env: Setting,
                  ghost claimed: RangeSet)
    returns (byId': seq<Transfer>)
    requires Listed(byId, apks, env, claimed) && FileFine(tgt, env.tgt) && Fits(src, env.src) && tgt !! claimed
    requires (style == New && src == {}) || (style == Zero && AllZero(env.tgt, tgt) && AllZero(env.src, src))
    ensures Listed(byId', apks, env, claimed + tgt)
    ensures byId <= byId' && forall i :: |byId| <= i < |byId'| ==> fresh(byId'[i])
    ensures |byId'| == |byId| + 1 && DraftsOf(byId')[|byId|] == Draft(tgt, src, style, Read(env.tgt, tgt), Read(env.src, src), None, style == Zero)
  {
    hide Read, Clean, Claimed, DraftsOf, Grown, AllZero;
    byId' := NewTransfer(byId, apks, tgt, src, style, style == Zero, env);
    GrownParts(byId, old(DraftsOf(byId)), byId');
  }

  /** A transfer of one file. The zero blocks make a zero transfer, the blocks to be copied a new one, as does every other
      file without a source; all others are diffs. */
  ghost predicate FileDraft(d: Draft, f: string, tgt: RangeSet, source: Option<string>, srcFiles: Files, limit: nat, names: Names,
                            env: Setting)
    requires FileFine(tgt, env.tgt) && forall g :: g in srcFiles ==> FileFine(srcFiles[g], env.src)
  {
    if f == "__ZERO" then d.style == Zero && d.fromZero && d.tgt == tgt && d.src == (if f in srcFiles then srcFiles[f] else {})
    else if f == "__COPY" then d.style == New && !d.fromZero && d.tgt == tgt && d.src == {}
    else if f == "__HASHTREE" then false
    else
      match source
      case None => d.style == New && !d.fromZero && d.tgt == tgt && d.src == {}
      case Some(g) => g in srcFiles && DiffOf(d, f, tgt, srcFiles[g], g == "__ZERO", limit, names, env)
  }

  ghost predicate Ordinary(f: string) {
    f != "__ZERO" && f != "__COPY" && f != "__HASHTREE"
  }

  ghost predicate FileApk(a: Apk, f: string, tgt: RangeSet, source: Option<string>, srcFiles: Files, limit: nat, names: Names,
                          env: Setting)
    requires FileFine(tgt, env.tgt) && forall g :: g in srcFiles ==> FileFine(srcFiles[g], env.src)
  {
    Ordinary(f) && source.Some? && source.value in srcFiles && ApkOf(a, f, tgt, srcFiles[source.value], limit, names, env)
  }

  ghost predicate FileParts(ds: seq<Draft>, from: nat, apks: seq<Apk>, apksFrom: nat, f: string, tgt: RangeSet,
                            source: Option<string>, srcFiles: Files, limit: nat, names: Names, env: Setting)
    requires FileFine(tgt, env.tgt) && forall g :: g in srcFiles ==> FileFine(srcFiles[g], env.src)
  {
    && ReadsApart(ds, from, apks, apksFrom)
    && (forall i :: from <= i < |ds| ==> ds[i].info == None && FileDraft(ds[i], f, tgt, source, srcFiles, limit, names, env))
    && (forall k :: apksFrom <= k < |apks| ==> FileApk(apks[k], f, tgt, source, srcFiles, limit, names, env))
  }

  lemma DiffParts(ds: seq<Draft>, from: nat, apks: seq<Apk>, apksFrom: nat, f: string, tgt: RangeSet, source: Option<string>,
                  srcFiles: Files, limit: nat, names: Names, env: Setting)
    requires FileFine(tgt, env.tgt) && forall g :: g in srcFiles ==> FileFine(srcFiles[g], env.src)
    requires Ordinary(f) && source.Some? && source.value in srcFiles
    requires AllOf(ds, from, apks, apksFrom, f, tgt, srcFiles[source.value], source.value == "__ZERO", limit, names, env)
    ensures FileParts(ds, from, apks, apksFrom, f, tgt, source, srcFiles, limit, names, env)
  {
    hide DiffOf, ApkOf;
  }

  lemma PlainParts(ds: seq<Draft>, from: nat, apks: seq<Apk>, f: string, tgt: RangeSet, source: Option<string>,
                   srcFiles: Files, limit: nat, names: Names, env: Setting)
    requires FileFine(tgt, env.tgt) && forall g :: g in srcFiles ==> FileFine(srcFiles[g], env.src)
    requires from <= |ds| <= from + 1
    requires |ds| == from + 1 ==> ds[from].info == None && FileDraft(ds[from], f, tgt, source, srcFiles, limit, names, env)
    ensures FileParts(ds, from, apks, |apks|, f, tgt, source, srcFiles, limit, names, env)
  {
    hide FileDraft;
  }

  /** The transfers of one file of the target. */
  method AddFile(byId: seq<Transfer>, apks: seq<Apk>, f: string, tgt: RangeSet, srcFiles: Files,
                 basenames: map<string, string>, patterns: map<string, string>, limit: nat, names: Names, env: Setting,
                 ghost claimed: RangeSet)
    returns (byId': seq<Transfer>, apks': seq<Apk>, ghost source: Option<string>)
    requires Listed(byId, apks, env, claimed) && limit > 0 && Indexed(basenames, patterns, srcFiles, names)
    requires FileFine(tgt, env.tgt) && (f == "__ZERO" ==> AllZero(env.tgt, tgt)) && (f != "__HASHTREE" ==> tgt !! claimed)
    requires forall g :: g in srcFiles ==> FileFine(srcFiles[g], env.src)
    requires ZeroFine(srcFiles, env.src)
    ensures Listed(byId', apks', env, claimed + (if f == "__HASHTREE" then {} else tgt))
    ensures byId <= byId' && forall i :: |byId| <= i < |byId'| ==> fresh(byId'[i])
    ensures apks <= apks' && FileParts(DraftsOf(byId'), |byId|, apks', |apks|, f, tgt, source, srcFiles, limit, names, env)
    ensures Ordinary(f) ==> SourceOf(f, source, srcFiles, names)
  {
    hide Listed, AllZero, FileFine, ZeroFine, DraftsOf, AllOf, FileParts, DiffOf, SourceOf, Indexed, Read;
    ZeroFits(srcFiles, env.src);
    byId', apks', source := byId, apks, None;
    assert claimed + {} == claimed;
    if f == "__ZERO" {
      var src: RangeSet := if f in srcFiles then srcFiles[f] else {};
      NoZero(env.src);
      byId' := AddPlain(byId, apks, tgt, src, Zero, env, claimed);
    } else if f == "__COPY" {
      byId' := AddPlain(byId, apks, tgt, {}, New, env, claimed);
    } else if f != "__HASHTREE" {
      var found := SourceOfFile(f, srcFiles, basenames, patterns, names);
      source := found;
      SourceThere(f, source, srcFiles, names);
      if found.Some? {
        byId', apks' := AddDiffTransfer(byId, apks, f, tgt, srcFiles[found.value], found.value == "__ZERO", limit,
                                        names, env, claimed);
        DiffParts(DraftsOf(byId'), |byId|, apks', |apks|, f, tgt, source, srcFiles, limit, names, env);
        return;
      }
      byId' := AddPlain(byId, apks, tgt, {}, New, env, claimed);
    }
    PlainParts(DraftsOf(byId'), |byId|, apks, f, tgt, source, srcFiles, limit, names, env);
  }

  lemma SourceThere(f: string, source: Option<string>, srcFiles: Files, names: Names)
    requires SourceOf(f, source, srcFiles, names)
    ensures source.Some? ==> source.value in srcFiles
  {
  }

  lemma NoZero(img: Image)
    ensures Fits({}, img) && AllZero(img, {})
  {
  }

  // Large archives.

  lemma DropApk(ds: seq<Draft>, apks: seq<Apk>, env: Setting)
    requires Clean(ds, apks, env) && apks != []
    ensures Clean(ds, apks[1..], env) && ApkFine(apks[0], env)
    ensures apks[0].tgt !! Claimed(ds, apks[1..]) && Claimed(ds, apks) == Claimed(ds, apks[1..]) + apks[0].tgt
  {
    hide Union, Apart, Fine;
    assert ApkTgts(apks)[1..] == ApkTgts(apks[1..]);
    HeadPart(ApkTgts(apks));
  }

  lemma DropListed(byId: seq<Transfer>, apks: seq<Apk>, env: Setting, claimed: RangeSet) returns (rest: RangeSet)
    requires Listed(byId, apks, env, claimed) && apks != []
    ensures Listed(byId, apks[1..], env, rest) && apks[0].tgt !! rest && claimed == rest + apks[0].tgt
    ensures ApkFine(apks[0], env)
  {
    hide Clean, Claimed;
    DropApk(DraftsOf(byId), apks, env);
    rest := Claimed(DraftsOf(byId), apks[1..]);
  }

  lemma PatchedFine(d: Draft, env: Setting, patch: Patch, x: Piece)
    requires PieceSound(env, patch, x)
    requires d == Draft(x.tgt, x.src, Diff, Read(env.tgt, x.tgt), Read(env.src, x.src),
                        Some(PatchInfo(true, patch[x.patchStart..x.patchStart + x.patchLen])), false)
    ensures Fine(d, env.src, env.tgt, env.tool)
  {
  }

  lemma PieceParts(env: Setting, patch: Patch, x: Piece)
    requires PieceSound(env, patch, x)
    ensures Fits(x.tgt, env.tgt) && Fits(x.src, env.src) && x.patchStart + x.patchLen <= |patch|
  {
  }

  /** A diff that comes with a patch by imgdiff, somewhere in these ranges. */
  ghost predicate IsPiece(d: Draft, tgt: RangeSet, src: RangeSet) {
    d.style == Diff && !d.fromZero && d.info.Some? && d.info.value.imgdiff && d.tgt <= tgt && d.src <= src
  }

  lemma PieceWithin(info: SplitInfo, tgt: RangeSet, src: RangeSet, i: nat)
    requires i < |info.lines|
    ensures PiecesOf(info, tgt, src)[i].tgt <= tgt && PiecesOf(info, tgt, src)[i].src <= src
  {
    var parts := SlicesOf(src, info.lines[i].srcRanges);
    forall b | b in Union(parts) ensures b in src {
      UnionMember(parts, b);
    }
  }

  /** One piece of a large archive, with the patch imgdiff has already made for it. */
  method AddSplitPiece(byId: seq<Transfer>, ghost apks: seq<Apk>, x: Piece, patch: Patch, env: Setting,
                       ghost claimed: RangeSet)
    returns (byId': seq<Transfer>)
    requires Listed(byId, apks, env, claimed) && PieceSound(env, patch, x) && x.tgt !! claimed
    ensures Listed(byId', apks, env, claimed + x.tgt) && |byId'| == |byId| + 1
    ensures byId' == byId + [byId'[|byId|]] && fresh(byId'[|byId|])
    ensures IsPiece(DraftOf(byId'[|byId|]), x.tgt, x.src)
  {
    hide Read, Clean, Claimed, Fine, PieceSound;
    PieceParts(env, patch, x);
    ghost var d := Draft(x.tgt, x.src, Diff, Read(env.tgt, x.tgt), Read(env.src, x.src),
                         Some(PatchInfo(true, patch[x.patchStart..x.patchStart + x.patchLen])), false);
    PatchedFine(d, env, patch, x);
    ghost var ds := DraftsOf(byId);
    AddDraft(ds, apks, env, d);
    var t := new Transfer(|byId|, x.tgt, x.src, Read(env.tgt, x.tgt), Read(env.src, x.src), Diff, false);
    assert t.style == Diff;
    t.patchInfo := Some(PatchInfo(true, patch[x.patchStart..x.patchStart + x.patchLen]));
    byId' := byId + [t];
    assert t !in byId;
    assert DraftOf(t) == d;
    assert DraftsOf(byId') == ds + [d];
  }

  lemma PieceOf(env: Setting, tgt: RangeSet, src: RangeSet, patch: Patch, info: SplitInfo)
    requires SplitterSound(env) && tgt != {} && src != {} && Fits(tgt, env.tgt) && Fits(src, env.src)
    requires (patch, info) == env.split(tgt, src)
    ensures SplitValid(info, |patch|, tgt, src)
    ensures forall i :: 0 <= i < |info.lines| ==> PieceSound(env, patch, PiecesOf(info, tgt, src)[i])
  {
  }

  lemma PieceApart(pieces: seq<Piece>, n: nat, rest: RangeSet, tgt: RangeSet)
    requires n < |pieces| && Apart(TgtsOf(pieces)) && Union(TgtsOf(pieces)) == tgt && tgt !! rest
    ensures pieces[n].tgt !! rest + Union(TgtsOf(pieces)[..n])
    ensures rest + Union(TgtsOf(pieces)[..n]) + pieces[n].tgt == rest + Union(TgtsOf(pieces)[..n + 1])
  {
    var t := TgtsOf(pieces);
    AppendPart(t[..n], t[n]);
    assert t[..n] + [t[n]] == t[..n + 1];
    if !Apart(t[..n + 1]) { ApartPrefix(t, n + 1); }
    forall b | b in t[n] ensures b in tgt {
      UnionMember(t, b);
    }
  }

  /** Splits one archive as imgdiff says. */
  method SplitApk(byId: seq<Transfer>, ghost apks: seq<Apk>, a: Apk, env: Setting, ghost rest: RangeSet)
    returns (byId': seq<Transfer>)
    requires SplitterSound(env) && Listed(byId, apks, env, rest) && ApkFine(a, env) && a.tgt !! rest
    ensures Listed(byId', apks, env, rest + a.tgt)
    ensures byId <= byId' && forall i :: |byId| <= i < |byId'| ==> fresh(byId'[i])
    ensures forall i :: |byId| <= i < |byId'| ==> IsPiece(DraftOf(byId'[i]), a.tgt, a.src)
  {
    hide Listed, SplitterSound, PieceSound, PiecesOf, SplitValid, Union, Apart, TgtsOf;
    var (patch, info) := env.split(a.tgt, a.src);
    PieceOf(env, a.tgt, a.src, patch, info);
    var pieces := ParseAndValidateSplitInfo(|patch|, a.tgt, a.src, info);
    assert pieces.Some?;
    PiecesCover(info, |patch|, a.tgt, a.src);
    byId' := byId;
    NoUnion(TgtsOf(pieces.value), rest);
    for n := 0 to |pieces.value|
      invariant Listed(byId', apks, env, rest + Union(TgtsOf(pieces.value)[..n]))
      invariant byId <= byId' && forall i :: |byId| <= i < |byId'| ==> fresh(byId'[i])
      invariant forall i :: |byId| <= i < |byId'| ==> IsPiece(DraftOf(byId'[i]), a.tgt, a.src)
    {
      PieceWithin(info, a.tgt, a.src, n);
      PieceApart(pieces.value, n, rest, a.tgt);
      byId' := AddSplitPiece(byId', apks, pieces.value[n], patch, env, rest + Union(TgtsOf(pieces.value)[..n]));
    }
    WholePrefix(TgtsOf(pieces.value));
  }

  lemma NoUnion(t: seq<RangeSet>, rest: RangeSet)
    ensures rest + Union(t[..0]) == rest
  {
  }

  // Who the transfers belong to.

  /** Each transfer and each archive belongs to a file of the target and is what becomes of it, given the source of the file.
      Sources of transfers of one file do not meet, unless imgdiff has cut both. */
  ghost predicate Owned(ds: seq<Draft>, apks: seq<Apk>, owner: seq<string>, apkOwner: seq<string>, sources: map<string, Option<string>>,
                        tgtFiles: Files, srcFiles: Files, limit: nat, names: Names, env: Setting)
    requires FilesFine(tgtFiles, srcFiles, env)
  {
    && |owner| == |ds| && |apkOwner| == |apks|
    && (forall i :: 0 <= i < |ds| ==>
          && owner[i] in tgtFiles && owner[i] in sources
          && FileDraft(ds[i], owner[i], tgtFiles[owner[i]], sources[owner[i]], srcFiles, limit, names, env))
    && (forall k :: 0 <= k < |apks| ==>
          && apkOwner[k] in tgtFiles && apkOwner[k] in sources
          && FileApk(apks[k], apkOwner[k], tgtFiles[apkOwner[k]], sources[apkOwner[k]], srcFiles, limit, names, env))
    && (forall i, j :: 0 <= i < j < |ds| && owner[i] == owner[j] && !(ds[i].info.Some? && ds[j].info.Some?) ==> ds[i].src !! ds[j].src)
    && (forall k, m :: 0 <= k < m < |apks| && apkOwner[k] == apkOwner[m] ==> apks[k].src !! apks[m].src)
    && (forall i, k :: 0 <= i < |ds| && 0 <= k < |apks| && owner[i] == apkOwner[k] ==> ds[i].src !! apks[k].src)
    && (forall f :: f in sources && Ordinary(f) ==> SourceOf(f, sources[f], srcFiles, names))
  }

  ghost predicate OwnedBy(owner: seq<string>, apkOwner: seq<string>, sources: map<string, Option<string>>, done: set<string>) {
    && (forall i :: 0 <= i < |owner| ==> owner[i] in done) && (forall k :: 0 <= k < |apkOwner| ==> apkOwner[k] in done)
    && sources.Keys == done
  }

  ghost function Times(n: nat, f: string): (r: seq<string>)
    ensures |r| == n && forall i :: 0 <= i < n ==> r[i] == f
  {
    seq(n, _ => f)
  }

  lemma OwnedNone(tgtFiles: Files, srcFiles: Files, limit: nat, names: Names, env: Setting)
    requires FilesFine(tgtFiles, srcFiles, env)
    ensures Owned([], [], [], [], map[], tgtFiles, srcFiles, limit, names, env) && OwnedBy([], [], map[], {})
  {
  }

  lemma OwnedNext(ds: seq<Draft>, apks: seq<Apk>, owner: seq<string>, apkOwner: seq<string>, sources: map<string, Option<string>>,
                  done: set<string>, ds': seq<Draft>, apks': seq<Apk>, f: string, source: Option<string>,
                  tgtFiles: Files, srcFiles: Files, limit: nat, names: Names, env: Setting)
    requires FilesFine(tgtFiles, srcFiles, env) && f in tgtFiles && f !in done && |ds| <= |ds'| && ds'[..|ds|] == ds && apks <= apks'
    requires Owned(ds, apks, owner, apkOwner, sources, tgtFiles, srcFiles, limit, names, env) && OwnedBy(owner, apkOwner, sources, done)
    requires FileParts(ds', |ds|, apks', |apks|, f, tgtFiles[f], source, srcFiles, limit, names, env)
    requires Ordinary(f) ==> SourceOf(f, source, srcFiles, names)
    ensures var owner', apkOwner' := owner + Times(|ds'| - |ds|, f), apkOwner + Times(|apks'| - |apks|, f);
            && Owned(ds', apks', owner', apkOwner', sources[f := source], tgtFiles, srcFiles, limit, names, env)
            && OwnedBy(owner', apkOwner', sources[f := source], done + {f})
  {
    hide FileDraft, FileApk, FilesFine, SourceOf, Ordinary;
    var owner', apkOwner' := owner + Times(|ds'| - |ds|, f), apkOwner + Times(|apks'| - |apks|, f);
    forall i | 0 <= i < |ds| ensures ds'[i] == ds[i] && owner'[i] == owner[i] && owner[i] != f {
      assert ds'[..|ds|][i] == ds'[i];
    }
    forall k | 0 <= k < |apks| ensures apks'[k] == apks[k] && apkOwner'[k] == apkOwner[k] && apkOwner[k] != f {
    }
    forall i, j | 0 <= i < j < |ds'| && owner'[i] == owner'[j] && !(ds'[i].info.Some? && ds'[j].info.Some?)
      ensures ds'[i].src !! ds'[j].src
    {
      assert j < |ds| || i >= |ds|;
    }
  }

  /** A piece of an archive is what becomes of its file. */
  lemma PieceDraft(d: Draft, a: Apk, f: string, tgt: RangeSet, source: Option<string>, srcFiles: Files, limit: nat, names: Names,
                   env: Setting)
    requires FileFine(tgt, env.tgt) && forall g :: g in srcFiles ==> FileFine(srcFiles[g], env.src)
    requires FileApk(a, f, tgt, source, srcFiles, limit, names, env) && IsPiece(d, a.tgt, a.src)
    ensures FileDraft(d, f, tgt, source, srcFiles, limit, names, env)
  {
    hide MostlySame, Equal, Read;
  }

  lemma OwnedSplit(ds: seq<Draft>, apks: seq<Apk>, owner: seq<string>, apkOwner: seq<string>, sources: map<string, Option<string>>,
                   ds': seq<Draft>, tgtFiles: Files, srcFiles: Files, limit: nat, names: Names, env: Setting)
    requires FilesFine(tgtFiles, srcFiles, env) && |ds| <= |ds'| && ds'[..|ds|] == ds && apks != []
    requires Owned(ds, apks, owner, apkOwner, sources, tgtFiles, srcFiles, limit, names, env)
    requires forall i :: |ds| <= i < |ds'| ==> IsPiece(ds'[i], apks[0].tgt, apks[0].src)
    ensures apkOwner != []
    ensures Owned(ds', apks[1..], owner + Times(|ds'| - |ds|, apkOwner[0]), apkOwner[1..], sources, tgtFiles, srcFiles, limit, names, env)
  {
    hide FileDraft, FileApk, SourceOf, Ordinary;
    var a, f := apks[0], apkOwner[0];
    var owner' := owner + Times(|ds'| - |ds|, f);
    forall i | 0 <= i < |ds| ensures ds'[i] == ds[i] && owner'[i] == owner[i] {
      assert ds'[..|ds|][i] == ds'[i];
    }
    forall i | |ds| <= i < |ds'| ensures FileDraft(ds'[i], f, tgtFiles[f], sources[f], srcFiles, limit, names, env) {
      PieceDraft(ds'[i], a, f, tgtFiles[f], sources[f], srcFiles, limit, names, env);
    }
    forall k | 0 <= k < |apks[1..]| ensures apks[1..][k] == apks[k + 1] && apkOwner[1..][k] == apkOwner[k + 1] {
    }
    hide FilesFine;
    forall i, j | 0 <= i < j < |ds'| && owner'[i] == owner'[j] && !(ds'[i].info.Some? && ds'[j].info.Some?)
      ensures ds'[i].src !! ds'[j].src
    {
      assert i < |ds|;
    }
  }

  /** All large archives, one after the other. */
  method SplitLargeApks(byId: seq<Transfer>, largeApks: seq<Apk>, ghost owner: seq<string>, ghost apkOwner: seq<string>,
                        ghost sources: map<string, Option<string>>, ghost tgtFiles: Files, ghost srcFiles: Files,
                        ghost limit: nat, ghost names: Names, env: Setting, ghost claimed: RangeSet)
    returns (byId': seq<Transfer>, ghost owner': seq<string>)
    requires SplitterSound(env) && Listed(byId, largeApks, env, claimed) && FilesFine(tgtFiles, srcFiles, env)
    requires Owned(DraftsOf(byId), largeApks, owner, apkOwner, sources, tgtFiles, srcFiles, limit, names, env)
    ensures Listed(byId', [], env, claimed)
    ensures Owned(DraftsOf(byId'), [], owner', [], sources, tgtFiles, srcFiles, limit, names, env)
    ensures byId <= byId' && forall i :: |byId| <= i < |byId'| ==> fresh(byId'[i])
  {
    hide Listed, SplitterSound, ApkFine, Owned, FilesFine, DraftsOf, IsPiece;
    byId', owner' := byId, owner;
    var apks := largeApks;
    ghost var apkOwners := apkOwner;
    while apks != []
      invariant Listed(byId', apks, env, claimed)
      invariant Owned(DraftsOf(byId'), apks, owner', apkOwners, sources, tgtFiles, srcFiles, limit, names, env)
      invariant byId <= byId' && forall i :: |byId| <= i < |byId'| ==> fresh(byId'[i])
      decreases |apks|
    {
      ghost var rest := DropListed(byId', apks, env, claimed);
      var a := apks[0];
      ghost var mid := byId';
      byId' := SplitApk(byId', apks[1..], a, env, rest);
      PrefixOfPrefix(byId, mid, byId');
      SameDrafts(mid, byId');
      OwnedSplit(DraftsOf(mid), apks, owner', apkOwners, sources, DraftsOf(byId'), tgtFiles, srcFiles, limit, names, env);
      owner' := owner' + Times(|byId'| - |mid|, apkOwners[0]);
      apks := apks[1..];
      apkOwners := apkOwners[1..];
    }
    NoOwners(DraftsOf(byId'), owner', apkOwners, sources, tgtFiles, srcFiles, limit, names, env);
  }

  lemma NoOwners(ds: seq<Draft>, owner: seq<string>, apkOwner: seq<string>, sources: map<string, Option<string>>,
                 tgtFiles: Files, srcFiles: Files, limit: nat, names: Names, env: Setting)
    requires FilesFine(tgtFiles, srcFiles, env)
    requires Owned(ds, [], owner, apkOwner, sources, tgtFiles, srcFiles, limit, names, env)
    ensures apkOwner == []
  {
  }

  lemma OneMore(whole: set<string>, todo: set<string>, done: set<string>, f: string)
    requires done + todo == whole && done !! todo && f in todo
    ensures (done + {f}) + (todo - {f}) == whole && done + {f} !! todo - {f}
    ensures f in whole && f !in done && |todo - {f}| < |todo|
  {
  }

  twostate lemma StillFresh(new mid: seq<Transfer>, new byId: seq<Transfer>)
    requires FreshFrom(mid, 0) && mid <= byId && forall i :: |mid| <= i < |byId| ==> fresh(byId[i])
    ensures FreshFrom(byId, 0)
  {
    forall i | 0 <= i < |byId| ensures fresh(byId[i]) {
      if i < |mid| { assert byId[i] == mid[i]; }
    }
  }

  twostate lemma AllFresh(new byId: seq<Transfer>)
    requires FreshFrom(byId, 0)
    ensures forall i :: 0 <= i < |byId| ==> fresh(byId[i])
  {
  }

  /** One more file. */
  method AddNextFile(byId: seq<Transfer>, apks: seq<Apk>, ghost owner: seq<string>, ghost apkOwner: seq<string>,
                     ghost sources: map<string, Option<string>>, ghost done: set<string>, f: string, tgtFiles: Files, srcFiles: Files,
                     basenames: map<string, string>, patterns: map<string, string>, limit: nat, names: Names, env: Setting)
    returns (byId': seq<Transfer>, apks': seq<Apk>, ghost owner': seq<string>, ghost apkOwner': seq<string>,
             ghost sources': map<string, Option<string>>)
    requires FilesFine(tgtFiles, srcFiles, env) && limit > 0 && Indexed(basenames, patterns, srcFiles, names)
    requires Listed(byId, apks, env, BlocksOf(tgtFiles, done)) && f in tgtFiles && f !in done
    requires Owned(DraftsOf(byId), apks, owner, apkOwner, sources, tgtFiles, srcFiles, limit, names, env)
    requires OwnedBy(owner, apkOwner, sources, done)
    ensures Listed(byId', apks', env, BlocksOf(tgtFiles, done + {f}))
    ensures Owned(DraftsOf(byId'), apks', owner', apkOwner', sources', tgtFiles, srcFiles, limit, names, env)
    ensures OwnedBy(owner', apkOwner', sources', done + {f})
    ensures byId <= byId' && forall i :: |byId| <= i < |byId'| ==> fresh(byId'[i])
  {
    hide Listed, FilesFine, BlocksOf, FileFine, AllZero, ZeroFine, Owned, OwnedBy, Indexed, FileParts, SourceOf, DraftsOf;
    FileAt(tgtFiles, srcFiles, env, f);
    BlocksNext(tgtFiles, done, f);
    ghost var source;
    byId', apks', source := AddFile(byId, apks, f, tgtFiles[f], srcFiles, basenames, patterns, limit, names, env,
                                    BlocksOf(tgtFiles, done));
    SameDrafts(byId, byId');
    OwnedNext(DraftsOf(byId), apks, owner, apkOwner, sources, done, DraftsOf(byId'), apks', f, source,
              tgtFiles, srcFiles, limit, names, env);
    owner', apkOwner' := owner + Times(|byId'| - |byId|, f), apkOwner + Times(|apks'| - |apks|, f);
    sources' := sources[f := source];
  }

  /** The transfers of all files, in any order of the files. */
  method AddFiles(tgtFiles: Files, srcFiles: Files, basenames: map<string, string>, patterns: map<string, string>,
                  limit: nat, names: Names, env: Setting)
    returns (byId: seq<Transfer>, apks: seq<Apk>, ghost owner: seq<string>, ghost apkOwner: seq<string>,
             ghost sources: map<string, Option<string>>)
    requires FilesFine(tgtFiles, srcFiles, env) && limit > 0 && Indexed(basenames, patterns, srcFiles, names)
    ensures Listed(byId, apks, env, BlocksOf(tgtFiles, tgtFiles.Keys))
    ensures Owned(DraftsOf(byId), apks, owner, apkOwner, sources, tgtFiles, srcFiles, limit, names, env)
    ensures sources.Keys == tgtFiles.Keys
    ensures forall i :: 0 <= i < |byId| ==> fresh(byId[i])
  {
    hide Listed, FilesFine, BlocksOf, FileFine, AllZero, ZeroFine, FreshFrom, Owned, OwnedBy, Indexed, FileParts,
         SourceOf, DraftsOf;
    byId, apks, owner, apkOwner, sources := [], [], [], [], map[];
    FreshNone([]);
    var todo := tgtFiles.Keys;
    ghost var done: set<string> := {};
    BlocksNone(tgtFiles);
    ListedNone(env);
    OwnedNone(tgtFiles, srcFiles, limit, names, env);
    while todo != {}
      invariant done + todo == tgtFiles.Keys && done !! todo
      invariant Listed(byId, apks, env, BlocksOf(tgtFiles, done))
      invariant Owned(DraftsOf(byId), apks, owner, apkOwner, sources, tgtFiles, srcFiles, limit, names, env)
      invariant OwnedBy(owner, apkOwner, sources, done)
      invariant FreshFrom(byId, 0)
      decreases |todo|
    {
      var f :| f in todo;
      OneMore(tgtFiles.Keys, todo, done, f);
      ghost var mid := byId;
      byId, apks, owner, apkOwner, sources := AddNextFile(byId, apks, owner, apkOwner, sources, done, f, tgtFiles, srcFiles,
                                                          basenames, patterns, limit, names, env);
      StillFresh(mid, byId);
      todo, done := todo - {f}, done + {f};
    }
    assert done == tgtFiles.Keys;
    OwnedByParts(owner, apkOwner, sources, done);
    AllFresh(byId);
  }

  lemma OwnedByParts(owner: seq<string>, apkOwner: seq<string>, sources: map<string, Option<string>>, done: set<string>)
    requires OwnedBy(owner, apkOwner, sources, done)
    ensures sources.Keys == done
  {
  }

  /** Every file of the target gets its transfers: none of them meet, they make up the files exactly, each agrees
      with the two images, and the pieces made by imgdiff come with patches that work. Each belongs to one file and has the
      style that is due to it. */
  method FindTransfers(tgtFiles: Files, srcFiles: Files, limit: nat, names: Names, env: Setting)
    returns (transfers: seq<Transfer>, ghost owner: seq<string>, ghost sources: map<string, Option<string>>)
    requires FilesFine(tgtFiles, srcFiles, env) && SplitterSound(env) && limit > 0
    ensures Listed(transfers, [], env, BlocksOf(tgtFiles, tgtFiles.Keys))
    ensures Owned(DraftsOf(transfers), [], owner, [], sources, tgtFiles, srcFiles, limit, names, env)
    ensures sources.Keys == tgtFiles.Keys
    ensures forall i :: 0 <= i < |transfers| ==> fresh(transfers[i])
  {
    hide Listed, SplitterSound, FilesFine, BlocksOf, Owned, Indexed;
    var basenames, patterns := AbbreviateSourceNames(srcFiles, names);
    var byId, apks;
    ghost var apkOwner;
    byId, apks, owner, apkOwner, sources := AddFiles(tgtFiles, srcFiles, basenames, patterns, limit, names, env);
    transfers, owner := SplitLargeApks(byId, apks, owner, apkOwner, sources, tgtFiles, srcFiles, limit, names, env,
                                       BlocksOf(tgtFiles, tgtFiles.Keys));
    PrefixOfPrefix([], byId, transfers);
  }

  lemma ListedNone(env: Setting)
    ensures Listed([], [], env, {})
  {
    assert DraftTgts([]) == [] && ApkTgts([]) == [];
  }

  /** With a limit of zero blocks the cutting loop would never end: each round cuts off nothing. */
  lemma ZeroLimitStuck(tgt: RangeSet, src: RangeSet)
    requires tgt != {} && src != {}
    ensures |tgt| > 0 && |src| > 0
    ensures tgt - First(tgt, 0) == tgt && src - First(src, 0) == src
  {
    assert First(tgt, 0) == {} && First(src, 0) == {};
  }
}
