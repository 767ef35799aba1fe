/** What the planner assumes about its tools and its input can be met, whatever the two images hold. */
module Assumptions {
  import opened Ranges
  import opened Transfers
  import opened Patches
  import opened Splitting
  import opened FilePieces
  import F = FindTransfers

  // A patch that spells out its target: a one in front of each byte, a zero behind each block.

  function PackBlock(b: Block): Patch {
    if b == [] then [] else [1, b[0]] + PackBlock(b[1..])
  }

  function Pack(t: seq<Block>): Patch {
    if t == [] then [] else PackBlock(t[0]) + [0] + Pack(t[1..])
  }

  function Unpack(p: Patch, block: Block): seq<Block> {
    if p == [] then []
    else if p[0] == 0 then [block] + Unpack(p[1..], [])
    else if |p| == 1 then []
    else Unpack(p[2..], block + [p[1]])
  }

  lemma {:induction false} UnpackBlock(b: Block, block: Block, rest: Patch)
    ensures Unpack(PackBlock(b) + [0] + rest, block) == [block + b] + Unpack(rest, [])
  {
    var p := PackBlock(b) + [0] + rest;
    if b == [] {
      assert p == [0] + rest && block + b == block;
    } else {
      assert p == [1, b[0]] + (PackBlock(b[1..]) + [0] + rest);
      assert block + [b[0]] + b[1..] == block + b;
      UnpackBlock(b[1..], block + [b[0]], rest);
    }
  }

  lemma {:induction false} UnpackPack(t: seq<Block>)
    ensures Unpack(Pack(t), []) == t
  {
    if t != [] {
      UnpackBlock(t[0], [], Pack(t[1..]));
      UnpackPack(t[1..]);
      assert [] + t[0] == t[0];
    }
  }

  ghost function SpellingTool(): Tool {
    Tool((imgdiff, s, t) => Pack(t), (imgdiff, p, s) => Unpack(p, []))
  }

  lemma SpellingSound()
    ensures Sound(SpellingTool())
  {
    forall imgdiff: bool, s: seq<Block>, t ensures SpellingTool().apply(imgdiff, SpellingTool().compute(imgdiff, s, t), s) == t {
      UnpackPack(t);
    }
  }

  /** Splits a file into one piece. */
  ghost function WholePiece(tgt: RangeSet, src: RangeSet, patch: Patch): SplitInfo {
    SplitInfo(2, 1, [SplitLine(|patch|, |tgt| * BLOCK_SIZE, [(0, |src|)])])
  }

  lemma WholeValid(tgt: RangeSet, src: RangeSet, patch: Patch)
    ensures var info := WholePiece(tgt, src, patch);
            SplitValid(info, |patch|, tgt, src) && PieceAt(info, tgt, src, 0) == Piece(0, |patch|, tgt, src)
  {
    hide Slice, Union, Apart;
    var info := WholePiece(tgt, src, patch);
    SplitStart(info, tgt, src);
    SplitNext(info, src, 0);
    SliceWhole(tgt);
    SliceWhole(src);
    var parts := SlicesOf(src, [(0, |src|)]);
    assert parts == [] + [src];
    NoParts();
    AppendPart([], src);
    assert (|tgt| * BLOCK_SIZE) / BLOCK_SIZE == |tgt|;
  }

  lemma NoParts()
    ensures Union([]) == {} && Apart([])
  {
  }

  /** For all images there are tools that work on them. */
  lemma ToolsExist(src: Image, tgt: Image) returns (env: Setting)
    ensures env.src == src && env.tgt == tgt && SplitterSound(env) && Sound(env.tool)
  {
    hide SplitValid, PieceAt, Pack, Unpack, Sound;
    env := Setting(src, tgt, SpellingTool(),
                   (t, s) => var patch := if Fits(t, tgt) then Pack(Read(tgt, t)) else []; (patch, WholePiece(t, s, patch)));
    SpellingSound();
    forall t, s | t != {} && s != {} && Fits(t, tgt) && Fits(s, src)
      ensures var (patch, info) := env.split(t, s);
              && SplitValid(info, |patch|, t, s)
              && forall i :: 0 <= i < |info.lines| ==> PieceSound(env, patch, PieceAt(info, t, s, i))
    {
      var patch := Pack(Read(tgt, t));
      assert env.split(t, s) == (patch, WholePiece(t, s, patch));
      WholeValid(t, s, patch);
      UnpackPack(Read(tgt, t));
      assert patch[0..|patch|] == patch;
    }
  }

  /** The whole target as one file, to be made from the whole source, is an input the planner accepts. */
  lemma InputExists(src: Image, tgt: Image) returns (env: Setting, tgtFiles: F.Files, srcFiles: F.Files)
    requires 0 < |tgt| <= |src|
    ensures env.src == src && env.tgt == tgt && SplitterSound(env) && Sound(env.tool)
    ensures F.FilesFine(tgtFiles, srcFiles, env) && F.BlocksOf(tgtFiles, tgtFiles.Keys) == Upto(|tgt|)
  {
    hide SplitterSound, Sound;
    env := ToolsExist(src, tgt);
    tgtFiles, srcFiles := map["/system/image" := Upto(|tgt|)], map["/system/image" := Upto(|src|)];
    assert 0 in Upto(|tgt|) && 0 in Upto(|src|);
    F.BlocksNone(tgtFiles);
    F.BlocksNext(tgtFiles, {}, "/system/image");
    assert {} + {"/system/image"} == tgtFiles.Keys;
  }
}
