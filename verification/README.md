# Verified models of five Android build tools

This project models the algorithmic cores of five tools and proves what they are for:

- the **block OTA planner** (`tools/releasetools/blockimgdiff.py`), a small compiler from two block images to a list of
  update commands that an updater can run in place with a bounded amount of stash space;
- the **FAT16 image writer** (`tools/fat16copy.py`), an allocator and byte-level reader and writer over an in-place table of
  cluster chains, with its long-name records;
- the **concurrent licence reader** (`tools/compliance/readgraph.go`);
- the **licence-condition walks** (`tools/compliance/policy_resolve.go`, `tools/compliance/policy_policy.go`);
- the **runfiles reconciler** (`tools/build-runfiles.cc`).

`dafny verify dfyconfig.toml` checks everything.

## How the models are built

Code that changes things step by step is imperative here too: `Transfer`, `HeapItem`, `BlockImageDiff`, `Fat`, `FatFile`,
`DirFile`, `TargetNode`, `Files` and `RunfilesCreator` are classes whose methods update their fields, and each method is
proved against a specification on values. The reader is a system of atomic steps, one per goroutine action, in any
interleaving. The images, the device, the commands and the patches are values: `Device.Run` is the meaning of a command list,
written independently of the planner.

**Planner** (`Ranges`, `Sums`, `FeedbackArc`, `Transfers`, `DigraphBuilder`, `VertexSequence`, `Sequencing`,
`ImproveSequence`, `Plans`, `FindSequence`, `Slots`, `StashLimit`, `Revise`, `Device`, `Writer`, `TransferList`, `Emit`,
`Patches`, `SequenceCheck`, `Splitting`, `FilePieces`, `FindTransfers`, `Selection`, `Compute`, `Assumptions`). The chain
runs from the file maps to the printed list without a gap: `Compute.BlockImageDiff.Compute` says that for every pair of
images no assertion of the planner fails, and running the list on a device that holds the source image leaves every block of
the care map equal to the target image, every slot free and the new-data file used up, within the allowed stash space. The
run-time checks of the planner (`AssertSequenceGood`, `AssertSha1Good`, `AssertPartition`, the split-information checks) are
methods that return whether they pass; the assertions themselves are proof obligations at their calls. `GoodPlan` is the
invariant between the stages: targets do not meet, each stash id has one definer and one strictly later user, and whatever a
command reads after it has been overwritten it reads from a stash.

What the planner assumes: a `RangeSet` is a finite set of block numbers read in increasing order; a hash is the content it
hashes; bsdiff and imgdiff are functions whose patches work; imgdiff's split of a non-empty file pair is described correctly
and has no empty piece. The files of the target are non-empty, do not meet and make up the care map (but for `__HASHTREE`,
which is skipped); `__ZERO` blocks are zero; extended blocks lie outside the care map; the partition is no smaller than the
target image, and `src` is what it holds. `Assumptions` proves that these can be met for all images.

**FAT16** (`FatLayout`, `FatChains`, `Fat16`, `FatFiles`, `LongNames`). The image is one byte array with a cursor, both table
copies and the data area at their real offsets. `Fat.Valid` says that both copies are equal and that the table is a set of
disjoint, acyclic, terminated chains with every other entry free. Every table entry is assumed to have a cluster behind it.

**Licence reader** (`ReadGraph`). Error-free runs with distinct roots.

**Licence conditions** (`Policy`, `LicenseGraph`, `BottomUp`, `TopDown`). Sets over nine conditions on a heap of nodes.

**Runfiles** (`FileTree`, `Manifest`, `Runfiles`). A tree is a map from normalised paths to entries, with file operations that
fail as the system calls do.

## Where the code and its promises differ

- A stash limit of zero blocks is taken for no limit (`if max_allowed_blocks and ...`). `Revise.ReviseStashSize` says that it
  is kept if and only if no command makes a stash or overwrites part of what it reads, and `Revise.ZeroLimitNotKept` gives a
  plan for which it is not.
- When the limit per transfer is zero blocks (a cache of less than 32768 bytes) the cutting loop for large files never
  ends: `FindTransfers.ZeroLimitStuck`. `Compute` therefore asks for a larger cache.
- The comment at `tools/compliance/policy_policy.go:151-154` says that restricted conditions propagate down; the code also
  lets a condition that is not allowed go down every edge, even a toolchain edge (`Policy.FlowsDown`).
- A container that is itself restricted passes weakly restricted conditions over a dynamic link when it is walked as an
  aggregate, which it would not do otherwise. So the walk can exceed the least solution for non-aggregates:
  `TopDown.AggregateLeak` runs it on such a graph. On any graph it does so only if a restricted container holds a weakly
  restricted condition and has a dynamic link to a node which that solution keeps free of it (`TopDown.ExceedsLeaks`). If
  containers are reached through containers only, this is an equivalence, and the result is exactly the least solution of the
  mixed rule. For other graphs there is no exact condition: `TopDown.OrderDecides` walks one graph from the same roots in both
  orders and exceeds that solution in one of them only.
- A long name that is written comes back if and only if it has no NUL and no surrogate pair lies across two of its groups of 13
  units (`LongNames.RoundTrip`, `LongNames.PairedGroups`), and the entry can be read at all only if the first byte of its
  short name is below 128 and none of 0, 0x05 and '.', since the conversion to ASCII fails for the rest, the escaped 0xE5
  included. `LongNames.CutPairLost` is a name that is lost.
- A read of a file that goes behind its chain by no more than a cluster is not refused: the end mark is taken for a cluster
  (`Fat16.Fat.ReadFile`).
- Writing a file on a full image fails after what fits into its chain has been written (`Fat16.Fat.WriteFile`).
- `build-runfiles` fails on well-formed input if and only if a directory is named MANIFEST or MANIFEST.tmp, or a symbolic link
  named MANIFEST.tmp cannot be opened for writing (`Runfiles.LinkInTheWay`). Such a link is followed, so that the copy of the
  manifest is written elsewhere and an empty file is put in its place; where the link leads is an input (`Files.leadsTo`).

## Model

| member | source | states |
|---|---|---|
| Compute.BlockImageDiff.Compute | tools/releasetools/blockimgdiff.py:333-377 | end to end: all assertions hold, and running the list on the source image gives the target on the care map, zeros in the extended blocks, free slots, all new data used, the header's counts right, and stash bytes within cache_size * threshold; on any device that agrees with the source image in the touched source blocks, every command succeeds too and what is written is the same; the transfers are those of the files, given up as `MakePlan` says, and finished |
| Compute.BlockImageDiff.MakePlan | tools/releasetools/blockimgdiff.py:341-368 | sequencing, optional conversion and re-sequencing, and revision leave a good plan of sound transfers covering the care map that needs no more blocks than the limit; the files are taken apart as `FindTransfers` says; the first pass is an order of just these transfers; if it fits the limit none is converted and the peak is that pass's; exactly if it exceeds the limit by more than 1024 blocks the first of the ranking are given up and the rest is put in order again; of the second pass only what has no room is given up |
| Compute.BlockImageDiff.Choose | tools/releasetools/blockimgdiff.py:352-364 | diffs are selected and given up exactly if the peak is more than 1024 blocks above the limit; then they are the first of the ranking that free enough, and the rest is put in order again |
| Compute.BlockImageDiff.WritePlan | tools/releasetools/blockimgdiff.py:370-375 | both double checks pass on such a plan, and the patches and the list written from it update the device; diffs are finished, nothing else in the plan changes |
| Compute.FinishedPeak | tools/releasetools/blockimgdiff.py:587-702 | after diffs have become moves and patches the writer's peak never exceeds the reviser's |
| Selection.SelectAndConvertDiffTransfersToNew | tools/releasetools/blockimgdiff.py:1204-1273 | the candidates are exactly the diffs whose packed target is no larger than their patch and those that hold stashed blocks, ranked by what the package grows by per block; just so many of the first ones are given up, at least one, that enough blocks are freed; all others only get their patches |
| Selection.SortByScore | tools/releasetools/blockimgdiff.py:1256-1258 | cheapest first; candidates of the same score keep their order; none is lost |
| Assumptions.ToolsExist | tools/releasetools/blockimgdiff.py:44-61 | for all images there are patch and split functions that meet what is assumed of bsdiff and imgdiff |
| Assumptions.InputExists | tools/releasetools/blockimgdiff.py:241-272 | any target no larger than the source, taken as one file, is an input the planner accepts |
| Emit.WriteTransfers | tools/releasetools/blockimgdiff.py:379-585 | for any good, finished plan: no assertion of the writer fails; the list, run on the source image, gives the target image; total and peak in the header are what the commands write and need, and the total is counted transfer by transfer, nothing for a move onto itself; every copied source is touched and nothing but sources is; what is neither wanted nor touched is erased first; no command reads a device block outside the touched ones, so the list also runs on every device that agrees with the source image there, writes the same and leaves all other blocks; no new or zero command has more than 1024 blocks |
| Emit.NothingHeld | tools/releasetools/blockimgdiff.py:402-446 | the content-addressed store is empty after the last command |
| Emit.UpdatedBlocks | tools/releasetools/blockimgdiff.py:552-562 | erasing untouched blocks first and the rest last leaves every block that matters as it should be |
| TransferList.WriteTransfer | tools/releasetools/blockimgdiff.py:406-521 | one transfer keeps the writer's invariant: the device holds the target on what has been written, the slots hold exactly the contents of the pending ids, the counters agree |
| TransferList.WriteCommand | tools/releasetools/blockimgdiff.py:469-517 | whatever the style, the command leaves the target in the written blocks, also for skipped moves and partly zeroed ranges, and the peak counts the implicit stash |
| TransferList.SourceOf | tools/releasetools/blockimgdiff.py:430-459 | the source argument is the one specified, and every partition check made on the way passes |
| TransferList.SourceLoads | tools/releasetools/blockimgdiff.py:430-459 | at its turn a command loads exactly the source-image content of its source range, part from the device, part from slots |
| TransferList.PiecesPass | tools/releasetools/blockimgdiff.py:433-457 | the stashed pieces and the rest, packed to positions, partition the positions of the source |
| TransferList.RestUnwritten | tools/releasetools/blockimgdiff.py:433-449 | what a command reads from the device has not been written by an earlier command |
| TransferList.PeakWithin | tools/releasetools/blockimgdiff.py:523-541 | a plan within a limit has a peak within it, so the stash-limit assertion cannot fail |
| Writer.AssertPartition | tools/releasetools/blockimgdiff.py:1622-1632 | the check passes exactly on partitions |
| Writer.LocsPartition | tools/releasetools/blockimgdiff.py:434-457 | packing a partition of a range gives a partition of its positions |
| Writer.LoadGood | tools/releasetools/blockimgdiff.py:433-459 | reading the unstashed part into place and laying the stashes over it gives the source in order |
| Writer.TakeStashes | tools/releasetools/blockimgdiff.py:433-446 | each used id finds its slot; a slot is freed once, with the last id that needs it; the counters stay exact |
| Writer.EmitStashes | tools/releasetools/blockimgdiff.py:408-416 | the stash commands run, and afterwards the store holds exactly what is pending, each content once |
| Writer.EmitFrees | tools/releasetools/blockimgdiff.py:519-521 | the free commands run and leave the slots that are still counted |
| Writer.WriteSplitTransfers | tools/releasetools/blockimgdiff.py:380-394 | pieces of 1 to 1024 blocks write the whole range, in order, and the total is its size |
| Device.RunPrepend | tools/releasetools/blockimgdiff.py:556-558 | a command put in front runs first and the rest from its result |
| Device.RunAlike | tools/releasetools/common.py:3502-3504 | of two devices that agree in the blocks a list may read, if it runs on one it runs on the other; afterwards they agree in those blocks and in all that was written, and no other block has changed |
| Device.ScatterFills | tools/releasetools/blockimgdiff.py:435-441 | laying a stashed part at its packed positions fills in exactly its blocks |
| Patches.ComputePatches | tools/releasetools/blockimgdiff.py:704-777 | a diff becomes a move exactly if nothing differs, and of the others an imgdiff exactly if the patch it has is one or, if it has none, imgdiff can be used for it; the patches work and lie where the transfer says; the new-data file is the new targets in order |
| Patches.WritePatches | tools/releasetools/blockimgdiff.py:760-777 | the patch of every transfer is at its recorded place in the patch file |
| Patches.QueueHas | tools/releasetools/blockimgdiff.py:750-755 | every diff that needs a patch is queued with its kind |
| SequenceCheck.AssertSequenceGood | tools/releasetools/blockimgdiff.py:794-828 | the simulation passes exactly when no command reads or writes a written block and the care map is covered |
| SequenceCheck.GoodPlanPasses | tools/releasetools/blockimgdiff.py:794-828 | a good plan that covers the care map passes it |
| SequenceCheck.AssertSha1Good | tools/releasetools/blockimgdiff.py:779-792 | passes exactly when the recorded hashes are those of the images |
| Revise.ReviseStashSize | tools/releasetools/blockimgdiff.py:587-702 | the plan stays good and needs at most the returned blocks; a positive limit is kept; if there is no limit or the peak is at most the limit, nothing changes and the peak is exact; a command gives up its source only if one of its stashes, or the copy of its own source, did not fit beside what was held; a zero limit is kept exactly when no command makes a stash or overwrites part of what it reads; converted blocks are counted |
| Revise.ReviseOne | tools/releasetools/blockimgdiff.py:635-695 | one command of the pass keeps: counters equal pending contents, the plan is good, all commands so far fit, and what has been given up did not fit |
| Revise.RefusedNoRoom | tools/releasetools/blockimgdiff.py:638-656 | a stash that is refused would have put the held blocks above the limit |
| Revise.CopyNoRoom | tools/releasetools/blockimgdiff.py:661-672 | so would the copy of a source that is refused |
| Revise.ReplaceAll | tools/releasetools/blockimgdiff.py:674-686 | each listed command is converted exactly once, and its stashes vanish from their definers |
| Revise.ReplaceCmd | tools/releasetools/blockimgdiff.py:674-686 | a command that gives up its source is a new command with the same target, each of its stashes has vanished from the one command that made it, and nothing else in the plan changes |
| Revise.StashExplicit | tools/releasetools/blockimgdiff.py:638-658 | a stash is made or its user is put on the list, so that the counted blocks never exceed the limit |
| Revise.BuildDefUse | tools/releasetools/blockimgdiff.py:605-614 | every id is found with its one definer and one user |
| Revise.ZeroLimitNotKept | tools/releasetools/blockimgdiff.py:645-672 | a concrete plan that uses two blocks although the limit is zero |
| StashLimit.ConvertGood | tools/releasetools/blockimgdiff.py:674-686 | a good plan stays good when a command becomes new and its stashes are dropped |
| StashLimit.ConvertWithin | tools/releasetools/blockimgdiff.py:674-686 | conversion never raises the need of commands already passed |
| StashLimit.WithinPeak | tools/releasetools/blockimgdiff.py:587-702 | enough for every command is the same as at least the peak |
| StashLimit.NoNeed | tools/releasetools/blockimgdiff.py:645-672 | a good plan needs no stash space exactly if no command makes a stash and none overwrites part of what it reads |
| StashLimit.MadePending | tools/releasetools/blockimgdiff.py:638-658 | after its stash commands the ids held are exactly those defined so far and not used yet |
| StashLimit.UsesPending | tools/releasetools/blockimgdiff.py:688-695 | what a command uses is held, and afterwards exactly the ids of later users are |
| Slots.AcquireCounts | tools/releasetools/blockimgdiff.py:408-416 | reference counts equal the number of ids per content, and the block counter the size of the live slots, after one more id |
| Slots.ReleaseCounts | tools/releasetools/blockimgdiff.py:440-446 | the same after an id has been used; its slot was live and goes with its last id |
| Slots.BooksSize | tools/releasetools/blockimgdiff.py:399-416 | the block counter is the total size of the distinct contents held |
| Plans.LateBlockStashed | tools/releasetools/blockimgdiff.py:915-939 | in a good plan every block an earlier command writes reaches a later reader through a stash |
| FindSequence.FindSequenceForTransfers | tools/releasetools/blockimgdiff.py:830-854 | the four stages give a permutation that is a good plan, and its stashes come from an order with at most half of the weight backward; there are no stashes exactly if the dependencies have no cycle |
| FindSequence.StashlessRanked | tools/releasetools/blockimgdiff.py:915-939 | a good plan without stashes is an order of the dependencies, so that they have no cycle |
| FindSequence.StillRanked | tools/releasetools/blockimgdiff.py:859-862 | after the reversal every edge goes forward in the first sequence, so the graph has no cycle |
| FindSequence.GoodReads | tools/releasetools/blockimgdiff.py:915-939 | any order that meets the reversed graph has every late read stashed, also for pairs in mutual conflict |
| FindSequence.GoodIds | tools/releasetools/blockimgdiff.py:927-932 | each stash id has one definer and one strictly later user |
| DigraphBuilder.GenerateDigraph | tools/releasetools/blockimgdiff.py:1061-1103 | the block-indexed construction gives the pairwise graph in both edge maps, with overlap sizes, or zero for `__ZERO` readers, as weights |
| DigraphBuilder.Intersections | tools/releasetools/blockimgdiff.py:1078-1087 | the index finds exactly the transfers that read a block of the target, blocks past its end included |
| VertexSequence.FindVertexSequence | tools/releasetools/blockimgdiff.py:948-1059 | ends with a permutation, recorded in `order`, in which at most half of the total weight points backward, and no edge at all if the graph has no cycle; at each step a sink goes to the back, or without sinks a source to the front, or without either the vertex of the highest balance |
| VertexSequence.PopBest | tools/releasetools/blockimgdiff.py:1031-1035 | despite lazily deleted entries the popped vertex is an open one of the highest current score |
| VertexSequence.AdjustScore | tools/releasetools/blockimgdiff.py:989-993 | each open vertex keeps exactly one live heap entry, and it carries the current score |
| VertexSequence.PlaceBest | tools/releasetools/blockimgdiff.py:1037-1047 | placing the best vertex keeps the working copies, the queue and the half-weight account |
| FeedbackArc.BestScore | tools/releasetools/blockimgdiff.py:1027-1035 | scores cancel over the remaining graph, so a highest score is not negative |
| FeedbackArc.WeightByHead | tools/releasetools/blockimgdiff.py:963-966 | counting edge weights by head or by tail gives the same |
| FeedbackArc.PutNext | tools/releasetools/blockimgdiff.py:1037-1047 | putting a vertex of non-negative score in front keeps backward weight paid for by removed weight |
| FeedbackArc.PutLast | tools/releasetools/blockimgdiff.py:996-1008 | a sink put at the back adds no backward weight |
| FeedbackArc.ProgressDone | tools/releasetools/blockimgdiff.py:1049-1059 | a finished order is complete and within half of the weight |
| Sequencing.ReverseBackwardEdges | tools/releasetools/blockimgdiff.py:897-946 | exactly the violated dependencies are turned around, each with its own id and the overlap stashed by the writer and used by the reader, and both edge maps show the result |
| Sequencing.EdgeAppend | tools/releasetools/blockimgdiff.py:935-939 | one reversal moves exactly one edge |
| Sequencing.ViewsAppend | tools/releasetools/blockimgdiff.py:930-939 | one reversal changes the fields of its two ends only, and as specified |
| ImproveSequence.ImproveVertexSequence | tools/releasetools/blockimgdiff.py:856-895 | on an acyclic graph the sort gives a permutation that meets every edge, each transfer being the least ready one in net stash change and then in order; its place is recorded; the length assertion holds |
| ImproveSequence.PlaceNext | tools/releasetools/blockimgdiff.py:882-888 | the next transfer is ready and has the least net stash change of all that are, ties by order |
| ImproveSequence.ReadyExists | tools/releasetools/blockimgdiff.py:890-891 | an acyclic graph always has a ready vertex |
| FindTransfers.FindTransfers | tools/releasetools/blockimgdiff.py:1275-1613 | the transfers of all files do not meet, make up the files exactly and agree with both images, with working patches for split archives; each has a file it belongs to: `__ZERO` gives one zero transfer, `__COPY` one new one, a file without a source one new one, and any other file diffs only, parts of it with parts of its source that do not meet (but for those that imgdiff cuts); a file within the limit that is not cropped is one diff with its whole source, only large archives go to imgdiff |
| FindTransfers.AddDiffTransfer | tools/releasetools/blockimgdiff.py:1352-1419 | whichever of whole, cut, cropped or split applies, what is added makes up exactly the file's target ranges |
| FindTransfers.SourceOfFile | tools/releasetools/blockimgdiff.py:1570-1595 | same path, else a file of the same base name, else one of the same number pattern; none exactly if all source files miss in all three |
| FindTransfers.AddFile | tools/releasetools/blockimgdiff.py:1529-1613 | the transfers of one file: their styles, and for diffs their parts of the file and of its source |
| FindTransfers.AbbreviateSourceNames | tools/releasetools/blockimgdiff.py:1615-1620 | every source file is found by its base name and its number pattern, and entries point to files with that name |
| FindTransfers.ZeroLimitStuck | tools/releasetools/blockimgdiff.py:1295-1308 | with a limit of zero a round of the cutting loop cuts off nothing |
| FilePieces.AddSplitTransfersWithFixedSizeChunks | tools/releasetools/blockimgdiff.py:1278-1318 | the pieces are the consecutive blocks of the limit of both sides, followed by one rest as soon as one side has no more than the limit; together exactly the target |
| FilePieces.PiecesApart | tools/releasetools/blockimgdiff.py:1295-1318 | the sources of the pieces do not meet and lie in the source |
| FilePieces.CropEqual | tools/releasetools/blockimgdiff.py:1376-1397 | crops exactly when more than half of the block pairs are equal; what is skipped has equal content in both images |
| FilePieces.EqualRead | tools/releasetools/blockimgdiff.py:1382-1390 | the equal blocks of both sides read the same, in order |
| Splitting.ParseAndValidateSplitInfo | tools/releasetools/blockimgdiff.py:1421-1477 | accepts exactly valid split information and returns the pieces by position |
| Splitting.PiecesCover | tools/releasetools/blockimgdiff.py:1454-1475 | valid pieces share out the target without overlap |
| Ranges.SortedUnique | tools/releasetools/blockimgdiff.py:390-393 | the increasing enumeration of a range is unique |
| Ranges.MapWithinRank | tools/releasetools/blockimgdiff.py:438-454 | packing keeps the order of the blocks of a sub-range |
| Ranges.WriteRead | tools/releasetools/blockimgdiff.py:488-510 | writing what was read from another image copies exactly the range |
| Fat16.Fat.Allocate | tools/fat16copy.py:632-694 | none exactly if free space is too small, and then nothing has changed; else a new terminated chain of distinct, formerly free clusters, as many as are needed and no more; all other entries as before, both tables equal |
| Fat16.Fat.GrabZones | tools/fat16copy.py:642-676 | whole free runs, no smaller one before a larger one, until they suffice, with the last one needed; all free space if they do not |
| Fat16.Fat.FindFreeZones | tools/fat16copy.py:639-662 | the scan finds exactly the whole runs of free entries, which are disjoint and make up all of them |
| Fat16.Fat.LinkZones | tools/fat16copy.py:683-694 | the runs are linked into one chain from the head that is returned, in both tables, and nothing else is written |
| Fat16.Fat.WriteClusterEntry | tools/fat16copy.py:621-630 | both tables get the entry at its offset, low byte first, no other byte of the image changes, and the position is at the next entry |
| Fat16.Fat.ExtendCluster | tools/fat16copy.py:696-711 | succeeds exactly if there is room; then the chain is longer by just what the amount needs and the table stays a set of chains; else nothing has changed |
| Fat16.Fat.NextCluster | tools/fat16copy.py:739-745 | the following cluster of the chain, which grows exactly when it ends here; fails exactly when it would have to grow by nothing or by more than there is room for |
| Fat16.Fat.GetChainSize | tools/fat16copy.py:488-506 | ends on every chain with its length times the cluster size |
| Fat16.Fat.WriteFile | tools/fat16copy.py:713-745 | when it succeeds the chain has grown only as needed, its bytes are the old ones with the data over them, and all other clusters are as before; when it fails, exactly when, and what has been written by then |
| Fat16.Fat.ReadFile | tools/fat16copy.py:574-619 | the bytes of the chain in the asked range, across clusters; up to one cluster behind the chain what the image holds at the place of the end mark; an error further out |
| FatFiles.FatFile.Write | tools/fat16copy.py:126-132 | the text of the file is as before up to the position and behind the data, longer if need be; when it fails, exactly when, and what the text is then; in both cases every other chain keeps its place and its bytes |
| FatFiles.FatFile.Read | tools/fat16copy.py:118-124 | the next bytes of the text, as many as there are; the text is unchanged |
| FatFiles.FatFile.Seek | tools/fat16copy.py:81-93 | the position asked for, cut to the file |
| FatFiles.NewFile | tools/fat16copy.py:214-235 | a chain just large enough from which the data can be read; none for an empty file; nothing without room |
| FatFiles.CopyFiles | tools/fat16copy.py:775-776 | however many files follow, each copied one and each earlier one reads back as it was |
| FatFiles.OthersKeep | tools/fat16copy.py:713-745 | a write to one chain leaves the content of every other chain |
| FatFiles.WrittenContent | tools/fat16copy.py:713-745 | what was written is there, and all other bytes the chain held are too |
| FatChains.Conserved | tools/fat16copy.py:646-662 | clusters in chains and free clusters are always all there are |
| FatChains.HeadDecides | tools/fat16copy.py:488-506 | a head belongs to one chain only |
| FatChains.AddChain | tools/fat16copy.py:686-694 | linking free clusters keeps the table a set of disjoint terminated chains |
| FatChains.JoinChains | tools/fat16copy.py:708-711 | pointing an end at another head makes one chain of two and frees or takes nothing |
| FatChains.JustHoldsCeil | tools/fat16copy.py:678-681 | the number of clusters is the amount divided by the cluster size, rounded up |
| FatChains.Excess | tools/fat16copy.py:678-681 | the excess is less than the last zone, and without it the clusters just hold the amount |
| FatChains.GrowthNoGap | tools/fat16copy.py:738-744 | a write that leaves no gap extends the chain at most once |
| LongNames.LongnameRecords | tools/fat16copy.py:335-368 | groups of 13 units, NUL-padded, numbered from one, the last one marked and first in the list; byte by byte where number, units, attributes, checksum and zeros are |
| LongNames.RecordLaidOut | tools/fat16copy.py:355-362 | a record has its number at 0, its attributes at 11, the checksum at 13, zeros at 12, 26 and 27, and the units, low byte first, at 1, 14 and 28 |
| LongNames.DirFile.ReadDentry | tools/fat16copy.py:508-572 | reads the entry the records and the short record stand for and consumes exactly them, or fails where a record alone does not decode |
| LongNames.RoundTrip | tools/fat16copy.py:335-368 | what was printed is read exactly if no record has half a surrogate pair and the first byte is readable, and its name comes back exactly if, besides, it has no NUL; else up to that NUL; the rest of the entry comes back and the records are counted right |
| LongNames.PairedGroups | tools/fat16copy.py:335-368 | the condition as one on the name: its pairs are whole and none lies across two groups of 13 |
| LongNames.CutPairLost | tools/fat16copy.py:508-572 | a whole name of 14 units, without a NUL, that is lost |
| LongNames.CutNothing | tools/fat16copy.py:566-569 | cutting at the first NUL keeps a name exactly if it has none |
| ReadGraph.InvKept | tools/compliance/readgraph.go:94-295 | every step of every goroutine keeps: tokens, wait group, claims, results, closing order |
| ReadGraph.InvRun | tools/compliance/readgraph.go:94-188 | so does every state of every run |
| ReadGraph.CountedKept | tools/compliance/readgraph.go:119-142 | tokens in the pool and held are always all of them, and the wait group counts unfinished and announced readers |
| ReadGraph.ClaimedKept | tools/compliance/readgraph.go:277-290 | each scheduled file belongs to exactly one goroutine |
| ReadGraph.SentKept | tools/compliance/readgraph.go:271-274 | each file past its reading has exactly one result, in the channel or received |
| ReadGraph.TokensSuffice | tools/compliance/readgraph.go:111-121 | at most so many files are open as there are tokens, and giving a token back never blocks |
| ReadGraph.NoUseAfterClose | tools/compliance/readgraph.go:137-141 | once a channel is closed no goroutine sends or receives a token, or sends a result, any more |
| ReadGraph.NeverStuck | tools/compliance/readgraph.go:245-290 | until the results loop has ended some step is always possible |
| ReadGraph.RunsEnd | tools/compliance/readgraph.go:94-295 | no run over finitely many files is longer than a measure of its start |
| ReadGraph.RunsComplete | tools/compliance/readgraph.go:147-169 | every run is finished or can go on, so every run completes |
| ReadGraph.AllReceived | tools/compliance/readgraph.go:147-169 | at the end every scheduled file has been read once and its result received |
| ReadGraph.Complete | tools/compliance/readgraph.go:94-188 | at the end exactly the files reachable from the roots are in the graph, each read once |
| ReadGraph.AddDependencies | tools/compliance/readgraph.go:214-241 | succeeds exactly if every dependency has a name and a target that has been read; up to the first one that has not, the edges are the dependencies in order with their recognized annotations, for the target and for the graph |
| ReadGraph.DependenciesKnown | tools/compliance/readgraph.go:177-184 | after a finished run no dependency of a target is missing, unknown or nil |
| Policy.DepConditionsPropagatingToTarget | tools/compliance/policy_policy.go:175-187 | by the annotations: over a dynamic edge restricted goes up alone, over a toolchain edge that is not dynamic nothing, over any other edge restricted and weakly restricted |
| Policy.TargetConditionsPropagatingToDep | tools/compliance/policy_policy.go:199-223 | condition by condition and by the annotations what goes down an edge, for aggregates and for others |
| Policy.AggregatePassesLess | tools/compliance/policy_policy.go:210-222 | an aggregate never passes on more than a non-aggregate would, exactly unless it is itself restricted and the edge is a dynamic link |
| BottomUp.TraceBottomUpConditions | tools/compliance/policy_resolve.go:45-99 | ends on every graph; walked is reachable; pure exactly if all routes from the roots are containers; without cycles each resolution is what comes up, and a target with toolchain edges only keeps its own conditions |
| BottomUp.Walk | tools/compliance/policy_resolve.go:54-91 | one visit with all it leads to, by a measure over unwalked and pure nodes |
| BottomUp.MarksMeanRoutes | tools/compliance/policy_resolve.go:55-70 | the visited map and the pure marks in terms of routes from the roots |
| BottomUp.UpIsReach | tools/compliance/policy_resolve.go:77-87 | a condition comes up exactly if a node reachable over edges that carry it originates it |
| BottomUp.NothingFromToolchain | tools/compliance/policy_policy.go:175-187 | nothing comes up to a target all of whose edges are toolchain edges and not dynamic |
| TopDown.TraceTopDownConditions | tools/compliance/policy_resolve.go:114-174 | ends on every graph; each resolution is explained by a route; each reached node has pushed its final one down all edges, containers by the rule for aggregates; it exceeds the least solution for non-aggregates only by a leak; if containers are reached through containers only it is exactly the least solution of the mixed rule and exceeds the other exactly if there is a leak; without containers it is the least solution; to what is linked by toolchain edges only nothing comes down but what is not allowed |
| TopDown.Walk | tools/compliance/policy_resolve.go:126-165 | one visit with all it leads to, by a measure over unwalked nodes, missing conditions and pure nodes |
| TopDown.ExplainedIsLeast | tools/compliance/policy_resolve.go:114-174 | what routes explain is contained in every solution closed under the edge rule |
| TopDown.ToolchainKeepsOut | tools/compliance/policy_policy.go:199-223 | to a node into which only toolchain edges that are not dynamic lead no route brings a condition it does not start with, unless it is not allowed anywhere |
| TopDown.MixedExactly | tools/compliance/policy_resolve.go:126-172 | if every reached container is reached through containers only, a node ends up with exactly what the mixed rule explains |
| TopDown.AtMost | tools/compliance/policy_resolve.go:126-172 | on any graph whatever a node holds comes along a route whose nodes hold it, by the rule for aggregates, or the other one where a node may be met as a non-aggregate |
| TopDown.AtLeast | tools/compliance/policy_resolve.go:126-172 | on any graph a node ends up with all that must go down to it, by both rules where a container may be met as either |
| TopDown.ExceedsLeaks | tools/compliance/policy_policy.go:205-217 | on any graph, the result goes beyond the least solution for non-aggregates only if a restricted container holds a weakly restricted condition and links dynamically to a node that solution keeps free of it |
| TopDown.LeakExceeds | tools/compliance/policy_policy.go:205-217 | and at a container that is only met as an aggregate each such link does take it there |
| TopDown.AggregateLeak | tools/compliance/policy_policy.go:210-216 | a graph on which the whole walk gives a library a condition the least solution for non-aggregates does not have |
| TopDown.OrderDecides | tools/compliance/policy_resolve.go:127-172 | a graph where a container is also met as a non-aggregate: whether that solution is exceeded depends on the order of the roots |
| Manifest.ReadManifest | tools/build-runfiles.cc:99-171 | fails exactly on malformed lines; else the map holds the links of the lines that count, all their directories and the temporary file |
| Manifest.ClosureNext | tools/build-runfiles.cc:153-161 | inserting parents until one is there gives all directories of the new link |
| Manifest.ClosureWellFormed | tools/build-runfiles.cc:40-42 | when no path is a prefix of another, every entry of the map has its directory in it |
| FileTree.UnderChild | tools/build-runfiles.cc:219-223 | what is under a directory is under one of its children |
| FileTree.UnderMeans | tools/build-runfiles.cc:219-223 | a path is under another exactly if it is that one, or that one followed by a slash and more |
| Runfiles.DelTree | tools/build-runfiles.cc:340-372 | removes the path and all under it, nothing else, and no removal fails |
| Runfiles.RunfilesCreator.ScanTreeAndPrune | tools/build-runfiles.cc:204-248 | deletes exactly what does not match, takes exactly what matches out of the map, never deletes what matches |
| Runfiles.MatchAbove | tools/build-runfiles.cc:231-239 | what matches lies in directories that match, so deleting a mismatch loses nothing that matches |
| Runfiles.RunfilesCreator.CreateFiles | tools/build-runfiles.cc:250-279 | in map order no creation fails for a missing parent or an existing path, and the tree becomes the manifest |
| Runfiles.CreateNext | tools/build-runfiles.cc:250-254 | the least missing path has its directory in place and is not there yet |
| Runfiles.RunfilesCreator.PruneAndCreate | tools/build-runfiles.cc:179-180 | from any tree the result is exactly the manifest, and nothing that matched was deleted on the way |
| Runfiles.RunfilesCreator.CreateRunfiles | tools/build-runfiles.cc:173-188 | fails exactly if a directory has the name of the copy; else the tree is what is wanted with the copy in place |
| Runfiles.MakeRunfiles | tools/build-runfiles.cc:421-423 | the whole tool from any tree: exactly when it fails (a malformed line, a directory in the way of its two files, a link MANIFEST.tmp that cannot be opened); what the tree is when it does not, in terms of the tokens: a line [l, t] makes l a link to t, a line [l] an empty file, with metadata only lines 1, 3, 5 and so on count, and all else is MANIFEST and the directories above; what is never removed, nothing if it fails; and when the copy of the manifest is lost |
| Runfiles.ClosureAsAsked | tools/build-runfiles.cc:115-165 | the map read from the lines is what the tokens of the lines ask for |
| Runfiles.LessMeans | tools/build-runfiles.cc:250-254 | the order of the map is that of the first characters that differ, prefixes first |
| Runfiles.LinkInTheWay | tools/build-runfiles.cc:99-107 | with a link MANIFEST.tmp to a directory the tool fails on every manifest |

## Left out

- ImproveSequence.ImproveVertexSequence: does not claim that less is stashed than before; that is a hope of the heuristic, not a guarantee.
- FindTransfers.FindTransfers: does not state the order of the transfers; files and archives come in any order. Sources of the pieces that imgdiff cuts may meet.
- VertexSequence.FindVertexSequence: does not state which of several orders is found; ties and the order of sets are open.
- FatFiles.NewFile: the directory entry that points to the chain is not modelled; the caller gets the head.
- FatFiles.CopyFiles: names, directories and their entries are not modelled; the files are a sequence of contents.
- Sequencing.ReverseBackwardEdges: the weight of a reversed edge, which the code leaves undefined, is zero here.
- LongNames.RoundTrip: names are UTF-16 units; the conversion to UTF-8 is not modelled.
- Runfiles.RunfilesCreator.CreateFiles: permission bits, those of MANIFEST and MANIFEST.tmp included, file contents and failing disks are not modelled.
- The RangeSet class itself (rangelib.py), ranges out of order, shared and incomplete blocks: a range is the set it denotes.
- Hash collisions: a hash is the content it stands for.
- Rounding: stash limits and the scores of the selection are exact real numbers; how well data can be packed is an input.
- Names of split transfers, log output, imgdiff statistics, threads, compression, touched_src_sha1 and the hash tree.
- Boot sector parsing, the root directory file, short names, checksums, directories and the placement of entries (`commit`) in the FAT16 writer.
- Error paths of the licence reader, duplicate roots, file suffixes and protobuf parsing.
- The run-once caching of the licence walks, earlier resolutions, conditions attached to ancestors, and the other walks of the package.
- Tokenising of manifest lines, paths that are not normalised, and what is written into the target of a symbolic link named MANIFEST.tmp.
