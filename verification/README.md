# Reflake: the versioned tree engine and the protocols around it

Reflake versions datasets the way Git versions source.  A commit points at a Merkle tree
whose nodes are sorted lists of entries; a directory of more than `MAX_TREE_ENTRIES`
children is a list of name-range shards.  Every operation rewrites only the nodes it
touches and takes shortcuts where two hashes are equal.  What users rely on is much
simpler: a tree stands for a flat map from paths to leaves, and each operation is supposed
to have a plain meaning on that map.  This project models the engine and proves these
meanings, for trees of any depth, sharded or not, and for every input.

How the model is laid out:

* `Paths`, `Trees`: names ordered by code point, paths as sequences of names with lemmas
  bridging to the repository's string tests (`startswith(f"{p}/")`), nodes, and `LeafAt`,
  the flat map of a tree.  `WellFormed(m, es)` is the node invariant with
  `MAX_TREE_ENTRIES` as a parameter `m` of at least 2; `Searchable` is the part of it that
  lookups need.
* `Builder`, `Shards`: the write guard, the split into shards, and rewriting a sharded
  directory range by range.
* `Splice`, `Merge` with `MergeRules`, `Prune`, `Query`, `Diff`: the tree algorithms, each
  proved against the flat map.  `Frames`, `Rebuild`, `Worktree`: trees built from streams of files, up to the
  full commit.
* `CommitDag`: generations, ancestry, merge base.
* `Objects`, `ObjectStore`: the object graph, and ids handed out by content.  A subtree
  pointer is the subtree itself everywhere but in `ObjectStore`, which shows that comparing
  ids comes to comparing nodes.
* `RefProtocol`, `Refs`, `Reach`, `Gc`, `Sync`: many clients on one store, the two
  compare-and-set implementations, garbage collection, push and pull.
* `Operations`, `Multipart`, `Codec`: moving and promoting paths, uploads in parts, entry lines.

Loops, worklists, explicit stacks and in-place objects of the source appear as methods with
loops and as classes; the functions they are proved against, and the lemmas about these
functions, say what the source promises.

## Where the code does less than it says

* Two sides that both lose a name of the base stop a merge with an assertion instead of
  dropping the name, exactly when they differ otherwise in that directory and not just
  outside a shard they share (`MergeRules.LostTwice` in `Merge.MergeTrees`;
  `Merge.DoubleRemovalBreaks`).
* A merge can nest shards, which lookups read through but a directory listing does not: the
  merged tree keeps the node invariant if and only if no shard range that all three versions
  hold differently ends with more names than fit a node (`Merge.MergeTrees`; `Merge.MergeNests`).
* Pruning misses removals whose relative path sorts past the next shard's name
  (`Prune.RemovalMissed`; exactly when, `Prune.RemovalTouches` and `Prune.PruneIsCompleteIff`).
* A walk lists paths in component order, the rebuild demands string order
  (`Rebuild.WalkIsStringSorted` says when the two agree).
* The builder's guard refuses equal names, except where two of them stand on either side of a
  shard boundary (`Builder.BuildChildren` says exactly when).
* A move takes no other path with it if and only if no moved path is an ancestor or
  descendant of a remaining one (`Operations.MoveIsExactIff`); a file moved onto a directory
  replaces it.
* The neighbour check on staged additions misses a conflict exactly when some path sorts
  between the upper path and its slash (`Operations.MissedExactly`;
  `Operations.NeighboursMissAConflict`); the splice refuses exactly the conflicting ones
  (`Splice.SpliceTree`).
* A 3-way merge begun without a cached snapshot can drop a peer's commit: the branch is read
  again after the target was resolved (`RefProtocol.IncautiousMergeLosesAHead`).  A run loses
  a head exactly if such a merge wins without having seen it (`RefProtocol.HeadsLostExactly`).
* An interrupted transfer can leave a commit without its tree, and the next push then moves
  the ref (`Sync.InterruptedTransferMisleads`); `Sync.TransferIsRightIff` says exactly when
  the next push is right.
* Reusing an old object does not refresh its age, so a sweep can take it from under a new
  head (`Gc.ReusedObjectIsLost`).

## Model

| member | source | states |
|---|---|---|
| Paths.LtIsLexicographic | src/reflake/core/objects/tree.py:80-83 | the order used in all proofs is the code-point order of the name checks |
| Paths.JoinPrefix | src/reflake/core/services/tree.py:1044-1053 | the string test `startswith(f"{q}/")` holds exactly when one path lies strictly below the other, component by component |
| Builder.WriteNode | src/reflake/core/services/tree.py:142-163 | the guard publishes a node exactly when its names strictly ascend |
| Builder.SortSpec | src/reflake/core/services/tree.py:192-193 | sorting keeps the children as a multiset and, when names differ, makes them ascend |
| Builder.ChunksFew | src/reflake/core/services/tree.py:198-204 | at most m*m entries need at most m shards, and cutting always shrinks the list, so the builder ends |
| Builder.WriteShards | src/reflake/core/services/tree.py:198-204 | the shards written are the entries cut into runs of the given size, each named after its first entry |
| Builder.BuildChildren | src/reflake/core/services/tree.py:175-207 | for writable children the builder succeeds, and the node has exactly these children, the same number of them, and is fit for lookups, however often it split; on any children, it succeeds exactly when equal names meet only across a shard boundary |
| Builder.PlainBuilt | src/reflake/core/services/tree.py:175-207 | what is built from plain children keeps the node invariant as long as no directory outgrows m*m children |
| Shards.ChildInShard | src/reflake/core/services/tree.py:1145-1149 | a child of a sharded directory is in the one shard whose range holds its name, and in no other |
| Shards.AppendRange | src/reflake/core/services/tree.py:1127-1244 | rewritten shards of later ranges appended to those of earlier ones stay sorted, each within its range, and no child changes shard |
| Shards.ExpandWellFormed | src/reflake/core/objects/query.py:102-123 | unpacking shards lists exactly the children of the directory, in order, without shards |
| Splice.SplitAdditions | src/reflake/core/services/tree.py:1018-1032 | additions are split by the child they touch, the last of equal paths winning, order kept below each child |
| Splice.SplitPrefixFree | src/reflake/core/services/tree.py:1066-1072 | additions conflict exactly where the split has one name both as a leaf and as a directory, here or further down |
| Splice.SpliceEntry | src/reflake/core/services/tree.py:1265-1370 | whatever its kind, one child becomes the old one spliced at every path below it, and fails only on conflicting additions |
| Splice.SpliceChildren | src/reflake/core/services/tree.py:1246-1402 | one node spliced name by name; it fails exactly when additions below some name conflict, and says unchanged only if it is |
| Splice.BalancedSize | src/reflake/core/services/tree.py:1206-1211 | the ceilings of the balanced split give groups of at least one and at most m entries |
| Splice.SpliceShard | src/reflake/core/services/tree.py:1174-1225 | one touched shard is dropped, kept or cut so that the pieces stay in its range and hold its names spliced |
| Splice.SpliceSharded | src/reflake/core/services/tree.py:1127-1244 | rewriting only the touched shards, with the full rebuild on overflow, splices every name of the directory |
| Splice.SpliceDirectory | src/reflake/core/services/tree.py:1056-1114 | a directory, missing, plain or sharded, becomes the old one spliced at every path below it; it fails exactly on conflicting additions |
| Splice.SpliceTree | src/reflake/core/services/tree.py:989-1016 | the flat map afterwards is the additions plus every old leaf neither removed nor above or below an addition; additions beat removals; refused exactly when one addition lies below another; node invariant kept up to m*m children |
| Merge.MergeChild | src/reflake/core/services/tree.py:916-971 | one name is merged by the rule for files, directories and absences; it crashes exactly on a name of the base that both sides lost, and reports exactly the conflicts below |
| Merge.MergeShard | src/reflake/core/services/tree.py:870-914 | merging one shard range alone gives what merging the whole directory gives for the names of that range |
| Merge.MergeDirectory | src/reflake/core/services/tree.py:775-848 | whichever of the hash shortcut, the shard-pairwise and the name-by-name way is taken: the conflicts are the clashing names below, it breaks exactly on a name lost twice, clean results merge every name, and the node invariant is kept exactly when no range overflows |
| Merge.MergeTrees | src/reflake/core/services/tree.py:740-768 | without conflicts, at every path: where one side has the base's presence, kind, hash and size, the merged leaf has those of the other side, and where both agree, theirs; the reported paths are exactly the clashing names of directories that both sides have; it crashes exactly on a name of the base that both sides lost in a directory where they differ; and a merged tree whose directories fit is well formed if and only if no shard range overflows |
| MergeRules.MergedByFields | src/reflake/core/services/tree.py:927-934 | leaves merge by presence, kind, hash and size alone: modification times, sources, footers and markers never decide |
| MergeRules.VerdictIsDirect | src/reflake/core/services/tree.py:775-971 | what the recursion with its hash and shard shortcuts finds at a path is what the three directories of that path and their children of that name say |
| MergeRules.BreaksExactly | src/reflake/core/services/tree.py:935-940 | a merge stops exactly if in some directory that base and both differing sides have, a name of the base is in neither side, outside a shard the sides share |
| MergeRules.ConflictsExactly | src/reflake/core/services/tree.py:916-971 | a path conflicts exactly if both sides have its directory and its three versions differ pairwise, not both sides being directories |
| MergeRules.ClashByFields | src/reflake/core/services/tree.py:916-971 | a name clashes exactly if its three versions differ pairwise, files in kind, hash or size and directories in their tree, and the sides are not both directories |
| MergeRules.MergeSymmetric | src/reflake/core/services/tree.py:740-768 | swapping the sides changes neither the clashing names nor those that stop the merge |
| MergeRules.PlainNoOverflow | src/reflake/core/services/tree.py:850-868 | without shards on one side no range overflows, so merges of trees without shards keep the node invariant as long as directories fit |
| Merge.RangesWritten | src/reflake/core/services/tree.py:894-914 | a directory merged range by range keeps the node invariant exactly when no range, there or below, ends with more than m names |
| Merge.MergeNests | src/reflake/core/services/tree.py:894-900 | three well-formed trees of two shards whose merge overflows a range: each side adds a name to the same shard |
| Merge.DoubleRemovalBreaks | src/reflake/core/services/tree.py:935-940 | three one-file trees in which the base's name is lost twice |
| Prune.PruneChildren | src/reflake/core/services/tree.py:581-617 | every entry of a node is dropped, kept or pruned further as the removals say, and what is kept may be published |
| Prune.PruneShard | src/reflake/core/services/tree.py:642-681 | a shard is loaded only if some relative removal falls into its range; loaded, it is pruned, dropped when empty, and renamed to its first entry |
| Prune.PruneTree | src/reflake/core/services/tree.py:555-697 | every removed leaf that pruning reaches is gone, every other leaf stays, and the result keeps the node invariant without any size condition |
| Prune.TouchedExactly | src/reflake/core/services/tree.py:565-579 | a shard is loaded exactly if the relative string of some removal strictly inside the directory is before the next shard's name and, followed by U+10FFFF, after its own, by code points |
| Prune.RemovalTouches | src/reflake/core/services/tree.py:565-579 | a removal loads the shard of its first component, except that it may miss it when it goes deeper and the next shard's name continues that component with a character before the slash |
| Prune.FarSide | src/reflake/core/services/tree.py:645-648 | for two names in order, a path below the first is on the far side of the second exactly when the second continues the first with a character before the slash |
| Prune.DirectRemovalsReached | src/reflake/core/services/tree.py:555-697 | removals that name a direct child of a sharded directory always take effect |
| Prune.PruneIsCompleteIff | src/reflake/core/services/tree.py:555-697 | pruning removes every removed leaf if and only if it reaches every one of them |
| Prune.RemovalMissed | src/reflake/core/services/tree.py:645-648 | a well-formed tree where removing `b/c` leaves it in place because the next shard starts at `b.txt` |
| Query.BisectLeft | src/reflake/core/objects/query.py:67-67 | the binary search finds the first entry not before the name |
| Query.Descend | src/reflake/core/objects/query.py:61-73 | the entry found, exact or the shard before, is the only one every path with that name can go through; none found means no child |
| Query.LookupEntry | src/reflake/core/objects/query.py:204-226 | lookup returns exactly the leaf the flat map has at the path, and ends although shard steps consume no component |
| Query.ResolveDirectory | src/reflake/core/objects/query.py:125-141 | the directory at a path, found exactly if there is one, with its children unpacked |
| Query.IterAllEntries | src/reflake/core/objects/query.py:171-202 | the walk with an explicit stack and resume indices ends and lists the recursive flattening |
| Query.FlattenSound | src/reflake/core/objects/query.py:171-197 | every listed leaf is in the flat map, at the listed path |
| Query.FlattenComplete | src/reflake/core/objects/query.py:171-197 | every leaf of the flat map is listed |
| Query.FlattenAscends | src/reflake/core/objects/query.py:176-178 | the listing ascends strictly in component order, so it lists no path twice |
| Query.MayMatchOnStrings | src/reflake/core/objects/query.py:262-268 | the string test for skipping a subtree skips exactly the subtrees neither above nor below the prefix |
| Query.MatchesOnStrings | src/reflake/core/objects/query.py:273-275 | matching a prefix on strings is being at or below it on components |
| Query.IterEntriesForPrefix | src/reflake/core/objects/query.py:228-270 | the walk that skips subtrees lists exactly the matching part of the full walk, in its order |
| Query.ListedExactly | src/reflake/core/objects/query.py:228-240 | a prefix listing holds exactly the leaves of the flat map at or below the prefix, ascending |
| Frames.MergeParentChildren | src/reflake/core/services/tree.py:1550-1571 | former children show exactly under the names the walk did not bring |
| Frames.CloseFrame | src/reflake/core/services/tree.py:1530-1547 | closing builds the frame's children with the former ones folded in and attaches them under the frame's name, or attaches nothing if there are none |
| Frames.ClosedFrames | src/reflake/core/services/tree.py:1530-1547 | after closing, every open frame still holds all the files read below it and what shows through from before |
| Frames.NewDirectory | src/reflake/core/services/tree.py:325-338 | in a stream that keeps directories together, a directory without an open frame holds none of the files read so far, so no frame is opened twice |
| Frames.FileAdded | src/reflake/core/services/tree.py:340-375 | a file appended to the frame of its directory appears at its path and changes no other path, open subdirectories included |
| Frames.Finish | src/reflake/core/services/tree.py:387-399 | closing all frames yields the tree of all files read, former children showing through |
| Rebuild.StringSortedIsGrouped | src/reflake/core/services/tree.py:701-736 | string order keeps the files of each directory together |
| Rebuild.BuildFromEntries | src/reflake/core/services/tree.py:701-736 | a stream not in ascending string order is refused; a prefix-free one in order becomes a tree holding exactly its leaves, within the node invariant up to m*m children |
| Rebuild.OrdersAgree | src/reflake/core/objects/query.py:176-176 | component order and string order disagree exactly on paths of which one enters a directory whose name the other continues with a character before the slash |
| Rebuild.WalkIsStringSorted | src/reflake/core/services/tree.py:709-713 | a walk can be fed back exactly when no two leaves of the tree are so crossed |
| Rebuild.WalkRebuilds | src/reflake/core/services/tree.py:701-736 | a walk is prefix-free and carries the tree's flat map, so a rebuild of it has the same flat map |
| Rebuild.ShardlessUnique | src/reflake/core/services/tree.py:155-163 | two trees without shards and empty directories that hold the same leaves are the same tree, so they have the same root id |
| Rebuild.SpliceOrBuild | src/reflake/core/services/tree.py:1003-1016 | with a parent the path splice, without one a build from the sorted additions: either way the spliced flat map |
| Worktree.MaterializedIdentity | src/reflake/core/services/tree.py:437-545 | in content mode a committed file's leaf has the digest and size of its content, unless mtimes are trusted and the former leaf is content of the same size and mtime; in the other mode it has the identity of path and size; it is valid, and committing the file again changes nothing |
| Worktree.MaterializedFields | src/reflake/core/services/tree.py:437-545 | field by field: when the former leaf is reused and when a captured footer is folded into it, and what a new leaf holds |
| Worktree.GroupByDir | src/reflake/core/services/tree.py:280-286 | additions are found under their directory and name, the last of equal paths winning |
| Worktree.ParentChildren | src/reflake/core/services/tree.py:288-323 | the former children of a directory are the parent's, shards unpacked, overlaid with its additions, which then no longer wait; the known hashes are those of its node and of the subtrees and shards it points at |
| Worktree.WalkIsStream | src/reflake/core/manifest.py:47-68 | component order keeps directories together too, so the walk is a stream the frames can read |
| Worktree.HandleDirectory | src/reflake/core/services/tree.py:340-375 | one directory's batch goes to its frame, opening and closing others on the way, and takes the additions of just the directories it opens |
| Worktree.BuildInner | src/reflake/core/services/tree.py:260-399 | the tree of the non-removed files with former children showing through, and as leftover exactly the directories with additions that never opened |
| Worktree.InnerIsOverlay | src/reflake/core/services/tree.py:260-399 | at each path: the worktree's file; nothing above or below one; else the addition of an opened directory; nothing below such an addition; else the parent's leaf |
| Worktree.FitsTheRoom | src/reflake/core/objects/tree.py:54-56 | a tree whose leaves come from a worktree, additions and parent with at most m*m names per directory has at most m*m children per directory |
| Worktree.CommittedFile | src/reflake/core/services/tree.py:437-545 | in the list of leaves a full commit stores, each file that is not removed has the digest and size of its own content, unless its size and mtime are trusted against the addition, or else the parent's leaf, at that path |
| Worktree.BuildWorktreeTree | src/reflake/core/services/tree.py:211-258 | the full commit is the inner tree, pruned where pruning reaches, with the leftover additions spliced in; refused exactly when leftovers conflict; always within the node invariant; and with worktree and additions jointly prefix-free, one action staged for each path, and removals inside sharded directories naming direct children, it succeeds, is the overlay, and holds for each kept file the digest and size of its content unless mtimes are trusted and size and mtime are the former leaf's |
| Worktree.CommitIsOverlay | src/reflake/core/services/tree.py:211-258 | with worktree and additions jointly prefix-free, no path both added and removed, and every removed leaf within reach, a full commit holds exactly the non-removed files, the additions not in the worktree, also those below a removal, and the parent's leaves neither removed nor in their way |
| Worktree.FramedNotRemoved | src/reflake/core/services/tree.py:288-323 | an addition taken in by a directory the walk opened is not below a removal |
| Worktree.DirectCommitIsOverlay | src/reflake/core/services/tree.py:211-258 | removals that name direct children of sharded directories are always within reach, so the commit is the overlay |
| Diff.EmitChange | src/reflake/core/services/tree_inspect.py:184-228 | a child on one side only is reported leaf by leaf, each once, in the code-point order of the path strings |
| Diff.ShapeChange | src/reflake/core/services/tree_inspect.py:167-170 | a file replaced by a directory, or the other way round, is reported in full on both sides without naming a path twice |
| Diff.DiffSubtrees | src/reflake/core/services/tree_inspect.py:142-182 | below any directory, despite skipped subtrees, each name is reported as its two children differ, names in order |
| Diff.DiffTrees | src/reflake/core/services/tree_inspect.py:131-140 | each path is reported at most once, with the hashes and sizes of its two leaves, and exactly where the flat maps differ in presence, hash or size; the names at the root come in code-point order |
| Diff.DiffThenSplice | src/reflake/core/services/tree_inspect.py:131-140 | splicing the reported changes into the first tree gives the second tree's presence, hash and size at every path |
| CommitDag.GenerationProvider.Of | src/reflake/core/repository_support.py:62-89 | the stored or derived generation, remembered |
| CommitDag.DerivedIncrease | src/reflake/core/repository_support.py:62-68 | if stored generations exceed those of the parents, so do all, derived ones included |
| CommitDag.NewCommitIncreases | src/reflake/core/services/tree.py:1438-1446 | a commit written with one more than its highest parent keeps generations going up along every edge |
| CommitDag.IsAncestor | src/reflake/core/repository_support.py:21-59 | true exactly when the ancestor is reachable through known commits, for partial histories and mixed stored and derived generations, although old commits are skipped |
| CommitDag.MergeBase | src/reflake/core/repository_support.py:92-129 | a commit is found exactly when there is a common ancestor; every other common ancestor has a lower generation, or the same one and a larger id by code points |
| CommitDag.MergeBaseUnique | src/reflake/core/repository_support.py:92-103 | swapping the commits gives the same merge base |
| CommitDag.NoBetterBelow | src/reflake/core/repository_support.py:95-102 | no common ancestor is a proper descendant of the merge base |
| Objects.ClosureInside | src/reflake/core/services/tree_inspect.py:48-69 | in a store where everything pointed at is present, whatever an object needs is present |
| Objects.AncestorAntisymmetric | src/reflake/core/services/tree.py:1447-1462 | commit ids cover their parents, so two commits that are ancestors of each other are one |
| ObjectStore.DecodeInjective | src/reflake/core/services/tree.py:155-163 | ids are equal exactly when the nodes read back are, so comparing hashes compares trees |
| ObjectStore.SameNodeSameId | src/reflake/core/services/tree.py:155-163 | the same holds whatever was published in between |
| ObjectStore.LearnedIsPresent | src/reflake/core/services/tree.py:300-321 | every hash a client learned from a directory it read, its node and the subtrees and shards that points at, is in the store |
| ObjectStore.WriteTreeBytes | src/reflake/core/services/tree.py:142-163 | written or skipped as learned from a tree in the store, a payload is in the store afterwards, and the store keeps everything pointed at |
| ObjectStore.StoreNode | src/reflake/core/services/tree.py:165-207 | a node published after its subtrees reads back as itself, everything below it present |
| ObjectStore.TreeCache.Put | src/reflake/core/objects/query.py:51-58 | the cache keeps the newest entries up to its limit, and only what the ids stand for |
| ObjectStore.TreeCache.Load | src/reflake/core/objects/query.py:87-96 | with or without a hit, what is read is what the store holds |
| RefProtocol.StoredKept | src/reflake/core/services/refs.py:217-322 | every step of every client, a merge's late look and its writes included, keeps the store closed and complete for all heads |
| RefProtocol.SkippedIsStored | src/reflake/core/services/tree.py:142-163 | a node skipped because its hash is known from a directory of a tree read or written is in the store |
| RefProtocol.ForwardIff | src/reflake/core/services/refs.py:258-322 | a step moves every branch to descendants only, unless it is a merge that wins its compare-and-set without having seen the head, and exactly then |
| RefProtocol.MergeKeepsIff | src/reflake/core/repository.py:172-180 | a winning merge keeps the head it replaces if and only if that head is the target it was resolved to, an ancestor of the source, or the merge itself |
| RefProtocol.MergedIntoHead | src/reflake/core/repository.py:164-180 | a merge that wins its compare-and-set with a snapshot at hand merged into the very head it replaces |
| RefProtocol.HeadsLostExactly | src/reflake/core/repository.py:129-180 | in every run, each head of a branch stays an ancestor of all its later heads if and only if every merge that won had seen the head it replaced |
| RefProtocol.NoHeadIsLost | src/reflake/core/services/refs.py:196-322 | no head is lost in runs where a merge has a snapshot at hand from the start or its late look still finds the target |
| RefProtocol.HeadsAreComplete | src/reflake/core/services/tree.py:1473-1498 | in every run, at every step, all that a branch head needs is in the store, skipped writes included |
| RefProtocol.IncautiousMergeLosesAHead | src/reflake/core/repository.py:129-180 | a run from the empty repository in which a merge without a snapshot replaces a peer's commit by one that does not contain it |
| Refs.RemoteRef.CompareAndSet | src/reflake/core/objects/s3.py:237-273 | read, compare and conditional put succeed only if the ref held the expected commit at that very moment; a failure changes nothing, and without interference and with tags it means the expectation was wrong |
| Refs.LocalRef.CompareAndSet | src/reflake/core/objects/local.py:177-198 | under the lock the ref moves exactly if it held the expected commit |
| Refs.CommitStaged | src/reflake/core/repository.py:284-333 | the first attempt at which the branch is what the client last knew of it wins, so one wins as soon as nobody moves the branch after the re-read; the commit has the message, the replaced head as its only parent, and at every path the leaf the splice leaves of that very head's; a rejection means conflicting or repeated additions |
| Refs.WalkDecidesAncestry | src/reflake/core/services/refs.py:251-256 | what the ancestry walk decides on ids is being an ancestor |
| Refs.DecideForward | src/reflake/core/services/refs.py:258-285 | a fast-forward is tried exactly when the target differs from and descends from what the client expects |
| Reach.KnownIsUnder | src/reflake/core/services/tree.py:300-321 | the node of a directory and the subtrees and shards it points at belong to the tree the client read |
| Reach.PassedIsKnown | src/reflake/core/services/tree.py:841-914 | the hashes passed as known, the node of a directory, a side's node in a merge, or a shard, lie in the closure of the tree they were read from |
| Reach.WalkTrees | src/reflake/core/services/tree_inspect.py:48-69 | the walk ends, meets only nodes below the root, and leaves the shared seen set closed under readable subtrees |
| Reach.HarvestLeaves | src/reflake/core/repository.py:723-732 | the second pass finds exactly the blobs and footers of the nodes met |
| Gc.Mark | src/reflake/core/repository.py:696-732 | it fails exactly on a missing commit; it marks every commit below the heads and nothing beyond the heads' needs, and from intact heads exactly their needs |
| Gc.SweepKind | src/reflake/core/repository.py:758-790 | whatever goes is listed, unmarked and has a known age below the cutoff, and all such objects go; nothing goes in a dry run; the requests, full but the last, name just these in the order of the listing; the counts are the numbers of distinct listed objects of each kind |
| Gc.PruneIsExact | src/reflake/core/repository.py:639-661 | after pruning everything reachable is there and every unreachable listed object of known old age is gone |
| Gc.ClosuresSurvive | src/reflake/core/repository.py:646-653 | if what each new head needs was marked or is young, every branch stays complete through any interleaving of writes, head moves and deletions |
| Gc.SweepIsDeletions | src/reflake/core/repository.py:758-790 | what a sweep does to a store is a run of single deletions, each allowed at its moment |
| Gc.SweepKeepsBranches | src/reflake/core/repository.py:646-653 | so after a whole sweep, at the end of any allowed interleaving, each branch head still has all it needs |
| Gc.ReusedObjectIsLost | src/reflake/core/objects/local.py:98-109 | that assumption is needed: an old unmarked object that a writer reuses keeps its age and can be swept |
| Sync.MissingIds | src/reflake/core/repository_sync.py:60-73 | probing one by one and listing once find the same missing objects |
| Sync.CommitsToCopy | src/reflake/core/repository_sync.py:239-260 | exactly the commits below the head that the other side lacks, parents before children |
| Sync.CollectCandidates | src/reflake/core/repository_sync.py:76-111 | the candidates come from the commits and cover everything their trees point at |
| Sync.BuildPlan | src/reflake/core/repository_sync.py:114-150 | the plan holds exactly the candidates the target lacks |
| Sync.TransferIsRightIff | src/reflake/core/repository_sync.py:239-260 | whatever earlier transfers left, the next one provides all that the head needs if and only if every commit already there comes with its whole tree |
| Sync.CopyHead | src/reflake/core/repository_sync.py:405-440 | an uninterrupted transfer adds exactly the missing commits and their trees; a complete store is complete again, with all that the head needs, before the ref moves; any other has it exactly if the trees of its commits follow |
| Sync.InterruptedTransferMisleads | src/reflake/core/repository_sync.py:86-91 | interrupted after the commit, the next push owes nothing and moves the ref although the tree is missing |
| Operations.RejectConflicting | src/reflake/core/repository_ops.py:37-53 | additions are rejected exactly if some path has another below it and no third one sorts between it and its slash; a rejection is always right |
| Operations.MissedExactly | src/reflake/core/repository_ops.py:40-49 | the neighbour check passes exactly the additions in which every path that has another below it is screened by a third |
| Operations.NeighboursMissAConflict | src/reflake/core/repository_ops.py:44-49 | `a`, `a.txt`, `a/b` pass the neighbour check although `a` is above `a/b` |
| Operations.RepoMove | src/reflake/core/repository_ops.py:233-308 | which moves go through and which are refused for which reason, each as an if-and-only-if on the flat map; a move that goes through renames exactly the leaves under the source, touching no other, if and only if no moved path is an ancestor or descendant of a remaining one; then content arrives with every field unchanged and a pointer with the identity of its new path and size |
| Operations.MoveIsExactIff | src/reflake/core/repository_ops.py:282-293 | the collision check alone does not make a move exact; being clear of remaining paths does |
| Operations.MoveKeepsCount | src/reflake/core/repository_ops.py:233-308 | an exact move keeps the number of leaves |
| Operations.RepoPromote | src/reflake/core/repository_ops.py:393-522 | every pointer in scope becomes content with the digest of its source, the same size, mtime and footer and no source; every other leaf stays; the count is the number of pointers in scope, and without any nothing is committed; a missing source is reported for a pointer in scope that has none |
| Operations.PromotionKeeps | src/reflake/core/repository_ops.py:473-488 | promotion keeps paths, sizes and footers and leaves only content in scope |
| Multipart.PartSizeFor | src/reflake/core/objects/multipart.py:38-42 | 64 MiB for at most that much, above it the least size of at least 5 MiB with which 10,000 parts suffice |
| Multipart.UploadStream | src/reflake/core/objects/multipart.py:64-132 | the store receives just the source: in one piece within the threshold, above it in parts of which the first is one byte longer |
| Multipart.UploadFile | src/reflake/core/objects/multipart.py:135-162 | at most 10,000 parts, each but the last of at least 5 MiB and of the one computed size, the first a byte longer, whose concatenation is the file; in one piece exactly up to 64 MiB |
| Codec.EncodeThenParse | src/reflake/core/entry_codec.py:173-201 | a valid entry reads back as itself |
| Codec.ParseThenEncode | src/reflake/core/entry_codec.py:308-335 | whatever is read is valid, and writing it again gives the line with its fields converted to text and numbers, but for a null marker or extra fields at its end |
| Codec.ParsedStands | src/reflake/core/entry_codec.py:308-335 | a line reads as an entry exactly if it has the fields of its kind, in number and order, and they hold a lower-case digest, sizes and times not negative, a footer digest and a source and marker that are not blank, each where the kind has one |
| Codec.RefusedAs | src/reflake/core/entry_codec.py:182-201 | which lines are refused for their kind or their number of fields before any field is looked at |
| Codec.EncodeInjective | src/reflake/core/entry_codec.py:277-305 | different entries are written differently |
| Codec.ParseTree | src/reflake/core/objects/tree.py:68-84 | a node is read exactly when its lines, fields converted, stand for entries whose names are single components ascending by code points, and then as these entries |
| Codec.GuardTree | src/reflake/core/objects/tree.py:92-123 | the guard accepts exactly lines of three or more fields whose kind, converted to text, is one of the six and whose names are single components ascending by code points |
| Codec.GuardIsSafe | src/reflake/core/objects/tree.py:92-103 | the reader accepts nothing the guard refuses, and reads back every guarded node of valid lines |

## Left out

- Merge.MergeTrees: that the merged directories have at most m*m children is a condition on the result, since two sides within it can merge to more.
- Rebuild.BuildFromEntries: of sorted streams that are not prefix-free nothing is said; where a name is both a file and a directory, Builder.BuildChildren says when that directory is refused.
- Rebuild.SpliceOrBuild: without a parent, of conflicting additions nothing is said, for the same reason.
- Builder.PlainBuilt: the node invariant beyond m*m children per directory is not claimed, because there the builder nests shards.
- Worktree.CommitIsOverlay: assumes that every removed leaf is within pruning's reach; Prune.RemovalTouches and Prune.DirectRemovalsReached say when it is.
- Worktree.BuildWorktreeTree: takes the walk's order and prefix-freeness as facts about the file system, and room for at most m*m names per directory; ignore rules, parallel hashing and the blobs written on the way are not modelled.
- Refs.CommitStaged: on a branch without commits, of conflicting or repeated additions nothing is said, as in Rebuild.SpliceOrBuild; what other clients do between the reads is given with each attempt.
- Gc.ClosuresSurvive: the marked heads are read in one step, and deletions before a head move are steps of their own.
- Sync.CopyHead: transfers that fail halfway are covered only by the lemma on interrupted transfers, and the batch backend is not part of this model.
- Codec.Parse: how the language turns a value of another type into text or a number is a parameter; blank lines, byte decoding and the line separators U+0085, U+2028 and U+2029 are not modelled.
- Operations.RepoMove: paths are given as components; trimming and checking path strings is not modelled.
- RefProtocol.StoredKept: reset, branch deletion and reflogs are not steps, since they may move a branch backwards on purpose.
- Real digests, JSON text, locks, temporary files, threads, retries of the object service and all network traffic.
- Commit messages, timestamps and mtimes are carried along without meaning; an object's age is the only clock.
- Footer decoding, row-group pruning, the query language, ignore globs, the file system view, configuration and the command line.
- Restoring files, transfer command lists, status, log and S3 imports, which only use the operations above.
