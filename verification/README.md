# Index synchronisation, modelled and proved in Dafny

The system keeps a chunk and embedding index of a repository up to date. A repository is walked into a Merkle tree
that is hashed bottom up; the tree is compared, with pruning of equal subtrees, to the snapshot saved last; the files
that changed are chunked, embedded and merged into the index. A sync job and an index job drive this with retries and
checkpoints over a snapshot store. A second, smaller part is the agent's tool-calling loop.

This project models those parts and proves what they are for:

- **The pruned difference is the flat difference.** For any two hashed trees the recursive difference reports exactly
  the files that were added, removed or whose node hash changed, each once, sorted, and patching with it gives the new
  files. It rests on decoding the hash preimages from the right, so newlines and `|` in names do no harm.
- **Saving and restoring a snapshot does not matter**: a difference against the tree rebuilt from its rows, whose root
  carries no hash, is the difference against the original.
- **Incremental equals full.** Over every sequence of directory trees, walking, hashing, saving, reloading, diffing and
  applying each delta leaves the index, embeddings included, that a full rebuild of the last tree stores, *exactly when*
  no file is blank that had other contents earlier in its current life. The merge keeps the old rows of such a file.
- **Lost and skipped deltas have an exact price.** Over every run of both jobs, with any walk, save, enqueuing or apply
  failing, with retries, restarts and lost acknowledgements, the index equals the rebuild *exactly when* the text it
  still holds of each file has the chunks of the file's current contents. A delta reaches the index exactly when it is
  queued, some try of its job takes effect, and the checkpoint does not hold its record from an earlier visit to the
  same state.
- **Runs of the jobs and of the store** keep their invariants whatever fails: one active snapshot per scope at every
  statement of a transaction, at most one save and one enqueuing on an unchanging repository, parent links that are
  acyclic exactly while no root hash returns, a checkpoint that is the last applied record of its key.
- **The chunker** terminates with at most one window per line, loses no text and respects both limits.
- **What is hashed, stored, reported and sent is stated field by field**: preimages as text, every column of the rows, the
  records and payloads in terms of the files on disk, the chunk texts, and the messages and outputs of a turn.
- **The tool-calling loop** is bounded and its transcript is well formed for every provider and dispatcher.

Assumptions are explicit hypotheses, never axioms. SHA-256 is a parameter `H` that yields 64 hexadecimal characters
and does not collide on the strings hashed in the trees and records at hand. The embedder is a deterministic function of
a text. A database transaction is all or nothing. The paths of walks, and of the deltas they lead to, are normal:
trimmed, clean, slash-separated, without backslash.

## How it is organised

| files | content |
|---|---|
| `Basics`, `Paths`, `PathFacts`, `PathRules` | results, strings, decimal numbers, sorting, path normalisation, its rules and fixed points |
| `MerkleHash`, `MerkleHashing`, `PreimageTexts` | preimages and digests; the in-place hashing of a node tree; the hashed texts written out |
| `FlatDiff`, `MerkleDiff`, `MerkleDiffing`, `DeltaRecords`, `RootChanges` | the reference difference, the pruned one, its loops, what its records say, and what a root hash tells |
| `NodeTree`, `SnapshotTree`, `SnapshotBuild`, `SnapshotRestore` | building trees from entries, snapshots of walks, saving and restoring |
| `Discovery`, `IndexableNames`, `WalkFiles`, `RepositoryWalk` | the walks over a directory tree, the flat filter, the files and hashes a walk leads to |
| `Chunker`, `ChunkerFacts`, `ChunkTexts` | the chunker, its properties, and the texts of its chunks |
| `ChunkIndex`, `ChunkIndexing`, `DeltaApply`, `DeltaPaths`, `IndexStoring` | records, refresh, merge, delta application, rebuild, the chunk table |
| `IndexRecords`, `IndexFacts`, `IndexTheorems`, `ApplyTwice`, `MergeAgreement` | the rows column by column, reuse of embeddings, order of records, applying a delta twice, agreement of the merges |
| `IndexRuns`, `Worlds`, `SyncRuns` | one delta, the states of a repository, whole runs with and without lost deltas |
| `SnapshotStore`, `SnapshotStoreFacts`, `StoredRows`, `ParentLinks`, `SnapshotStoring` | the snapshot tables, their invariant, the rows column by column, the parent links, the transaction |
| `SyncWorker`, `SyncWorking`, `SavedStates`, `SyncEffects`, `SyncDelivery` | the sync job, its runs, what an execution stores, reports and enqueues, and what a run delivers |
| `IndexWorker`, `IndexOutcomes`, `IndexTurns`, `JobPipeline`, `ReturningState` | the index job, what it reports, its retries and restarts, both jobs together, a run whose last job is skipped |
| `Orchestrator`, `TurnFacts` | the tool-calling loop, and a turn message by message |

`dafny verify dfyconfig.toml` checks everything.

## Model

| member | source | states |
|---|---|---|
| `PathFacts.FixedIffNormal` | internal/indexsync/snapshot/filter.go:64-87 | the snapshot normaliser leaves a path alone if and only if it is normal |
| `PathFacts.SnapshotPathTwice` | internal/indexsync/snapshot/filter.go:64-87 | normalising again changes nothing if and only if the first kept component does not begin, and the last does not end, in white space |
| `PathFacts.RelativePathTwice` | internal/indexing/records.go:67-89 | the same exact condition for the index normaliser, backslashes included |
| `PathFacts.NotIdempotent` | internal/indexsync/snapshot/filter.go:64-75 | both normalisers turn `./ a` into a path with a leading blank, and that path into `a` |
| `PathRules.NormalizedIff` | internal/indexing/records.go:67-89 | a path is refused if and only if it is blank, absolute, names the root or leaves it; otherwise its cleaned components are joined |
| `PathRules.DotsDrop` | internal/indexing/records.go:76 | cleaning drops empty components and dots wherever they stand |
| `PathRules.ParentCancels` | internal/indexing/records.go:76 | cleaning drops a component together with the two dots after it |
| `PathRules.CleanStays` | internal/indexing/records.go:76 | two dots that nothing precedes stay, and so do plain components; with the rules above this determines the cleaned path |
| `PathRules.SnapshotPathIs` | internal/indexsync/snapshot/filter.go:64-87 | the snapshot normaliser is the index normaliser after every backslash has become a slash |
| `MerkleHash.HashDirectoryNode` | internal/indexsync/snapshot/hash.go:31-50 | the loop over the children computes the digest of the directory preimage, whose text `PreimageTexts.DirectoryHashIs` writes out, or the first error |
| `PreimageTexts.DirectoryHashIs` | internal/indexsync/snapshot/hash.go:31-50 | a directory is hashed if and only if its path can be normalised and every child has a name and a digest; its digest is that of the path line, the type line and one line per child with name, type and digest |
| `PreimageTexts.DirPreimageText` | internal/indexsync/snapshot/hash.go:37-49 | the directory preimage as text |
| `PreimageTexts.FilePreimageText` | internal/indexsync/snapshot/hash.go:109-127 | the file preimage as text: path, type, content digest and size, one line each |
| `PreimageTexts.ChildLineInjective` | internal/indexsync/snapshot/hash.go:46 | for files and directories with digests a child line determines name, type and digest |
| `MerkleHash.FilePreimageInjective` | internal/indexsync/snapshot/hash.go:109-127 | equal file preimages have equal path, content hash and size, whatever characters the path contains |
| `MerkleHash.FileIsNotDir` | internal/indexsync/snapshot/hash.go:31-50 | no file preimage is a directory preimage |
| `MerkleHash.EqualPreimageEqualChildren` | internal/indexsync/snapshot/hash.go:37-49 | equal directory preimages have equal paths and equal children, recursively, although names may contain newlines and bars |
| `MerkleHash.EqualHashEqualTree` | internal/indexsync/snapshot/hash.go:31-127 | without collisions, equal node hashes mean equal paths, kinds, content hashes and sizes in the whole subtree |
| `MerkleHash.HashTreeIsHashed` | internal/indexsync/snapshot/hash.go:64-107 | after hashing every node carries the digest of its preimage and every non-root node its parent's final digest; paths, kinds and sizes are unchanged |
| `MerkleHashing.Node.AssignHashes` | internal/indexsync/snapshot/hash.go:64-107 | the in-place recursion leaves the nodes holding exactly the hashed tree and returns its digest or its error |
| `MerkleHashing.Node.HashNodeTree` | internal/indexsync/snapshot/hash.go:52-62 | the same from the root, whose missing type becomes directory |
| `MerkleDiff.SubtreeExact` | internal/indexsync/diff/merkle_diff.go:111-144 | collecting a subtree lists each of its files exactly once as added or deleted |
| `MerkleDiff.PruningIsExact` | internal/indexsync/diff/merkle_diff.go:61-63 | skipping two subtrees with equal hashes skips no change |
| `MerkleDiff.DiffIsFlat` | internal/indexsync/diff/merkle_diff.go:11-144 | the pruned difference of two snapshots equals the sorted flat difference of their file maps, for present, absent, built and restored snapshots |
| `MerkleDiff.EqualRootsNoChange` | internal/indexsync/diff/merkle_diff.go:20-22 | equal root hashes mean equal trees and an empty flat difference |
| `MerkleDiff.PatchGivesCurrent` | internal/indexsync/diff/merkle_diff.go:11-40 | patching the old file map with the reported changes gives the new one, also where a path turns from file to directory |
| `MerkleDiff.RestoredRootSameChanges` | internal/indexsync/diff/merkle_diff.go:20-22 | a previous root without its own digest leads to the same changes |
| `FlatDiff.FlatIsExact` | internal/indexsync/diff/delta.go:33-64 | the reference difference holds a record for a path exactly when its file was added, removed or re-hashed, each path once, in order |
| `DeltaRecords.ChangesTell` | internal/indexsync/diff/merkle_diff.go:11-144 | every record of a difference has the previous and current hashes of its file in the two snapshots, empty where it is absent, and the operation that the two say; every touched file has exactly one record; paths increase |
| `DeltaRecords.LexLeIff` | internal/indexsync/diff/delta.go:38-45 | paths are ordered byte by byte: a prefix first, otherwise by the first difference |
| `DeltaRecords.DeltaLeIff` | internal/indexsync/diff/delta.go:37-64 | records are ordered by path, those of one path by addition, modification, deletion |
| `MerkleDiffing.SyncDeltaSet.AddChange` | internal/indexsync/diff/delta.go:33-35 | one change is appended |
| `MerkleDiffing.SyncDeltaSet.SortChanges` | internal/indexsync/diff/delta.go:37-64 | the changes become a permutation of themselves ordered by path and operation |
| `MerkleDiffing.CollectSubtree` | internal/indexsync/diff/merkle_diff.go:111-144 | the recursion appends the subtree's changes to the shared set, or stops with the first error |
| `MerkleDiffing.ChildrenByPath` | internal/indexsync/diff/merkle_diff.go:146-155 | the loop fills the map in which the last child of a path wins |
| `MerkleDiffing.DiffNodeRecursive` | internal/indexsync/diff/merkle_diff.go:42-81 | appends the changes between two optional nodes: one-sided, type switch, pruned, file, directory |
| `MerkleDiffing.DiffChildren` | internal/indexsync/diff/merkle_diff.go:83-109 | the loop over the sorted union of child paths appends the changes of each pair |
| `MerkleDiffing.DiffSnapshots` | internal/indexsync/diff/merkle_diff.go:11-40 | a fresh set with both root hashes and the sorted changes, or the error and no changes |
| `RootChanges.RootHashesDecideTrees` | internal/jobs/river/sync_worker.go:142-145 | without collisions root hashes are equal if and only if the trees are, directories included |
| `RootChanges.EmptyDeltaIffSameFiles` | internal/jobs/river/sync_worker.go:178-181 | the delta is empty if and only if the file maps are equal |
| `RootChanges.AddedDirectory` | internal/indexsync/snapshot/builder.go:67-71 | adding an empty directory to any walk changes the root hash and leaves the delta empty in both directions, so an empty delta does not mean an equal root |
| `NodeTree.BuildNodeTree` | internal/indexsync/snapshot/builder.go:136-175 | the loop over sorted entries with its map of nodes computes the specified tree or error |
| `NodeTree.BuildIsCanonical` | internal/indexsync/snapshot/builder.go:136-175 | on distinct normal paths it succeeds exactly when every non-root parent is present, with the one tree that the set of entries determines |
| `NodeTree.BuildIgnoresOrder` | internal/indexsync/snapshot/builder.go:147-174 | every permutation of the entries gives the same tree |
| `SnapshotBuild.TreeHoldsEntries` | internal/indexsync/snapshot/builder.go:154-171 | the entries below the root of the tree are exactly the given entries |
| `SnapshotBuild.PreorderLists` | internal/indexsync/snapshot/builder.go:177-192 | a walk over a tree lists every entry exactly once |
| `SnapshotBuild.SnapshotBuilt` | internal/indexsync/snapshot/builder.go:102-133 | the snapshot of every walk exists, is well formed and hashed, and records exactly the files on disk with the digests of their contents |
| `SnapshotTree.TreeAtRebuilds` | internal/indexsync/snapshot/builder.go:136-175 | a sorted tree is the tree of its own entries |
| `SnapshotRestore.SnapshotFromMerkleNodes` | internal/jobs/river/sync_worker.go:349-375 | the loop turns rows into entries and rebuilds the tree |
| `SnapshotRestore.RestoredTree` | internal/jobs/river/sync_worker.go:349-397 | rows saved, read back in path order and rebuilt give the same children under a root without a hash |
| `SnapshotRestore.RestoredDiffSame` | internal/jobs/river/sync_worker.go:332-397 | the restored snapshot has the same difference to every snapshot as the original |
| `SnapshotRestore.CopyBack` | internal/indexsync/snapshot/builder.go:113-126 | each entry is replaced by the hashed entry of its path |
| `SnapshotRestore.CopyBackLists` | internal/indexsync/snapshot/builder.go:113-126 | the entries after the copy-back list the hashed tree, each path once |
| `SnapshotRestore.WalkRestores` | internal/indexstore/sync_store.go:306-347 | for every walk: the snapshot saved as rows, loaded and rebuilt diffs like the one in memory |
| `WalkFiles.WalkFilesAre` | internal/indexsync/snapshot/builder.go:78-133 | the files of the snapshot of a walk are those of the disk, each with its size and the digests of its contents, whatever directories the walk lists |
| `Chunker.ChunkDocumentWithPolicy` | internal/indexing/chunker.go:27-82 | the nested loops return the numbered texts of the specified windows |
| `Chunker.WindowEnd` | internal/indexing/chunker.go:43-60 | the inner loop stops at the first end that a limit demands |
| `ChunkTexts.ChunksAre` | internal/indexing/chunker.go:27-82 | the chunks are the texts of the windows that are not blank, in order, numbered from zero, each without the white space around it and nothing else missing |
| `ChunkTexts.LinesAre` | internal/indexing/chunker.go:35-38 | the lines spell out the text, none is empty, newlines stand only at their ends, and all but the last end in one |
| `ChunkTexts.NewlinesReplaced` | internal/indexing/chunker.go:30 | every pair of carriage return and newline becomes a newline |
| `ChunkTexts.NewlinesKept` | internal/indexing/chunker.go:30 | a text without such a pair is left as it is |
| `ChunkTexts.LimitsAre` | internal/indexing/chunker.go:84-101 | given limits are kept, missing ones are 1200 bytes and 40 lines, the overlap is at least 0 and shorter than the line limit |
| `ChunkTexts.WindowStarts` | internal/indexing/chunker.go:70-78 | windows start at the first line and reach the last; each next one starts the overlap before the end of the one before, or at that end if this would not be later |
| `ChunkerFacts.StepAdvances` | internal/indexing/chunker.go:74-78 | the next window starts later, not after the end, and never ends earlier; one that repeats the end has exactly the overlap's lines |
| `ChunkerFacts.NoTwoStalls` | internal/indexing/chunker.go:74-78 | of two consecutive steps one reaches a new line |
| `ChunkerFacts.ChunkingProgresses` | internal/indexing/chunker.go:41-79 | starts strictly increase, ends never decrease, two steps always gain a line, at most one window per line |
| `ChunkerFacts.WindowsCoverText` | internal/indexing/chunker.go:30-82 | for every text and policy the windows without their overlaps spell out the text with normalised newlines |
| `ChunkerFacts.WindowLimits` | internal/indexing/chunker.go:45-56 | a window of more than one line obeys both limits, and any window stops early only when one more line breaks a limit |
| `ChunkerFacts.ChunksAreClean` | internal/indexing/chunker.go:62-68 | chunks are numbered from 0, trimmed and not empty |
| `ChunkerFacts.NoChunksIffBlank` | internal/indexing/chunker.go:30-33 | a document has no chunks if and only if it is blank |
| `ChunkIndexing.BuildChunkRecords` | internal/indexing/records.go:25-65 | the nested loops build all records in order or return the first error |
| `IndexRecords.RecordsIff` | internal/indexing/records.go:25-65 | records are built if and only if the session is named, the paths can be normalised and the chunks are numbered from zero and not blank; each has its columns and the digest of path, number and content |
| `PreimageTexts.ChunkPreimageInjective` | internal/indexing/records.go:91-94 | for paths without newlines the hashed text of a chunk determines its path, its number and its content |
| `ChunkIndexing.RefreshEmbeddingsForChangedChunks` | internal/indexing/embedding_refresh.go:16-87 | matched records take the stored embedding, the others the vectors in order, with every error case and the one batch sent |
| `IndexRecords.RefreshIff` | internal/indexing/embedding_refresh.go:16-87 | refreshing succeeds if and only if no record is missing or the embedder answers the missing texts, sent in one batch and in order, with one vector each of a positive dimension; each record takes the row of its chunk and digest, or the vector at its place |
| `IndexRecords.LastRowCounts` | internal/indexing/embedding_refresh.go:26-29 | of existing rows with one key the last counts |
| `ChunkIndexing.MergeChunkRecords` | internal/indexing/embedding_refresh.go:89-145 | rows of deleted paths and of refreshed records are replaced, the rest kept, the result sorted |
| `IndexRecords.MergedIff` | internal/indexing/embedding_refresh.go:89-145 | a merge is refused if and only if a path cannot be normalised or an existing row is of another scope |
| `ChunkIndexing.BuildChunkDelta` | internal/indexing/chunk_delta.go:11-74 | rows of deleted paths and of all documents are replaced, the rest kept, the result sorted |
| `ChunkIndexing.DeleteChunksForFile` | internal/indexing/chunk_delta.go:76-91 | the rows of one normalised path are dropped, the others stay in order |
| `IndexFacts.ChunkKeyInjective` | internal/indexing/embedding_refresh.go:147-149 | a chunk key determines path and index even if the path contains colons |
| `IndexFacts.ReuseIsSound` | internal/indexing/embedding_refresh.go:26-86 | reusing embeddings equals embedding every chunk afresh, and exactly the unmatched contents are sent, in order |
| `IndexFacts.MergedElements` | internal/indexing/embedding_refresh.go:95-144 | a row is in the merge if and only if it is refreshed or an old row on a path neither deleted nor refreshed |
| `MergeAgreement.MergesAgree` | internal/indexing/chunk_delta.go:28-34 | the two merges agree on scope, path, index, content and hash if and only if no undeleted document without chunks has an existing row |
| `IndexTheorems.RecordsOrdered` | internal/indexing/records.go:36-62 | the records of documents in path order are strictly ordered, in scope, and carry their own hash |
| `ApplyTwice.ApplyIdempotent` | internal/indexing/delta_apply.go:67-113 | for every delta that was applied: applying it again on an unchanged disk leaves rows and result equal and calls no embedder, even without one, if and only if every path it writes is a path it clears; otherwise it fails |
| `ApplyTwice.SteadyReplaces` | internal/indexing/delta_apply.go:136-156 | deltas whose paths normalise to fixed points meet that condition on every disk |
| `ApplyTwice.NotIdempotentAt` | internal/indexing/embedding_refresh.go:104-110 | a delta that adds the file of `./ ./ a` is applied once and fails when it is retried |
| `DeltaPaths.SyncDeltaFromSet` | internal/jobs/river/sync_worker.go:420-455 | every change becomes a file record with its action and its four hashes, in order, under the ids and root hashes of the two snapshots |
| `DeltaPaths.CollectSucceeds` | internal/indexing/delta_apply.go:136-156 | collecting fails if and only if some file change has an unusable path or an unknown action |
| `DeltaPaths.LastActionWins` | internal/indexing/delta_apply.go:136-156 | a path is upserted or deleted if and only if its last file action says so; never both |
| `DeltaPaths.CollectDeltaPaths` | internal/indexing/delta_apply.go:132-169 | the loop over two sets returns both as sorted lists without repetition, or the first error |
| `DeltaPaths.MaterializeChangedFiles` | internal/indexsync/diff/materialize.go:5-34 | the loop with its seen-maps returns the sorted sets of trimmed upsert and delete paths |
| `DeltaPaths.MaterializeAgrees` | internal/indexsync/diff/materialize.go:5-34 | on distinct normal paths the applier and MaterializeChangedFiles name the same upserts and deletes |
| `Worlds.DiffPaths` | internal/jobs/river/sync_worker.go:420-455 | on every delta of two snapshots both are exactly the added or re-hashed paths and the vanished paths |
| `Worlds.NodeHashIff` | internal/indexsync/snapshot/hash.go:109-127 | the node hashes of a file in two states are equal if and only if its contents and sizes are |
| `Worlds.ChangesTouch` | internal/jobs/river/sync_worker.go:420-455 | the delta of two states upserts exactly the files that are new or have other contents or another size, and deletes exactly the vanished ones |
| `IndexStoring.IndexStore.ReplaceRepoIndex` | internal/indexstore/store.go:65-106 | succeeds if and only if the scope is given, the chunks are in it and distinct and no statement from begin to commit fails; then the scope's rows are the chunks and other scopes keep theirs, otherwise the whole table is as it was |
| `IndexRecords.ReplaceErrorIff` | internal/indexstore/store.go:65-106 | rows can be stored if and only if the scope is named, all are of it, and no two have one path, number and digest |
| `IndexStoring.IndexStore.ListRepoIndex` | internal/indexstore/store.go:108-153 | the scope's rows ordered by path and index, or the error of scope or database |
| `IndexStoring.DeltaApplier.ApplyDeltaToIndex` | internal/indexing/delta_apply.go:45-114 | on success the scope's stored rows are the specified merge; on any error, a failing statement included, nothing changes; other scopes never change |
| `IndexOutcomes.FilesTouchedAre` | internal/indexing/delta_apply.go:108-113 | an applied delta touches as many files as its file changes name paths, and leaves as many chunks as the index has rows |
| `IndexStoring.Rebuilder.RunFullRebuild` | internal/indexing/rebuild.go:50-156 | the same for a rebuild, and the reported counts, model and dimension are those of the stored rows |
| `IndexRecords.EmbeddedIff` | internal/indexing/rebuild.go:100-146 | the batch of a rebuild is stored if and only if the embedder answers all texts, sent at once and in order, with one vector each of a positive dimension and the rows can be stored; each row takes the vector at its place |
| `IndexRuns.RebuildMember` | internal/indexing/rebuild.go:80-146 | a row is in the rebuilt index if and only if it is one of its own file's embedded chunks; rows are strictly ordered |
| `IndexRuns.RebuildIs` | internal/indexing/rebuild.go:50-156 | RunFullRebuild succeeds and stores exactly those rows |
| `IndexRuns.MergeStep` | internal/indexing/embedding_refresh.go:89-145 | merging new rows into the index of earlier contents gives the index of the next contents |
| `IndexRuns.ApplyStep` | internal/indexing/delta_apply.go:67-113 | applying upserts and deletes succeeds and stores the index of the next contents |
| `SyncRuns.EffectiveIffFilled` | internal/indexing/embedding_refresh.go:104-110 | the index reflects a file if and only if it was filled at some point since which it has existed |
| `SyncRuns.CarriedIff` | internal/indexing/embedding_refresh.go:104-110 | with deltas lost along the way: the index holds a text of a file if and only if some delivered delta brought it and no later delivered one replaced or deleted it, and it is that text |
| `SyncRuns.LossyRunReflects` | internal/indexing/delta_apply.go:45-114 | after every run, whichever deltas are lost, the index is a rebuild of exactly the held texts |
| `SyncRuns.RowsAgreeIff` | internal/indexing/rebuild.go:80-146 | two states have the same rebuilt rows if and only if every path has the same chunks in both |
| `SyncRuns.LossyRunEqualsRebuild` | internal/indexing/rebuild.go:50-156 | a run with lost deltas leaves what RunFullRebuild writes for the last state if and only if every path is settled: the held text has the current chunks, and a file of which none is held is absent or blank |
| `SyncRuns.LostDelta` | internal/jobs/river/sync_worker.go:183-191 | the smallest run that fails: one state with a filled file whose delta is lost leaves an empty index, unlike its rebuild |
| `SyncRuns.RunReflects` | internal/indexing/delta_apply.go:45-114 | after every run the index is a rebuild of each file's last filled contents in its current life |
| `SyncRuns.RunEqualsRebuild` | internal/indexing/rebuild.go:50-156 | a run leaves what RunFullRebuild writes for the last state, embeddings included, if and only if no file is blank that was filled earlier in its current life |
| `Discovery.WalkIsFilter` | internal/indexing/file_discovery.go:34-104 | for every tree with normal names the pruned walk reaches exactly the files that ShouldIndexPath accepts, in the same order |
| `Discovery.WalksAgree` | internal/indexsync/snapshot/builder.go:45-97 | the snapshot walk and the discovery walk see the same files |
| `Discovery.DiscoverIndexableFiles` | internal/indexing/file_discovery.go:34-86 | the walk that appends to a list and sorts it returns the accepted files in order |
| `Discovery.VisitEntries` | internal/indexsync/snapshot/builder.go:44-97 | the snapshot callback appends the entries of entered directories and accepted files |
| `Discovery.FileAccepted` | internal/indexsync/snapshot/filter.go:29-53 | the flat filter accepts a file if and only if no directory above it is skipped, its name is visible and its extension indexable |
| `IndexableNames.IndexedIff` | internal/indexsync/snapshot/filter.go:29-53 | a normal path is indexed if and only if no component is hidden, no directory has one of the six skipped names and its suffix is one of the seven indexed ones, in capitals or not |
| `IndexableNames.ExtensionIs` | internal/indexsync/snapshot/filter.go:51 | the extension runs from the last dot of the name |
| `IndexableNames.SkippedAre` | internal/indexsync/snapshot/filter.go:55-62 | the directories that are skipped: hidden ones and the listed names, in capitals or not |
| `IndexableNames.EntryIsFile` | internal/indexsync/snapshot/builder.go:66-96 | every file entry of a walk has the path, the size and the time of a regular file of the tree; directory entries have only paths |
| `IndexableNames.ContentIsFile` | internal/indexing/file_discovery.go:34-86 | the contents that are hashed and indexed under a path are those of the file there |
| `RepositoryWalk.WalkIsWorld` | internal/indexsync/snapshot/builder.go:45-97 | every walk delivers distinct normal paths, all parents, only directories above entries, and the files with contents |
| `RepositoryWalk.DiscoveredAreSnapshotFiles` | internal/indexing/file_discovery.go:80-86 | the files a rebuild discovers are exactly the files of the snapshot, in order |
| `RepositoryWalk.DirectoriesConverge` | internal/indexing/delta_apply.go:45-114 | for every sequence of directory trees the incremental index equals the full rebuild of the last one under the same exact condition |
| `RepositoryWalk.EmptiedFile` | internal/indexing/embedding_refresh.go:104-110 | over the two directory trees of one file, filled and then blank, the incremental index is not the full rebuild |
| `SnapshotStoreFacts.UpsertRootFacts` | internal/indexstore/sync_store.go:396-415 | upserting a root reuses the row of its hash or adds one, keeps the invariant and touches no other row |
| `SnapshotStoreFacts.SaveIsSafe` | internal/indexstore/sync_store.go:227-270 | unique root hashes, at most one active snapshot per scope and no orphan nodes before, between and after all statements of every save |
| `SnapshotStoreFacts.SaveEffect` | internal/indexstore/sync_store.go:210-273 | a committed save leaves exactly its nodes and file states, when active as the only active snapshot and the only one with nodes; other scopes are untouched |
| `StoredRows.SnapshotRowsAre` | internal/indexstore/sync_store.go:24-73 | the snapshot rows after a save, column by column: the saved row, the superseded ones with their status and completion, all others as they were |
| `StoredRows.ContentRowsAre` | internal/indexstore/sync_store.go:75-145 | the node rows and the file rows after a save, column by column, blank texts as NULL, deletion times only for files that are not active |
| `StoredRows.SaveErrorIff` | internal/indexstore/sync_store.go:546-600 | a save is valid if and only if scope and root hash are named, every node has path, digest, type and status, and every file state is of the scope with path and status |
| `StoredRows.ListedFirst` | internal/indexstore/sync_store.go:148-163 | which of two snapshots is listed first: active, completed later, created later, larger id |
| `SnapshotStoreFacts.ActiveIsLatest` | internal/indexstore/sync_store.go:148-163 | after an active save the row that is loaded is the saved one and no other |
| `SnapshotStoreFacts.InactiveSave` | internal/indexstore/sync_store.go:251-266 | a save that is not active leaves the scope an active snapshot if and only if one with another root hash was active |
| `SnapshotStoreFacts.NodesAreSavedRows` | internal/indexstore/sync_store.go:450-488 | saving a snapshot's entries stores exactly their rows |
| `SnapshotStoreFacts.RunsOfSaves` | internal/indexstore/sync_store.go:210-273 | over every run of saves, failed ones included, the invariant holds and each scope is as its last committed save left it |
| `ParentLinks.LinksAcyclicIff` | internal/indexstore/sync_store.go:26-30 | over every run of saves that name the latest snapshot as parent the links are acyclic if and only if the saved root hashes are pairwise distinct |
| `ParentLinks.SaveKeepsAcyclicIff` | internal/indexstore/sync_store.go:26-30 | such a save keeps acyclic links acyclic if and only if no row of the scope has its root hash yet |
| `ParentLinks.ReturnIsCyclic` | internal/indexstore/sync_store.go:26-30 | saving one root hash, another and the first again closes a cycle |
| `SnapshotStoring.SyncStore.UpsertSnapshotRoot` | internal/indexstore/sync_store.go:396-415 | the statement's effect and the id it returns |
| `SnapshotStoring.SyncStore.BulkUpsertSnapshotNodes` | internal/indexstore/sync_store.go:450-470 | the loop runs one upsert per node and stops at the first failure |
| `SnapshotStoring.SyncStore.ClearStaleSnapshotNodes` | internal/indexstore/sync_store.go:472-488 | only the given paths stay |
| `SnapshotStoring.SyncStore.BulkUpsertFileState` | internal/indexstore/sync_store.go:490-526 | the loop runs one upsert per file state and stops at the first failure |
| `SnapshotStoring.SyncStore.ClearStaleFileState` | internal/indexstore/sync_store.go:528-544 | only the given paths stay in the scope |
| `SnapshotStoring.SyncStore.SaveSnapshotState` | internal/indexstore/sync_store.go:210-273 | succeeds if and only if the save is valid and no statement fails; then it is committed as a whole, otherwise nothing changes |
| `SnapshotStoring.SyncStore.LoadLatestSnapshot` | internal/indexstore/sync_store.go:275-394 | the first row in the listing order with its nodes and the scope's file states in path order, or none if the scope has none |
| `SyncWorker.ExecutionKeeps` | internal/jobs/river/sync_worker.go:105-205 | whatever fails, an execution either has no effect or saves a new state, and the delta it attempts leads from the state saved before |
| `SavedStates.StateIsSaved` | internal/jobs/river/sync_worker.go:159-175 | after an execution that saves a walked state the scope holds exactly that state: the active row of its root hash, one file row per file and one node row per entry, with the digests of contents and node texts, directory digests, sizes and times |
| `SavedStates.EntryIs` | internal/indexsync/snapshot/builder.go:102-133 | each entry of a snapshot has the size and time of its walk, the digest of its directory and, for files, those of its contents and its node text |
| `SyncEffects.OutcomeIs` | internal/jobs/river/sync_worker.go:105-205 | the job reports a current snapshot if and only if the latest row has its root hash, no deltas if and only if no file differs, and otherwise what became of the save and the enqueuing |
| `SyncEffects.PayloadIs` | internal/jobs/river/sync_worker.go:183-191 | whatever is enqueued names the scope, the saved row and root hash and the one before, and has one record per file that differs, in path order, with its action and the digests of its contents and node texts in both states |
| `SyncWorker.NothingLeftToDo` | internal/jobs/river/sync_worker.go:142-145 | executing again on the saved state changes nothing and enqueues nothing, also when the first enqueuing had failed |
| `SyncWorker.RunIsTracked` | internal/jobs/river/sync_worker.go:131-202 | over every run the stored snapshot is the last saved state's and every attempted delta joins two consecutive saved states |
| `SyncWorker.UnchangingRepository` | internal/jobs/river/sync_worker.go:105-205 | on an unchanging repository, whatever the tables hold and whatever fails: at most one save takes effect, at most one enqueuing is attempted, nothing changes before the save and nothing after it |
| `SyncDelivery.SyncConverges` | internal/jobs/river/sync_worker.go:152-202 | over every run, whatever fails, whatever enqueuing is refused or skipped as a duplicate, and whichever of the queued deltas take effect: the index equals the full rebuild of the last saved state if and only if every path is settled |
| `SyncDelivery.DeliveredConverges` | internal/jobs/river/sync_worker.go:183-191 | if every delta that is not empty is queued and takes effect, the condition is that no file is blank that was filled earlier in its life |
| `SyncDelivery.LostForever` | internal/jobs/river/sync_worker.go:142-202 | after any earlier executions: a delta that is not queued, because the save is not acknowledged or the enqueuing is refused or skipped as a duplicate, is lost for good; however often the job runs again on that state, the index stays what the earlier deltas made it, and differs from the rebuild if some file then has other chunks |
| `SyncDelivery.RunLinksAcyclicIff` | internal/jobs/river/sync_worker.go:159-172 | over every run of the job the parent links are acyclic if and only if the saved root hashes are pairwise distinct |
| `SyncWorking.FaultFreeSaves` | internal/jobs/river/sync_worker.go:131-175 | an execution whose walk, load and save succeed saves if and only if the root hash differs from the stored one |
| `SyncWorking.SnapshotEntriesToFileStates` | internal/jobs/river/sync_worker.go:399-418 | one file state per file entry, in order |
| `SyncWorking.SnapshotEntriesToMerkleNodes` | internal/jobs/river/sync_worker.go:377-397 | one active node per entry, in order |
| `SyncWorking.SyncJob.LatestSnapshotForDiff` | internal/jobs/river/sync_worker.go:332-347 | nothing without a state, an error without a root hash, otherwise the rebuilt snapshot and the id of its row as the parent of the next |
| `SyncWorking.SyncJob.Run` | internal/jobs/river/sync_worker.go:105-205 | drives store and queue exactly as the execution specifies, for every combination of failures; the payload carries the saved snapshot id, its root hash and the delta |
| `IndexWorker.RunsAreConsistent` | internal/jobs/river/index_worker.go:136-195 | over every run each key's checkpoint is the record of its last successful call, and two successful calls with one record have a different one between them |
| `IndexWorker.RetryDoesNothing` | internal/jobs/river/index_worker.go:167-187 | retrying an applied payload calls no runner, also after its after-apply step failed |
| `IndexWorker.KeyDeterminesParts` | internal/jobs/contracts/index_sync_job.go:42-59 | two jobs share a key if and only if their normalised purpose, session and root agree, when purpose and session have no colon |
| `IndexOutcomes.KeyText` | internal/jobs/contracts/index_sync_job.go:42-59 | the key is purpose and session, trimmed and in lower case, and the cleaned root, joined by double colons |
| `IndexOutcomes.NormalizedIs` | internal/jobs/river/index_worker.go:156-159 | a payload is taken if and only if it names a session and a root; its parts are trimmed and a missing purpose is filled in |
| `IndexOutcomes.OutcomeIs` | internal/jobs/river/index_worker.go:136-195 | when an execution reports an empty delta, an applied one, an error, or the counts of what the runner did, and what is remembered |
| `IndexWorker.MemoryCheckpoint.IsApplied` | internal/jobs/river/index_worker.go:40-59 | true exactly when the payload is checkpointable and its record is stored |
| `IndexWorker.MemoryCheckpoint.MarkApplied` | internal/jobs/river/index_worker.go:61-75 | stores the record of a checkpointable payload and nothing else |
| `IndexWorker.IndexJob.RunJob` | internal/jobs/river/index_worker.go:136-195 | checkpoint, runner call and outcome are those of the specified execution |
| `IndexTurns.TriesAre` | internal/jobs/river/index_worker.go:136-195 | however the tries of one job go: its runner takes effect at least once if and only if some try would and finds the checkpoint without the job's record, at first or after a restart; at most once without restarts and lost acknowledgements; and the record the checkpoint then holds |
| `IndexTurns.TurnsRun` | internal/jobs/river/index_worker.go:136-195 | over all jobs, worked off in order with any failures, retries and restarts, the runner takes effect for exactly those that apply, in order, and the checkpoint holds exactly the remembered record |
| `IndexTurns.TurnAppliesOnce` | internal/jobs/river/index_worker.go:136-195 | a payload that is not marked as applied is applied exactly once, whatever fails and however often it is retried, and not at all if its runner never succeeds; restarts and lost acknowledgements aside |
| `JobPipeline.SkippedIff` | internal/jobs/river/index_worker.go:40-59 | a job of a run is skipped if and only if the checkpoint holds its root hash: snapshot ids are one per root hash, so a returning state carries the record it had before |
| `JobPipeline.PipelineAppliesAll` | internal/jobs/river/index_worker.go:167-187 | if the sync job loses no delta and every job is retried until its runner succeeds, the checkpoint skips none and each delta reaches the index; exactly once and in order without restarts and lost acknowledgements |
| `JobPipeline.PipelineApplies` | internal/jobs/river/index_worker.go:136-195 | the runner leaves the index in which exactly the deltas are applied that are queued and apply, although a restart may make it apply one again |
| `JobPipeline.PipelineConverges` | internal/jobs/river/index_worker.go:136-195 | both jobs over every run, whatever fails in either: the index equals the full rebuild of the last saved state if and only if every path is settled, where a delta is delivered if it is queued, not skipped, and some try of its job takes effect |
| `JobPipeline.LosslessPipeline` | internal/jobs/river/index_worker.go:136-195 | if no delta is lost and every queued job is retried until its runner succeeds, the condition is that no file is blank that was filled earlier in its life |
| `ReturningState.ReturnIsSkipped` | internal/jobs/river/index_worker.go:167-174 | a run of four executions whose last job is skipped: a first delta is lost, a state is applied, another is lost, and the state returns; applying every queued delta would give the rebuild, but the second job of the state is skipped and the index is not the rebuild |
| `ReturningState.TreesReturn` | internal/indexsync/snapshot/builder.go:45-97 | directory trees of one and two files are such states |
| `Orchestrator.AppendConversation` | internal/runtime/orchestrator.go:106-122 | the input conversation, a system prompt only where there is none, then the user's message |
| `TurnFacts.OpeningIs` | internal/runtime/orchestrator.go:106-122 | the opening: the input conversation, the system prompt if there is one and no system message yet, the user's message |
| `Orchestrator.DispatchToolCalls` | internal/runtime/orchestrator.go:222-257 | one normalised result per call in order; an error if and only if there is no dispatcher or the context is cancelled on the way |
| `Orchestrator.RunTurn` | internal/runtime/orchestrator.go:26-104 | the result is the specified one, failures and cancellation included, with at most max(1, limit) provider calls, one per round of the result |
| `TurnFacts.RoundAsked` | internal/runtime/orchestrator.go:142-207 | what the provider is shown on each call and what is kept of its answer, defaults filled in |
| `TurnFacts.OutputIs` | internal/runtime/orchestrator.go:68-83 | text, usage and stop reason of the last response, the limit's stop reason if calls are left, all calls and results in order |
| `TurnFacts.RoundResults` | internal/runtime/orchestrator.go:222-257 | every round but the last has one result per call, with id, name, output and failure from the dispatcher's answer |
| `TurnFacts.WithoutProvider` | internal/runtime/orchestrator.go:264-277 | without a provider the turn echoes the trimmed message or says that there was none |
| `TurnFacts.CancelledIs` | internal/runtime/orchestrator.go:31-64 | a cancelled turn returns the conversation so far and what its rounds produced |
| `TurnFacts.FailsWithIff` | internal/runtime/orchestrator.go:30-100 | a turn fails with an error if and only if it is that of listing the tools or, after some reachable rounds, of retrieval, the provider, the missing dispatcher or the cancellation |
| `Orchestrator.TurnEnds` | internal/runtime/orchestrator.go:54-104 | a turn that enters its loop has this result if and only if some reachable sequence of full rounds is followed by a pass that ends with it |
| `Orchestrator.FailsIff` | internal/runtime/orchestrator.go:30-100 | a turn fails if and only if listing tools fails, or after some reachable rounds retrieval or the provider fails, or calls are to be made without a dispatcher or are cancelled on the way |
| `Orchestrator.CancelledIff` | internal/runtime/orchestrator.go:34-100 | a turn is cancelled if and only if the context is cancelled at the start or at the top of the loop after some reachable rounds |
| `Orchestrator.WellFormedTurn` | internal/runtime/orchestrator.go:60-103 | the input conversation is a prefix; every added assistant message but the last is followed by one tool message per call, in order, with the dispatcher's output, otherwise its error, otherwise a fixed text for failures; the message carries the call's id if and only if the dispatcher returned that id or none |
| `Orchestrator.RetrievalIsTransient` | internal/runtime/orchestrator.go:175-207 | retrieval context is shown on the first call only, before the user's message; every message of the output is of the opened conversation or comes from a provider response or a tool result |

## Where the code and expectations differ

- A modified file that becomes blank keeps its old rows (`SyncRuns.RunEqualsRebuild` gives the exact condition,
  `RepositoryWalk.EmptiedFile` two trees).
- A delta whose enqueuing is refused, or skipped as a duplicate of a job with another delta, is never enqueued again
  (`SyncDelivery.LostForever`).
- A state that returns after a lost delta is queued under the snapshot id and root hash it had before, and the index job
  skips it as applied although its delta was not (`ReturningState.ReturnIsSkipped`, exactly when in
  `JobPipeline.SkippedIff`). `JobPipeline.PipelineConverges` says exactly when the index is right all the same.
- An empty delta does not mean an equal root hash (`RootChanges.AddedDirectory`).
- Parent links of snapshots form a cycle exactly when a root hash returns (`ParentLinks.LinksAcyclicIff`).
- A save that is not active may leave a scope without an active snapshot (`SnapshotStoreFacts.InactiveSave`).
- Both path normalisers trim before they clean, so they are not idempotent (`PathFacts.NotIdempotent`); the exact
  condition is `PathFacts.SnapshotPathTwice` and `PathFacts.RelativePathTwice`. A retried delta may fail because of it
  (`ApplyTwice.NotIdempotentAt`, exact condition `ApplyTwice.ApplyIdempotent`).
- A tool message may carry another id than its call: an id that the dispatcher returns is kept
  (`Orchestrator.WellFormedTurn`).
- The branch of the chunker for a window without lines (internal/indexing/chunker.go:58-60) is unreachable.

## Left out

- Walks with names that a normaliser changes: both normalisers are modelled as written, but the results about trees,
  snapshots and whole runs assume normal paths.
- Unicode: a string is a sequence of bytes; white space and lower-casing are ASCII.
- SHA-256, the file system, symbolic links and canonical repository roots: parameters and inputs.
- A file changing between its snapshot and its application: the run theorems read each delta's own state.
- Database details: row ids of chunks and nodes, creation times of rows other than snapshots, CHECK and foreign-key
  constraints (a refused statement is one of the modelled failures) and collation, taken as byte order.
- Node objects: `NodeTree.BuildNodeTree` numbers its nodes instead of pointing to them, and the difference, which only
  reads, works on tree values. `MerkleHashing.Node` is the in-place form.
- Go's unstable sort: it could only matter for entries that compare equal, which distinct paths exclude.
- Floating point: embeddings are sequences of reals, and vector literals are not modelled.
- Nil receivers and missing dependencies, except the embedder, the provider and the dispatcher, whose absence is modelled.
- River's queue, job retry policy, logging and metrics: enqueuing is a call that succeeds, is a duplicate or fails, with
  or without having queued the job; which enqueuing is a duplicate of which other job, and what that job does, is not
  part of the model.
- IndexWorker.KeyDeterminesParts: `filepath.Clean` on repository roots is a parameter of the index worker.
- ApplyTwice.ApplyIdempotent: assumes stored rows with unique chunks, because the order of two rows of one chunk is up
  to an unstable sort.
- MergeAgreement.MergesAgree: assumes documents with distinct normal paths and normal delete paths.
- SyncRuns.RunEqualsRebuild: assumes that every delta is applied (SyncRuns.LossyRunEqualsRebuild does not), in order,
  while the disk still matches its snapshot.
- JobPipeline.PipelineConverges: assumes that queued jobs are worked off one after another, in order, each try on the
  state its delta leads to.
- Retrieval ranking, OpenAI clients, tool handlers, session persistence and command-line drivers: thin or display code.
