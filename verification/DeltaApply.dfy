/** Applying a delta to the stored index and rebuilding the index from scratch, as values
    (internal/indexing/delta_apply.go, rebuild.go, internal/indexstore/store.go). */
module DeltaApply {
  import opened Outcomes
  import opened GoStrings
  import opened Sorting
  import opened StringOrder
  import opened Paths
  import opened Chunker
  import opened ChunkIndex

  type Disk = map<string, string>

  // ---- collectDeltaPaths ----

  /** indexsync.DeltaRecord. The applier reads the first three fields. */
  datatype DeltaRecord = DeltaRecord(
    path: string,
    action: string,
    nodeType: string,
    previousNodeHash: string,
    currentNodeHash: string,
    previousContentHash: string,
    currentContentHash: string)

  datatype SyncDelta = SyncDelta(
    sessionID: string,
    repoRoot: string,
    previousSnapshotID: Option<int>,
    currentSnapshotID: Option<int>,
    previousRootHash: string,
    currentRootHash: string,
    changes: seq<DeltaRecord>)

  const ACTION_ADD: string := "add"
  const ACTION_MODIFY: string := "modify"
  const ACTION_DELETE: string := "delete"

  datatype PathSets = PathSets(upserts: set<string>, deletes: set<string>)

  predicate IsUpsert(action: string)
  {
    action == ACTION_ADD || action == ACTION_MODIFY
  }

  /** Changes of other node types than files are skipped; an empty type counts as a file. */
  predicate IsFileChange(c: DeltaRecord)
  {
    c.nodeType == "" || c.nodeType == "file"
  }

  function CollectChange(sets: PathSets, c: DeltaRecord): Result<PathSets>
  {
    if !IsFileChange(c) then Ok(sets)
    else
      var path :- NormalizeRelativePath(c.path);
      if IsUpsert(c.action) then Ok(PathSets(sets.upserts + {path}, sets.deletes - {path}))
      else if c.action == ACTION_DELETE then Ok(PathSets(sets.upserts - {path}, sets.deletes + {path}))
      else Err("unsupported delta action")
  }

  function CollectPaths(changes: seq<DeltaRecord>): Result<PathSets>
  {
    if changes == [] then Ok(PathSets({}, {}))
    else
      var sets :- CollectPaths(changes[..|changes| - 1]);
      CollectChange(sets, changes[|changes| - 1])
  }

  // ---- reading documents ----

  function ReadDocument(disk: Disk, relPath: string): Result<ChunkedDocument>
  {
    var clean :- NormalizeRelativePath(relPath);
    if clean !in disk then Err("read file")
    else Ok(ChunkedDocument(relPath, Numbered(ChunkContents(disk[clean], DEFAULT_POLICY))))
  }

  function ReadDocuments(disk: Disk, paths: seq<string>): Result<seq<ChunkedDocument>>
  {
    Collect(seq(|paths|, i requires 0 <= i < |paths| => ReadDocument(disk, paths[i])))
  }

  // ---- the chunk table of one scope ----

  predicate SameRow(a: ChunkRecord, b: ChunkRecord)
  {
    a.relPath == b.relPath && a.chunkIndex == b.chunkIndex && a.contentHash == b.contentHash
  }

  /** The error of inserting chunk k after the chunks before it: wrong scope, or the unique constraint. */
  function InsertError(scope: Scope, chunks: seq<ChunkRecord>, k: nat): Option<string>
    requires k < |chunks|
  {
    if !InScope(scope, chunks[k]) then Some("chunk does not match scope")
    else if exists j :: 0 <= j < k && SameRow(chunks[j], chunks[k]) then Some("insert chunk: duplicate row")
    else None
  }

  function InsertErrors(scope: Scope, chunks: seq<ChunkRecord>, k: nat): Option<string>
    requires k <= |chunks|
    decreases |chunks| - k
  {
    if k == |chunks| then None
    else if InsertError(scope, chunks, k).Some? then InsertError(scope, chunks, k)
    else InsertErrors(scope, chunks, k + 1)
  }

  predicate ScopeOk(scope: Scope)
  {
    TrimSpace(scope.sessionID) != "" && TrimSpace(scope.repoRoot) != ""
  }

  /** ReplaceRepoIndex's error, if any; without one the scope's rows become exactly the chunks. */
  function ReplaceError(scope: Scope, chunks: seq<ChunkRecord>): Option<string>
  {
    if TrimSpace(scope.sessionID) == "" then Some("session_id is required")
    else if TrimSpace(scope.repoRoot) == "" then Some("repo_root is required")
    else InsertErrors(scope, chunks, 0)
  }

  /** ListRepoIndex: the scope's rows ordered by path and index. */
  function Listed(rows: seq<ChunkRecord>): seq<ChunkRecord>
  {
    Sort(RecordLe, rows)
  }

  // ---- ApplyDeltaToIndex ----

  /** The new rows, DeltaApplyResult's paths, and the embedder batches. */
  datatype Applied = Applied(
    rows: seq<ChunkRecord>,
    upsertedPaths: seq<string>,
    deletedPaths: seq<string>,
    calls: seq<seq<string>>) {
    function FilesTouched(): nat { |upsertedPaths| + |deletedPaths| }
    function ChunksReplaced(): nat { |rows| }
  }

  function DeltaScopeError(scope: Scope, delta: SyncDelta): Option<string>
  {
    if delta.sessionID != "" && TrimSpace(delta.sessionID) != scope.sessionID then Some("delta session_id does not match scope")
    else if delta.repoRoot != "" && delta.repoRoot != scope.repoRoot then Some("delta repo_root does not match scope")
    else None
  }

  ghost function Apply(H: string -> string, scope: Scope, rows: seq<ChunkRecord>, delta: SyncDelta, disk: Disk,
                       embedder: Option<Embedder>): Result<Applied>
  {
    if TrimSpace(scope.sessionID) == "" then Err("apply delta to index: session_id is required")
    else if DeltaScopeError(scope, delta).Some? then Err(DeltaScopeError(scope, delta).value)
    else if !ScopeOk(scope) then Err("repo_root is required")
    else
      var existing := Listed(rows);
      var sets :- CollectPaths(delta.changes);
      ApplyPaths(H, scope, existing, SortedKeys(sets.upserts), SortedKeys(sets.deletes), disk, embedder)
  }

  /** The part of ApplyDeltaToIndex after the paths are collected. */
  function ApplyPaths(H: string -> string, scope: Scope, existing: seq<ChunkRecord>, upserts: seq<string>, deletes: seq<string>,
                      disk: Disk, embedder: Option<Embedder>): Result<Applied>
  {
    var documents :- ReadDocuments(disk, upserts);
    var records :- RecordsOf(H, scope, documents);
    var refreshed :- Refresh(existing, records, embedder);
    var merged :- Merged(scope, existing, refreshed.records, deletes);
    if ReplaceError(scope, merged).Some? then Err(ReplaceError(scope, merged).value)
    else Ok(Applied(merged, upserts, deletes, refreshed.calls))
  }

  // ---- RunFullRebuild ----

  function WithChunks(docs: seq<ChunkedDocument>): seq<ChunkedDocument>
  {
    if docs == [] then []
    else WithChunks(docs[..|docs| - 1]) + if docs[|docs| - 1].chunks == [] then [] else [docs[|docs| - 1]]
  }

  function TextsOf(rs: seq<ChunkRecord>): (ts: seq<string>)
    ensures |ts| == |rs|
  {
    seq(|rs|, i requires 0 <= i < |rs| => rs[i].content)
  }

  function Stamped(rs: seq<ChunkRecord>, e: EmbedResult): (out: seq<ChunkRecord>)
    requires |e.vectors| == |rs|
    ensures |out| == |rs|
  {
    seq(|rs|, i requires 0 <= i < |rs| => WithEmbedding(rs[i], e.model, e.dimensions, e.vectors[i]))
  }

  /** RunFullRebuild over the discovered paths: the rows it stores for the scope. */
  function Rebuild(H: string -> string, scope: Scope, paths: seq<string>, disk: Disk, embedder: Embedder): Result<seq<ChunkRecord>>
  {
    if TrimSpace(scope.sessionID) == "" then Err("run full rebuild: session_id is required")
    else
      var documents :- ReadDocuments(disk, paths);
      var records :- RecordsOf(H, scope, WithChunks(documents));
      if records == [] then StoreRows(scope, []) else EmbeddedRows(scope, records, embedder)
  }

  /** All records embedded in one batch and stored. */
  function EmbeddedRows(scope: Scope, records: seq<ChunkRecord>, embedder: Embedder): Result<seq<ChunkRecord>>
  {
    var e :- embedder(TextsOf(records));
    if e.dimensions <= 0 then Err("embedding dimensions must be positive")
    else if |e.vectors| != |records| then Err("embedding count mismatch")
    else if !VectorsHave(e.vectors, e.dimensions) then Err("embedding dimensions mismatch")
    else StoreRows(scope, Stamped(records, e))
  }

  function StoreRows(scope: Scope, rows: seq<ChunkRecord>): Result<seq<ChunkRecord>>
  {
    if ReplaceError(scope, rows).Some? then Err(ReplaceError(scope, rows).value) else Ok(rows)
  }
}
