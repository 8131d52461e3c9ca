/** The chunk table and the two jobs that write it (internal/indexstore/store.go,
    internal/indexing/delta_apply.go, internal/indexing/rebuild.go). */
module IndexStoring {
  import opened Outcomes
  import opened GoStrings
  import opened Sorting
  import opened Paths
  import opened Chunker
  import opened ChunkIndex
  import opened DeltaApply
  import opened DeltaPaths
  import opened ChunkIndexing

  /** The rows of one scope, in the order they were inserted. */
  function ScopeRows(table: seq<ChunkRecord>, scope: Scope): seq<ChunkRecord>
  {
    if table == [] then []
    else ScopeRows(table[..|table| - 1], scope) + if InScope(scope, table[|table| - 1]) then [table[|table| - 1]] else []
  }

  /** DELETE of one scope's rows. */
  function WithoutScope(table: seq<ChunkRecord>, scope: Scope): seq<ChunkRecord>
  {
    if table == [] then []
    else WithoutScope(table[..|table| - 1], scope) + if InScope(scope, table[|table| - 1]) then [] else [table[|table| - 1]]
  }

  /** The unique constraint of index_chunks. */
  predicate Conflicts(a: ChunkRecord, b: ChunkRecord)
  {
    a.sessionID == b.sessionID && a.repoRoot == b.repoRoot && SameRow(a, b)
  }

  lemma {:induction false} ScopeRowsSnoc(table: seq<ChunkRecord>, r: ChunkRecord, scope: Scope)
    ensures ScopeRows(table + [r], scope) == ScopeRows(table, scope) + if InScope(scope, r) then [r] else []
  {
    assert (table + [r])[..|table|] == table;
  }

  lemma {:induction false} WithoutScopeRows(table: seq<ChunkRecord>, scope: Scope, other: Scope)
    ensures ScopeRows(WithoutScope(table, scope), other) == if other == scope then [] else ScopeRows(table, other)
    ensures forall r :: r in WithoutScope(table, scope) ==> !InScope(scope, r)
  {
    if table != [] {
      var front, last := table[..|table| - 1], table[|table| - 1];
      WithoutScopeRows(front, scope, other);
      ScopeRowsSnoc(WithoutScope(front, scope), last, other);
      if InScope(scope, last) {
        assert WithoutScope(table, scope) == WithoutScope(front, scope);
        assert other != scope ==> !InScope(other, last);
      }
    }
  }

  lemma {:induction false} ScopeRowsConcat(a: seq<ChunkRecord>, b: seq<ChunkRecord>, scope: Scope)
    ensures ScopeRows(a + b, scope) == ScopeRows(a, scope) + ScopeRows(b, scope)
    decreases |b|
  {
    if b == [] {
      assert a + b == a;
    } else {
      var front, last := b[..|b| - 1], b[|b| - 1];
      ScopeRowsConcat(a, front, scope);
      ScopeRowsSnoc(a + front, last, scope);
      assert a + b == a + front + [last];
    }
  }

  lemma {:induction false} AllRowsInScope(chunks: seq<ChunkRecord>, scope: Scope, other: Scope)
    requires AllInScope(scope, chunks)
    ensures ScopeRows(chunks, other) == if other == scope then chunks else []
  {
    if chunks != [] {
      var front, last := chunks[..|chunks| - 1], chunks[|chunks| - 1];
      AllRowsInScope(front, scope, other);
      assert chunks == front + [last];
      assert InScope(other, last) <==> other == scope;
    }
  }

  lemma {:induction false} ReplacedScopeRows(table: seq<ChunkRecord>, scope: Scope, chunks: seq<ChunkRecord>, other: Scope)
    requires AllInScope(scope, chunks)
    ensures ScopeRows(WithoutScope(table, scope) + chunks, other) == if other == scope then chunks else ScopeRows(table, other)
  {
    WithoutScopeRows(table, scope, other);
    ScopeRowsConcat(WithoutScope(table, scope), chunks, other);
    AllRowsInScope(chunks, scope, other);
  }

  lemma {:induction false} AllScopesReplaced(table: seq<ChunkRecord>, scope: Scope, chunks: seq<ChunkRecord>)
    requires AllInScope(scope, chunks)
    ensures forall other :: ScopeRows(WithoutScope(table, scope) + chunks, other) == if other == scope then chunks else ScopeRows(table, other)
  {
    forall other
      ensures ScopeRows(WithoutScope(table, scope) + chunks, other) == if other == scope then chunks else ScopeRows(table, other)
    {
      ReplacedScopeRows(table, scope, chunks, other);
    }
  }

  ghost predicate Refused(table: seq<ChunkRecord>, chunk: ChunkRecord)
  {
    exists i :: 0 <= i < |table| && Conflicts(table[i], chunk)
  }

  /** Inserting chunk k is refused exactly when an earlier chunk is the same row. */
  lemma ConflictIsEarlier(rest: seq<ChunkRecord>, scope: Scope, chunks: seq<ChunkRecord>, k: nat)
    requires k < |chunks| && InScope(scope, chunks[k]) && AllInScope(scope, chunks[..k])
    requires forall r :: r in rest ==> !InScope(scope, r)
    ensures Refused(rest + chunks[..k], chunks[k]) <==> exists j :: 0 <= j < k && SameRow(chunks[j], chunks[k])
  {
    var all := rest + chunks[..k];
    assert forall j :: 0 <= j < k ==> all[|rest| + j] == chunks[j] && InScope(scope, chunks[..k][j]);
    assert forall i :: 0 <= i < |rest| ==> all[i] == rest[i] && rest[i] in rest;
    if j :| 0 <= j < k && SameRow(chunks[j], chunks[k]) {
      assert Conflicts(all[|rest| + j], chunks[k]);
    }
    if i :| 0 <= i < |all| && Conflicts(all[i], chunks[k]) {
      assert SameRow(chunks[i - |rest|], chunks[k]);
    }
  }

  lemma NextChunk(rest: seq<ChunkRecord>, scope: Scope, chunks: seq<ChunkRecord>, i: nat)
    requires i < |chunks| && AllInScope(scope, chunks[..i]) && InScope(scope, chunks[i])
    ensures rest + chunks[..i] + [chunks[i]] == rest + chunks[..i + 1] && AllInScope(scope, chunks[..i + 1])
  {
    assert chunks[..i + 1] == chunks[..i] + [chunks[i]];
  }

  /** Begin, delete, n inserts and the commit. */
  lemma FaultFree(faults: Faults, n: nat)
    ensures NoFault(faults, 0, n + 3) <==> !faults(0) && !faults(1) && NoFault(faults, 2, n + 2) && !faults(n + 2)
  {
  }

  const DATABASE_ERROR: string := "database error"

  class IndexStore {
    var table: seq<ChunkRecord>

    constructor ()
      ensures table == []
    {
      table := [];
    }

    function Rows(scope: Scope): seq<ChunkRecord>
      reads this
    {
      ScopeRows(table, scope)
    }

    /** One INSERT inside the transaction; false when the unique constraint is violated. */
    method InsertChunk(chunk: ChunkRecord) returns (ok: bool)
      modifies this
      ensures ok == !Refused(old(table), chunk)
      ensures table == if ok then old(table) + [chunk] else old(table)
    {
      for i := 0 to |table|
        invariant table == old(table)
        invariant forall j :: 0 <= j < i ==> !Conflicts(table[j], chunk)
      {
        if Conflicts(table[i], chunk) {
          return false;
        }
      }
      table := table + [chunk];
      return true;
    }

    /** The loop of inserts, up to the first error; the database may refuse any insert. */
    method InsertChunks(scope: Scope, chunks: seq<ChunkRecord>, faults: Faults, at: nat) returns (err: Option<string>)
      requires forall r :: r in table ==> !InScope(scope, r)
      modifies this
      ensures err.None? <==> InsertErrors(scope, chunks, 0).None? && NoFault(faults, at, at + |chunks|)
      ensures NoFault(faults, at, at + |chunks|) ==> err == InsertErrors(scope, chunks, 0)
      ensures err.None? ==> AllInScope(scope, chunks) && table == old(table) + chunks
    {
      for i := 0 to |chunks|
        invariant table == old(table) + chunks[..i] && NoFault(faults, at, at + i)
        invariant AllInScope(scope, chunks[..i])
        invariant InsertErrors(scope, chunks, 0) == InsertErrors(scope, chunks, i)
      {
        var chunk := chunks[i];
        if chunk.sessionID != scope.sessionID || chunk.repoRoot != scope.repoRoot {
          return Some("chunk does not match scope");
        }
        if faults(at + i) {
          return Some(DATABASE_ERROR);
        }
        ConflictIsEarlier(old(table), scope, chunks, i);
        var ok := InsertChunk(chunk);
        if !ok {
          return Some("insert chunk: duplicate row");
        }
        NextChunk(old(table), scope, chunks, i);
      }
      assert chunks[..|chunks|] == chunks;
      return None;
    }

    /** All or nothing: an error, be it the input's or the database's at any statement, leaves the whole table as it was. */
    method ReplaceRepoIndex(scope: Scope, chunks: seq<ChunkRecord>, faults: Faults) returns (err: Option<string>)
      modifies this
      ensures err.None? <==> ReplaceError(scope, chunks).None? && NoFault(faults, 0, |chunks| + 3)
      ensures NoFault(faults, 0, |chunks| + 3) ==> err == ReplaceError(scope, chunks)
      ensures err.Some? ==> table == old(table)
      ensures err.None? ==> Rows(scope) == chunks
      ensures forall other :: other != scope ==> Rows(other) == old(Rows(other))
    {
      if TrimSpace(scope.sessionID) == "" {
        return Some("session_id is required");
      }
      if TrimSpace(scope.repoRoot) == "" {
        return Some("repo_root is required");
      }
      FaultFree(faults, |chunks|);
      if faults(0) {
        return Some(DATABASE_ERROR);
      }
      var saved := table;
      err := ReplaceRows(scope, chunks, faults);
      if err.None? && faults(|chunks| + 2) {
        err := Some(DATABASE_ERROR);
      }
      if err.Some? {
        table := saved;
      }
    }

    /** The statements between begin and commit. */
    method ReplaceRows(scope: Scope, chunks: seq<ChunkRecord>, faults: Faults) returns (err: Option<string>)
      modifies this
      ensures err.None? <==> InsertErrors(scope, chunks, 0).None? && !faults(1) && NoFault(faults, 2, |chunks| + 2)
      ensures !faults(1) && NoFault(faults, 2, |chunks| + 2) ==> err == InsertErrors(scope, chunks, 0)
      ensures err.None? ==> Rows(scope) == chunks && forall other :: other != scope ==> Rows(other) == old(Rows(other))
    {
      if faults(1) {
        return Some(DATABASE_ERROR);
      }
      ghost var before := table;
      table := WithoutScope(table, scope);
      WithoutScopeRows(before, scope, scope);
      err := InsertChunks(scope, chunks, faults, 2);
      if err.None? {
        AllScopesReplaced(before, scope, chunks);
      }
    }

    method ListRepoIndex(scope: Scope, fails: bool) returns (r: Result<seq<ChunkRecord>>)
      ensures r == if TrimSpace(scope.sessionID) == "" then Err("session_id is required")
                   else if TrimSpace(scope.repoRoot) == "" then Err("repo_root is required")
                   else if fails then Err(DATABASE_ERROR)
                   else Ok(DeltaApply.Listed(Rows(scope)))
    {
      if TrimSpace(scope.sessionID) == "" {
        return Err("session_id is required");
      }
      if TrimSpace(scope.repoRoot) == "" {
        return Err("repo_root is required");
      }
      if fails {
        return Err(DATABASE_ERROR);
      }
      var records: seq<ChunkRecord> := [];
      for i := 0 to |table|
        invariant records == ScopeRows(table[..i], scope)
      {
        assert table[..i + 1][..i] == table[..i];
        if table[i].sessionID == scope.sessionID && table[i].repoRoot == scope.repoRoot {
          records := records + [table[i]];
        }
      }
      assert table[..|table|] == table;
      return Ok(Sort(RecordLe, records));
    }
  }

  // ---- reading and chunking files ----

  method ReadAndChunk(disk: Disk, relPath: string) returns (r: Result<ChunkedDocument>)
    ensures r == ReadDocument(disk, relPath)
  {
    var clean := NormalizeRelativePath(relPath);
    if clean.Err? {
      return Err(clean.error);
    }
    if clean.value !in disk {
      return Err("read file");
    }
    var chunks := ChunkDocumentWithPolicy(disk[clean.value], DEFAULT_POLICY);
    return Ok(ChunkedDocument(relPath, chunks));
  }

  method ReadAll(disk: Disk, paths: seq<string>) returns (r: Result<seq<ChunkedDocument>>)
    ensures r == ReadDocuments(disk, paths)
  {
    var documents: seq<ChunkedDocument> := [];
    ghost var rs := seq(|paths|, i requires 0 <= i < |paths| => ReadDocument(disk, paths[i]));
    for i := 0 to |paths|
      invariant Collect(rs[..i]) == Ok(documents)
    {
      CollectStep(rs, i);
      var document := ReadAndChunk(disk, paths[i]);
      if document.Err? {
        return Err(document.error);
      }
      documents := documents + [document.value];
    }
    assert rs[..|paths|] == rs;
    return Ok(documents);
  }

  // ---- the jobs ----

  class DeltaApplier {
    const store: IndexStore
    const embedder: Option<Embedder>

    constructor (store: IndexStore, embedder: Option<Embedder>)
      ensures this.store == store && this.embedder == embedder
    {
      this.store := store;
      this.embedder := embedder;
    }

    /** The stored rows of the scope become the applied rows, or on an error, the database's included, nothing changes. */
    method ApplyDeltaToIndex(H: string -> string, scope: Scope, delta: SyncDelta, disk: Disk, listFails: bool, faults: Faults)
      returns (r: Result<Applied>)
      modifies store
      ensures r.Ok? ==> r == Apply(H, scope, old(store.Rows(scope)), delta, disk, embedder)
      ensures !listFails && (forall k: nat :: !faults(k)) ==> r == Apply(H, scope, old(store.Rows(scope)), delta, disk, embedder)
      ensures r.Err? ==> store.table == old(store.table)
      ensures r.Ok? ==> store.Rows(scope) == r.value.rows
      ensures forall other :: other != scope ==> store.Rows(other) == old(store.Rows(other))
    {
      if TrimSpace(scope.sessionID) == "" {
        return Err("apply delta to index: session_id is required");
      }
      if delta.sessionID != "" && TrimSpace(delta.sessionID) != scope.sessionID {
        return Err("delta session_id does not match scope");
      }
      if delta.repoRoot != "" && delta.repoRoot != scope.repoRoot {
        return Err("delta repo_root does not match scope");
      }
      var existing := store.ListRepoIndex(scope, listFails);
      if existing.Err? {
        return Err(existing.error);
      }
      var paths := CollectDeltaPaths(delta);
      if paths.Err? {
        return Err(paths.error);
      }
      r := ApplyCollected(H, scope, existing.value, paths.value, disk, faults);
    }

    /** The rest of the job, once the paths are collected. */
    method ApplyCollected(H: string -> string, scope: Scope, existing: seq<ChunkRecord>, paths: PathLists, disk: Disk, faults: Faults)
      returns (r: Result<Applied>)
      modifies store
      ensures r.Ok? ==> r == ApplyPaths(H, scope, existing, paths.upserts, paths.deletes, disk, embedder)
      ensures (forall k: nat :: !faults(k)) ==> r == ApplyPaths(H, scope, existing, paths.upserts, paths.deletes, disk, embedder)
      ensures r.Err? ==> store.table == old(store.table)
      ensures r.Ok? ==> store.Rows(scope) == r.value.rows
      ensures forall other :: other != scope ==> store.Rows(other) == old(store.Rows(other))
    {
      var documents := ReadAll(disk, paths.upserts);
      if documents.Err? {
        return Err(documents.error);
      }
      var records := BuildChunkRecords(H, scope, documents.value);
      if records.Err? {
        return Err(records.error);
      }
      var refreshed := RefreshEmbeddingsForChangedChunks(existing, records.value, embedder);
      if refreshed.Err? {
        return Err(refreshed.error);
      }
      var merged := MergeChunkRecords(scope, existing, refreshed.value.records, paths.deletes);
      if merged.Err? {
        return Err(merged.error);
      }
      var err := store.ReplaceRepoIndex(scope, merged.value, faults);
      if err.Some? {
        return Err(err.value);
      }
      return Ok(Applied(merged.value, paths.upserts, paths.deletes, refreshed.value.calls));
    }
  }

  /** FullRebuildResult */
  datatype RebuildResult = RebuildResult(filesIndexed: nat, chunksEmbedded: nat, model: string, dimensions: int)

  /** The counts, and the model and dimension every row carries. */
  predicate Reports(r: RebuildResult, files: nat, rows: seq<ChunkRecord>)
  {
    && r.filesIndexed == files && r.chunksEmbedded == |rows|
    && forall i :: 0 <= i < |rows| ==> rows[i].model == r.model && rows[i].embeddingDims == r.dimensions == |rows[i].embedding|
  }

  class Rebuilder {
    const store: IndexStore
    const embedder: Embedder

    constructor (store: IndexStore, embedder: Embedder)
      ensures this.store == store && this.embedder == embedder
    {
      this.store := store;
      this.embedder := embedder;
    }

    /** Reads the discovered files, dropping those without chunks. */
    method ReadFilled(disk: Disk, relPaths: seq<string>) returns (r: Result<seq<ChunkedDocument>>)
      ensures ReadDocuments(disk, relPaths).Ok? ==> r == Ok(WithChunks(ReadDocuments(disk, relPaths).value))
      ensures ReadDocuments(disk, relPaths).Err? ==> r == Err(ReadDocuments(disk, relPaths).error)
    {
      var documents: seq<ChunkedDocument> := [];
      ghost var rs := seq(|relPaths|, i requires 0 <= i < |relPaths| => ReadDocument(disk, relPaths[i]));
      for i := 0 to |relPaths|
        invariant Collect(rs[..i]).Ok? && documents == WithChunks(Collect(rs[..i]).value)
      {
        CollectStep(rs, i);
        var document := ReadAndChunk(disk, relPaths[i]);
        if document.Err? {
          return Err(document.error);
        }
        WithChunksSnoc(Collect(rs[..i]).value, document.value);
        if document.value.chunks != [] {
          documents := documents + [document.value];
        }
      }
      assert rs[..|relPaths|] == rs;
      return Ok(documents);
    }

    /** Writes each vector into its record. */
    method StampVectors(records: seq<ChunkRecord>, e: EmbedResult) returns (ok: bool, stamped: seq<ChunkRecord>)
      requires |e.vectors| == |records|
      ensures ok == VectorsHave(e.vectors, e.dimensions)
      ensures ok ==> stamped == Stamped(records, e)
    {
      stamped := records;
      for i := 0 to |records|
        invariant |stamped| == |records|
        invariant forall k :: 0 <= k < i ==> |e.vectors[k]| == e.dimensions
        invariant forall k :: 0 <= k < i ==> stamped[k] == Stamped(records, e)[k]
        invariant forall k :: i <= k < |records| ==> stamped[k] == records[k]
      {
        if |e.vectors[i]| != e.dimensions {
          return false, [];
        }
        stamped := stamped[i := WithEmbedding(stamped[i], e.model, e.dimensions, e.vectors[i])];
      }
      return true, stamped;
    }

    /** The stored rows of the scope become the rebuilt rows, or on an error, the database's included, nothing changes. */
    method RunFullRebuild(H: string -> string, scope: Scope, relPaths: seq<string>, disk: Disk, faults: Faults) returns (r: Result<RebuildResult>)
      modifies store
      ensures r.Ok? ==>
        && Rebuild(H, scope, relPaths, disk, embedder) == Ok(store.Rows(scope))
        && Reports(r.value, |relPaths|, store.Rows(scope))
      ensures r.Err? ==> store.table == old(store.table)
      ensures (forall k: nat :: !faults(k)) ==> (r.Ok? <==> Rebuild(H, scope, relPaths, disk, embedder).Ok?)
      ensures (forall k: nat :: !faults(k)) && r.Err? ==> r.error == Rebuild(H, scope, relPaths, disk, embedder).error
      ensures forall other :: other != scope ==> store.Rows(other) == old(store.Rows(other))
    {
      if TrimSpace(scope.sessionID) == "" {
        return Err("run full rebuild: session_id is required");
      }
      var documents := ReadFilled(disk, relPaths);
      if documents.Err? {
        return Err(documents.error);
      }
      var records := BuildChunkRecords(H, scope, documents.value);
      if records.Err? {
        return Err(records.error);
      }
      if records.value == [] {
        var err := store.ReplaceRepoIndex(scope, [], faults);
        if err.Some? {
          return Err(err.value);
        }
        return Ok(RebuildResult(|relPaths|, 0, "", 0));
      }
      r := EmbedAndStore(scope, |relPaths|, records.value, faults);
    }

    method EmbedAndStore(scope: Scope, files: nat, records: seq<ChunkRecord>, faults: Faults) returns (r: Result<RebuildResult>)
      modifies store
      ensures r.Ok? ==>
        EmbeddedRows(scope, records, embedder) == Ok(store.Rows(scope)) && Reports(r.value, files, store.Rows(scope))
      ensures r.Err? ==> store.table == old(store.table)
      ensures (forall k: nat :: !faults(k)) ==> (r.Ok? <==> EmbeddedRows(scope, records, embedder).Ok?)
      ensures (forall k: nat :: !faults(k)) && r.Err? ==> r.error == EmbeddedRows(scope, records, embedder).error
      ensures forall other :: other != scope ==> store.Rows(other) == old(store.Rows(other))
    {
      var texts: seq<string> := [];
      for i := 0 to |records|
        invariant texts == TextsOf(records[..i])
      {
        assert TextsOf(records[..i + 1]) == TextsOf(records[..i]) + [records[i].content];
        texts := texts + [records[i].content];
      }
      assert records[..|records|] == records;
      var result := embedder(texts);
      if result.Err? {
        return Err(result.error);
      }
      var e := result.value;
      if e.dimensions <= 0 {
        return Err("embedding dimensions must be positive");
      }
      if |e.vectors| != |records| {
        return Err("embedding count mismatch");
      }
      var ok, stamped := StampVectors(records, e);
      if !ok {
        return Err("embedding dimensions mismatch");
      }
      var err := store.ReplaceRepoIndex(scope, stamped, faults);
      if err.Some? {
        return Err(err.value);
      }
      return Ok(RebuildResult(files, |records|, e.model, e.dimensions));
    }
  }

  lemma {:induction false} WithChunksSnoc(docs: seq<ChunkedDocument>, d: ChunkedDocument)
    ensures WithChunks(docs + [d]) == WithChunks(docs) + if d.chunks == [] then [] else [d]
  {
    assert (docs + [d])[..|docs|] == docs;
  }
}
