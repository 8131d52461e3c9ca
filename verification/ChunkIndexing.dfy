/** The loops that build, refresh and merge chunk records (internal/indexing/records.go,
    embedding_refresh.go, chunk_delta.go), proved against the values of ChunkIndex. */
module ChunkIndexing {
  import opened Outcomes
  import opened GoStrings
  import opened Sorting
  import opened Paths
  import opened Chunker
  import opened ChunkIndex
  import opened IndexFacts

  // ---- BuildChunkRecords ----

  lemma BareStep(H: string -> string, scope: Scope, relPath: string, chunks: seq<Chunk>, i: nat)
    requires i < |chunks|
    ensures BareRecords(H, scope, relPath, chunks[..i + 1]) ==
      BareRecords(H, scope, relPath, chunks[..i]) + [BareRecord(H, scope, relPath, chunks[i].index, chunks[i].content)]
  {
  }

  /** The inner loop: one document's chunks are checked and appended. */
  method AppendDocument(H: string -> string, scope: Scope, doc: ChunkedDocument, records: seq<ChunkRecord>)
    returns (r: Result<seq<ChunkRecord>>)
    ensures DocumentRecords(H, scope, doc).Ok? ==> r == Ok(records + DocumentRecords(H, scope, doc).value)
    ensures DocumentRecords(H, scope, doc).Err? ==> r == Err(DocumentRecords(H, scope, doc).error)
  {
    var relPath := NormalizeRelativePath(doc.relPath);
    if relPath.Err? {
      return Err(relPath.error);
    }
    var all := records;
    for i := 0 to |doc.chunks|
      invariant CheckChunks(doc.chunks, 0) == CheckChunks(doc.chunks, i)
      invariant all == records + BareRecords(H, scope, relPath.value, doc.chunks[..i])
    {
      var chunk := doc.chunks[i];
      if chunk.index != i {
        return Err("chunk index does not match expected contiguous index");
      }
      if TrimSpace(chunk.content) == "" {
        return Err("chunk content is empty");
      }
      BareStep(H, scope, relPath.value, doc.chunks, i);
      all := all + [BareRecord(H, scope, relPath.value, chunk.index, chunk.content)];
    }
    assert doc.chunks[..|doc.chunks|] == doc.chunks;
    return Ok(all);
  }

  method BuildChunkRecords(H: string -> string, scope: Scope, documents: seq<ChunkedDocument>) returns (r: Result<seq<ChunkRecord>>)
    ensures r == RecordsOf(H, scope, documents)
  {
    if TrimSpace(scope.sessionID) == "" {
      return Err("build chunk records: session_id is required");
    }
    var records: seq<ChunkRecord> := [];
    ghost var rs := EachDocument(H, scope, documents);
    for i := 0 to |documents|
      invariant Collect(rs[..i]).Ok? && records == Flatten(Collect(rs[..i]).value)
    {
      CollectStep(rs, i);
      var appended := AppendDocument(H, scope, documents[i], records);
      if appended.Err? {
        return Err(appended.error);
      }
      FlattenSnoc(Collect(rs[..i]).value, rs[i].value);
      records := appended.value;
    }
    assert rs[..|documents|] == rs;
    return Ok(records);
  }

  // ---- RefreshEmbeddingsForChangedChunks ----

  /** The i-th pending position is an unmatched record of rank i. */
  lemma {:induction false} PendingAt(m: map<string, ChunkRecord>, rs: seq<ChunkRecord>, i: nat)
    requires i < |Pending(m, rs)|
    ensures Pending(m, rs)[i] < |rs| && !Matched(m, rs[Pending(m, rs)[i]]) && Rank(m, rs, Pending(m, rs)[i]) == i
    decreases |rs|
  {
    var front := rs[..|rs| - 1];
    if i < |Pending(m, front)| {
      PendingAt(m, front, i);
      var k := Pending(m, rs)[i];
      assert front[..k] == rs[..k];
    } else {
      assert rs[..Pending(m, rs)[i]] == front;
    }
  }

  lemma {:induction false} RankPending(m: map<string, ChunkRecord>, rs: seq<ChunkRecord>, k: nat)
    requires k < |rs| && !Matched(m, rs[k])
    ensures Rank(m, rs, k) < |Pending(m, rs)| && Pending(m, rs)[Rank(m, rs, k)] == k
    decreases |rs|
  {
    RankMonotone(m, rs, k);
    var front := rs[..|rs| - 1];
    if k == |rs| - 1 {
      assert rs[..k] == front;
    } else {
      assert front[..k] == rs[..k];
      RankPending(m, front, k);
    }
  }

  /** existingByChunk */
  method IndexByKey(existing: seq<ChunkRecord>) returns (m: map<string, ChunkRecord>)
    ensures m == ByKey(existing)
  {
    m := map[];
    for i := 0 to |existing|
      invariant m == ByKey(existing[..i])
    {
      assert existing[..i + 1][..i] == existing[..i];
      m := m[KeyOf(existing[i]) := existing[i]];
    }
    assert existing[..|existing|] == existing;
  }

  /** The records when the first loop has reached position n. */
  function ReusedUpTo(m: map<string, ChunkRecord>, rs: seq<ChunkRecord>, n: nat): (out: seq<ChunkRecord>)
    ensures |out| == |rs|
  {
    seq(|rs|, k requires 0 <= k < |rs| => if k < n && Matched(m, rs[k]) then Reused(m, rs[k]) else rs[k])
  }

  lemma ReuseStep(m: map<string, ChunkRecord>, rs: seq<ChunkRecord>, i: nat)
    requires i < |rs|
    ensures ReusedUpTo(m, rs, i)[i] == rs[i]
    ensures ReusedUpTo(m, rs, i + 1) ==
      if Matched(m, rs[i]) then ReusedUpTo(m, rs, i)[i := Reused(m, rs[i])] else ReusedUpTo(m, rs, i)
  {
  }

  lemma {:induction false} PendingStep(m: map<string, ChunkRecord>, rs: seq<ChunkRecord>, i: nat)
    requires i < |rs|
    ensures Pending(m, rs[..i + 1]) == Pending(m, rs[..i]) + if Matched(m, rs[i]) then [] else [i]
    ensures PendingTexts(m, rs[..i + 1]) == PendingTexts(m, rs[..i]) + if Matched(m, rs[i]) then [] else [rs[i].content]
  {
    assert rs[..i + 1][..i] == rs[..i];
  }

  /** The first loop: reuse what matches, in place, and list the rest. */
  method ReuseMatching(m: map<string, ChunkRecord>, records: seq<ChunkRecord>)
    returns (refreshed: seq<ChunkRecord>, pendingIndexes: seq<nat>, pendingTexts: seq<string>)
    ensures refreshed == ReusedUpTo(m, records, |records|)
    ensures pendingIndexes == Pending(m, records) && pendingTexts == PendingTexts(m, records)
  {
    refreshed, pendingIndexes, pendingTexts := records, [], [];
    assert refreshed == ReusedUpTo(m, records, 0);
    for i := 0 to |records|
      invariant refreshed == ReusedUpTo(m, records, i)
      invariant pendingIndexes == Pending(m, records[..i]) && pendingTexts == PendingTexts(m, records[..i])
    {
      ReuseStep(m, records, i);
      PendingStep(m, records, i);
      var key := KeyOf(refreshed[i]);
      if key in m && m[key].contentHash == refreshed[i].contentHash {
        var e := m[key];
        refreshed := refreshed[i := WithEmbedding(refreshed[i], e.model, e.embeddingDims, e.embedding)];
      } else {
        pendingIndexes := pendingIndexes + [i];
        pendingTexts := pendingTexts + [refreshed[i].content];
      }
    }
    assert records[..|records|] == records;
  }

  /** A record when the first `done` vectors are written. */
  ghost function AfterVectors(m: map<string, ChunkRecord>, rs: seq<ChunkRecord>, e: EmbedResult, done: nat, k: nat): ChunkRecord
    requires k < |rs| && |e.vectors| == |Pending(m, rs)|
  {
    if Matched(m, rs[k]) then Reused(m, rs[k])
    else if Rank(m, rs, k) < done && Rank(m, rs, k) < |e.vectors| then
      WithEmbedding(rs[k], e.model, e.dimensions, e.vectors[Rank(m, rs, k)])
    else rs[k]
  }

  lemma {:induction false} AllWritten(m: map<string, ChunkRecord>, rs: seq<ChunkRecord>, e: EmbedResult, k: nat)
    requires k < |rs| && |e.vectors| == |Pending(m, rs)|
    ensures AfterVectors(m, rs, e, |e.vectors|, k) == Filled(m, rs, e)[k]
  {
    FilledAt(m, rs, e, k);
  }

  /** Writing vector i changes the one record of rank i. */
  lemma {:induction false} WriteStep(m: map<string, ChunkRecord>, rs: seq<ChunkRecord>, e: EmbedResult, i: nat, k: nat)
    requires i < |e.vectors| == |Pending(m, rs)| && k < |rs|
    requires Pending(m, rs)[i] < |rs| && !Matched(m, rs[Pending(m, rs)[i]]) && Rank(m, rs, Pending(m, rs)[i]) == i
    ensures k == Pending(m, rs)[i] ==>
      AfterVectors(m, rs, e, i + 1, k) == WithEmbedding(AfterVectors(m, rs, e, i, k), e.model, e.dimensions, e.vectors[i])
    ensures k != Pending(m, rs)[i] ==> AfterVectors(m, rs, e, i + 1, k) == AfterVectors(m, rs, e, i, k)
  {
    if k == Pending(m, rs)[i] {
      assert AfterVectors(m, rs, e, i, k) == rs[k];
    } else if !Matched(m, rs[k]) {
      RankPending(m, rs, k);
      assert Rank(m, rs, k) != i;
    }
  }

  ghost function Written(m: map<string, ChunkRecord>, rs: seq<ChunkRecord>, e: EmbedResult, done: nat): (out: seq<ChunkRecord>)
    requires |e.vectors| == |Pending(m, rs)|
    ensures |out| == |rs|
  {
    seq(|rs|, k requires 0 <= k < |rs| => AfterVectors(m, rs, e, done, k))
  }

  lemma {:induction false} WrittenStep(m: map<string, ChunkRecord>, rs: seq<ChunkRecord>, e: EmbedResult, i: nat)
    requires i < |e.vectors| == |Pending(m, rs)|
    ensures Pending(m, rs)[i] < |rs|
    ensures
      var at, before := Pending(m, rs)[i], Written(m, rs, e, i);
      Written(m, rs, e, i + 1) == before[at := WithEmbedding(before[at], e.model, e.dimensions, e.vectors[i])]
  {
    PendingAt(m, rs, i);
    forall k | 0 <= k < |rs|
      ensures k == Pending(m, rs)[i] ==>
        AfterVectors(m, rs, e, i + 1, k) == WithEmbedding(AfterVectors(m, rs, e, i, k), e.model, e.dimensions, e.vectors[i])
      ensures k != Pending(m, rs)[i] ==> AfterVectors(m, rs, e, i + 1, k) == AfterVectors(m, rs, e, i, k)
    {
      WriteStep(m, rs, e, i, k);
    }
  }

  lemma {:induction false} WrittenAll(m: map<string, ChunkRecord>, rs: seq<ChunkRecord>, e: EmbedResult)
    requires |e.vectors| == |Pending(m, rs)|
    ensures Written(m, rs, e, |e.vectors|) == Filled(m, rs, e)
  {
    forall k | 0 <= k < |rs|
      ensures Written(m, rs, e, |e.vectors|)[k] == Filled(m, rs, e)[k]
    {
      AllWritten(m, rs, e, k);
    }
  }

  /** Each stage differs from the one before in the record at the pending position. */
  ghost predicate Stages(stages: seq<seq<ChunkRecord>>, pending: seq<nat>, e: EmbedResult)
  {
    && |stages| == |pending| + 1 == |e.vectors| + 1
    && forall i :: 0 <= i < |pending| ==> pending[i] < |stages[i]| && stages[i + 1] == StageAfter(stages[i], pending[i], e, i)
  }

  ghost function StageAfter(before: seq<ChunkRecord>, at: nat, e: EmbedResult, i: nat): seq<ChunkRecord>
    requires at < |before| && i < |e.vectors|
  {
    before[at := WithEmbedding(before[at], e.model, e.dimensions, e.vectors[i])]
  }

  ghost function WrittenStages(m: map<string, ChunkRecord>, rs: seq<ChunkRecord>, e: EmbedResult): (stages: seq<seq<ChunkRecord>>)
    requires |e.vectors| == |Pending(m, rs)|
  {
    seq(|e.vectors| + 1, i requires 0 <= i <= |e.vectors| => Written(m, rs, e, i))
  }

  lemma {:induction false} WrittenAreStages(m: map<string, ChunkRecord>, rs: seq<ChunkRecord>, e: EmbedResult)
    requires |e.vectors| == |Pending(m, rs)|
    ensures Stages(WrittenStages(m, rs, e), Pending(m, rs), e)
    ensures WrittenStages(m, rs, e)[0] == ReusedUpTo(m, rs, |rs|)
    ensures WrittenStages(m, rs, e)[|e.vectors|] == Filled(m, rs, e)
  {
    var stages := WrittenStages(m, rs, e);
    forall i | 0 <= i < |e.vectors|
      ensures Pending(m, rs)[i] < |stages[i]| && stages[i + 1] == StageAfter(stages[i], Pending(m, rs)[i], e, i)
    {
      WrittenStep(m, rs, e, i);
    }
    NothingWritten(m, rs, e);
    WrittenAll(m, rs, e);
  }

  /** The second loop: check each vector and write it to its record. */
  method WriteVectors(ghost stages: seq<seq<ChunkRecord>>, reused: seq<ChunkRecord>, pendingIndexes: seq<nat>, e: EmbedResult)
    returns (ok: bool, refreshed: seq<ChunkRecord>)
    requires Stages(stages, pendingIndexes, e) && reused == stages[0]
    ensures ok == VectorsHave(e.vectors, e.dimensions)
    ensures ok ==> refreshed == stages[|pendingIndexes|]
  {
    refreshed := reused;
    for i := 0 to |pendingIndexes|
      invariant forall k :: 0 <= k < i ==> |e.vectors[k]| == e.dimensions
      invariant refreshed == stages[i]
    {
      var vector := e.vectors[i];
      if |vector| != e.dimensions {
        return false, [];
      }
      var at := pendingIndexes[i];
      refreshed := refreshed[at := WithEmbedding(refreshed[at], e.model, e.dimensions, vector)];
    }
    return true, refreshed;
  }

  lemma {:induction false} NothingPending(m: map<string, ChunkRecord>, rs: seq<ChunkRecord>)
    requires Pending(m, rs) == []
    ensures ReusedUpTo(m, rs, |rs|) == Filled(m, rs, NO_VECTORS)
  {
    forall k | 0 <= k < |rs|
      ensures ReusedUpTo(m, rs, |rs|)[k] == Filled(m, rs, NO_VECTORS)[k]
    {
      FilledAt(m, rs, NO_VECTORS, k);
    }
  }

  lemma {:induction false} NothingWritten(m: map<string, ChunkRecord>, rs: seq<ChunkRecord>, e: EmbedResult)
    requires |e.vectors| == |Pending(m, rs)|
    ensures ReusedUpTo(m, rs, |rs|) == Written(m, rs, e, 0)
  {
    forall k | 0 <= k < |rs|
      ensures ReusedUpTo(m, rs, |rs|)[k] == AfterVectors(m, rs, e, 0, k)
    {
    }
  }

  method RefreshEmbeddingsForChangedChunks(existing: seq<ChunkRecord>, records: seq<ChunkRecord>, embedder: Option<Embedder>)
    returns (r: Result<Refreshed>)
    ensures r == Refresh(existing, records, embedder)
  {
    if records == [] {
      return Ok(Refreshed([], []));
    }
    var existingByChunk := IndexByKey(existing);
    var refreshed, pendingIndexes, pendingTexts := ReuseMatching(existingByChunk, records);
    if pendingIndexes == [] {
      NothingPending(existingByChunk, records);
      return Ok(Refreshed(refreshed, []));
    }
    if embedder.None? {
      return Err("embedder is required");
    }
    var result := embedder.value(pendingTexts);
    if result.Err? {
      return Err(result.error);
    }
    var e := result.value;
    if e.dimensions <= 0 {
      return Err("embedding dimensions must be positive");
    }
    if |e.vectors| != |pendingIndexes| {
      return Err("embedding count mismatch");
    }
    WrittenAreStages(existingByChunk, records, e);
    var ok, filled := WriteVectors(WrittenStages(existingByChunk, records, e), refreshed, pendingIndexes, e);
    if !ok {
      return Err("embedding dimensions mismatch");
    }
    return Ok(Refreshed(filled, [pendingTexts]));
  }

  // ---- mergeChunkRecords, BuildChunkDelta, DeleteChunksForFile ----

  /** Adds the normalised paths to the removed set. */
  method MarkRemoved(removed: set<string>, paths: seq<string>) returns (r: Result<set<string>>)
    ensures NormalizedPaths(paths).Ok? ==> r.Ok? && forall p :: p in r.value <==> p in removed || p in NormalizedPaths(paths).value
    ensures NormalizedPaths(paths).Err? ==> r == Err(NormalizedPaths(paths).error)
  {
    var all := removed;
    ghost var rs := seq(|paths|, i requires 0 <= i < |paths| => NormalizeRelativePath(paths[i]));
    for i := 0 to |paths|
      invariant Collect(rs[..i]).Ok?
      invariant forall p :: p in all <==> p in removed || p in Collect(rs[..i]).value
    {
      CollectStep(rs, i);
      var normalized := NormalizeRelativePath(paths[i]);
      if normalized.Err? {
        return Err(normalized.error);
      }
      all := all + {normalized.value};
    }
    assert rs[..|paths|] == rs;
    return Ok(all);
  }

  /** Copies the rows to keep, after checking their scope. */
  method KeepExisting(scope: Scope, existing: seq<ChunkRecord>, removed: set<string>, ghost paths: seq<string>)
    returns (inScope: bool, merged: seq<ChunkRecord>)
    requires forall p :: p in removed <==> p in paths
    ensures inScope == AllInScope(scope, existing)
    ensures inScope ==> merged == Kept(existing, paths)
  {
    merged := [];
    for i := 0 to |existing|
      invariant AllInScope(scope, existing[..i])
      invariant merged == Kept(existing[..i], paths)
    {
      assert existing[..i + 1][..i] == existing[..i];
      if existing[i].sessionID != scope.sessionID || existing[i].repoRoot != scope.repoRoot {
        return false, [];
      }
      if existing[i].relPath !in removed {
        merged := merged + [existing[i]];
      }
    }
    assert existing[..|existing|] == existing;
    return true, merged;
  }

  method MergeChunkRecords(scope: Scope, existing: seq<ChunkRecord>, refreshed: seq<ChunkRecord>, deletePaths: seq<string>)
    returns (r: Result<seq<ChunkRecord>>)
    ensures r == Merged(scope, existing, refreshed, deletePaths)
  {
    var deleted := MarkRemoved({}, deletePaths);
    if deleted.Err? {
      return Err(deleted.error);
    }
    var removed := MarkRemoved(deleted.value, PathsOfRecords(refreshed));
    if removed.Err? {
      return Err(removed.error);
    }
    var inScope, merged := KeepExisting(scope, existing, removed.value,
                                        NormalizedPaths(deletePaths).value + NormalizedPaths(PathsOfRecords(refreshed)).value);
    if !inScope {
      return Err("merge chunk records: chunk does not match scope");
    }
    return Ok(Sort(RecordLe, merged + refreshed));
  }

  method BuildChunkDelta(H: string -> string, scope: Scope, existing: seq<ChunkRecord>, documents: seq<ChunkedDocument>, deletePaths: seq<string>)
    returns (r: Result<seq<ChunkRecord>>)
    ensures r == DeltaMerged(H, scope, existing, documents, deletePaths)
  {
    if TrimSpace(scope.sessionID) == "" {
      return Err("build chunk delta: session_id is required");
    }
    if TrimSpace(scope.repoRoot) == "" {
      return Err("build chunk delta: repo_root is required");
    }
    var deleted := MarkRemoved({}, deletePaths);
    if deleted.Err? {
      return Err(deleted.error);
    }
    var removed := MarkRemoved(deleted.value, PathsOfDocuments(documents));
    if removed.Err? {
      return Err(removed.error);
    }
    var inScope, merged := KeepExisting(scope, existing, removed.value,
                                        NormalizedPaths(deletePaths).value + NormalizedPaths(PathsOfDocuments(documents)).value);
    if !inScope {
      return Err("build chunk delta: chunk does not match scope");
    }
    var added := BuildChunkRecords(H, scope, documents);
    if added.Err? {
      return Err(added.error);
    }
    return Ok(Sort(RecordLe, merged + added.value));
  }

  /** The rows of one file are dropped; all others stay, in order. */
  method DeleteChunksForFile(existing: seq<ChunkRecord>, relPath: string) returns (r: Result<seq<ChunkRecord>>)
    ensures NormalizeRelativePath(relPath).Ok? ==> r == Ok(Kept(existing, [NormalizeRelativePath(relPath).value]))
    ensures NormalizeRelativePath(relPath).Err? ==> r == Err(NormalizeRelativePath(relPath).error)
  {
    var normalized := NormalizeRelativePath(relPath);
    if normalized.Err? {
      return Err(normalized.error);
    }
    var filtered: seq<ChunkRecord> := [];
    for i := 0 to |existing|
      invariant filtered == Kept(existing[..i], [normalized.value])
    {
      assert existing[..i + 1][..i] == existing[..i];
      if existing[i].relPath != normalized.value {
        filtered := filtered + [existing[i]];
      }
    }
    assert existing[..|existing|] == existing;
    return Ok(filtered);
  }
}
