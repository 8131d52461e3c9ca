/** Chunk records, the reuse of embeddings and the merge into an index, as values
    (internal/indexing/records.go, embedding_refresh.go, chunk_delta.go). */
module ChunkIndex {
  import opened Outcomes
  import opened GoStrings
  import opened Decimal
  import opened Sorting
  import opened StringOrder
  import opened Paths
  import opened Chunker

  /** indexstore.ChunkRecord and ChunkRecordInput; the row id and creation time are never read. */
  datatype ChunkRecord = ChunkRecord(
    sessionID: string,
    repoRoot: string,
    relPath: string,
    chunkIndex: int,
    content: string,
    contentHash: string,
    model: string,
    embeddingDims: int,
    embedding: seq<real>)

  datatype ChunkedDocument = ChunkedDocument(relPath: string, chunks: seq<Chunk>)

  /** A session and its canonical repository root. */
  datatype Scope = Scope(sessionID: string, repoRoot: string)

  // ---- records.go ----

  function ChunkPreimage(relPath: string, chunkIndex: int, content: string): string
  {
    relPath + "\n" + Itoa(chunkIndex) + "\n" + content
  }

  function ChunkHash(H: string -> string, relPath: string, chunkIndex: int, content: string): string
  {
    H(ChunkPreimage(relPath, chunkIndex, content))
  }

  /** A record before its embedding is known. */
  function BareRecord(H: string -> string, scope: Scope, relPath: string, index: int, content: string): ChunkRecord
  {
    ChunkRecord(scope.sessionID, scope.repoRoot, relPath, index, content, ChunkHash(H, relPath, index, content), "", 0, [])
  }

  function CheckChunks(chunks: seq<Chunk>, from: nat): Result<bool>
    requires from <= |chunks|
    decreases |chunks| - from
  {
    if from == |chunks| then Ok(true)
    else if chunks[from].index != from then Err("chunk index does not match expected contiguous index")
    else if TrimSpace(chunks[from].content) == "" then Err("chunk content is empty")
    else CheckChunks(chunks, from + 1)
  }

  function BareRecords(H: string -> string, scope: Scope, relPath: string, chunks: seq<Chunk>): (rs: seq<ChunkRecord>)
    ensures |rs| == |chunks|
  {
    seq(|chunks|, i requires 0 <= i < |chunks| => BareRecord(H, scope, relPath, chunks[i].index, chunks[i].content))
  }

  function DocumentRecords(H: string -> string, scope: Scope, doc: ChunkedDocument): Result<seq<ChunkRecord>>
  {
    var relPath :- NormalizeRelativePath(doc.relPath);
    var _ :- CheckChunks(doc.chunks, 0);
    Ok(BareRecords(H, scope, relPath, doc.chunks))
  }

  function EachDocument(H: string -> string, scope: Scope, docs: seq<ChunkedDocument>): (r: seq<Result<seq<ChunkRecord>>>)
    ensures |r| == |docs|
  {
    seq(|docs|, i requires 0 <= i < |docs| => DocumentRecords(H, scope, docs[i]))
  }

  /** BuildChunkRecords */
  function RecordsOf(H: string -> string, scope: Scope, docs: seq<ChunkedDocument>): Result<seq<ChunkRecord>>
  {
    if TrimSpace(scope.sessionID) == "" then Err("build chunk records: session_id is required")
    else
      var rss :- Collect(EachDocument(H, scope, docs));
      Ok(Flatten(rss))
  }

  // ---- embedding_refresh.go ----

  datatype EmbedResult = EmbedResult(model: string, dimensions: int, vectors: seq<seq<real>>)

  type Embedder = seq<string> -> Result<EmbedResult>

  /** chunkRecordKey: "%s:%d" */
  function ChunkKey(relPath: string, chunkIndex: int): string
  {
    relPath + ":" + Itoa(chunkIndex)
  }

  function KeyOf(r: ChunkRecord): string
  {
    ChunkKey(r.relPath, r.chunkIndex)
  }

  /** existingByChunk: of two rows with one key the later one wins. */
  function ByKey(existing: seq<ChunkRecord>): map<string, ChunkRecord>
  {
    if existing == [] then map[]
    else ByKey(existing[..|existing| - 1])[KeyOf(existing[|existing| - 1]) := existing[|existing| - 1]]
  }

  /** An existing row for the same chunk with the same content hash. */
  predicate Matched(m: map<string, ChunkRecord>, r: ChunkRecord)
  {
    KeyOf(r) in m && m[KeyOf(r)].contentHash == r.contentHash
  }

  function WithEmbedding(r: ChunkRecord, model: string, dims: int, vector: seq<real>): ChunkRecord
  {
    r.(model := model, embeddingDims := dims, embedding := vector)
  }

  function Reused(m: map<string, ChunkRecord>, r: ChunkRecord): ChunkRecord
    requires Matched(m, r)
  {
    var e := m[KeyOf(r)];
    WithEmbedding(r, e.model, e.embeddingDims, e.embedding)
  }

  /** The positions of the records that no existing row matches. */
  function Pending(m: map<string, ChunkRecord>, rs: seq<ChunkRecord>): seq<nat>
  {
    if rs == [] then []
    else Pending(m, rs[..|rs| - 1]) + if Matched(m, rs[|rs| - 1]) then [] else [|rs| - 1]
  }

  /** Their contents: what is sent to the embedder. */
  function PendingTexts(m: map<string, ChunkRecord>, rs: seq<ChunkRecord>): (ts: seq<string>)
    ensures |ts| == |Pending(m, rs)|
  {
    if rs == [] then []
    else PendingTexts(m, rs[..|rs| - 1]) + if Matched(m, rs[|rs| - 1]) then [] else [rs[|rs| - 1].content]
  }

  /** Matched records take the existing embedding, the others the vectors in order. */
  function Filled(m: map<string, ChunkRecord>, rs: seq<ChunkRecord>, e: EmbedResult): (out: seq<ChunkRecord>)
    requires |e.vectors| >= |Pending(m, rs)|
    ensures |out| == |rs|
  {
    if rs == [] then []
    else
      var front, last := rs[..|rs| - 1], rs[|rs| - 1];
      Filled(m, front, e) +
      [if Matched(m, last) then Reused(m, last)
       else WithEmbedding(last, e.model, e.dimensions, e.vectors[|Pending(m, front)|])]
  }

  predicate VectorsHave(vectors: seq<seq<real>>, dims: int)
  {
    forall i :: 0 <= i < |vectors| ==> |vectors[i]| == dims
  }

  /** The refreshed records, and the batches of texts sent to the embedder. */
  datatype Refreshed = Refreshed(records: seq<ChunkRecord>, calls: seq<seq<string>>)

  const NO_VECTORS: EmbedResult := EmbedResult("", 0, [])

  /** RefreshEmbeddingsForChangedChunks */
  function Refresh(existing: seq<ChunkRecord>, rs: seq<ChunkRecord>, embedder: Option<Embedder>): Result<Refreshed>
  {
    var m := ByKey(existing);
    if Pending(m, rs) == [] then Ok(Refreshed(Filled(m, rs, NO_VECTORS), []))
    else if embedder.None? then Err("embedder is required")
    else
      var texts := PendingTexts(m, rs);
      var e :- embedder.value(texts);
      if e.dimensions <= 0 then Err("embedding dimensions must be positive")
      else if |e.vectors| != |texts| then Err("embedding count mismatch")
      else if !VectorsHave(e.vectors, e.dimensions) then Err("embedding dimensions mismatch")
      else Ok(Refreshed(Filled(m, rs, e), [texts]))
  }

  // ---- the order of the index ----

  predicate RecordLe(a: ChunkRecord, b: ChunkRecord)
  {
    if a.relPath != b.relPath then LexLe(a.relPath, b.relPath) else a.chunkIndex <= b.chunkIndex
  }

  lemma RecordPreorder()
    ensures TotalPreorder(RecordLe)
  {
    forall a, b
      ensures RecordLe(a, b) || RecordLe(b, a)
    {
      LexTotal(a.relPath, b.relPath);
    }
    forall a, b, c | RecordLe(a, b) && RecordLe(b, c)
      ensures RecordLe(a, c)
    {
      if LexLe(a.relPath, b.relPath) && LexLe(b.relPath, c.relPath) {
        LexTransitive(a.relPath, b.relPath, c.relPath);
      }
      if LexLe(a.relPath, b.relPath) && LexLe(b.relPath, a.relPath) {
        LexAntisymmetric(a.relPath, b.relPath);
      }
    }
  }

  /** Two rows compare equal exactly when they are the same chunk. */
  lemma RecordTie(a: ChunkRecord, b: ChunkRecord)
    ensures RecordLe(a, b) && RecordLe(b, a) <==> a.relPath == b.relPath && a.chunkIndex == b.chunkIndex
  {
    if LexLe(a.relPath, b.relPath) && LexLe(b.relPath, a.relPath) {
      LexAntisymmetric(a.relPath, b.relPath);
    }
  }

  // ---- merging ----

  predicate InScope(scope: Scope, r: ChunkRecord)
  {
    r.sessionID == scope.sessionID && r.repoRoot == scope.repoRoot
  }

  predicate AllInScope(scope: Scope, rs: seq<ChunkRecord>)
  {
    forall i :: 0 <= i < |rs| ==> InScope(scope, rs[i])
  }

  function NormalizedPaths(ps: seq<string>): Result<seq<string>>
  {
    Collect(seq(|ps|, i requires 0 <= i < |ps| => NormalizeRelativePath(ps[i])))
  }

  function PathsOfRecords(rs: seq<ChunkRecord>): (ps: seq<string>)
    ensures |ps| == |rs|
  {
    seq(|rs|, i requires 0 <= i < |rs| => rs[i].relPath)
  }

  function PathsOfDocuments(docs: seq<ChunkedDocument>): (ps: seq<string>)
    ensures |ps| == |docs|
  {
    seq(|docs|, i requires 0 <= i < |docs| => docs[i].relPath)
  }

  /** The rows whose path is not removed. */
  function Kept(existing: seq<ChunkRecord>, removed: seq<string>): seq<ChunkRecord>
  {
    if existing == [] then []
    else Kept(existing[..|existing| - 1], removed) +
         if existing[|existing| - 1].relPath in removed then [] else [existing[|existing| - 1]]
  }

  /** mergeChunkRecords: rows of deleted paths and of refreshed records' paths are replaced. */
  function Merged(scope: Scope, existing: seq<ChunkRecord>, refreshed: seq<ChunkRecord>, deletePaths: seq<string>): Result<seq<ChunkRecord>>
  {
    var deleted :- NormalizedPaths(deletePaths);
    var replaced :- NormalizedPaths(PathsOfRecords(refreshed));
    if !AllInScope(scope, existing) then Err("merge chunk records: chunk does not match scope")
    else Ok(Sort(RecordLe, Kept(existing, deleted + replaced) + refreshed))
  }

  /** BuildChunkDelta: rows of deleted paths and of all documents' paths are replaced. */
  function DeltaMerged(H: string -> string, scope: Scope, existing: seq<ChunkRecord>, docs: seq<ChunkedDocument>, deletePaths: seq<string>): Result<seq<ChunkRecord>>
  {
    if TrimSpace(scope.sessionID) == "" then Err("build chunk delta: session_id is required")
    else if TrimSpace(scope.repoRoot) == "" then Err("build chunk delta: repo_root is required")
    else
      var deleted :- NormalizedPaths(deletePaths);
      var replaced :- NormalizedPaths(PathsOfDocuments(docs));
      if !AllInScope(scope, existing) then Err("build chunk delta: chunk does not match scope")
      else
        var added :- RecordsOf(H, scope, docs);
        Ok(Sort(RecordLe, Kept(existing, deleted + replaced) + added))
  }
}
