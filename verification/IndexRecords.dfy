/** The rows of the index, column by column, which embedding each takes, and when the steps of an update are refused
    (internal/indexing/records.go, embedding_refresh.go, rebuild.go, internal/indexstore/store.go). */
module IndexRecords {
  import opened Outcomes
  import opened GoStrings
  import opened Decimal
  import opened StringOrder
  import opened Paths
  import opened Chunker
  import opened ChunkIndex
  import opened IndexFacts
  import DeltaApply
  import IndexStoring

  // ---- building records ----

  /** A record before its embedding: the scope, the normalised path, the chunk's number and text, and the digest of the
      three. */
  predicate RecordSays(H: string -> string, scope: Scope, relPath: string, chunk: Chunk, r: ChunkRecord)
  {
    && r.sessionID == scope.sessionID && r.repoRoot == scope.repoRoot && r.relPath == relPath
    && r.chunkIndex == chunk.index && r.content == chunk.content
    && r.contentHash == H(relPath + "\n" + Itoa(chunk.index) + "\n" + chunk.content)
    && r.model == "" && r.embeddingDims == 0 && r.embedding == []
  }

  /** Documents are taken if and only if the session is named, their paths can be normalised, and their chunks are numbered
      from zero and not blank. */
  predicate GoodDocument(doc: ChunkedDocument)
  {
    && NormalizeRelativePath(doc.relPath).Ok?
    && forall i :: 0 <= i < |doc.chunks| ==> doc.chunks[i].index == i && !Blank(doc.chunks[i].content)
  }

  lemma {:induction false} ChunksGood(chunks: seq<Chunk>, from: nat)
    requires from <= |chunks|
    ensures CheckChunks(chunks, from).Ok? <==> forall i :: from <= i < |chunks| ==> chunks[i].index == i && !Blank(chunks[i].content)
    decreases |chunks| - from
  {
    if from < |chunks| {
      TrimSpaceEmpty(chunks[from].content);
      ChunksGood(chunks, from + 1);
    }
  }

  lemma DocumentGood(H: string -> string, scope: Scope, doc: ChunkedDocument)
    ensures DocumentRecords(H, scope, doc).Ok? <==> GoodDocument(doc)
    ensures DocumentRecords(H, scope, doc).Ok? ==>
      var rs := DocumentRecords(H, scope, doc).value;
      && |rs| == |doc.chunks|
      && forall i :: 0 <= i < |rs| ==> RecordSays(H, scope, NormalizeRelativePath(doc.relPath).value, doc.chunks[i], rs[i])
  {
    ChunksGood(doc.chunks, 0);
  }

  /** The records of each document. */
  predicate GroupsSay(H: string -> string, scope: Scope, docs: seq<ChunkedDocument>, rss: seq<seq<ChunkRecord>>)
  {
    |rss| == |docs| && forall k :: 0 <= k < |docs| ==> GroupSays(H, scope, docs[k], rss[k])
  }

  predicate GroupSays(H: string -> string, scope: Scope, doc: ChunkedDocument, rs: seq<ChunkRecord>)
  {
    && NormalizeRelativePath(doc.relPath).Ok? && |rs| == |doc.chunks|
    && forall i :: 0 <= i < |rs| ==> RecordSays(H, scope, NormalizeRelativePath(doc.relPath).value, doc.chunks[i], rs[i])
  }

  /** BuildChunkRecords: when it succeeds, and the records it builds, document by document and chunk by chunk. */
  lemma {:induction false} RecordsIff(H: string -> string, scope: Scope, docs: seq<ChunkedDocument>)
    ensures RecordsOf(H, scope, docs).Ok? <==> !Blank(scope.sessionID) && forall k :: 0 <= k < |docs| ==> GoodDocument(docs[k])
    ensures RecordsOf(H, scope, docs).Ok? ==>
      exists rss :: GroupsSay(H, scope, docs, rss) && RecordsOf(H, scope, docs).value == Flatten(rss)
  {
    TrimSpaceEmpty(scope.sessionID);
    var each := EachDocument(H, scope, docs);
    CollectOk(each);
    forall k | 0 <= k < |docs|
      ensures each[k].Ok? <==> GoodDocument(docs[k])
      ensures each[k].Ok? ==> GroupSays(H, scope, docs[k], each[k].value)
    {
      DocumentGood(H, scope, docs[k]);
    }
    if RecordsOf(H, scope, docs).Ok? {
      assert GroupsSay(H, scope, docs, Collect(each).value);
    }
  }

  // ---- refreshing ----

  /** An existing row holds the record's chunk with its digest. */
  predicate Holds(existing: seq<ChunkRecord>, r: ChunkRecord, k: nat)
  {
    && k < |existing| && existing[k].relPath == r.relPath && existing[k].chunkIndex == r.chunkIndex
    && existing[k].contentHash == r.contentHash
  }

  lemma {:induction false} MatchedIff(existing: seq<ChunkRecord>, r: ChunkRecord)
    requires UniqueKeys(existing)
    ensures Matched(ByKey(existing), r) <==> exists k: nat :: Holds(existing, r, k)
    ensures forall k: nat :: Holds(existing, r, k) ==> Matched(ByKey(existing), r) && ByKey(existing)[KeyOf(r)] == existing[k]
  {
    forall k: nat | Holds(existing, r, k)
      ensures KeyOf(r) in ByKey(existing) && ByKey(existing)[KeyOf(r)] == existing[k]
    {
      ByKeyAt(existing, k);
    }
    if Matched(ByKey(existing), r) {
      ByKeyFrom(existing, KeyOf(r));
      var e := ByKey(existing)[KeyOf(r)];
      ChunkKeyInjective(e.relPath, e.chunkIndex, r.relPath, r.chunkIndex);
      var k :| 0 <= k < |existing| && existing[k] == e;
      assert Holds(existing, r, k);
    }
  }

  /** Of rows with one key the last one counts. */
  lemma LastRowCounts(existing: seq<ChunkRecord>, k: nat)
    requires LastRow(existing, k)
    ensures Counts(existing, existing[k])
  {
    var before, later := existing[..k], existing[k + 1..];
    CountsLater(before, existing[k], later);
    assert existing == before + [existing[k]] + later;
  }

  lemma {:induction false} CountsLater(before: seq<ChunkRecord>, r: ChunkRecord, later: seq<ChunkRecord>)
    requires forall x :: x in later ==> OtherChunk(x, r)
    ensures Counts(before + [r] + later, r)
  {
    if later == [] {
      LastCounts(before, r);
      assert before + [r] + later == before + [r];
    } else {
      var rest, last := later[..|later| - 1], later[|later| - 1];
      CountsLater(before, r, rest);
      OtherKeeps(before + [r] + rest, last, r);
      assert before + [r] + later == before + [r] + rest + [last];
    }
  }

  /** The row the existing rows have for r's chunk is r. */
  predicate Counts(existing: seq<ChunkRecord>, r: ChunkRecord)
  {
    KeyOf(r) in ByKey(existing) && ByKey(existing)[KeyOf(r)] == r
  }

  lemma LastCounts(before: seq<ChunkRecord>, r: ChunkRecord)
    ensures Counts(before + [r], r)
  {
    ByKeyAdds(before, r);
  }

  lemma OtherKeeps(before: seq<ChunkRecord>, x: ChunkRecord, r: ChunkRecord)
    requires Counts(before, r) && OtherChunk(x, r)
    ensures Counts(before + [x], r)
  {
    OtherKey(x, r);
    ByKeyAdds(before, x);
  }

  lemma {:induction false} ByKeyAdds(before: seq<ChunkRecord>, r: ChunkRecord)
    ensures ByKey(before + [r]) == ByKey(before)[KeyOf(r) := r]
  {
    assert (before + [r])[..|before|] == before;
  }

  predicate OtherChunk(a: ChunkRecord, b: ChunkRecord)
  {
    a.relPath != b.relPath || a.chunkIndex != b.chunkIndex
  }

  /** No later row is the same chunk. */
  predicate LastRow(existing: seq<ChunkRecord>, k: nat)
  {
    k < |existing| && forall j :: k < j < |existing| ==> OtherChunk(existing[j], existing[k])
  }

  lemma OtherKey(a: ChunkRecord, b: ChunkRecord)
    requires OtherChunk(a, b)
    ensures KeyOf(a) != KeyOf(b)
  {
    if KeyOf(a) == KeyOf(b) {
      ChunkKeyInjective(a.relPath, a.chunkIndex, b.relPath, b.chunkIndex);
    }
  }

  /** The records no existing row holds, in order. */
  ghost function Missing(existing: seq<ChunkRecord>, rs: seq<ChunkRecord>): seq<ChunkRecord>
  {
    if rs == [] then []
    else
      var last := rs[|rs| - 1];
      Missing(existing, rs[..|rs| - 1]) + if exists k: nat :: Holds(existing, last, k) then [] else [last]
  }

  lemma {:induction false} PendingAreMissing(existing: seq<ChunkRecord>, rs: seq<ChunkRecord>)
    requires UniqueKeys(existing)
    ensures |Pending(ByKey(existing), rs)| == |Missing(existing, rs)|
    ensures PendingTexts(ByKey(existing), rs) == DeltaApply.TextsOf(Missing(existing, rs))
  {
    if rs != [] {
      PendingAreMissing(existing, rs[..|rs| - 1]);
      MatchedIff(existing, rs[|rs| - 1]);
    }
  }

  /** A refreshed record: the text is the record's, the embedding that of the row that holds its chunk or, if there is none,
      the vector at its place among the missing ones. */
  ghost predicate RefreshedSays(existing: seq<ChunkRecord>, rs: seq<ChunkRecord>, out: seq<ChunkRecord>, e: EmbedResult, k: nat)
    requires k < |rs| == |out|
  {
    && out[k].(model := "", embeddingDims := 0, embedding := []) == rs[k].(model := "", embeddingDims := 0, embedding := [])
    && (forall j: nat :: Holds(existing, rs[k], j) ==>
          out[k].model == existing[j].model && out[k].embeddingDims == existing[j].embeddingDims && out[k].embedding == existing[j].embedding)
    && ((forall j: nat :: !Holds(existing, rs[k], j)) ==>
          var at := |Missing(existing, rs[..k])|;
          at < |e.vectors| && out[k].model == e.model && out[k].embeddingDims == e.dimensions && out[k].embedding == e.vectors[at])
  }

  /** The answer of the embedder fits the texts it was sent. */
  predicate Fits(e: EmbedResult, n: nat)
  {
    e.dimensions > 0 && |e.vectors| == n && forall i :: 0 <= i < |e.vectors| ==> |e.vectors[i]| == e.dimensions
  }

  /** Refreshing succeeds if and only if no record is missing or an embedder answers their texts, sent in one batch and in
      order, with one vector each of a positive dimension. */
  lemma {:induction false} RefreshIff(existing: seq<ChunkRecord>, rs: seq<ChunkRecord>, embedder: Option<Embedder>)
    requires UniqueKeys(existing)
    ensures
      var texts := DeltaApply.TextsOf(Missing(existing, rs));
      && (Refresh(existing, rs, embedder).Ok? <==>
            texts == [] || (embedder.Some? && embedder.value(texts).Ok? && Fits(embedder.value(texts).value, |texts|)))
      && (Refresh(existing, rs, embedder).Ok? ==>
            var out := Refresh(existing, rs, embedder).value;
            && out.calls == (if texts == [] then [] else [texts]) && |out.records| == |rs|
            && var e := if texts == [] then NO_VECTORS else embedder.value(texts).value;
            forall k :: 0 <= k < |rs| ==> RefreshedSays(existing, rs, out.records, e, k))
  {
    PendingAreMissing(existing, rs);
    if Refresh(existing, rs, embedder).Ok? {
      var texts := DeltaApply.TextsOf(Missing(existing, rs));
      var out := Refresh(existing, rs, embedder).value.records;
      var e := if texts == [] then NO_VECTORS else embedder.value(texts).value;
      assert out == Filled(ByKey(existing), rs, e);
      forall k | 0 <= k < |rs|
        ensures RefreshedSays(existing, rs, out, e, k)
      {
        FilledSays(existing, rs, e, k);
      }
    }
  }

  lemma {:induction false} FilledSays(existing: seq<ChunkRecord>, rs: seq<ChunkRecord>, e: EmbedResult, k: nat)
    requires UniqueKeys(existing) && k < |rs| && |e.vectors| >= |Pending(ByKey(existing), rs)|
    ensures RefreshedSays(existing, rs, Filled(ByKey(existing), rs, e), e, k)
  {
    FilledAt(ByKey(existing), rs, e, k);
    MatchedIff(existing, rs[k]);
    PendingAreMissing(existing, rs[..k]);
  }

  // ---- merging and storing ----

  /** Rows are ordered by path, those of one path by number. */
  lemma RecordLeIff(a: ChunkRecord, b: ChunkRecord)
    ensures RecordLe(a, b) <==> if a.relPath == b.relPath then a.chunkIndex <= b.chunkIndex else LexLe(a.relPath, b.relPath)
  {
  }

  /** Dropping rows goes row by row. */
  lemma {:induction false} KeptLaws(a: seq<ChunkRecord>, b: seq<ChunkRecord>, r: ChunkRecord, removed: seq<string>)
    ensures Kept(a + b, removed) == Kept(a, removed) + Kept(b, removed)
    ensures Kept([], removed) == [] && Kept([r], removed) == if r.relPath in removed then [] else [r]
    decreases |b|
  {
    assert [r][..0] == [];
    if b == [] {
      assert a + b == a;
    } else {
      assert (a + b)[..|a + b| - 1] == a + b[..|b| - 1];
      KeptLaws(a, b[..|b| - 1], r, removed);
    }
  }

  /** A merge is refused if and only if a path cannot be normalised or an existing row is of another scope. */
  lemma MergedIff(scope: Scope, existing: seq<ChunkRecord>, refreshed: seq<ChunkRecord>, deletes: seq<string>)
    ensures Merged(scope, existing, refreshed, deletes).Ok? <==>
      && (forall i :: 0 <= i < |deletes| ==> NormalizeRelativePath(deletes[i]).Ok?)
      && (forall i :: 0 <= i < |refreshed| ==> NormalizeRelativePath(refreshed[i].relPath).Ok?)
      && forall i :: 0 <= i < |existing| ==> existing[i].sessionID == scope.sessionID && existing[i].repoRoot == scope.repoRoot
  {
    var ps := PathsOfRecords(refreshed);
    CollectOk(seq(|deletes|, i requires 0 <= i < |deletes| => NormalizeRelativePath(deletes[i])));
    CollectOk(seq(|ps|, i requires 0 <= i < |ps| => NormalizeRelativePath(ps[i])));
    var d, r := seq(|deletes|, i requires 0 <= i < |deletes| => NormalizeRelativePath(deletes[i])),
      seq(|ps|, i requires 0 <= i < |ps| => NormalizeRelativePath(ps[i]));
    assert forall i :: 0 <= i < |deletes| ==> d[i] == NormalizeRelativePath(deletes[i]);
    assert forall i :: 0 <= i < |refreshed| ==> r[i] == NormalizeRelativePath(refreshed[i].relPath);
  }

  predicate Alike(a: ChunkRecord, b: ChunkRecord)
  {
    a.relPath == b.relPath && a.chunkIndex == b.chunkIndex && a.contentHash == b.contentHash
  }

  /** Rows are stored if and only if the scope is named, all are of it, and no two have one path, number and digest. */
  lemma {:induction false} ReplaceErrorIff(scope: Scope, rows: seq<ChunkRecord>)
    ensures DeltaApply.ReplaceError(scope, rows) == None <==>
      && !Blank(scope.sessionID) && !Blank(scope.repoRoot)
      && (forall i :: 0 <= i < |rows| ==> rows[i].sessionID == scope.sessionID && rows[i].repoRoot == scope.repoRoot)
      && forall i, j :: 0 <= i < j < |rows| ==> !Alike(rows[i], rows[j])
  {
    TrimSpaceEmpty(scope.sessionID);
    TrimSpaceEmpty(scope.repoRoot);
    InsertErrorsIff(scope, rows, 0);
  }

  lemma {:induction false} InsertErrorsIff(scope: Scope, rows: seq<ChunkRecord>, from: nat)
    requires from <= |rows|
    ensures DeltaApply.InsertErrors(scope, rows, from) == None <==>
      && (forall i :: from <= i < |rows| ==> rows[i].sessionID == scope.sessionID && rows[i].repoRoot == scope.repoRoot)
      && forall i, j :: 0 <= i < j < |rows| && from <= j ==> !Alike(rows[i], rows[j])
    decreases |rows| - from
  {
    if from < |rows| {
      InsertErrorsIff(scope, rows, from + 1);
      assert DeltaApply.InsertError(scope, rows, from) == None <==>
        && rows[from].sessionID == scope.sessionID && rows[from].repoRoot == scope.repoRoot
        && forall i :: 0 <= i < from ==> !Alike(rows[i], rows[from]) by {
        assert forall i :: 0 <= i < from ==> (DeltaApply.SameRow(rows[i], rows[from]) <==> Alike(rows[i], rows[from]));
      }
    }
  }

  /** A delta is refused for its scope if and only if it names another session or another root. */
  lemma ScopeErrorIff(scope: Scope, delta: DeltaApply.SyncDelta)
    ensures DeltaApply.DeltaScopeError(scope, delta) == None <==>
      && (delta.sessionID == "" || TrimSpace(delta.sessionID) == scope.sessionID)
      && (delta.repoRoot == "" || delta.repoRoot == scope.repoRoot)
  {
  }

  /** A rebuild's batch is embedded and stored if and only if the embedder answers all texts, sent at once and in order, with
      one vector each of a positive dimension, and the rows can be stored; each row takes the vector at its place. */
  lemma EmbeddedIff(scope: Scope, records: seq<ChunkRecord>, embedder: Embedder)
    ensures
      var texts := seq(|records|, i requires 0 <= i < |records| => records[i].content);
      && (DeltaApply.EmbeddedRows(scope, records, embedder).Ok? <==>
            && embedder(texts).Ok? && Fits(embedder(texts).value, |records|)
            && DeltaApply.ReplaceError(scope, DeltaApply.Stamped(records, embedder(texts).value)) == None)
      && (DeltaApply.EmbeddedRows(scope, records, embedder).Ok? ==>
            var rows, e := DeltaApply.EmbeddedRows(scope, records, embedder).value, embedder(texts).value;
            && |rows| == |records|
            && forall i :: 0 <= i < |rows| ==> rows[i] == records[i].(model := e.model, embeddingDims := e.dimensions, embedding := e.vectors[i]))
  {
    assert DeltaApply.TextsOf(records) == seq(|records|, i requires 0 <= i < |records| => records[i].content);
  }

  // ---- the table of all scopes ----

  /** A scope's rows, and the rows of the others, go row by row. */
  lemma {:induction false} ScopeLaws(a: seq<ChunkRecord>, b: seq<ChunkRecord>, r: ChunkRecord, scope: Scope)
    ensures IndexStoring.ScopeRows(a + b, scope) == IndexStoring.ScopeRows(a, scope) + IndexStoring.ScopeRows(b, scope)
    ensures IndexStoring.ScopeRows([], scope) == []
    ensures IndexStoring.ScopeRows([r], scope) == if r.sessionID == scope.sessionID && r.repoRoot == scope.repoRoot then [r] else []
    decreases |b|
  {
    assert [r][..0] == [];
    if b == [] {
      assert a + b == a;
    } else {
      assert (a + b)[..|a + b| - 1] == a + b[..|b| - 1];
      ScopeLaws(a, b[..|b| - 1], r, scope);
    }
  }
}
