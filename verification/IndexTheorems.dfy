/** The order of records: rows grouped by path are strictly ordered, and refreshing them keeps their places
    (internal/indexing/records.go, embedding_refresh.go). */
module IndexTheorems {
  import opened Outcomes
  import opened Sorting
  import opened StringOrder
  import opened Paths
  import opened Chunker
  import opened ChunkIndex
  import opened IndexFacts
  import DeltaApply

  // ---- rows grouped by path ----

  /** Rows of one path with increasing chunk numbers. */
  ghost predicate PathGroup(rs: seq<ChunkRecord>, p: string)
  {
    && (forall i :: 0 <= i < |rs| ==> rs[i].relPath == p)
    && (forall i, j :: 0 <= i < j < |rs| ==> rs[i].chunkIndex < rs[j].chunkIndex)
  }

  ghost predicate Grouped(rss: seq<seq<ChunkRecord>>, ps: seq<string>)
  {
    |rss| == |ps| && Strict(LexLe, ps) && forall i :: 0 <= i < |rss| ==> PathGroup(rss[i], ps[i])
  }

  lemma {:induction false} InGroup(rss: seq<seq<ChunkRecord>>, r: ChunkRecord) returns (i: nat)
    requires r in Flatten(rss)
    ensures i < |rss| && r in rss[i]
  {
    var n := |rss| - 1;
    if r in rss[n] {
      i := n;
    } else {
      i := InGroup(rss[..n], r);
    }
  }

  lemma {:induction false} GroupIn(rss: seq<seq<ChunkRecord>>, i: nat, r: ChunkRecord)
    requires i < |rss| && r in rss[i]
    ensures r in Flatten(rss)
  {
    if i < |rss| - 1 {
      GroupIn(rss[..|rss| - 1], i, r);
    }
  }

  /** Groups in path order form one strictly ordered list. */
  lemma {:induction false} GroupsStrict(rss: seq<seq<ChunkRecord>>, ps: seq<string>)
    requires Grouped(rss, ps)
    ensures Strict(RecordLe, Flatten(rss))
  {
    if rss != [] {
      var n := |rss| - 1;
      var front, last := Flatten(rss[..n]), rss[n];
      GroupsStrict(rss[..n], ps[..n]);
      forall i, j | 0 <= i < |front| && 0 <= j < |last|
        ensures RecordLe(front[i], last[j]) && !RecordLe(last[j], front[i])
      {
        assert front[i] in front;
        var k := InGroup(rss[..n], front[i]);
        GroupPath(rss[k], ps[k], front[i]);
        assert LexLe(ps[k], ps[n]) && !LexLe(ps[n], ps[k]);
        LexTotal(ps[n], ps[n]);
      }
      LexTotal(ps[n], ps[n]);
    }
  }

  lemma GroupPath(rs: seq<ChunkRecord>, p: string, r: ChunkRecord)
    requires PathGroup(rs, p) && r in rs
    ensures r.relPath == p
  {
  }

  lemma StrictIsUnique(rs: seq<ChunkRecord>)
    requires Strict(RecordLe, rs)
    ensures UniqueKeys(rs)
  {
  }

  // ---- records of documents ----

  lemma {:induction false} ChecksIndexes(chunks: seq<Chunk>, from: nat, i: nat)
    requires from <= i < |chunks| && CheckChunks(chunks, from).Ok?
    ensures chunks[i].index == i
    decreases i - from
  {
    if from < i {
      ChecksIndexes(chunks, from + 1, i);
    }
  }

  lemma DocumentGroup(H: string -> string, scope: Scope, doc: ChunkedDocument)
    requires Normal(doc.relPath) && DocumentRecords(H, scope, doc).Ok?
    ensures DocumentRecords(H, scope, doc) == Ok(BareRecords(H, scope, doc.relPath, doc.chunks))
    ensures PathGroup(BareRecords(H, scope, doc.relPath, doc.chunks), doc.relPath)
  {
    NormalIsFixed(doc.relPath);
    forall i | 0 <= i < |doc.chunks|
      ensures doc.chunks[i].index == i
    {
      ChecksIndexes(doc.chunks, 0, i);
    }
  }

  /** The records of documents with distinct normal paths in order are strictly ordered and in scope. */
  lemma RecordsOrdered(H: string -> string, scope: Scope, docs: seq<ChunkedDocument>)
    requires RecordsOf(H, scope, docs).Ok? && Strict(LexLe, PathsOfDocuments(docs))
    requires forall d :: d in docs ==> Normal(d.relPath)
    ensures Strict(RecordLe, RecordsOf(H, scope, docs).value)
    ensures forall r :: r in RecordsOf(H, scope, docs).value ==>
      r.relPath in PathsOfDocuments(docs) && InScope(scope, r) && r.contentHash == ChunkHash(H, r.relPath, r.chunkIndex, r.content)
  {
    var rs := EachDocument(H, scope, docs);
    CollectOk(rs);
    var rss := Collect(rs).value;
    forall i | 0 <= i < |docs|
      ensures PathGroup(rss[i], docs[i].relPath) && rss[i] == BareRecords(H, scope, docs[i].relPath, docs[i].chunks)
    {
      assert docs[i] in docs && rs[i].Ok? && rs[i] == DocumentRecords(H, scope, docs[i]);
      DocumentGroup(H, scope, docs[i]);
    }
    GroupsStrict(rss, PathsOfDocuments(docs));
    forall r | r in Flatten(rss)
      ensures r.relPath in PathsOfDocuments(docs) && InScope(scope, r)
      ensures r.contentHash == ChunkHash(H, r.relPath, r.chunkIndex, r.content)
    {
      var i := InGroup(rss, r);
      assert PathsOfDocuments(docs)[i] == docs[i].relPath;
    }
  }

  // ---- refreshed records ----

  /** Refreshing changes only the embedding of each record. */
  ghost predicate OnlyEmbeddings(rs: seq<ChunkRecord>, out: seq<ChunkRecord>)
  {
    |out| == |rs| && forall i :: 0 <= i < |rs| ==> out[i] == WithEmbedding(rs[i], out[i].model, out[i].embeddingDims, out[i].embedding)
  }

  lemma RefreshKeepsRecords(existing: seq<ChunkRecord>, rs: seq<ChunkRecord>, embedder: Option<Embedder>)
    requires Refresh(existing, rs, embedder).Ok?
    ensures OnlyEmbeddings(rs, Refresh(existing, rs, embedder).value.records)
  {
    var m, out := ByKey(existing), Refresh(existing, rs, embedder).value.records;
    forall i | 0 <= i < |rs|
      ensures out[i] == WithEmbedding(rs[i], out[i].model, out[i].embeddingDims, out[i].embedding)
    {
      if Pending(m, rs) == [] {
        FilledAt(m, rs, NO_VECTORS, i);
      } else {
        FilledAt(m, rs, embedder.value(PendingTexts(m, rs)).value, i);
      }
    }
  }

  lemma SamePlaces(rs: seq<ChunkRecord>, out: seq<ChunkRecord>)
    requires OnlyEmbeddings(rs, out)
    ensures PathsOfRecords(out) == PathsOfRecords(rs)
    ensures Strict(RecordLe, rs) ==> Strict(RecordLe, out)
  {
    forall i | 0 <= i < |rs|
      ensures out[i].relPath == rs[i].relPath && out[i].chunkIndex == rs[i].chunkIndex
    {
      assert out[i] == WithEmbedding(rs[i], out[i].model, out[i].embeddingDims, out[i].embedding);
    }
  }

  lemma ListedFixed(rows: seq<ChunkRecord>)
    requires Strict(RecordLe, rows)
    ensures DeltaApply.Listed(rows) == rows
  {
    RecordPreorder();
    SortFixed(RecordLe, rows);
  }
}
