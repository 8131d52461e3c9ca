/** The two merge routines side by side (internal/indexing/embedding_refresh.go, mergeChunkRecords,
    and internal/indexing/chunk_delta.go, BuildChunkDelta). */
module MergeAgreement {
  import opened Outcomes
  import opened Sorting
  import opened Paths
  import opened ChunkIndex
  import opened IndexFacts
  import opened IndexTheorems
  import DeltaApply

  /** The record without its embedding: scope, path, index, content and hash. */
  function Strip(r: ChunkRecord): ChunkRecord
  {
    WithEmbedding(r, "", 0, [])
  }

  function StripAll(rs: seq<ChunkRecord>): (out: seq<ChunkRecord>)
    ensures |out| == |rs|
    ensures forall i :: 0 <= i < |rs| ==> out[i] == Strip(rs[i])
  {
    seq(|rs|, i requires 0 <= i < |rs| => Strip(rs[i]))
  }

  lemma StripStrict(rs: seq<ChunkRecord>)
    requires Strict(RecordLe, rs)
    ensures Strict(RecordLe, StripAll(rs))
  {
  }

  lemma InStrip(rs: seq<ChunkRecord>, x: ChunkRecord) returns (r: ChunkRecord)
    requires x in StripAll(rs)
    ensures r in rs && Strip(r) == x
  {
    var i :| 0 <= i < |StripAll(rs)| && StripAll(rs)[i] == x;
    r := rs[i];
  }

  lemma StripIn(rs: seq<ChunkRecord>, r: ChunkRecord)
    requires r in rs
    ensures Strip(r) in StripAll(rs)
  {
    var i :| 0 <= i < |rs| && rs[i] == r;
    assert StripAll(rs)[i] == Strip(r);
  }

  /** Documents with distinct normal paths. */
  ghost predicate DistinctDocs(docs: seq<ChunkedDocument>)
  {
    && (forall d :: d in docs ==> Normal(d.relPath))
    && (forall i, j :: 0 <= i < j < |docs| ==> docs[i].relPath != docs[j].relPath)
  }

  lemma {:induction false} GroupsUnique(rss: seq<seq<ChunkRecord>>, ps: seq<string>)
    requires |rss| == |ps| && (forall i, j :: 0 <= i < j < |ps| ==> ps[i] != ps[j])
    requires forall i :: 0 <= i < |rss| ==> PathGroup(rss[i], ps[i])
    ensures UniqueKeys(Flatten(rss))
  {
    if rss != [] {
      var n := |rss| - 1;
      var front, last := Flatten(rss[..n]), rss[n];
      GroupsUnique(rss[..n], ps[..n]);
      forall i, j | 0 <= i < |front| && 0 <= j < |last|
        ensures !(RecordLe(front[i], last[j]) && RecordLe(last[j], front[i]))
      {
        assert front[i] in front;
        var k := InGroup(rss[..n], front[i]);
        GroupPath(rss[k], ps[k], front[i]);
        RecordTie(front[i], last[j]);
      }
    }
  }

  /** The records of distinct documents: unique, bare, and only for documents that have chunks. */
  lemma DocumentRecordFacts(H: string -> string, scope: Scope, docs: seq<ChunkedDocument>)
    requires DistinctDocs(docs) && RecordsOf(H, scope, docs).Ok?
    ensures UniqueKeys(RecordsOf(H, scope, docs).value)
    ensures forall r :: r in RecordsOf(H, scope, docs).value ==>
      Strip(r) == r && InScope(scope, r) && exists d :: d in docs && d.relPath == r.relPath && d.chunks != []
    ensures forall d :: d in docs && d.chunks != [] ==> d.relPath in PathsOfRecords(RecordsOf(H, scope, docs).value)
  {
    var rss := DocumentGroups(H, scope, docs);
    var all := Flatten(rss);
    GroupsUnique(rss, PathsOfDocuments(docs));
    forall r | r in all
      ensures Strip(r) == r && InScope(scope, r) && exists d :: d in docs && d.relPath == r.relPath && d.chunks != []
    {
      var i := InGroup(rss, r);
      assert docs[i] in docs;
    }
    forall i | 0 <= i < |docs| && docs[i].chunks != []
      ensures docs[i].relPath in PathsOfRecords(all)
    {
      GroupIn(rss, i, rss[i][0]);
      PathListed(all, rss[i][0]);
    }
  }

  lemma PathListed(rs: seq<ChunkRecord>, r: ChunkRecord)
    requires r in rs
    ensures r.relPath in PathsOfRecords(rs)
  {
    var k :| 0 <= k < |rs| && rs[k] == r;
    assert PathsOfRecords(rs)[k] == r.relPath;
  }

  /** The records of each document, one group per path. */
  lemma DocumentGroups(H: string -> string, scope: Scope, docs: seq<ChunkedDocument>) returns (rss: seq<seq<ChunkRecord>>)
    requires DistinctDocs(docs) && RecordsOf(H, scope, docs).Ok?
    ensures RecordsOf(H, scope, docs) == Ok(Flatten(rss)) && |rss| == |docs|
    ensures forall i :: 0 <= i < |docs| ==>
      PathGroup(rss[i], docs[i].relPath) && rss[i] == BareRecords(H, scope, docs[i].relPath, docs[i].chunks)
  {
    var rs := EachDocument(H, scope, docs);
    CollectOk(rs);
    rss := Collect(rs).value;
    forall i | 0 <= i < |docs|
      ensures PathGroup(rss[i], docs[i].relPath) && rss[i] == BareRecords(H, scope, docs[i].relPath, docs[i].chunks)
    {
      assert docs[i] in docs && rs[i].Ok? && rs[i] == DocumentRecords(H, scope, docs[i]);
      DocumentGroup(H, scope, docs[i]);
    }
  }

  /** An undeleted document without chunks whose path still has rows. */
  ghost predicate EmptiedDocument(existing: seq<ChunkRecord>, docs: seq<ChunkedDocument>, deletes: seq<string>, r: ChunkRecord)
  {
    r in existing && r.relPath !in deletes && exists d :: d in docs && d.relPath == r.relPath && d.chunks == []
  }

  lemma DeltaMergedElements(H: string -> string, scope: Scope, existing: seq<ChunkRecord>, docs: seq<ChunkedDocument>, deletes: seq<string>)
    requires DeltaApply.ScopeOk(scope) && AllInScope(scope, existing) && UniqueKeys(existing)
    requires DistinctDocs(docs) && (forall p :: p in deletes ==> Normal(p)) && RecordsOf(H, scope, docs).Ok?
    ensures DeltaMerged(H, scope, existing, docs, deletes).Ok?
    ensures Strict(RecordLe, DeltaMerged(H, scope, existing, docs, deletes).value)
    ensures forall r :: r in DeltaMerged(H, scope, existing, docs, deletes).value <==>
      r in RecordsOf(H, scope, docs).value || (r in existing && r.relPath !in deletes && r.relPath !in PathsOfDocuments(docs))
  {
    var rs := RecordsOf(H, scope, docs).value;
    var removed := deletes + PathsOfDocuments(docs);
    forall p | p in PathsOfDocuments(docs)
      ensures Normal(p)
    {
      var i :| 0 <= i < |docs| && PathsOfDocuments(docs)[i] == p;
      assert docs[i] in docs;
    }
    NormalizedAreSame(deletes);
    NormalizedAreSame(PathsOfDocuments(docs));
    KeptElements(existing, removed);
    KeptUnique(existing, removed);
    DocumentRecordFacts(H, scope, docs);
    forall r | r in rs
      ensures r.relPath in removed
    {
      var d :| d in docs && d.relPath == r.relPath && d.chunks != [];
      var i :| 0 <= i < |docs| && docs[i] == d;
      assert PathsOfDocuments(docs)[i] == r.relPath;
    }
    UniqueConcat(Kept(existing, removed), rs, removed);
    RecordPreorder();
    SortStrict(RecordLe, Kept(existing, removed) + rs);
    SortPermutes(RecordLe, Kept(existing, removed) + rs);
  }

  lemma MergedStrict(scope: Scope, existing: seq<ChunkRecord>, refreshed: seq<ChunkRecord>, deletes: seq<string>)
    requires AllInScope(scope, existing) && UniqueKeys(existing) && UniqueKeys(refreshed)
    requires (forall p :: p in deletes ==> Normal(p)) && (forall r :: r in refreshed ==> Normal(r.relPath))
    ensures Merged(scope, existing, refreshed, deletes).Ok?
    ensures Strict(RecordLe, Merged(scope, existing, refreshed, deletes).value)
  {
    MergedElements(scope, existing, refreshed, deletes);
    MergedUnique(existing, refreshed, deletes);
    RecordPreorder();
    SortStrict(RecordLe, Kept(existing, deletes + PathsOfRecords(refreshed)) + refreshed);
  }

  /** What both routines keep of the rows they do not touch, and what refreshing leaves alone. */
  lemma RefreshedFacts(rs: seq<ChunkRecord>, refreshed: seq<ChunkRecord>)
    requires OnlyEmbeddings(rs, refreshed) && UniqueKeys(rs) && forall r :: r in rs ==> Strip(r) == r
    ensures UniqueKeys(refreshed) && PathsOfRecords(refreshed) == PathsOfRecords(rs)
    ensures forall r :: r in refreshed ==> Strip(r) in rs
    ensures forall r :: r in rs ==> r in StripAll(refreshed)
  {
    SamePlaces(rs, refreshed);
    forall i | 0 <= i < |rs|
      ensures Strip(refreshed[i]) == rs[i] && refreshed[i].relPath == rs[i].relPath && refreshed[i].chunkIndex == rs[i].chunkIndex
    {
      assert rs[i] in rs;
      assert refreshed[i] == WithEmbedding(rs[i], refreshed[i].model, refreshed[i].embeddingDims, refreshed[i].embedding);
    }
    forall i, j | 0 <= i < j < |refreshed|
      ensures !(RecordLe(refreshed[i], refreshed[j]) && RecordLe(refreshed[j], refreshed[i]))
    {
      UniqueAt(rs, i, j);
      RecordTie(refreshed[i], refreshed[j]);
    }
    forall r | r in rs
      ensures r in StripAll(refreshed)
    {
      var i :| 0 <= i < |rs| && rs[i] == r;
      assert StripAll(refreshed)[i] == r;
    }
  }

  /** The two merges agree, embeddings aside, exactly when no undeleted document without chunks still has rows. */
  lemma MergesAgree(H: string -> string, scope: Scope, existing: seq<ChunkRecord>, docs: seq<ChunkedDocument>,
                    deletes: seq<string>, refreshed: seq<ChunkRecord>)
    requires DeltaApply.ScopeOk(scope) && AllInScope(scope, existing) && UniqueKeys(existing)
    requires DistinctDocs(docs) && (forall p :: p in deletes ==> Normal(p)) && RecordsOf(H, scope, docs).Ok?
    requires OnlyEmbeddings(RecordsOf(H, scope, docs).value, refreshed)
    ensures Merged(scope, existing, refreshed, deletes).Ok? && DeltaMerged(H, scope, existing, docs, deletes).Ok?
    ensures StripAll(Merged(scope, existing, refreshed, deletes).value)
         == StripAll(DeltaMerged(H, scope, existing, docs, deletes).value)
       <==> !exists r :: EmptiedDocument(existing, docs, deletes, r)
  {
    var rs := RecordsOf(H, scope, docs).value;
    DocumentRecordFacts(H, scope, docs);
    RefreshedFacts(rs, refreshed);
    RefreshedNormal(docs, rs, refreshed);
    MergedElements(scope, existing, refreshed, deletes);
    MergedStrict(scope, existing, refreshed, deletes);
    DeltaMergedElements(H, scope, existing, docs, deletes);
    var a, b := Merged(scope, existing, refreshed, deletes).value, DeltaMerged(H, scope, existing, docs, deletes).value;
    if r :| EmptiedDocument(existing, docs, deletes, r) {
      StaleRowSurvives(docs, rs, r);
      StripIn(a, r);
      if Strip(r) in StripAll(b) {
        var x := InStrip(b, Strip(r));
        InDocuments(docs, r.relPath);
      }
    } else {
      forall x
        ensures x in StripAll(a) <==> x in StripAll(b)
      {
        SameStripped(existing, docs, deletes, rs, refreshed, a, b, x);
      }
      StripStrict(a);
      StripStrict(b);
      StrictUnique(RecordLe, StripAll(a), StripAll(b));
    }
  }

  lemma RefreshedNormal(docs: seq<ChunkedDocument>, rs: seq<ChunkRecord>, refreshed: seq<ChunkRecord>)
    requires DistinctDocs(docs) && OnlyEmbeddings(rs, refreshed)
    requires forall r :: r in rs ==> exists d :: d in docs && d.relPath == r.relPath && d.chunks != []
    ensures forall r :: r in refreshed ==> Normal(r.relPath)
  {
    forall r | r in refreshed
      ensures Normal(r.relPath)
    {
      var i :| 0 <= i < |refreshed| && refreshed[i] == r;
      assert rs[i] in rs;
      assert r == WithEmbedding(rs[i], r.model, r.embeddingDims, r.embedding);
    }
  }

  lemma InDocuments(docs: seq<ChunkedDocument>, p: string)
    requires exists d :: d in docs && d.relPath == p
    ensures p in PathsOfDocuments(docs)
  {
    var d :| d in docs && d.relPath == p;
    var i :| 0 <= i < |docs| && docs[i] == d;
    assert PathsOfDocuments(docs)[i] == p;
  }

  /** No record is built for a document without chunks, so its path is not among the refreshed paths. */
  lemma StaleRowSurvives(docs: seq<ChunkedDocument>, rs: seq<ChunkRecord>, r: ChunkRecord)
    requires DistinctDocs(docs) && exists d :: d in docs && d.relPath == r.relPath && d.chunks == []
    requires forall x :: x in rs ==> exists d :: d in docs && d.relPath == x.relPath && d.chunks != []
    ensures r.relPath !in PathsOfRecords(rs) && forall x :: x in rs ==> x.relPath != r.relPath
  {
    var d :| d in docs && d.relPath == r.relPath && d.chunks == [];
    forall x | x in rs
      ensures x.relPath != r.relPath
    {
      var e :| e in docs && e.relPath == x.relPath && e.chunks != [];
      var i :| 0 <= i < |docs| && docs[i] == d;
      var j :| 0 <= j < |docs| && docs[j] == e;
      assert i != j;
    }
  }

  lemma SameStripped(existing: seq<ChunkRecord>, docs: seq<ChunkedDocument>, deletes: seq<string>, rs: seq<ChunkRecord>,
                     refreshed: seq<ChunkRecord>, a: seq<ChunkRecord>, b: seq<ChunkRecord>, x: ChunkRecord)
    requires !exists r :: EmptiedDocument(existing, docs, deletes, r)
    requires PathsOfRecords(refreshed) == PathsOfRecords(rs)
    requires forall r :: r in refreshed ==> Strip(r) in rs
    requires forall r :: r in rs ==> r in StripAll(refreshed) && Strip(r) == r
    requires forall d :: d in docs && d.chunks != [] ==> d.relPath in PathsOfRecords(rs)
    requires forall r :: r in rs ==> exists d :: d in docs && d.relPath == r.relPath && d.chunks != []
    requires forall r :: r in a <==> r in refreshed || (r in existing && r.relPath !in deletes && r.relPath !in PathsOfRecords(refreshed))
    requires forall r :: r in b <==> r in rs || (r in existing && r.relPath !in deletes && r.relPath !in PathsOfDocuments(docs))
    ensures x in StripAll(a) <==> x in StripAll(b)
  {
    if x in StripAll(a) {
      var r := InStrip(a, x);
      if r in refreshed {
        assert Strip(r) in b;
        StripIn(b, Strip(r));
      } else {
        NotEmptied(existing, docs, deletes, rs, r);
        StripIn(b, r);
      }
    }
    if x in StripAll(b) {
      var r := InStrip(b, x);
      if r in rs {
        var y := InStrip(refreshed, r);
        StripIn(a, y);
      } else {
        RecordPathsAreDocuments(docs, rs, r.relPath);
        StripIn(a, r);
      }
    }
  }

  lemma NotEmptied(existing: seq<ChunkRecord>, docs: seq<ChunkedDocument>, deletes: seq<string>, rs: seq<ChunkRecord>, r: ChunkRecord)
    requires !EmptiedDocument(existing, docs, deletes, r) && r in existing && r.relPath !in deletes && r.relPath !in PathsOfRecords(rs)
    requires forall d :: d in docs && d.chunks != [] ==> d.relPath in PathsOfRecords(rs)
    ensures r.relPath !in PathsOfDocuments(docs)
  {
    forall i | 0 <= i < |docs|
      ensures PathsOfDocuments(docs)[i] != r.relPath
    {
      assert docs[i] in docs;
    }
  }

  lemma RecordPathsAreDocuments(docs: seq<ChunkedDocument>, rs: seq<ChunkRecord>, p: string)
    requires forall r :: r in rs ==> exists d :: d in docs && d.relPath == r.relPath && d.chunks != []
    ensures p in PathsOfRecords(rs) ==> p in PathsOfDocuments(docs)
  {
    if p in PathsOfRecords(rs) {
      var i :| 0 <= i < |rs| && PathsOfRecords(rs)[i] == p;
      assert rs[i] in rs;
      InDocuments(docs, p);
    }
  }
}
