/** Applying deltas one after another against rebuilding from scratch
    (internal/indexing/delta_apply.go and rebuild.go). */
module IndexRuns {
  import opened Outcomes
  import opened GoStrings
  import opened Sorting
  import opened StringOrder
  import opened Paths
  import opened MerkleHash
  import opened Chunker
  import opened ChunkerFacts
  import opened ChunkIndex
  import opened IndexFacts
  import opened IndexTheorems
  import DeltaApply

  // ---- the rows of a set of files ----

  function ChunksOf(content: string): seq<Chunk>
  {
    Numbered(ChunkContents(content, DEFAULT_POLICY))
  }

  function BareRows(c: Setting, p: string, content: string): seq<ChunkRecord>
  {
    BareRecords(c.H, c.scope, p, ChunksOf(content))
  }

  /** The embedded rows of one file. */
  function RowsFor(c: Setting, p: string, content: string): (rs: seq<ChunkRecord>)
    ensures |rs| == |ChunkContents(content, DEFAULT_POLICY)|
  {
    EmbeddedAll(c, BareRows(c, p, content))
  }

  function EachRows(c: Setting, files: Disk, ps: seq<string>): (rss: seq<seq<ChunkRecord>>)
    requires forall i :: 0 <= i < |ps| ==> ps[i] in files
    ensures |rss| == |ps|
  {
    seq(|ps|, i requires 0 <= i < |ps| => RowsFor(c, ps[i], files[ps[i]]))
  }

  /** The rows a full rebuild stores for these files. */
  ghost function RebuildRows(c: Setting, files: Disk): seq<ChunkRecord>
  {
    SortedKeysStrict(files.Keys);
    KeysAreFiles(files, SortedKeys(files.Keys));
    Flatten(EachRows(c, files, SortedKeys(files.Keys)))
  }

  lemma KeysAreFiles(files: Disk, ps: seq<string>)
    requires forall p :: p in ps ==> p in files
    ensures forall i :: 0 <= i < |ps| ==> ps[i] in files
  {
  }

  lemma RowsForGroup(c: Setting, p: string, content: string)
    ensures PathGroup(RowsFor(c, p, content), p)
    ensures forall r :: r in RowsFor(c, p, content) ==>
      r.relPath == p && InScope(c.scope, r) && Faithful(c, r)
  {
  }

  lemma RowsGrouped(c: Setting, files: Disk, ps: seq<string>)
    requires Strict(LexLe, ps) && forall i :: 0 <= i < |ps| ==> ps[i] in files
    ensures Grouped(EachRows(c, files, ps), ps)
    ensures Strict(RecordLe, Flatten(EachRows(c, files, ps)))
    ensures forall r :: r in Flatten(EachRows(c, files, ps)) <==>
      r.relPath in ps && r in RowsFor(c, r.relPath, files[r.relPath])
  {
    var rss := EachRows(c, files, ps);
    forall i | 0 <= i < |ps|
      ensures PathGroup(rss[i], ps[i])
    {
      RowsForGroup(c, ps[i], files[ps[i]]);
    }
    GroupsStrict(rss, ps);
    forall r | r in Flatten(rss)
      ensures r.relPath in ps && r in RowsFor(c, r.relPath, files[r.relPath])
    {
      var i := InGroup(rss, r);
      GroupPath(rss[i], ps[i], r);
    }
    forall r: ChunkRecord | r.relPath in ps && r in RowsFor(c, r.relPath, files[r.relPath])
      ensures r in Flatten(rss)
    {
      var i :| 0 <= i < |ps| && ps[i] == r.relPath;
      GroupIn(rss, i, r);
    }
  }

  /** A row is in the rebuilt index exactly when it is one of its own file's rows. */
  lemma RebuildMember(c: Setting, files: Disk)
    ensures Strict(RecordLe, RebuildRows(c, files))
    ensures forall r :: r in RebuildRows(c, files) <==>
      r.relPath in files && r in RowsFor(c, r.relPath, files[r.relPath])
  {
    SortedKeysStrict(files.Keys);
    KeysAreFiles(files, SortedKeys(files.Keys));
    RowsGrouped(c, files, SortedKeys(files.Keys));
  }

  lemma RebuildFaithful(c: Setting, files: Disk)
    ensures AllInScope(c.scope, RebuildRows(c, files))
    ensures forall r :: r in RebuildRows(c, files) ==> Faithful(c, r)
  {
    RebuildMember(c, files);
    forall i | 0 <= i < |RebuildRows(c, files)|
      ensures InScope(c.scope, RebuildRows(c, files)[i]) && Faithful(c, RebuildRows(c, files)[i])
    {
      var r := RebuildRows(c, files)[i];
      assert r in RebuildRows(c, files);
      RowsForGroup(c, r.relPath, files[r.relPath]);
    }
  }

  // ---- what the code computes from files with normal paths ----

  lemma ChunksPass(content: string)
    ensures CheckChunks(ChunksOf(content), 0) == Ok(true)
  {
    ChunksPassFrom(content, 0);
  }

  lemma {:induction false} ChunksPassFrom(content: string, k: nat)
    requires k <= |ChunksOf(content)|
    ensures CheckChunks(ChunksOf(content), k) == Ok(true)
    decreases |ChunksOf(content)| - k
  {
    if k < |ChunksOf(content)| {
      ChunksAreClean(content, DEFAULT_POLICY, k);
      ChunksPassFrom(content, k + 1);
    }
  }

  function DocumentAt(disk: Disk, p: string): ChunkedDocument
    requires p in disk
  {
    ChunkedDocument(p, ChunksOf(disk[p]))
  }

  function DocumentsAt(disk: Disk, ps: seq<string>): (docs: seq<ChunkedDocument>)
    requires forall i :: 0 <= i < |ps| ==> ps[i] in disk
    ensures |docs| == |ps|
  {
    seq(|ps|, i requires 0 <= i < |ps| => DocumentAt(disk, ps[i]))
  }

  ghost predicate Readable(disk: Disk, ps: seq<string>)
  {
    forall i :: 0 <= i < |ps| ==> ps[i] in disk && Normal(ps[i])
  }

  lemma DocumentsRead(disk: Disk, ps: seq<string>)
    requires Readable(disk, ps)
    ensures DeltaApply.ReadDocuments(disk, ps) == Ok(DocumentsAt(disk, ps))
  {
    var rs := seq(|ps|, i requires 0 <= i < |ps| => DeltaApply.ReadDocument(disk, ps[i]));
    forall i | 0 <= i < |ps|
      ensures rs[i] == Ok(DocumentAt(disk, ps[i]))
    {
      NormalIsFixed(ps[i]);
    }
    CollectOk(rs);
    assert Collect(rs).value == DocumentsAt(disk, ps);
  }

  function EachBare(c: Setting, disk: Disk, ps: seq<string>): (rss: seq<seq<ChunkRecord>>)
    requires forall i :: 0 <= i < |ps| ==> ps[i] in disk
    ensures |rss| == |ps|
  {
    seq(|ps|, i requires 0 <= i < |ps| => BareRows(c, ps[i], disk[ps[i]]))
  }

  lemma DocumentsBecomeRecords(c: Setting, disk: Disk, ps: seq<string>)
    requires Readable(disk, ps) && TrimSpace(c.scope.sessionID) != ""
    ensures RecordsOf(c.H, c.scope, DocumentsAt(disk, ps)) == Ok(Flatten(EachBare(c, disk, ps)))
  {
    var rs := EachDocument(c.H, c.scope, DocumentsAt(disk, ps));
    forall i | 0 <= i < |ps|
      ensures rs[i] == Ok(BareRows(c, ps[i], disk[ps[i]]))
    {
      NormalIsFixed(ps[i]);
      ChunksPass(disk[ps[i]]);
    }
    CollectOk(rs);
    assert Collect(rs).value == EachBare(c, disk, ps);
  }

  lemma EmbeddedConcat(c: Setting, a: seq<ChunkRecord>, b: seq<ChunkRecord>)
    ensures EmbeddedAll(c, a + b) == EmbeddedAll(c, a) + EmbeddedAll(c, b)
  {
  }

  lemma {:induction false} EmbedGroups(c: Setting, bare: seq<seq<ChunkRecord>>, rss: seq<seq<ChunkRecord>>)
    requires |bare| == |rss| && forall i :: 0 <= i < |rss| ==> rss[i] == EmbeddedAll(c, bare[i])
    ensures EmbeddedAll(c, Flatten(bare)) == Flatten(rss)
  {
    if bare != [] {
      var n := |bare| - 1;
      EmbedGroups(c, bare[..n], rss[..n]);
      EmbeddedConcat(c, Flatten(bare[..n]), bare[n]);
    }
  }

  /** The bare records of files, embedded, are the files' rows. */
  lemma EmbeddedRecords(c: Setting, disk: Disk, ps: seq<string>)
    requires forall i :: 0 <= i < |ps| ==> ps[i] in disk
    ensures EmbeddedAll(c, Flatten(EachBare(c, disk, ps))) == Flatten(EachRows(c, disk, ps))
  {
    EmbedGroups(c, EachBare(c, disk, ps), EachRows(c, disk, ps));
  }

  // ---- storing ordered rows never fails ----

  lemma {:induction false} NoInsertErrors(scope: Scope, rows: seq<ChunkRecord>, k: nat)
    requires AllInScope(scope, rows) && Strict(RecordLe, rows) && k <= |rows|
    ensures DeltaApply.InsertErrors(scope, rows, k) == None
    decreases |rows| - k
  {
    if k < |rows| {
      forall j | 0 <= j < k
        ensures !DeltaApply.SameRow(rows[j], rows[k])
      {
        RecordTie(rows[j], rows[k]);
      }
      NoInsertErrors(scope, rows, k + 1);
    }
  }

  lemma StoresOrdered(scope: Scope, rows: seq<ChunkRecord>)
    requires DeltaApply.ScopeOk(scope) && AllInScope(scope, rows) && Strict(RecordLe, rows)
    ensures DeltaApply.ReplaceError(scope, rows) == None
  {
    NoInsertErrors(scope, rows, 0);
  }

  // ---- one delta ----

  predicate HasChunks(content: string)
  {
    ChunkContents(content, DEFAULT_POLICY) != []
  }

  /** The contents the index reflects after upserting and deleting these paths:
      an upserted file without chunks leaves what was there before. */
  function NextContents(prior: Disk, upserts: set<string>, deletes: set<string>, disk: Disk): Disk
    requires upserts <= disk.Keys
  {
    map p | p in prior.Keys + upserts && (if p in upserts && HasChunks(disk[p]) then true else p in prior && p !in deletes)
      :: if p in upserts && HasChunks(disk[p]) then disk[p] else prior[p]
  }

  /** All chunks hashed for these files. */
  ghost predicate Hashes(c: Setting, files: Disk, hashed: set<string>)
  {
    forall p, r :: p in files && r in RowsFor(c, p, files[p]) ==> PreimageOf(r) in hashed
  }

  ghost predicate NormalKeys(ps: set<string>)
  {
    forall p :: p in ps ==> Normal(p)
  }

  lemma PathWithRows(c: Setting, disk: Disk, ps: seq<string>, p: string)
    requires Strict(LexLe, ps) && forall i :: 0 <= i < |ps| ==> ps[i] in disk
    ensures p in PathsOfRecords(Flatten(EachRows(c, disk, ps))) <==> p in ps && HasChunks(disk[p])
  {
    var all := Flatten(EachRows(c, disk, ps));
    RowsGrouped(c, disk, ps);
    if p in PathsOfRecords(all) {
      var i :| 0 <= i < |all| && PathsOfRecords(all)[i] == p;
      assert all[i] in all;
    }
    if p in ps && HasChunks(disk[p]) {
      var r := RowsFor(c, p, disk[p])[0];
      RowsForGroup(c, p, disk[p]);
      assert r in all;
      var k :| 0 <= k < |all| && all[k] == r;
      assert PathsOfRecords(all)[k] == p;
    }
  }

  /** The collected paths as lists. */
  lemma PathLists(disk: Disk, U: set<string>, X: set<string>)
    requires U <= disk.Keys && NormalKeys(U) && NormalKeys(X)
    ensures Strict(LexLe, SortedKeys(U)) && Readable(disk, SortedKeys(U))
    ensures forall p :: p in SortedKeys(X) <==> p in X
    ensures forall p :: p in SortedKeys(U) <==> p in U
    ensures forall p :: p in SortedKeys(X) ==> Normal(p)
  {
    SortedKeysStrict(U);
    SortedKeysStrict(X);
    forall i | 0 <= i < |SortedKeys(U)|
      ensures SortedKeys(U)[i] in disk && Normal(SortedKeys(U)[i])
    {
      assert SortedKeys(U)[i] in SortedKeys(U);
    }
  }

  /** Merging the new rows into the index of the earlier contents gives the index of the next contents. */
  lemma MergeStep(c: Setting, prior: Disk, U: set<string>, X: set<string>, disk: Disk)
    requires U <= disk.Keys && NormalKeys(U) && NormalKeys(X) && U !! X
    ensures Readable(disk, SortedKeys(U))
    ensures Merged(c.scope, RebuildRows(c, prior), Flatten(EachRows(c, disk, SortedKeys(U))), SortedKeys(X))
         == Ok(RebuildRows(c, NextContents(prior, U, X, disk)))
  {
    var ups, dels := SortedKeys(U), SortedKeys(X);
    PathLists(disk, U, X);
    var next := NextContents(prior, U, X, disk);
    var rows, added := RebuildRows(c, prior), Flatten(EachRows(c, disk, ups));
    RebuildMember(c, prior);
    RebuildFaithful(c, prior);
    RebuildMember(c, next);
    RowsGrouped(c, disk, ups);
    MergedElements(c.scope, rows, added, dels);
    StrictIsUnique(rows);
    StrictIsUnique(added);
    MergedUnique(rows, added, dels);
    RecordPreorder();
    SortStrict(RecordLe, Kept(rows, dels + PathsOfRecords(added)) + added);
    var merged := Merged(c.scope, rows, added, dels).value;
    forall r
      ensures r in merged <==> r in RebuildRows(c, next)
    {
      PathWithRows(c, disk, ups, r.relPath);
      StepMember(c, prior, U, X, disk, r);
    }
    StrictUnique(RecordLe, merged, RebuildRows(c, next));
  }

  lemma StepMember(c: Setting, prior: Disk, U: set<string>, X: set<string>, disk: Disk, r: ChunkRecord)
    requires U <= disk.Keys && U !! X
    ensures var next := NextContents(prior, U, X, disk);
      (r.relPath in next && r in RowsFor(c, r.relPath, next[r.relPath]))
      <==>
      (r.relPath in U && r in RowsFor(c, r.relPath, disk[r.relPath])) ||
      (r.relPath in prior && r in RowsFor(c, r.relPath, prior[r.relPath]) && r.relPath !in X && !(r.relPath in U && HasChunks(disk[r.relPath])))
  {
  }

  /** Applying collected paths to the index of the earlier contents stores the index of the next contents. */
  lemma ApplyStep(c: Setting, prior: Disk, U: set<string>, X: set<string>, disk: Disk, embedder: Embedder, hashed: set<string>)
    requires DeltaApply.ScopeOk(c.scope) && Deterministic(c, embedder) && NoCollision(c.H, hashed)
    requires Hashes(c, prior, hashed) && Hashes(c, disk, hashed)
    requires U <= disk.Keys && NormalKeys(U) && NormalKeys(X) && U !! X
    ensures Readable(disk, SortedKeys(U))
    ensures DeltaApply.ApplyPaths(c.H, c.scope, RebuildRows(c, prior), SortedKeys(U), SortedKeys(X), disk, Some(embedder)) ==
      Ok(DeltaApply.Applied(
        RebuildRows(c, NextContents(prior, U, X, disk)), SortedKeys(U), SortedKeys(X),
        Calls(RebuildRows(c, prior), Flatten(EachBare(c, disk, SortedKeys(U))))))
  {
    PathLists(disk, U, X);
    var ups := SortedKeys(U);
    var rows, bare := RebuildRows(c, prior), Flatten(EachBare(c, disk, ups));
    DocumentsRead(disk, ups);
    DocumentsBecomeRecords(c, disk, ups);
    RebuildHashed(c, prior, hashed);
    BareHashed(c, disk, ups, hashed);
    ReuseIsSound(c, rows, bare, embedder, hashed);
    EmbeddedRecords(c, disk, ups);
    MergeStep(c, prior, U, X, disk);
    var next := NextContents(prior, U, X, disk);
    RebuildMember(c, next);
    RebuildFaithful(c, next);
    StoresOrdered(c.scope, RebuildRows(c, next));
  }

  lemma RebuildHashed(c: Setting, files: Disk, hashed: set<string>)
    requires Hashes(c, files, hashed)
    ensures forall r :: r in RebuildRows(c, files) ==> Faithful(c, r) && PreimageOf(r) in hashed
  {
    RebuildMember(c, files);
    RebuildFaithful(c, files);
  }

  lemma BareRowHashed(c: Setting, p: string, content: string, r: ChunkRecord)
    requires r in BareRows(c, p, content)
    ensures OwnHash(c, r) && Embedded(c, r) in RowsFor(c, p, content)
  {
    var bare := BareRows(c, p, content);
    var k :| 0 <= k < |bare| && bare[k] == r;
    assert EmbeddedAll(c, bare)[k] == Embedded(c, r);
  }

  lemma BareHashed(c: Setting, disk: Disk, ps: seq<string>, hashed: set<string>)
    requires Hashes(c, disk, hashed) && forall i :: 0 <= i < |ps| ==> ps[i] in disk
    ensures forall r :: r in Flatten(EachBare(c, disk, ps)) ==> OwnHash(c, r) && PreimageOf(r) in hashed
  {
    var rss := EachBare(c, disk, ps);
    forall r | r in Flatten(rss)
      ensures OwnHash(c, r) && PreimageOf(r) in hashed
    {
      var i := InGroup(rss, r);
      BareRowHashed(c, ps[i], disk[ps[i]], r);
      assert PreimageOf(Embedded(c, r)) == PreimageOf(r);
    }
  }

  // ---- a full rebuild ----

  lemma EachRecordsOk(c: Setting, docs: seq<ChunkedDocument>, i: nat)
    requires RecordsOf(c.H, c.scope, docs).Ok? && i < |docs|
    ensures DocumentRecords(c.H, c.scope, docs[i]).Ok?
  {
    CollectOk(EachDocument(c.H, c.scope, docs));
    assert EachDocument(c.H, c.scope, docs)[i].Ok?;
  }

  lemma FrontRecordsOk(c: Setting, docs: seq<ChunkedDocument>)
    requires RecordsOf(c.H, c.scope, docs).Ok? && docs != []
    ensures RecordsOf(c.H, c.scope, docs[..|docs| - 1]).Ok?
  {
    var rs := EachDocument(c.H, c.scope, docs);
    CollectOk(rs);
    CollectOk(rs[..|docs| - 1]);
    assert rs[..|docs| - 1] == EachDocument(c.H, c.scope, docs[..|docs| - 1]);
  }

  /** Documents without chunks, which only the rebuild skips, give no record. */
  lemma {:induction false} DropEmpty(c: Setting, docs: seq<ChunkedDocument>)
    requires RecordsOf(c.H, c.scope, docs).Ok?
    ensures RecordsOf(c.H, c.scope, DeltaApply.WithChunks(docs)) == RecordsOf(c.H, c.scope, docs)
  {
    if docs != [] {
      var n := |docs| - 1;
      var front, last := docs[..n], docs[n];
      assert docs == front + [last];
      FrontRecordsOk(c, docs);
      EachRecordsOk(c, docs, n);
      DropEmpty(c, front);
      RecordsSnoc(c, front, last);
      if last.chunks == [] {
        NoChunksNoRecords(c, last);
        assert DeltaApply.WithChunks(docs) == DeltaApply.WithChunks(front);
        var rs := RecordsOf(c.H, c.scope, front).value;
        assert rs + [] == rs;
      } else {
        RecordsSnoc(c, DeltaApply.WithChunks(front), last);
      }
    }
  }

  lemma NoChunksNoRecords(c: Setting, d: ChunkedDocument)
    requires d.chunks == [] && DocumentRecords(c.H, c.scope, d).Ok?
    ensures DocumentRecords(c.H, c.scope, d) == Ok([])
  {
  }

  lemma RecordsSnoc(c: Setting, docs: seq<ChunkedDocument>, d: ChunkedDocument)
    requires RecordsOf(c.H, c.scope, docs).Ok? && DocumentRecords(c.H, c.scope, d).Ok?
    ensures RecordsOf(c.H, c.scope, docs + [d])
         == Ok(RecordsOf(c.H, c.scope, docs).value + DocumentRecords(c.H, c.scope, d).value)
  {
    var rs := EachDocument(c.H, c.scope, docs + [d]);
    assert rs[..|docs|] == EachDocument(c.H, c.scope, docs);
    CollectStep(rs, |docs|);
    assert rs[..|docs| + 1] == rs;
    var front := Collect(rs[..|docs|]).value;
    assert (front + [rs[|docs|].value])[..|front|] == front;
  }

  /** Embedding all records in one batch embeds each of them. */
  lemma StampedIsEmbedded(c: Setting, records: seq<ChunkRecord>)
    ensures DeltaApply.Stamped(records, EmbedResult(c.model, c.dims, Vectors(c.f, DeltaApply.TextsOf(records)))) == EmbeddedAll(c, records)
  {
  }

  lemma RebuildRecords(c: Setting, disk: Disk, ps: seq<string>, embedder: Embedder)
    requires DeltaApply.ScopeOk(c.scope) && Deterministic(c, embedder) && Readable(disk, ps)
    ensures DeltaApply.Rebuild(c.H, c.scope, ps, disk, embedder)
         == DeltaApply.StoreRows(c.scope, EmbeddedAll(c, Flatten(EachBare(c, disk, ps))))
  {
    DocumentsRead(disk, ps);
    DocumentsBecomeRecords(c, disk, ps);
    DropEmpty(c, DocumentsAt(disk, ps));
    var records := Flatten(EachBare(c, disk, ps));
    if records != [] {
      var texts := DeltaApply.TextsOf(records);
      assert embedder(texts) == Ok(EmbedResult(c.model, c.dims, Vectors(c.f, texts)));
      StampedIsEmbedded(c, records);
    }
  }

  /** RunFullRebuild stores exactly the rows of the files. */
  lemma RebuildIs(c: Setting, disk: Disk, embedder: Embedder)
    requires DeltaApply.ScopeOk(c.scope) && Deterministic(c, embedder) && NormalKeys(disk.Keys)
    ensures DeltaApply.Rebuild(c.H, c.scope, SortedKeys(disk.Keys), disk, embedder) == Ok(RebuildRows(c, disk))
  {
    PathLists(disk, disk.Keys, {});
    RebuildRecords(c, disk, SortedKeys(disk.Keys), embedder);
    EmbeddedRecords(c, disk, SortedKeys(disk.Keys));
    RebuildMember(c, disk);
    RebuildFaithful(c, disk);
    StoresOrdered(c.scope, RebuildRows(c, disk));
  }
}
