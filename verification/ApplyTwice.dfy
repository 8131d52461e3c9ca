/** Applying a delta a second time on an unchanged disk (internal/indexing/delta_apply.go): it changes nothing exactly
    when every path whose rows are written is also cleared. */
module ApplyTwice {
  import opened Outcomes
  import opened GoStrings
  import opened Sorting
  import opened StringOrder
  import opened Paths
  import opened PathFacts
  import opened Chunker
  import opened ChunkerFacts
  import opened ChunkIndex
  import opened IndexFacts
  import opened IndexTheorems
  import opened IndexRuns
  import opened DeltaApply

  // ---- which paths are written and which are cleared ----

  function Targets(paths: set<string>): set<string>
  {
    set p | p in paths && NormalizeRelativePath(p).Ok? :: NormalizeRelativePath(p).value
  }

  /** The paths of the rows that upserts write: blank files have none. */
  function Written(disk: Disk, upserts: set<string>): set<string>
  {
    set p | p in Targets(upserts) && p in disk && !Blank(disk[p])
  }

  /** The merge normalises every written and every deleted path once more before it drops their rows. */
  function Cleared(disk: Disk, sets: PathSets): set<string>
  {
    Targets(sets.deletes) + Targets(Written(disk, sets.upserts))
  }

  predicate Replaces(disk: Disk, sets: PathSets)
  {
    Written(disk, sets.upserts) <= Cleared(disk, sets)
  }

  function SetOf(s: seq<string>): set<string>
  {
    set x | x in s
  }

  // ---- no two elements of a permutation are alike ----

  lemma {:induction false} TwoPlaces<T>(s: seq<T>, x: T) returns (i: nat, j: nat)
    requires multiset(s)[x] >= 2
    ensures i < j < |s| && s[i] == x && s[j] == x
  {
    var n := |s| - 1;
    assert s == s[..n] + [s[n]];
    if s[n] == x {
      assert x in s[..n];
      i :| 0 <= i < n && s[i] == x;
      j := n;
    } else {
      i, j := TwoPlaces(s[..n], x);
    }
  }

  lemma {:induction false} TwoCounted<T>(s: seq<T>, i: nat, j: nat)
    requires i < j < |s| && s[i] == s[j]
    ensures multiset(s)[s[i]] >= 2
  {
    var a, b := s[..j], s[j..];
    assert s == a + b;
    assert a[i] in a && b[0] in b;
  }

  lemma {:induction false} PermutedDistinct<T(!new)>(alike: (T, T) -> bool, a: seq<T>, b: seq<T>)
    requires multiset(a) == multiset(b) && DistinctKeys(alike, a) && forall x :: alike(x, x)
    ensures DistinctKeys(alike, b)
  {
    forall i, j | 0 <= i < j < |b|
      ensures !(alike(b[i], b[j]) && alike(b[j], b[i]))
    {
      if b[i] == b[j] {
        TwoCounted(b, i, j);
        var k, l := TwoPlaces(a, b[i]);
        assert false;
      } else {
        assert b[i] in multiset(a) && b[j] in multiset(a);
        var k :| 0 <= k < |a| && a[k] == b[i];
        var l :| 0 <= l < |a| && a[l] == b[j];
      }
    }
  }

  // ---- a table without errors ----

  lemma {:induction false} StoredRows(scope: Scope, rows: seq<ChunkRecord>, from: nat, i: nat, j: nat)
    requires from <= j < |rows| && i < j && InsertErrors(scope, rows, from) == None
    ensures !SameRow(rows[i], rows[j])
    decreases j - from
  {
    if from < j {
      StoredRows(scope, rows, from + 1, i, j);
    }
  }

  lemma StoredDistinct(scope: Scope, rows: seq<ChunkRecord>)
    requires ReplaceError(scope, rows) == None
    ensures DistinctKeys(SameRow, rows)
  {
    forall i, j | 0 <= i < j < |rows|
      ensures !SameRow(rows[i], rows[j])
    {
      StoredRows(scope, rows, 0, i, j);
    }
  }

  // ---- the records of the upserts ----

  function TextsAt(disk: Disk, p: string): seq<string>
    requires p in disk
  {
    ChunkContents(disk[p], DEFAULT_POLICY)
  }

  /** The record of a chunk of the file that now is at its path. */
  ghost predicate FromDisk(H: string -> string, scope: Scope, disk: Disk, r: ChunkRecord)
  {
    && r.relPath in disk && 0 <= r.chunkIndex < |TextsAt(disk, r.relPath)|
    && r == BareRecord(H, scope, r.relPath, r.chunkIndex, TextsAt(disk, r.relPath)[r.chunkIndex])
  }

  /** The records of the file that path x names. */
  ghost predicate GroupAt(H: string -> string, scope: Scope, disk: Disk, x: string, rs: seq<ChunkRecord>)
  {
    && NormalizeRelativePath(x).Ok? && NormalizeRelativePath(x).value in disk
    && var p := NormalizeRelativePath(x).value; rs == BareRecords(H, scope, p, Numbered(TextsAt(disk, p)))
  }

  lemma RecordGroups(H: string -> string, scope: Scope, disk: Disk, upserts: seq<string>) returns (rss: seq<seq<ChunkRecord>>)
    requires ReadDocuments(disk, upserts).Ok? && RecordsOf(H, scope, ReadDocuments(disk, upserts).value).Ok?
    ensures |rss| == |upserts| && forall i :: 0 <= i < |rss| ==> GroupAt(H, scope, disk, upserts[i], rss[i])
    ensures RecordsOf(H, scope, ReadDocuments(disk, upserts).value).value == Flatten(rss)
  {
    var docs := ReadDocuments(disk, upserts).value;
    var documents := seq(|upserts|, i requires 0 <= i < |upserts| => ReadDocument(disk, upserts[i]));
    CollectOk(documents);
    var each := EachDocument(H, scope, docs);
    CollectOk(each);
    rss := Collect(each).value;
    forall i | 0 <= i < |upserts|
      ensures GroupAt(H, scope, disk, upserts[i], rss[i])
    {
      assert documents[i] == ReadDocument(disk, upserts[i]) && documents[i].Ok? && docs[i] == documents[i].value;
      assert each[i] == DocumentRecords(H, scope, docs[i]) && each[i].Ok?;
    }
  }

  lemma {:induction false} GroupRecord(H: string -> string, scope: Scope, disk: Disk, upserts: seq<string>, rss: seq<seq<ChunkRecord>>, r: ChunkRecord)
    requires |rss| == |upserts| && (forall i :: 0 <= i < |rss| ==> GroupAt(H, scope, disk, upserts[i], rss[i])) && r in Flatten(rss)
    ensures FromDisk(H, scope, disk, r) && r.relPath in Written(disk, SetOf(upserts))
  {
    var i := InGroup(rss, r);
    assert upserts[i] in SetOf(upserts);
    NoChunksIffBlank(disk[r.relPath], DEFAULT_POLICY);
  }

  lemma {:induction false} WrittenRecord(H: string -> string, scope: Scope, disk: Disk, upserts: seq<string>, rss: seq<seq<ChunkRecord>>, p: string)
    requires |rss| == |upserts| && (forall i :: 0 <= i < |rss| ==> GroupAt(H, scope, disk, upserts[i], rss[i])) && p in Written(disk, SetOf(upserts))
    ensures p in PathsOfRecords(Flatten(rss))
  {
    var x :| x in SetOf(upserts) && NormalizeRelativePath(x) == Ok(p);
    var i :| 0 <= i < |upserts| && upserts[i] == x;
    NoChunksIffBlank(disk[p], DEFAULT_POLICY);
    GroupIn(rss, i, rss[i][0]);
    PathListed(Flatten(rss), rss[i][0]);
  }

  lemma RecordsAre(H: string -> string, scope: Scope, disk: Disk, upserts: seq<string>)
    requires ReadDocuments(disk, upserts).Ok? && RecordsOf(H, scope, ReadDocuments(disk, upserts).value).Ok?
    ensures
      var rs := RecordsOf(H, scope, ReadDocuments(disk, upserts).value).value;
      && (forall r :: r in rs ==> FromDisk(H, scope, disk, r))
      && SetOf(PathsOfRecords(rs)) == Written(disk, SetOf(upserts))
  {
    var rss := RecordGroups(H, scope, disk, upserts);
    var rs := Flatten(rss);
    forall r | r in rs
      ensures FromDisk(H, scope, disk, r)
    {
      GroupRecord(H, scope, disk, upserts, rss, r);
    }
    forall p | p in Written(disk, SetOf(upserts))
      ensures p in PathsOfRecords(rs)
    {
      WrittenRecord(H, scope, disk, upserts, rss, p);
    }
    forall p | p in PathsOfRecords(rs)
      ensures p in Written(disk, SetOf(upserts))
    {
      var k :| 0 <= k < |rs| && PathsOfRecords(rs)[k] == p;
      GroupRecord(H, scope, disk, upserts, rss, rs[k]);
    }
  }

  lemma PathListed(rs: seq<ChunkRecord>, r: ChunkRecord)
    requires r in rs
    ensures r.relPath in PathsOfRecords(rs)
  {
    var k :| 0 <= k < |rs| && rs[k] == r;
    assert PathsOfRecords(rs)[k] == r.relPath;
  }

  /** Refreshed records that can be stored together are different chunks: one path has one content. */
  lemma StoredUnique(H: string -> string, scope: Scope, disk: Disk, rs: seq<ChunkRecord>, out: seq<ChunkRecord>)
    requires OnlyEmbeddings(rs, out) && DistinctKeys(SameRow, out) && forall r :: r in rs ==> FromDisk(H, scope, disk, r)
    ensures UniqueKeys(out) && AllInScope(scope, out)
  {
    forall i | 0 <= i < |out|
      ensures out[i].relPath == rs[i].relPath && out[i].chunkIndex == rs[i].chunkIndex && out[i].contentHash == rs[i].contentHash
      ensures InScope(scope, out[i]) && FromDisk(H, scope, disk, rs[i])
    {
      assert rs[i] in rs;
      assert out[i] == WithEmbedding(rs[i], out[i].model, out[i].embeddingDims, out[i].embedding);
    }
    forall i, j | 0 <= i < j < |out|
      ensures !(RecordLe(out[i], out[j]) && RecordLe(out[j], out[i]))
    {
      RecordTie(out[i], out[j]);
    }
  }

  // ---- refresh and merge ----

  /** On an index that already holds the refreshed records, every record is matched and nothing is embedded. */
  lemma SecondRefresh(rows: seq<ChunkRecord>, rs: seq<ChunkRecord>, out: seq<ChunkRecord>, embedder: Option<Embedder>)
    requires UniqueKeys(rows) && OnlyEmbeddings(rs, out) && forall r :: r in out ==> r in rows
    ensures Refresh(rows, rs, embedder) == Ok(Refreshed(out, []))
  {
    var m := ByKey(rows);
    forall i | 0 <= i < |rs|
      ensures Matched(m, rs[i]) && out[i] == Reused(m, rs[i])
    {
      assert out[i] in out;
      var k :| 0 <= k < |rows| && rows[k] == out[i];
      ByKeyAt(rows, k);
      assert out[i] == WithEmbedding(rs[i], out[i].model, out[i].embeddingDims, out[i].embedding);
      assert KeyOf(out[i]) == KeyOf(rs[i]);
    }
    AllMatched(rows, rs, out, embedder);
  }

  lemma InScopeOf(scope: Scope, a: seq<ChunkRecord>, b: seq<ChunkRecord>, r: ChunkRecord)
    requires AllInScope(scope, a) && AllInScope(scope, b) && (r in a || r in b)
    ensures InScope(scope, r)
  {
  }

  lemma NormalizedTargets(ps: seq<string>)
    requires NormalizedPaths(ps).Ok?
    ensures SetOf(NormalizedPaths(ps).value) == Targets(SetOf(ps))
  {
    var rs := seq(|ps|, i requires 0 <= i < |ps| => NormalizeRelativePath(ps[i]));
    CollectOk(rs);
    var out := Collect(rs).value;
    forall p | p in Targets(SetOf(ps))
      ensures p in out
    {
      var x :| x in SetOf(ps) && NormalizeRelativePath(x) == Ok(p);
      var i :| 0 <= i < |ps| && ps[i] == x;
      assert out[i] == rs[i].value == p;
    }
    forall p | p in out
      ensures p in Targets(SetOf(ps))
    {
      var i :| 0 <= i < |out| && out[i] == p;
      assert rs[i] == NormalizeRelativePath(ps[i]) && rs[i].Ok? && ps[i] in SetOf(ps);
    }
  }

  /** The paths whose rows a merge drops. */
  function Dropped(refreshed: seq<ChunkRecord>, deletes: seq<string>): seq<string>
    requires NormalizedPaths(deletes).Ok? && NormalizedPaths(PathsOfRecords(refreshed)).Ok?
  {
    NormalizedPaths(deletes).value + NormalizedPaths(PathsOfRecords(refreshed)).value
  }

  lemma DroppedAre(refreshed: seq<ChunkRecord>, deletes: seq<string>)
    requires NormalizedPaths(deletes).Ok? && NormalizedPaths(PathsOfRecords(refreshed)).Ok?
    ensures SetOf(Dropped(refreshed, deletes)) == Targets(SetOf(deletes)) + Targets(SetOf(PathsOfRecords(refreshed)))
  {
    NormalizedTargets(deletes);
    NormalizedTargets(PathsOfRecords(refreshed));
  }

  /** If the merge drops the old rows of every refreshed path, merging again gives the same rows. */
  lemma SecondMerge(scope: Scope, existing: seq<ChunkRecord>, refreshed: seq<ChunkRecord>, deletes: seq<string>)
    requires UniqueKeys(existing) && UniqueKeys(refreshed) && AllInScope(scope, refreshed)
    requires Merged(scope, existing, refreshed, deletes).Ok?
    requires forall r :: r in refreshed ==> r.relPath in Dropped(refreshed, deletes)
    ensures var rows := Merged(scope, existing, refreshed, deletes).value;
      Strict(RecordLe, rows) && (forall r :: r in refreshed ==> r in rows) && Merged(scope, rows, refreshed, deletes) == Ok(rows)
  {
    var rows, dropped := Merged(scope, existing, refreshed, deletes).value, Dropped(refreshed, deletes);
    MergeSorted(existing, refreshed, dropped);
    assert rows == Sort(RecordLe, Kept(existing, dropped) + refreshed);
    forall i | 0 <= i < |rows|
      ensures InScope(scope, rows[i])
    {
      assert rows[i] in rows;
      InScopeOf(scope, existing, refreshed, rows[i]);
    }
    StrictIsUnique(rows);
    MergeSorted(rows, refreshed, dropped);
    StrictUnique(RecordLe, Sort(RecordLe, Kept(rows, dropped) + refreshed), rows);
  }

  lemma {:induction false} MergeSorted(existing: seq<ChunkRecord>, refreshed: seq<ChunkRecord>, dropped: seq<string>)
    requires UniqueKeys(existing) && UniqueKeys(refreshed) && forall r :: r in refreshed ==> r.relPath in dropped
    ensures
      var rows := Sort(RecordLe, Kept(existing, dropped) + refreshed);
      Strict(RecordLe, rows) && forall r :: r in rows <==> r in refreshed || (r in existing && r.relPath !in dropped)
  {
    KeptElements(existing, dropped);
    KeptUnique(existing, dropped);
    UniqueConcat(Kept(existing, dropped), refreshed, dropped);
    RecordPreorder();
    SortStrict(RecordLe, Kept(existing, dropped) + refreshed);
    SortPermutes(RecordLe, Kept(existing, dropped) + refreshed);
  }

  /** A row beside another one like it cannot be stored. */
  lemma {:induction false} TwinsClash(scope: Scope, kept: seq<ChunkRecord>, refreshed: seq<ChunkRecord>, i: nat, j: nat)
    requires i < |kept| && j < |refreshed| && SameRow(kept[i], refreshed[j])
    ensures ReplaceError(scope, Sort(RecordLe, kept + refreshed)).Some?
  {
    var both := kept + refreshed;
    assert both[i] == kept[i] && both[|kept| + j] == refreshed[j];
    if ReplaceError(scope, Sort(RecordLe, both)).None? {
      StoredDistinct(scope, Sort(RecordLe, both));
      SortPermutes(RecordLe, both);
      PermutedDistinct(SameRow, Sort(RecordLe, both), both);
      assert false;
    }
  }

  /** A refreshed row that stays in the index is a duplicate in the next merge. */
  lemma {:induction false} KeptRowClashes(scope: Scope, existing: seq<ChunkRecord>, refreshed: seq<ChunkRecord>, deletes: seq<string>,
                                          stored: ChunkRecord, j: nat)
    requires Merged(scope, existing, refreshed, deletes).Ok? && stored in existing && stored.relPath !in Dropped(refreshed, deletes)
    requires j < |refreshed| && SameRow(stored, refreshed[j])
    ensures ReplaceError(scope, Merged(scope, existing, refreshed, deletes).value).Some?
  {
    var kept := Kept(existing, Dropped(refreshed, deletes));
    KeptElements(existing, Dropped(refreshed, deletes));
    var i :| 0 <= i < |kept| && kept[i] == stored;
    TwinsClash(scope, kept, refreshed, i, j);
  }

  // ---- the second application ----

  /** What one application works with. */
  ghost predicate Works(H: string -> string, scope: Scope, disk: Disk, sets: PathSets, rs: seq<ChunkRecord>, refreshed: seq<ChunkRecord>)
  {
    && (forall r :: r in rs ==> FromDisk(H, scope, disk, r)) && OnlyEmbeddings(rs, refreshed)
    && SetOf(PathsOfRecords(refreshed)) == Written(disk, sets.upserts)
    && NormalizedPaths(SortedKeys(sets.deletes)).Ok? && NormalizedPaths(PathsOfRecords(refreshed)).Ok?
    && SetOf(Dropped(refreshed, SortedKeys(sets.deletes))) == Cleared(disk, sets)
  }

  lemma SetOfSorted(keys: set<string>)
    ensures SetOf(SortedKeys(keys)) == keys
  {
    SortedKeysStrict(keys);
  }

  lemma Working(H: string -> string, scope: Scope, existing: seq<ChunkRecord>, sets: PathSets, disk: Disk, embedder: Option<Embedder>)
    requires ApplyPaths(H, scope, existing, SortedKeys(sets.upserts), SortedKeys(sets.deletes), disk, embedder).Ok?
    ensures
      var rs := RecordsOf(H, scope, ReadDocuments(disk, SortedKeys(sets.upserts)).value).value;
      Works(H, scope, disk, sets, rs, Refresh(existing, rs, embedder).value.records)
  {
    var rs := RecordsOf(H, scope, ReadDocuments(disk, SortedKeys(sets.upserts)).value).value;
    var refreshed := Refresh(existing, rs, embedder).value.records;
    SetOfSorted(sets.upserts);
    SetOfSorted(sets.deletes);
    RecordsAre(H, scope, disk, SortedKeys(sets.upserts));
    RefreshKeepsRecords(existing, rs, embedder);
    SamePlaces(rs, refreshed);
    DroppedAre(refreshed, SortedKeys(sets.deletes));
  }

  /** If every written path is cleared, the second application finds everything done. */
  lemma ReplacesIsEnough(H: string -> string, scope: Scope, existing: seq<ChunkRecord>, sets: PathSets, disk: Disk,
                         embedder: Option<Embedder>, embedder': Option<Embedder>)
    requires UniqueKeys(existing) && Replaces(disk, sets)
    requires ApplyPaths(H, scope, existing, SortedKeys(sets.upserts), SortedKeys(sets.deletes), disk, embedder).Ok?
    ensures var out := ApplyPaths(H, scope, existing, SortedKeys(sets.upserts), SortedKeys(sets.deletes), disk, embedder).value;
      Strict(RecordLe, out.rows) &&
      ApplyPaths(H, scope, out.rows, SortedKeys(sets.upserts), SortedKeys(sets.deletes), disk, embedder') == Ok(out.(calls := []))
  {
    var rs := RecordsOf(H, scope, ReadDocuments(disk, SortedKeys(sets.upserts)).value).value;
    var refreshed, deletes := Refresh(existing, rs, embedder).value.records, SortedKeys(sets.deletes);
    Working(H, scope, existing, sets, disk, embedder);
    var rows := Merged(scope, existing, refreshed, deletes).value;
    RefreshedAreUnique(H, scope, disk, existing, rs, refreshed, deletes);
    forall r | r in refreshed
      ensures r.relPath in Dropped(refreshed, deletes)
    {
      PathListed(refreshed, r);
      assert r.relPath in SetOf(Dropped(refreshed, deletes));
    }
    SecondMerge(scope, existing, refreshed, deletes);
    StrictIsUnique(rows);
    SecondRefresh(rows, rs, refreshed, embedder');
  }

  lemma {:induction false} RefreshedAreUnique(H: string -> string, scope: Scope, disk: Disk, existing: seq<ChunkRecord>,
                                              rs: seq<ChunkRecord>, refreshed: seq<ChunkRecord>, deletes: seq<string>)
    requires OnlyEmbeddings(rs, refreshed) && forall r :: r in rs ==> FromDisk(H, scope, disk, r)
    requires Merged(scope, existing, refreshed, deletes).Ok? && ReplaceError(scope, Merged(scope, existing, refreshed, deletes).value) == None
    ensures UniqueKeys(refreshed) && AllInScope(scope, refreshed)
  {
    var kept := Kept(existing, Dropped(refreshed, deletes));
    var both := kept + refreshed;
    StoredDistinct(scope, Sort(RecordLe, both));
    SortPermutes(RecordLe, both);
    PermutedDistinct(SameRow, Sort(RecordLe, both), both);
    assert DistinctKeys(SameRow, refreshed) by {
      assert forall i :: 0 <= i < |refreshed| ==> both[|kept| + i] == refreshed[i];
    }
    StoredUnique(H, scope, disk, rs, refreshed);
  }

  /** If some written path is not cleared, the second application meets its own rows and fails. */
  lemma ReplacesIsNeeded(H: string -> string, scope: Scope, existing: seq<ChunkRecord>, sets: PathSets, disk: Disk,
                         embedder: Option<Embedder>, embedder': Option<Embedder>, listed: seq<ChunkRecord>)
    requires !Replaces(disk, sets)
    requires ApplyPaths(H, scope, existing, SortedKeys(sets.upserts), SortedKeys(sets.deletes), disk, embedder).Ok?
    requires forall r :: r in ApplyPaths(H, scope, existing, SortedKeys(sets.upserts), SortedKeys(sets.deletes), disk, embedder).value.rows ==> r in listed
    ensures ApplyPaths(H, scope, listed, SortedKeys(sets.upserts), SortedKeys(sets.deletes), disk, embedder').Err?
  {
    var rs := RecordsOf(H, scope, ReadDocuments(disk, SortedKeys(sets.upserts)).value).value;
    var first := Refresh(existing, rs, embedder).value.records;
    Working(H, scope, existing, sets, disk, embedder);
    forall j | 0 <= j < |first|
      ensures first[j] in listed
    {
      FirstIsStored(scope, existing, first, SortedKeys(sets.deletes), j);
    }
    if ApplyPaths(H, scope, listed, SortedKeys(sets.upserts), SortedKeys(sets.deletes), disk, embedder').Ok? {
      Working(H, scope, listed, sets, disk, embedder');
      WrittenClashes(H, scope, disk, sets, rs, first, Refresh(listed, rs, embedder').value.records, listed);
      assert false;
    }
  }

  lemma {:induction false} WrittenClashes(H: string -> string, scope: Scope, disk: Disk, sets: PathSets, rs: seq<ChunkRecord>,
                                          first: seq<ChunkRecord>, second: seq<ChunkRecord>, listed: seq<ChunkRecord>)
    requires Works(H, scope, disk, sets, rs, first) && Works(H, scope, disk, sets, rs, second) && !Replaces(disk, sets)
    requires (forall j :: 0 <= j < |first| ==> first[j] in listed) && Merged(scope, listed, second, SortedKeys(sets.deletes)).Ok?
    ensures ReplaceError(scope, Merged(scope, listed, second, SortedKeys(sets.deletes)).value).Some?
  {
    var deletes := SortedKeys(sets.deletes);
    var p :| p in Written(disk, sets.upserts) && p !in Cleared(disk, sets);
    assert p in SetOf(PathsOfRecords(first)) && p !in SetOf(Dropped(second, deletes));
    var j :| 0 <= j < |first| && PathsOfRecords(first)[j] == p;
    assert first[j] == WithEmbedding(rs[j], first[j].model, first[j].embeddingDims, first[j].embedding);
    assert second[j] == WithEmbedding(rs[j], second[j].model, second[j].embeddingDims, second[j].embedding);
    KeptRowClashes(scope, listed, second, deletes, first[j], j);
  }

  lemma {:induction false} FirstIsStored(scope: Scope, existing: seq<ChunkRecord>, refreshed: seq<ChunkRecord>, deletes: seq<string>, j: nat)
    requires Merged(scope, existing, refreshed, deletes).Ok? && j < |refreshed|
    ensures refreshed[j] in Merged(scope, existing, refreshed, deletes).value
  {
    var both := Kept(existing, Dropped(refreshed, deletes)) + refreshed;
    SortPermutes(RecordLe, both);
    assert both[|both| - |refreshed| + j] == refreshed[j];
  }

  /** An application that passes the checks of the scope and of the delta's paths is that of its sets. */
  lemma ApplyIsPaths(H: string -> string, scope: Scope, rows: seq<ChunkRecord>, delta: SyncDelta, disk: Disk, embedder: Option<Embedder>)
    requires Apply(H, scope, rows, delta, disk, embedder).Ok?
    ensures CollectPaths(delta.changes).Ok?
    ensures forall again, other ::
      Apply(H, scope, again, delta, disk, other) ==
      ApplyPaths(H, scope, DeltaApply.Listed(again), SortedKeys(CollectPaths(delta.changes).value.upserts),
                 SortedKeys(CollectPaths(delta.changes).value.deletes), disk, other)
  {
  }

  lemma ListedUnique(rows: seq<ChunkRecord>)
    requires UniqueKeys(rows)
    ensures UniqueKeys(DeltaApply.Listed(rows))
  {
    RecordPreorder();
    SortStrict(RecordLe, rows);
    StrictIsUnique(DeltaApply.Listed(rows));
  }

  /** Applying a delta again on an unchanged disk leaves rows and result as they are and embeds nothing, whatever
      embedder is at hand, if and only if every path it writes is a path it clears; otherwise it fails. */
  lemma ApplyIdempotent(H: string -> string, scope: Scope, rows: seq<ChunkRecord>, delta: SyncDelta, disk: Disk,
                        embedder: Option<Embedder>, embedder': Option<Embedder>)
    requires UniqueKeys(rows) && Apply(H, scope, rows, delta, disk, embedder).Ok?
    ensures CollectPaths(delta.changes).Ok?
    ensures
      var out := Apply(H, scope, rows, delta, disk, embedder).value;
      var again := Apply(H, scope, out.rows, delta, disk, embedder');
      if Replaces(disk, CollectPaths(delta.changes).value) then again == Ok(out.(calls := [])) else again.Err?
  {
    var sets := CollectPaths(delta.changes).value;
    var out := Apply(H, scope, rows, delta, disk, embedder).value;
    ListedUnique(rows);
    ApplyIsPaths(H, scope, rows, delta, disk, embedder);
    if Replaces(disk, sets) {
      ReplacesIsEnough(H, scope, DeltaApply.Listed(rows), sets, disk, embedder, embedder');
      ListedFixed(out.rows);
    } else {
      SortPermutes(RecordLe, out.rows);
      ReplacesIsNeeded(H, scope, DeltaApply.Listed(rows), sets, disk, embedder, embedder', DeltaApply.Listed(out.rows));
    }
  }

  // ---- when it holds, and an input where it does not ----

  /** Normalising the path again changes nothing (RelativePathTwice says which paths these are). */
  predicate Steady(p: string)
  {
    NormalizeRelativePath(p).Ok? ==> NormalizeRelativePath(NormalizeRelativePath(p).value) == NormalizeRelativePath(p)
  }

  lemma {:induction false} CollectedSteady(changes: seq<DeltaRecord>, p: string)
    requires CollectPaths(changes).Ok? && forall c :: c in changes && IsFileChange(c) ==> Steady(c.path)
    requires p in CollectPaths(changes).value.upserts
    ensures NormalizeRelativePath(p) == Ok(p)
  {
    var n := |changes| - 1;
    var c := changes[n];
    assert c in changes;
    if !(IsFileChange(c) && NormalizeRelativePath(c.path) == Ok(p)) {
      CollectedSteady(changes[..n], p);
    }
  }

  /** Deltas of steady paths replace every row they write, so applying them is idempotent. */
  lemma {:induction false} SteadyReplaces(changes: seq<DeltaRecord>, disk: Disk)
    requires CollectPaths(changes).Ok? && forall c :: c in changes && IsFileChange(c) ==> Steady(c.path)
    ensures Replaces(disk, CollectPaths(changes).value)
  {
    var sets := CollectPaths(changes).value;
    forall p | p in Written(disk, sets.upserts)
      ensures p in Targets(Written(disk, sets.upserts))
    {
      var x :| x in sets.upserts && NormalizeRelativePath(x) == Ok(p);
      CollectedSteady(changes, x);
    }
  }

  lemma AnyRefresh(c: Setting, existing: seq<ChunkRecord>, rs: seq<ChunkRecord>, embedder: Embedder)
    requires Deterministic(c, embedder)
    ensures Refresh(existing, rs, Some(embedder)).Ok?
  {
    var texts := PendingTexts(ByKey(existing), rs);
    if texts != [] {
      assert embedder(texts) == Ok(EmbedResult(c.model, c.dims, Vectors(c.f, texts)));
    }
  }

  /** Adding one file to an empty index succeeds, whatever its path is normalised to. */
  lemma {:induction false} FirstFile(c: Setting, embedder: Embedder, x: string, p: string, content: string)
    requires Deterministic(c, embedder) && ScopeOk(c.scope) && NormalizeRelativePath(x) == Ok(p) && NormalizeRelativePath(p).Ok?
    ensures ApplyPaths(c.H, c.scope, [], [x], [], map[p := content], Some(embedder)).Ok?
  {
    var disk := map[p := content];
    var doc := ChunkedDocument(x, ChunksOf(content));
    assert ReadDocument(disk, x) == Ok(doc);
    OneRead(disk, x);
    ChunksPass(content);
    var rs := BareRecords(c.H, c.scope, p, ChunksOf(content));
    OneDocument(c, doc, rs);
    AnyRefresh(c, [], rs, embedder);
    var refreshed := Refresh([], rs, Some(embedder)).value.records;
    RefreshKeepsRecords([], rs, Some(embedder));
    OnePathStores(c.scope, p, rs, refreshed);
  }

  lemma OneResult<T>(r: Result<T>)
    requires r.Ok?
    ensures Collect([r]) == Ok([r.value])
  {
    CollectOk([r]);
    assert Collect([r]).value == [r.value];
  }

  lemma OneDocument(c: Setting, doc: ChunkedDocument, rs: seq<ChunkRecord>)
    requires TrimSpace(c.scope.sessionID) != "" && DocumentRecords(c.H, c.scope, doc) == Ok(rs)
    ensures RecordsOf(c.H, c.scope, [doc]) == Ok(rs)
  {
    OneResult(DocumentRecords(c.H, c.scope, doc));
    assert EachDocument(c.H, c.scope, [doc]) == [DocumentRecords(c.H, c.scope, doc)];
    assert [rs][..0] == [] && Flatten<ChunkRecord>([]) == [] && Flatten([rs]) == [] + rs == rs;
  }

  lemma OneRead(disk: Disk, x: string)
    requires ReadDocument(disk, x).Ok?
    ensures ReadDocuments(disk, [x]) == Ok([ReadDocument(disk, x).value])
  {
    OneResult(ReadDocument(disk, x));
    assert seq(|[x]|, i requires 0 <= i < |[x]| => ReadDocument(disk, [x][i])) == [ReadDocument(disk, x)];
  }

  lemma {:induction false} OnePathStores(scope: Scope, p: string, rs: seq<ChunkRecord>, refreshed: seq<ChunkRecord>)
    requires ScopeOk(scope) && OnlyEmbeddings(rs, refreshed) && NormalizeRelativePath(p).Ok?
    requires forall i :: 0 <= i < |rs| ==> rs[i].relPath == p && rs[i].chunkIndex == i && InScope(scope, rs[i])
    ensures Merged(scope, [], refreshed, []).Ok? && ReplaceError(scope, Merged(scope, [], refreshed, []).value) == None
  {
    forall i | 0 <= i < |refreshed|
      ensures refreshed[i].relPath == p && refreshed[i].chunkIndex == i && InScope(scope, refreshed[i])
    {
      assert refreshed[i] == WithEmbedding(rs[i], refreshed[i].model, refreshed[i].embeddingDims, refreshed[i].embedding);
    }
    CollectOk(seq(|refreshed|, i requires 0 <= i < |refreshed| => NormalizeRelativePath(PathsOfRecords(refreshed)[i])));
    LexTotal(p, p);
    assert Strict(RecordLe, refreshed);
    ListedFixed(refreshed);
    assert [] + refreshed == refreshed;
    StoresOrdered(scope, refreshed);
  }

  /** A delta that adds one file. */
  function Adding(path: string): SyncDelta
  {
    SyncDelta("", "", None, None, "", "", [DeltaRecord(path, ACTION_ADD, "file", "", "", "", "")])
  }

  /** A delta that adds one file whose path still changes at the third normalisation is applied once, and fails from
      then on. */
  lemma UnsteadyFails(c: Setting, embedder: Embedder, embedder': Option<Embedder>, path: string, x: string, p: string, content: string)
    requires Deterministic(c, embedder) && ScopeOk(c.scope) && !Blank(content)
    requires NormalizeRelativePath(path) == Ok(x) && NormalizeRelativePath(x) == Ok(p)
    requires NormalizeRelativePath(p).Ok? && NormalizeRelativePath(p).value != p
    ensures
      var once := Apply(c.H, c.scope, [], Adding(path), map[p := content], Some(embedder));
      once.Ok? && Apply(c.H, c.scope, once.value.rows, Adding(path), map[p := content], embedder').Err?
  {
    var disk, sets := map[p := content], PathSets({x}, {});
    AddingCollects(path, x);
    OneKey(x);
    SortedKeysStrict({});
    assert SortedKeys({}) == [];
    FirstFile(c, embedder, x, p, content);
    assert p in Targets({x});
    assert Written(disk, {x}) == {p} && p !in Targets({p}) && Targets({}) == {};
    assert !Replaces(disk, sets);
    ApplyIdempotent(c.H, c.scope, [], Adding(path), disk, Some(embedder), embedder');
  }

  lemma AddingCollects(path: string, x: string)
    requires NormalizeRelativePath(path) == Ok(x)
    ensures CollectPaths(Adding(path).changes) == Ok(PathSets({x}, {}))
  {
    var changes := Adding(path).changes;
    assert changes[..0] == [] && CollectPaths(changes[..0]) == Ok(PathSets({}, {}));
    assert IsFileChange(changes[0]) && IsUpsert(changes[0].action);
    assert CollectPaths(changes) == CollectChange(PathSets({}, {}), changes[0]);
    assert {} + {x} == {x} && {} - {x} == {};
  }

  lemma OneKey(x: string)
    ensures SortedKeys({x}) == [x]
  {
    SortedKeysStrict({x});
    StrictUnique(LexLe, SortedKeys({x}), [x]);
  }

  lemma DotThenParts(q: string, p: string)
    requires PlainPart(q) && PlainPart(p) && !Contains(q, '/') && !Contains(p, '/')
    ensures NormalizeTrimmed("./" + q + "/" + p) == Ok(q + "/" + p)
  {
    var s, parts := "./" + q + "/" + p, [".", q, p];
    assert "./" + q == "." + ['/'] + q && s == ("./" + q) + ['/'] + p;
    SplitSnoc("./" + q, p, '/');
    SplitSnoc(".", q, '/');
    assert Split(".", '/') == ["."];
    assert Split(s, '/') == parts && parts[1..] == [q, p];
    CleanPlainParts([q, p], []);
    assert KeptParts(s) == [] + [q, p] == [q, p];
    assert s[0] == '.' && [q] + [p] == [q, p];
    JoinSnoc([q], p, '/');
  }

  lemma SpacePaths()
    ensures NormalizeRelativePath("./ ./ a") == Ok(" ./ a") && NormalizeRelativePath(" ./ a") == Ok(" a")
  {
    var s, t := "./ ./ a", "./ a";
    assert s == "./" + " ." + "/" + " a" && " ." + "/" + " a" == " ./ a";
    TrimSpaceFixed(s);
    DotThenParts(" .", " a");
    SpaceDot();
  }

  lemma SpaceDot()
    ensures NormalizeRelativePath(" ./ a") == Ok(" a")
  {
    var t := "./ a";
    assert t == "./" + " a" && " ./ a"[1..] == t;
    DotThenSpace(" a");
    TrimSpaceFixed(t);
  }

  /** The smallest such path: a file named " a" that the delta calls "./ ./ a". */
  lemma NotIdempotentAt(c: Setting, embedder: Embedder, embedder': Option<Embedder>, content: string)
    requires Deterministic(c, embedder) && ScopeOk(c.scope) && !Blank(content)
    ensures
      var once := Apply(c.H, c.scope, [], Adding("./ ./ a"), map[" a" := content], Some(embedder));
      once.Ok? && Apply(c.H, c.scope, once.value.rows, Adding("./ ./ a"), map[" a" := content], embedder').Err?
  {
    SpacePaths();
    NotIdempotent();
    UnsteadyFails(c, embedder, embedder', "./ ./ a", " ./ a", " a", content);
  }
}
