/** Which files a delta touches: collectDeltaPaths (internal/indexing/delta_apply.go),
    MaterializeChangedFiles (internal/indexsync/diff/materialize.go) and the conversion between
    their inputs (internal/jobs/river/sync_worker.go, syncDeltaFromSet). */
module DeltaPaths {
  import opened Outcomes
  import opened GoStrings
  import opened Sorting
  import opened StringOrder
  import opened Paths
  import opened ChunkIndex
  import opened FlatDiff
  import opened DeltaApply

  // ---- syncDeltaFromSet ----

  /** deltaActionFromOp */
  function ActionOf(op: DeltaOp): string
  {
    match op
    case Add => ACTION_ADD
    case Delete => ACTION_DELETE
    case Modify => ACTION_MODIFY
  }

  function RecordOf(d: FileDelta): DeltaRecord
  {
    DeltaRecord(d.path, ActionOf(d.op), "file", d.previousNodeHash, d.currentNodeHash, d.previousContentHash, d.currentContentHash)
  }

  /** The two snapshots a delta joins. */
  datatype Link = Link(previousSnapshotID: Option<int>, currentSnapshotID: int, previousRootHash: string, currentRootHash: string)

  function DeltaOf(scope: Scope, link: Link, changes: seq<FileDelta>): SyncDelta
  {
    SyncDelta(scope.sessionID, scope.repoRoot, link.previousSnapshotID, Some(link.currentSnapshotID),
              link.previousRootHash, link.currentRootHash, RecordsFor(changes))
  }

  function RecordsFor(changes: seq<FileDelta>): (rs: seq<DeltaRecord>)
    ensures |rs| == |changes|
  {
    seq(|changes|, i requires 0 <= i < |changes| => RecordOf(changes[i]))
  }

  /** One record per change, in order, for the two snapshots. */
  method SyncDeltaFromSet(scope: Scope, link: Link, changes: seq<FileDelta>) returns (delta: SyncDelta)
    ensures delta == DeltaOf(scope, link, changes)
  {
    var records: seq<DeltaRecord> := [];
    for i := 0 to |changes|
      invariant |records| == i && forall k :: 0 <= k < i ==> records[k] == RecordOf(changes[k])
    {
      records := records + [RecordOf(changes[i])];
    }
    assert records == RecordsFor(changes);
    return SyncDelta(scope.sessionID, scope.repoRoot, link.previousSnapshotID, Some(link.currentSnapshotID),
                     link.previousRootHash, link.currentRootHash, records);
  }

  // ---- collectDeltaPaths ----

  /** Change i is the last file change of path p. */
  ghost predicate LastAt(changes: seq<DeltaRecord>, p: string, i: nat)
  {
    && i < |changes| && Touches(changes[i], p)
    && forall j :: i < j < |changes| ==> !Touches(changes[j], p)
  }

  predicate Touches(c: DeltaRecord, p: string)
  {
    IsFileChange(c) && NormalizeRelativePath(c.path) == Ok(p)
  }

  /** Collecting fails exactly at a file change with an unusable path or an unknown action. */
  predicate Collectable(c: DeltaRecord)
  {
    IsFileChange(c) ==> NormalizeRelativePath(c.path).Ok? && (IsUpsert(c.action) || c.action == ACTION_DELETE)
  }

  lemma {:induction false} CollectSucceeds(changes: seq<DeltaRecord>)
    ensures CollectPaths(changes).Ok? <==> forall i :: 0 <= i < |changes| ==> Collectable(changes[i])
  {
    if changes != [] {
      CollectSucceeds(changes[..|changes| - 1]);
      assert forall i :: 0 <= i < |changes| - 1 ==> changes[..|changes| - 1][i] == changes[i];
    }
  }

  lemma LastExtends(changes: seq<DeltaRecord>, p: string, i: nat)
    requires changes != [] && !Touches(changes[|changes| - 1], p)
    ensures LastAt(changes, p, i) <==> LastAt(changes[..|changes| - 1], p, i)
  {
    var front := changes[..|changes| - 1];
    if LastAt(front, p, i) {
      forall j | i < j < |changes|
        ensures !Touches(changes[j], p)
      {
        assert j < |front| ==> front[j] == changes[j];
      }
    }
    if LastAt(changes, p, i) {
      assert front[i] == changes[i];
    }
  }

  /** The last file action of a path decides where it goes; the two sets are disjoint. */
  lemma {:induction false} LastActionWins(changes: seq<DeltaRecord>, p: string)
    requires CollectPaths(changes).Ok?
    ensures p in CollectPaths(changes).value.upserts <==> exists i: nat :: LastAt(changes, p, i) && IsUpsert(changes[i].action)
    ensures p in CollectPaths(changes).value.deletes <==> exists i: nat :: LastAt(changes, p, i) && changes[i].action == ACTION_DELETE
    ensures !(p in CollectPaths(changes).value.upserts && p in CollectPaths(changes).value.deletes)
  {
    if changes != [] {
      var n := |changes| - 1;
      LastActionWins(changes[..n], p);
      if Touches(changes[n], p) {
        assert LastAt(changes, p, n);
        assert forall i: nat :: LastAt(changes, p, i) ==> i == n;
      } else {
        forall i: nat
          ensures LastAt(changes, p, i) <==> LastAt(changes[..n], p, i)
        {
          LastExtends(changes, p, i);
        }
      }
    }
  }

  /** mapKeys followed by slices.Sort. */
  method SortedMapKeys(values: set<string>) returns (keys: seq<string>)
    ensures keys == SortedKeys(values)
  {
    var todo := values;
    keys := [];
    while todo != {}
      invariant todo <= values
      invariant forall x :: x in keys <==> x in values - todo
      invariant forall i, j :: 0 <= i < j < |keys| ==> keys[i] != keys[j]
      decreases |todo|
    {
      var key :| key in todo;
      todo := todo - {key};
      keys := keys + [key];
    }
    SortListing(keys, values);
    keys := Sort(LexLe, keys);
  }

  datatype PathLists = PathLists(upserts: seq<string>, deletes: seq<string>)

  ghost function SortedLists(sets: PathSets): PathLists
  {
    PathLists(SortedKeys(sets.upserts), SortedKeys(sets.deletes))
  }

  lemma {:induction false} CollectFailsEarly(changes: seq<DeltaRecord>, k: nat)
    requires k <= |changes| && CollectPaths(changes[..k]).Err?
    ensures CollectPaths(changes) == CollectPaths(changes[..k])
    decreases |changes|
  {
    if k == |changes| {
      assert changes[..k] == changes;
    } else {
      assert changes[..|changes| - 1][..k] == changes[..k];
      CollectFailsEarly(changes[..|changes| - 1], k);
    }
  }

  method CollectDeltaPaths(delta: SyncDelta) returns (r: Result<PathLists>)
    ensures CollectPaths(delta.changes).Ok? ==> r == Ok(SortedLists(CollectPaths(delta.changes).value))
    ensures CollectPaths(delta.changes).Err? ==> r == Err(CollectPaths(delta.changes).error)
  {
    var upserts: set<string>, deletes: set<string> := {}, {};
    for i := 0 to |delta.changes|
      invariant CollectPaths(delta.changes[..i]) == Ok(PathSets(upserts, deletes))
    {
      var change := delta.changes[i];
      assert delta.changes[..i + 1][..i] == delta.changes[..i];
      if change.nodeType == "" || change.nodeType == "file" {
        var path := NormalizeRelativePath(change.path);
        if path.Err? {
          CollectFailsEarly(delta.changes, i + 1);
          return Err(path.error);
        }
        if change.action == ACTION_ADD || change.action == ACTION_MODIFY {
          upserts := upserts + {path.value};
          deletes := deletes - {path.value};
        } else if change.action == ACTION_DELETE {
          deletes := deletes + {path.value};
          upserts := upserts - {path.value};
        } else {
          CollectFailsEarly(delta.changes, i + 1);
          return Err("unsupported delta action");
        }
      }
    }
    assert delta.changes[..|delta.changes|] == delta.changes;
    var upsertPaths := SortedMapKeys(upserts);
    var deletePaths := SortedMapKeys(deletes);
    return Ok(PathLists(upsertPaths, deletePaths));
  }

  // ---- MaterializeChangedFiles ----

  function TrimmedUpserts(changes: seq<FileDelta>): set<string>
  {
    set d | d in changes && d.op != Delete && TrimSpace(d.path) != "" :: TrimSpace(d.path)
  }

  function TrimmedDeletes(changes: seq<FileDelta>): set<string>
  {
    set d | d in changes && d.op == Delete && TrimSpace(d.path) != "" :: TrimSpace(d.path)
  }

  /** The list holds exactly the set, without repetition. */
  ghost predicate ListsOnce(s: seq<string>, keys: set<string>)
  {
    (forall x :: x in s <==> x in keys) && forall i, j :: 0 <= i < j < |s| ==> s[i] != s[j]
  }

  lemma TrimmedStep(changes: seq<FileDelta>, k: nat)
    requires k < |changes|
    ensures
      var d := changes[k];
      var one := if TrimSpace(d.path) == "" then {} else {TrimSpace(d.path)};
      && TrimmedUpserts(changes[..k + 1]) == TrimmedUpserts(changes[..k]) + (if d.op == Delete then {} else one)
      && TrimmedDeletes(changes[..k + 1]) == TrimmedDeletes(changes[..k]) + (if d.op == Delete then one else {})
  {
    assert changes[..k + 1] == changes[..k] + [changes[k]];
  }

  method MaterializeChangedFiles(changes: seq<FileDelta>) returns (files: PathLists)
    ensures files == PathLists(SortedKeys(TrimmedUpserts(changes)), SortedKeys(TrimmedDeletes(changes)))
  {
    var upsertSeen: set<string>, removeSeen: set<string> := {}, {};
    var upserts: seq<string>, removes: seq<string> := [], [];
    for i := 0 to |changes|
      invariant upsertSeen == TrimmedUpserts(changes[..i]) && removeSeen == TrimmedDeletes(changes[..i])
      invariant ListsOnce(upserts, upsertSeen) && ListsOnce(removes, removeSeen)
    {
      TrimmedStep(changes, i);
      var path := TrimSpace(changes[i].path);
      if path != "" {
        match changes[i].op {
          case Add | Modify =>
            if path !in upsertSeen {
              upsertSeen := upsertSeen + {path};
              upserts := upserts + [path];
            }
          case Delete =>
            if path !in removeSeen {
              removeSeen := removeSeen + {path};
              removes := removes + [path];
            }
        }
      }
    }
    assert changes[..|changes|] == changes;
    SortListing(upserts, upsertSeen);
    SortListing(removes, removeSeen);
    return PathLists(Sort(LexLe, upserts), Sort(LexLe, removes));
  }

  // ---- they agree ----

  /** What a difference of snapshots delivers: normal paths, each once. */
  ghost predicate DistinctNormal(changes: seq<FileDelta>)
  {
    && (forall i :: 0 <= i < |changes| ==> Normal(changes[i].path))
    && forall i, j :: 0 <= i < j < |changes| ==> changes[i].path != changes[j].path
  }

  ghost predicate Agree(changes: seq<FileDelta>)
  {
    CollectPaths(RecordsFor(changes)) == Ok(PathSets(TrimmedUpserts(changes), TrimmedDeletes(changes)))
  }

  lemma AgreeOnNone()
    ensures Agree([])
  {
    assert TrimmedUpserts([]) == {} && TrimmedDeletes([]) == {};
    assert RecordsFor([]) == [];
  }

  lemma AgreeStep(changes: seq<FileDelta>)
    requires DistinctNormal(changes) && changes != [] && Agree(changes[..|changes| - 1])
    ensures Agree(changes)
  {
    var n := |changes| - 1;
    var front, last := changes[..n], changes[n];
    CollectLast(changes);
    LastIsNew(changes);
    TrimmedLast(changes);
    NormalIsFixed(last.path);
    NewPath(PathSets(TrimmedUpserts(front), TrimmedDeletes(front)), last);
  }

  lemma FrontDistinct(changes: seq<FileDelta>)
    requires DistinctNormal(changes) && changes != []
    ensures DistinctNormal(changes[..|changes| - 1])
  {
  }

  /** On such a delta both routines give the same upserts and the same deletes. */
  lemma {:induction false} MaterializeAgrees(changes: seq<FileDelta>)
    requires DistinctNormal(changes)
    ensures CollectPaths(RecordsFor(changes)) == Ok(PathSets(TrimmedUpserts(changes), TrimmedDeletes(changes)))
  {
    if changes == [] {
      AgreeOnNone();
    } else {
      FrontDistinct(changes);
      MaterializeAgrees(changes[..|changes| - 1]);
      AgreeStep(changes);
    }
  }

  lemma TrimmedLast(changes: seq<FileDelta>)
    requires changes != [] && TrimSpace(changes[|changes| - 1].path) == changes[|changes| - 1].path != ""
    ensures
      var front, last := changes[..|changes| - 1], changes[|changes| - 1];
      PathSets(TrimmedUpserts(changes), TrimmedDeletes(changes)) ==
      if last.op == Delete then PathSets(TrimmedUpserts(front), TrimmedDeletes(front) + {last.path})
      else PathSets(TrimmedUpserts(front) + {last.path}, TrimmedDeletes(front))
  {
    TrimmedStep(changes, |changes| - 1);
    assert changes[..|changes| - 1 + 1] == changes;
  }

  lemma CollectLast(changes: seq<FileDelta>)
    requires changes != [] && CollectPaths(RecordsFor(changes[..|changes| - 1])).Ok?
    ensures CollectPaths(RecordsFor(changes)) ==
      CollectChange(CollectPaths(RecordsFor(changes[..|changes| - 1])).value, RecordOf(changes[|changes| - 1]))
  {
    assert RecordsFor(changes)[..|changes| - 1] == RecordsFor(changes[..|changes| - 1]);
  }

  lemma NewPath(sets: PathSets, d: FileDelta)
    requires NormalizeRelativePath(d.path) == Ok(d.path) && d.path !in sets.upserts && d.path !in sets.deletes
    ensures CollectChange(sets, RecordOf(d)) == Ok(
      if d.op == Delete then PathSets(sets.upserts, sets.deletes + {d.path})
      else PathSets(sets.upserts + {d.path}, sets.deletes))
  {
    assert sets.upserts - {d.path} == sets.upserts && sets.deletes - {d.path} == sets.deletes;
  }

  /** A normal path is its own trimmed form, so a new path is in neither set yet. */
  lemma LastIsNew(changes: seq<FileDelta>)
    requires DistinctNormal(changes) && changes != []
    ensures TrimSpace(changes[|changes| - 1].path) == changes[|changes| - 1].path != ""
    ensures changes[|changes| - 1].path !in TrimmedUpserts(changes[..|changes| - 1])
    ensures changes[|changes| - 1].path !in TrimmedDeletes(changes[..|changes| - 1])
  {
    var n := |changes| - 1;
    TrimSpaceFixed(changes[n].path);
    forall d | d in changes[..n]
      ensures TrimSpace(d.path) != changes[n].path
    {
      var i :| 0 <= i < n && changes[..n][i] == d;
      assert changes[i] == d;
      TrimSpaceFixed(d.path);
    }
  }

  /** On an exact difference of two file maps: upserts are the added and modified paths, deletes the removed ones. */
  lemma ExactPaths(changes: seq<FileDelta>, fa: FileMap, fb: FileMap)
    requires Exact(changes, fa, fb) && DistinctNormal(changes)
    ensures TrimmedUpserts(changes) == set p | p in fb && (p !in fa || fa[p].nodeHash != fb[p].nodeHash)
    ensures TrimmedDeletes(changes) == fa.Keys - fb.Keys
  {
    forall p
      ensures p in TrimmedUpserts(changes) <==> p in fb && (p !in fa || fa[p].nodeHash != fb[p].nodeHash)
      ensures p in TrimmedDeletes(changes) <==> p in fa.Keys - fb.Keys
    {
      ExactPath(changes, fa, fb, p);
    }
  }

  lemma ExactPath(changes: seq<FileDelta>, fa: FileMap, fb: FileMap, p: string)
    requires Exact(changes, fa, fb) && DistinctNormal(changes)
    ensures p in TrimmedUpserts(changes) <==> p in fb && (p !in fa || fa[p].nodeHash != fb[p].nodeHash)
    ensures p in TrimmedDeletes(changes) <==> p in fa.Keys - fb.Keys
  {
    forall d | d in changes
      ensures TrimSpace(d.path) == d.path != "" && ChangeAt(fa, fb, d.path) == Some(d)
    {
      var i :| 0 <= i < |changes| && changes[i] == d;
      TrimSpaceFixed(changes[i].path);
    }
    if ChangeAt(fa, fb, p).Some? {
      assert ChangeAt(fa, fb, p).value in changes;
    }
  }
}
