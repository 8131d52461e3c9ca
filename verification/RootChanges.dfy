/** When a root hash changes and when a delta is empty: the two are not the same, because directories are hashed too
    (internal/indexsync/snapshot/builder.go, internal/jobs/river/sync_worker.go). */
module RootChanges {
  import opened Outcomes
  import opened DisjointMaps
  import opened Paths
  import opened MerkleHash
  import opened FlatDiff
  import opened MerkleDiff
  import opened NodeTree
  import opened SnapshotTree
  import opened SnapshotBuild
  import opened SnapshotRestore
  import opened WalkFiles

  // ---- equal trees, equal hashes ----

  /** Hashed trees that agree on paths, kinds, content hashes and sizes carry the same digest. */
  lemma {:induction false} EqualTreeEqualHash(H: string -> string, a: Tree, b: Tree)
    requires Hashed(H, a) && Hashed(H, b) && CoreOf(a) == CoreOf(b)
    ensures ChildHashOf(a) == ChildHashOf(b)
    decreases a, 1
  {
    if a.entry.nodeType == NODE_DIR && b.entry.nodeType == NODE_DIR {
      EqualChildrenEqualHashes(H, a.children, b.children);
    }
  }

  lemma {:induction false} EqualChildrenEqualHashes(H: string -> string, a: seq<Tree>, b: seq<Tree>)
    requires forall c :: c in a ==> Hashed(H, c)
    requires forall c :: c in b ==> Hashed(H, c)
    requires CoresOf(a) == CoresOf(b)
    ensures ChildHashes(a) == ChildHashes(b)
    decreases a, 0
  {
    assert |a| == |CoresOf(a)| == |b|;
    forall i | 0 <= i < |a|
      ensures ChildHashes(a)[i] == ChildHashes(b)[i]
    {
      assert CoresOf(a)[i] == CoresOf(b)[i];
      assert a[i] in a && b[i] in b;
      EqualTreeEqualHash(H, a[i], b[i]);
    }
  }

  /** Without collisions the root hashes are equal exactly when the trees are, directories included. */
  lemma RootHashesDecideTrees(H: string -> string, prev: Snapshot, cur: Snapshot)
    requires IsDigest(H) && SnapshotsOk(H, Some(prev), Some(cur))
    ensures prev.rootHash == cur.rootHash <==> CoresOf(prev.root.children) == CoresOf(cur.root.children)
  {
    if prev.rootHash == cur.rootHash {
      EqualRootsNoChange(H, prev, cur);
    }
    if CoresOf(prev.root.children) == CoresOf(cur.root.children) {
      EqualChildrenEqualHashes(H, prev.root.children, cur.root.children);
    }
  }

  /** The delta is empty exactly when the files are the same, whatever the directories are. */
  lemma EmptyDeltaIffSameFiles(H: string -> string, prev: Option<Snapshot>, cur: Option<Snapshot>)
    requires IsDigest(H) && SnapshotsOk(H, prev, cur)
    ensures SnapshotChanges(prev, cur) == Ok([]) <==> FilesOf(prev) == FilesOf(cur)
  {
    PatchGivesCurrent(H, prev, cur);
    DiffIsFlat(H, prev, cur);
    NothingChanged(FilesOf(prev));
    if SnapshotChanges(prev, cur) == Ok([]) {
      assert Patch(FilesOf(prev), []) == FilesOf(prev);
    }
  }

  // ---- an added directory ----

  /** Trees with equal cores have the same paths. */
  lemma {:induction false} CoreFixesPaths(a: Tree, b: Tree)
    requires WfTree(a) && WfTree(b) && CoreOf(a) == CoreOf(b)
    ensures a.entry.path == b.entry.path && EntriesBelow(a).Keys == EntriesBelow(b).Keys
    decreases a, 1
  {
    if a.entry.nodeType == NODE_FILE {
      NoChildrenNoEntries(a);
      NoChildrenNoEntries(b);
    } else {
      CoresFixPaths(a.children, b.children);
    }
  }

  lemma {:induction false} NoChildrenNoEntries(t: Tree)
    requires t.children == []
    ensures EntriesBelow(t) == map[]
  {
    assert EachEntries(t.children) == [];
  }

  lemma {:induction false} CoresFixPaths(a: seq<Tree>, b: seq<Tree>)
    requires CoresOf(a) == CoresOf(b)
    requires forall c :: c in a ==> WfTree(c)
    requires forall c :: c in b ==> WfTree(c)
    ensures MergeMaps(EachEntries(a)).Keys == MergeMaps(EachEntries(b)).Keys
    decreases a, 0
  {
    assert |a| == |CoresOf(a)| == |b|;
    forall i | 0 <= i < |a|
      ensures EachEntries(a)[i].Keys == EachEntries(b)[i].Keys
    {
      assert CoresOf(a)[i] == CoresOf(b)[i];
      assert a[i] in a && b[i] in b;
      CoreFixesPaths(a[i], b[i]);
    }
    SameKeysMerged(EachEntries(a), EachEntries(b));
  }

  /** The same for roots, whose own hashes and kinds do not matter. */
  lemma {:induction false} SamePaths(a: Tree, b: Tree)
    requires WfTree(a) && WfTree(b) && CoresOf(a.children) == CoresOf(b.children)
    ensures EntriesBelow(a).Keys == EntriesBelow(b).Keys
  {
    CoresFixPaths(a.children, b.children);
  }

  lemma {:induction false} WalkPaths(H: string -> string, entries: seq<Entry>, disk: Disk)
    requires IsDigest(H) && WalkOk(entries, disk)
    ensures SnapshotOf(H, entries, disk).Ok?
    ensures EntriesBelow(SnapshotOf(H, entries, disk).value.root).Keys == MapOf(entries).Keys
  {
    SnapshotBuilt(H, entries, disk);
    TreeOfWalk(entries, disk);
    var t := TreeAt(MapOf(entries), ROOT_ENTRY);
    TidyNormalDirs(t);
    HashTreeIsHashed(H, disk, t, "");
    ShapeKeepsPaths(t, SnapshotOf(H, entries, disk).value.root);
    MapOfRecords(entries);
    TreeHoldsEntries(MapOf(entries));
  }

  function EmptyDir(path: string): Entry
  {
    Entry(path, ParentPath(path), NODE_DIR, "", "", "", None, None)
  }

  /** A directory that a walk could also have found. */
  ghost predicate NewDir(entries: seq<Entry>, d: string)
  {
    && Normal(d) && d !in MapOf(entries)
    && (ParentPath(d) == "" || (ParentPath(d) in MapOf(entries) && MapOf(entries)[ParentPath(d)].nodeType == NODE_DIR))
  }

  lemma {:induction false} MapWithDir(entries: seq<Entry>, d: string)
    ensures MapOf(entries + [EmptyDir(d)]) == MapOf(entries)[d := EmptyDir(d)]
  {
    assert (entries + [EmptyDir(d)])[..|entries|] == entries;
  }

  lemma KindsWithDir(m: EntryMap, d: string)
    requires KindsOk(m) && d !in m && d != ""
    requires ParentPath(d) == "" || (ParentPath(d) in m && m[ParentPath(d)].nodeType == NODE_DIR)
    requires "" !in m
    ensures KindsOk(m[d := EmptyDir(d)])
  {
    var m' := m[d := EmptyDir(d)];
    forall q | q in m'
      ensures KnownType(m'[q].nodeType) && (ParentPath(q) in m' ==> m'[ParentPath(q)].nodeType == NODE_DIR)
    {
      if q != d {
        assert q in m;
      }
    }
  }

  lemma {:induction false} CleanWithDir(entries: seq<Entry>, d: string)
    requires Clean(entries) && Normal(d) && d !in MapOf(entries)
    ensures Clean(entries + [EmptyDir(d)])
  {
    MapOfFacts(entries);
    assert forall i :: 0 <= i < |entries| ==> entries[i].path in MapOf(entries);
  }

  lemma ParentsWithDir(entries: seq<Entry>, d: string)
    requires ParentsPresent(entries) && (ParentPath(d) == "" || HasPath(entries, ParentPath(d)))
    ensures ParentsPresent(entries + [EmptyDir(d)])
  {
    var es := entries + [EmptyDir(d)];
    forall i | 0 <= i < |es|
      ensures ParentPath(es[i].path) == "" || HasPath(es, ParentPath(es[i].path))
    {
      if ParentPath(es[i].path) != "" {
        assert HasPath(entries, ParentPath(es[i].path));
        var j :| 0 <= j < |entries| && entries[j].path == ParentPath(es[i].path);
        assert es[j].path == ParentPath(es[i].path);
      }
    }
  }

  lemma WalkWithDir(entries: seq<Entry>, disk: Disk, d: string)
    requires WalkOk(entries, disk) && NewDir(entries, d)
    ensures WalkOk(entries + [EmptyDir(d)], disk)
  {
    MapOfFacts(entries);
    MapWithDir(entries, d);
    assert "" !in MapOf(entries);
    KindsWithDir(MapOf(entries), d);
    CleanWithDir(entries, d);
    ParentsWithDir(entries, d);
  }

  /** Adding an empty directory to a repository, or removing one, changes the root hash and no file:
      the snapshot is saved, and its delta is empty. */
  lemma AddedDirectory(H: string -> string, entries: seq<Entry>, disk: Disk, d: string)
    requires IsDigest(H) && WalkOk(entries, disk) && NewDir(entries, d)
    ensures SnapshotOf(H, entries, disk).Ok? && SnapshotOf(H, entries + [EmptyDir(d)], disk).Ok?
    ensures
      var without, with := SnapshotOf(H, entries, disk).value, SnapshotOf(H, entries + [EmptyDir(d)], disk).value;
      NoCollision(H, Preimages(without.root) + Preimages(with.root)) ==>
        && without.rootHash != with.rootHash
        && SnapshotChanges(Some(without), Some(with)) == Ok([]) && SnapshotChanges(Some(with), Some(without)) == Ok([])
  {
    var more := entries + [EmptyDir(d)];
    WalkWithDir(entries, disk, d);
    SnapshotBuilt(H, entries, disk);
    SnapshotBuilt(H, more, disk);
    var without, with := SnapshotOf(H, entries, disk).value, SnapshotOf(H, more, disk).value;
    if NoCollision(H, Preimages(without.root) + Preimages(with.root)) {
      assert Preimages(without.root) + Preimages(with.root) == Preimages(with.root) + Preimages(without.root);
      SameFilesWithDir(H, entries, disk, d);
      EmptyDeltaIffSameFiles(H, Some(without), Some(with));
      EmptyDeltaIffSameFiles(H, Some(with), Some(without));
      RootHashesDecideTrees(H, without, with);
      OtherPathsWithDir(H, entries, disk, d);
    }
  }

  lemma {:induction false} SameFilesWithDir(H: string -> string, entries: seq<Entry>, disk: Disk, d: string)
    requires IsDigest(H) && WalkOk(entries, disk) && WalkOk(entries + [EmptyDir(d)], disk) && d !in MapOf(entries)
    ensures SnapshotOf(H, entries, disk).Ok? && SnapshotOf(H, entries + [EmptyDir(d)], disk).Ok?
    ensures Files(SnapshotOf(H, entries, disk).value.root) == Files(SnapshotOf(H, entries + [EmptyDir(d)], disk).value.root)
  {
    WalkFilesAre(H, entries, disk);
    WalkFilesAre(H, entries + [EmptyDir(d)], disk);
    MapWithDir(entries, d);
    SameSizesSameFiles(H, disk, SizesOf(MapOf(entries)), SizesOf(MapOf(entries + [EmptyDir(d)])));
  }

  lemma SameSizesSameFiles(H: string -> string, disk: Disk, a: Sizes, b: Sizes)
    requires disk.Keys <= a.Keys && disk.Keys <= b.Keys && forall p :: p in disk ==> a[p] == b[p]
    ensures FilesOfWalk(H, disk, a) == FilesOfWalk(H, disk, b)
  {
  }

  lemma {:induction false} OtherPathsWithDir(H: string -> string, entries: seq<Entry>, disk: Disk, d: string)
    requires IsDigest(H) && WalkOk(entries, disk) && WalkOk(entries + [EmptyDir(d)], disk) && d !in MapOf(entries)
    ensures SnapshotOf(H, entries, disk).Ok? && SnapshotOf(H, entries + [EmptyDir(d)], disk).Ok?
    ensures CoresOf(SnapshotOf(H, entries, disk).value.root.children)
         != CoresOf(SnapshotOf(H, entries + [EmptyDir(d)], disk).value.root.children)
  {
    var more := entries + [EmptyDir(d)];
    WalkPaths(H, entries, disk);
    WalkPaths(H, more, disk);
    MapWithDir(entries, d);
    SnapshotBuilt(H, entries, disk);
    SnapshotBuilt(H, more, disk);
    DifferentPaths(SnapshotOf(H, entries, disk).value.root, SnapshotOf(H, more, disk).value.root, d);
  }

  lemma {:induction false} DifferentPaths(a: Tree, b: Tree, d: string)
    requires WfTree(a) && WfTree(b) && a.entry.nodeType == NODE_DIR && b.entry.nodeType == NODE_DIR
    requires d in EntriesBelow(b) && d !in EntriesBelow(a)
    ensures CoresOf(a.children) != CoresOf(b.children)
  {
    if CoresOf(a.children) == CoresOf(b.children) {
      SamePaths(a, b);
    }
  }
}
