/** The file map of a walk's snapshot, exactly: every file with the digest of its contents and the node hash of its
    path, that digest and its size (internal/indexsync/snapshot/hash.go, builder.go). */
module WalkFiles {
  import opened Outcomes
  import opened DisjointMaps
  import opened MerkleHash
  import opened FlatDiff
  import opened MerkleDiff
  import opened NodeTree
  import opened SnapshotBuild

  type Sizes = map<string, Option<int>>

  function SizesOf(m: EntryMap): Sizes
  {
    map p | p in m :: m[p].sizeBytes
  }

  /** What a file map records for a file with this content and size. */
  function InfoFor(H: string -> string, p: string, content: string, size: Option<int>): FileInfo
  {
    FileInfo(H(FilePreimage(p, H(content), size)), H(content))
  }

  /** Every file node has the size given for its path. */
  ghost predicate SizesMatch(t: Tree, sizes: Sizes)
  {
    if t.entry.nodeType == NODE_FILE then t.entry.path in sizes && sizes[t.entry.path] == t.entry.sizeBytes
    else forall c :: c in t.children ==> SizesMatch(c, sizes)
  }

  ghost predicate RecordsFiles(H: string -> string, disk: Disk, sizes: Sizes, files: FileMap)
  {
    forall p :: p in files ==> p in disk && p in sizes && files[p] == InfoFor(H, p, disk[p], sizes[p])
  }

  lemma {:induction false} MergedRecords(H: string -> string, disk: Disk, sizes: Sizes, ms: seq<FileMap>)
    requires forall i :: 0 <= i < |ms| ==> RecordsFiles(H, disk, sizes, ms[i])
    ensures RecordsFiles(H, disk, sizes, MergeMaps(ms))
  {
    if ms != [] {
      MergedRecords(H, disk, sizes, ms[..|ms| - 1]);
    }
  }

  lemma {:induction false} HashedRecords(H: string -> string, disk: Disk, t: Tree, parentHash: string, sizes: Sizes)
    requires WfTree(t) && SizesMatch(t, sizes) && HashTree(H, disk, t, parentHash).Ok?
    ensures RecordsFiles(H, disk, sizes, Files(HashTree(H, disk, t, parentHash).value))
    decreases t
  {
    if t.entry.nodeType == NODE_DIR {
      var rs := HashEach(H, disk, t.children);
      CollectOk(rs);
      var kids := Collect(rs).value;
      var r := HashTree(H, disk, t, parentHash).value;
      assert r.children == Adopt(kids, r.entry.nodeHash);
      AdoptedFiles(kids, r.entry.nodeHash);
      forall i | 0 <= i < |kids|
        ensures RecordsFiles(H, disk, sizes, EachFiles(kids)[i])
      {
        assert rs[i] == HashTree(H, disk, t.children[i], "") && rs[i].Ok? && kids[i] == rs[i].value;
        assert t.children[i] in t.children;
        HashedRecords(H, disk, t.children[i], "", sizes);
      }
      MergedRecords(H, disk, sizes, EachFiles(kids));
    }
  }

  lemma {:induction false} TreeAtSizes(m: EntryMap, e: Entry)
    requires MapOk(m) && (e.nodeType == NODE_FILE ==> e.path in m && m[e.path] == e)
    ensures SizesMatch(TreeAt(m, e), SizesOf(m))
    decreases Deeper(m, e.path)
  {
    var ks, kids := KidPaths(m, e.path), TreeAt(m, e).children;
    forall i | 0 <= i < |kids|
      ensures SizesMatch(kids[i], SizesOf(m))
    {
      assert ks[i] in ks;
      TreeAtSizes(m, m[ks[i]]);
    }
  }

  lemma {:induction false} ShapeKeepsSizes(a: Tree, b: Tree, sizes: Sizes)
    requires SameShape(a, b) && SizesMatch(a, sizes)
    ensures SizesMatch(b, sizes)
    decreases a
  {
    if b.entry.nodeType != NODE_FILE {
      forall i | 0 <= i < |b.children|
        ensures SizesMatch(b.children[i], sizes)
      {
        assert a.children[i] in a.children && SameShape(a.children[i], b.children[i]);
        ShapeKeepsSizes(a.children[i], b.children[i], sizes);
      }
    }
  }

  /** Every file's preimage is one of the tree's. */
  lemma {:induction false} FilePreimageAt(t: Tree, sizes: Sizes, p: string)
    requires WfTree(t) && SizesMatch(t, sizes) && p in Files(t)
    ensures p in sizes && FilePreimage(p, Files(t)[p].contentHash, sizes[p]) in Preimages(t)
    decreases t
  {
    if t.entry.nodeType != NODE_FILE {
      KidsUnder(t.entry.path, t.children);
      var i := Owner(EachFiles(t.children), p);
      Owned(EachFiles(t.children), i, p);
      assert t.children[i] in t.children;
      FilePreimageAt(t.children[i], sizes, p);
      PreimagesOfChild(t, t.children[i]);
    }
  }

  /** The files of a walk's snapshot. */
  function FilesOfWalk(H: string -> string, disk: Disk, sizes: Sizes): FileMap
    requires disk.Keys <= sizes.Keys
  {
    map p | p in disk :: InfoFor(H, p, disk[p], sizes[p])
  }

  lemma {:induction false} WalkSizes(entries: seq<Entry>, disk: Disk)
    requires WalkOk(entries, disk)
    ensures disk.Keys <= SizesOf(MapOf(entries)).Keys
  {
  }

  lemma RecordsAre(H: string -> string, disk: Disk, sizes: Sizes, files: FileMap)
    requires files.Keys == disk.Keys <= sizes.Keys && RecordsFiles(H, disk, sizes, files)
    ensures files == FilesOfWalk(H, disk, sizes)
  {
  }

  /** The snapshot's root is the hashed tree of the entries. */
  lemma {:induction false} WalkRoot(H: string -> string, entries: seq<Entry>, disk: Disk)
    requires IsDigest(H) && WalkOk(entries, disk)
    ensures MapOk(MapOf(entries)) && WfTree(TreeAt(MapOf(entries), ROOT_ENTRY))
    ensures SnapshotOf(H, entries, disk).Ok? && HashTree(H, disk, TreeAt(MapOf(entries), ROOT_ENTRY), "").Ok?
    ensures SnapshotOf(H, entries, disk).value.root == HashTree(H, disk, TreeAt(MapOf(entries), ROOT_ENTRY), "").value
  {
    SnapshotBuilt(H, entries, disk);
    TreeOfWalk(entries, disk);
  }

  /** The files of a walk's snapshot are determined by the contents and the sizes. */
  lemma {:induction false} WalkFilesAre(H: string -> string, entries: seq<Entry>, disk: Disk)
    requires IsDigest(H) && WalkOk(entries, disk)
    ensures SnapshotOf(H, entries, disk).Ok? && disk.Keys <= SizesOf(MapOf(entries)).Keys
    ensures Files(SnapshotOf(H, entries, disk).value.root) == FilesOfWalk(H, disk, SizesOf(MapOf(entries)))
  {
    SnapshotBuilt(H, entries, disk);
    WalkSizes(entries, disk);
    WalkRoot(H, entries, disk);
    TreeAtSizes(MapOf(entries), ROOT_ENTRY);
    HashedRecords(H, disk, TreeAt(MapOf(entries), ROOT_ENTRY), "", SizesOf(MapOf(entries)));
    RecordsAre(H, disk, SizesOf(MapOf(entries)), Files(SnapshotOf(H, entries, disk).value.root));
  }

  lemma {:induction false} WalkPreimage(H: string -> string, entries: seq<Entry>, disk: Disk, p: string)
    requires IsDigest(H) && WalkOk(entries, disk) && p in disk
    ensures SnapshotOf(H, entries, disk).Ok? && p in SizesOf(MapOf(entries))
    ensures FilePreimage(p, H(disk[p]), SizesOf(MapOf(entries))[p]) in Preimages(SnapshotOf(H, entries, disk).value.root)
  {
    SnapshotBuilt(H, entries, disk);
    WalkFilesAre(H, entries, disk);
    WalkRoot(H, entries, disk);
    TreeOfWalk(entries, disk);
    var t, sizes := TreeAt(MapOf(entries), ROOT_ENTRY), SizesOf(MapOf(entries));
    TreeAtSizes(MapOf(entries), ROOT_ENTRY);
    TidyNormalDirs(t);
    HashTreeIsHashed(H, disk, t, "");
    ShapeKeepsSizes(t, SnapshotOf(H, entries, disk).value.root, sizes);
    FilePreimageAt(SnapshotOf(H, entries, disk).value.root, sizes, p);
  }
}
