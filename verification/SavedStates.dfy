/** What an execution of the sync job that saves a walked state leaves in the store, in terms of the directory entries and
    the contents of the files (internal/jobs/river/sync_worker.go, internal/indexstore/sync_store.go). */
module SavedStates {
  import opened Outcomes
  import opened GoStrings
  import opened Decimal
  import opened DisjointMaps
  import opened Paths
  import opened MerkleHash
  import opened MerkleDiff
  import opened NodeTree
  import opened SnapshotTree
  import opened SnapshotBuild
  import opened SnapshotRestore
  import opened WalkFiles
  import opened ChunkIndex
  import opened IndexFacts
  import opened Worlds
  import opened PreimageTexts
  import opened StoredRows
  import opened SyncWorker
  import Store = SnapshotStore
  import Facts = SnapshotStoreFacts

  // ---- the entries of a hashed tree ----

  /** A file's entry has the hashes that the file map records. */
  lemma {:induction false} FileEntryHashes(t: Tree, p: string)
    requires Tidy(t) && WfTree(t) && t.entry.nodeType == NODE_DIR && p in Files(t)
    ensures p in EntriesBelow(t) && EntriesBelow(t)[p].nodeType == NODE_FILE
    ensures Files(t)[p].nodeHash == EntriesBelow(t)[p].nodeHash && Files(t)[p].contentHash == EntriesBelow(t)[p].contentHash
    decreases t
  {
    FilesAreEntries(t, p);
    KidsUnder(t.entry.path, t.children);
    EntriesDisjoint(t);
    var i := Owner(EachFiles(t.children), p);
    Owned(EachFiles(t.children), i, p);
    FileIsEntry(t, i, p);
    Owned(EachEntries(t.children), i, p);
    var c := t.children[i];
    assert c in t.children && WfTree(c);
    if c.entry.nodeType == NODE_DIR {
      FileEntryHashes(c, p);
      FilesUnder(c);
    }
  }

  /** Hashing fills in hashes and changes nothing else of an entry. */
  lemma {:induction false} ShapeKeepsEntries(a: Tree, b: Tree, q: string)
    requires SameShape(a, b) && Tidy(a) && Tidy(b) && q in EntriesBelow(a)
    ensures q in EntriesBelow(b) && SameInput(EntriesBelow(a)[q], EntriesBelow(b)[q])
    decreases a
  {
    EntriesDisjoint(a);
    EntriesDisjoint(b);
    var i := Owner(EachEntries(a.children), q);
    Owned(EachEntries(a.children), i, q);
    var c, d := a.children[i], b.children[i];
    assert c in a.children && d in b.children && SameShape(c, d);
    if q == c.entry.path {
      Owned(EachEntries(b.children), i, q);
    } else {
      ShapeKeepsEntries(c, d, q);
      Owned(EachEntries(b.children), i, q);
    }
  }

  /** Every entry carries the digest of the directory it is in. */
  lemma {:induction false} ParentHashes(H: string -> string, t: Tree, q: string)
    requires Hashed(H, t) && Tidy(t) && WfTree(t) && t.entry.nodeType == NODE_DIR && q in EntriesBelow(t)
    ensures var e, up := EntriesBelow(t)[q], ParentPath(q);
      if up == t.entry.path then e.parentHash == t.entry.nodeHash
      else up in EntriesBelow(t) && e.parentHash == EntriesBelow(t)[up].nodeHash
    decreases t
  {
    EntriesDisjoint(t);
    var i := Owner(EachEntries(t.children), q);
    Owned(EachEntries(t.children), i, q);
    var c := t.children[i];
    assert c in t.children && WfTree(c);
    if q == c.entry.path {
      ChildHasParent(t.entry.path, q);
    } else {
      ParentBelow(H, t, i, q);
    }
  }

  lemma {:induction false} LeafHasNone(t: Tree)
    requires WfTree(t) && t.entry.nodeType == NODE_FILE
    ensures EntriesBelow(t) == map[]
  {
    assert EachEntries(t.children) == [];
  }

  lemma {:induction false} ParentBelow(H: string -> string, t: Tree, i: nat, q: string)
    requires Hashed(H, t) && Tidy(t) && WfTree(t) && t.entry.nodeType == NODE_DIR
    requires i < |t.children| && q in EntriesBelow(t.children[i])
    requires q != t.children[i].entry.path && q in EntriesBelow(t) && EntriesBelow(t)[q] == EntriesBelow(t.children[i])[q]
    ensures var e, up := EntriesBelow(t)[q], ParentPath(q);
      up != t.entry.path && up in EntriesBelow(t) && e.parentHash == EntriesBelow(t)[up].nodeHash
    decreases t, 0
  {
    var c := t.children[i];
    assert c in t.children && WfTree(c);
    EntriesDisjoint(t);
    if c.entry.nodeType == NODE_FILE {
      LeafHasNone(c);
      assert false;
    } else {
      ParentHashes(H, c, q);
      var up := ParentPath(q);
      assert up in EachEntries(t.children)[i];
      Owned(EachEntries(t.children), i, up);
      if up == t.entry.path {
        EntriesOk(t);
        NotItself(t, up);
        assert false;
      }
    }
  }

  /** No entry of a tree has the path of its root. */
  lemma {:induction false} NotItself(t: Tree, p: string)
    requires Tidy(t) && p in EntriesBelow(t)
    ensures p != t.entry.path
    decreases t
  {
    BelowIsUnder(t, p);
  }

  lemma {:induction false} BelowIsUnder(t: Tree, p: string)
    requires Tidy(t) && p in EntriesBelow(t)
    ensures t.entry.path != "" ==> Under(p, t.entry.path) && p != t.entry.path
    ensures p != ""
    decreases t
  {
    EntriesOk(t);
    var i := Owner(EachEntries(t.children), p);
    var c := t.children[i];
    assert c in t.children;
    if p != c.entry.path {
      BelowIsUnder(c, p);
    }
    if t.entry.path != "" {
      UnderChild(t.entry.path, c.entry.path, p);
    }
  }

  // ---- the entries of a walked state ----

  /** The entry of a path in the snapshot of a state. */
  ghost function EntryIn(H: string -> string, w: World, p: string): Entry
    requires Taken(H, w).Ok? && p in EntriesBelow(Taken(H, w).value.root)
  {
    EntriesBelow(Taken(H, w).value.root)[p]
  }

  /** A file's node text. */
  function FileText(p: string, digest: string, size: Option<int>): string
  {
    "path=" + p + "\ntype=file\ncontent=" + digest + "\nsize=" + (if size.Some? then Itoa(size.value) else "")
  }

  /** The entries are those of the walk, with their sizes and times; each has the digest of its directory, and a file those
      of its contents and of its node text. */
  ghost predicate EntrySays(H: string -> string, w: World, p: string)
    requires Taken(H, w).Ok? && p in EntriesBelow(Taken(H, w).value.root) && p in MapOf(w.entries)
  {
    var e, walked := EntryIn(H, w, p), MapOf(w.entries)[p];
    && e.path == p && e.parentPath == ParentPath(p)
    && e.nodeType == walked.nodeType && e.sizeBytes == walked.sizeBytes && e.mtimeNS == walked.mtimeNS
    && InDirectory(H, w, p) && IsHex64(e.nodeHash)
    && (p in w.disk ==> e.nodeType == "file" && e.contentHash == H(w.disk[p]) && e.nodeHash == H(FileText(p, H(w.disk[p]), e.sizeBytes)))
    && (p !in w.disk ==> e.nodeType == "dir" && e.contentHash == "")
  }

  /** The entry carries the digest of the root or of the directory it is in. */
  ghost predicate InDirectory(H: string -> string, w: World, p: string)
    requires Taken(H, w).Ok? && p in EntriesBelow(Taken(H, w).value.root)
  {
    if ParentPath(p) == "" then EntryIn(H, w, p).parentHash == Taken(H, w).value.rootHash
    else
      && ParentPath(p) in EntriesBelow(Taken(H, w).value.root)
      && EntryIn(H, w, p).parentHash == EntryIn(H, w, ParentPath(p)).nodeHash
  }

  /** The snapshot's tree has exactly the walk's entries. */
  lemma {:induction false} TreeOfState(H: string -> string, w: World)
    requires IsDigest(H) && WorldOk(w)
    ensures MapOk(MapOf(w.entries))
    ensures Taken(H, w).Ok? && Tidy(Taken(H, w).value.root) && WfTree(Taken(H, w).value.root) && Hashed(H, Taken(H, w).value.root)
    ensures SameShape(TreeAt(MapOf(w.entries), ROOT_ENTRY), Taken(H, w).value.root)
    ensures EntriesBelow(TreeAt(MapOf(w.entries), ROOT_ENTRY)) == MapOf(w.entries) && Tidy(TreeAt(MapOf(w.entries), ROOT_ENTRY))
    ensures EntriesBelow(Taken(H, w).value.root).Keys == MapOf(w.entries).Keys
  {
    SnapshotBuilt(H, w.entries, w.disk);
    WalkRoot(H, w.entries, w.disk);
    TreeOfWalk(w.entries, w.disk);
    var t := TreeAt(MapOf(w.entries), ROOT_ENTRY);
    TidyNormalDirs(t);
    HashTreeIsHashed(H, w.disk, t, "");
    MapOfRecords(w.entries);
    TreeHoldsEntries(MapOf(w.entries));
    ShapeKeepsPaths(t, Taken(H, w).value.root);
  }

  lemma {:induction false} EntryIs(H: string -> string, w: World, p: string)
    requires IsDigest(H) && WorldOk(w) && p in MapOf(w.entries)
    ensures Taken(H, w).Ok? && p in EntriesBelow(Taken(H, w).value.root) && EntrySays(H, w, p)
  {
    TreeOfState(H, w);
    EntryShape(H, w, p);
    EntryParent(H, w, p);
    StampedEntry(H, Taken(H, w).value.root, p);
    if p in w.disk {
      EntryHashes(H, w, p);
    }
  }

  lemma {:induction false} EntryShape(H: string -> string, w: World, p: string)
    requires IsDigest(H) && WorldOk(w) && p in MapOf(w.entries)
    ensures Taken(H, w).Ok? && p in EntriesBelow(Taken(H, w).value.root)
    ensures
      var e, walked := EntryIn(H, w, p), MapOf(w.entries)[p];
      && e.path == p && e.parentPath == ParentPath(p)
      && e.nodeType == walked.nodeType && e.sizeBytes == walked.sizeBytes && e.mtimeNS == walked.mtimeNS
      && (p in w.disk ==> e.nodeType == "file") && (p !in w.disk ==> e.nodeType == "dir" && e.contentHash == "")
  {
    TreeOfState(H, w);
    ShapeKeepsEntries(TreeAt(MapOf(w.entries), ROOT_ENTRY), Taken(H, w).value.root, p);
    MapOfRecords(w.entries);
    WalkedEntry(w, p);
  }

  lemma {:induction false} EntryParent(H: string -> string, w: World, p: string)
    requires IsDigest(H) && WorldOk(w) && p in MapOf(w.entries)
    ensures Taken(H, w).Ok? && p in EntriesBelow(Taken(H, w).value.root) && InDirectory(H, w, p)
  {
    TreeOfState(H, w);
    SnapshotBuilt(H, w.entries, w.disk);
    ParentHashes(H, Taken(H, w).value.root, p);
  }

  lemma {:induction false} EntryHashes(H: string -> string, w: World, p: string)
    requires IsDigest(H) && WorldOk(w) && p in MapOf(w.entries) && p in w.disk
    ensures Taken(H, w).Ok? && p in EntriesBelow(Taken(H, w).value.root)
    ensures var e := EntryIn(H, w, p);
      e.contentHash == H(w.disk[p]) && e.nodeHash == H(FileText(p, H(w.disk[p]), MapOf(w.entries)[p].sizeBytes))
  {
    TreeOfState(H, w);
    SnapshotBuilt(H, w.entries, w.disk);
    WalkFilesAre(H, w.entries, w.disk);
    FileEntryHashes(Taken(H, w).value.root, p);
    FilePreimageText(p, H(w.disk[p]), MapOf(w.entries)[p].sizeBytes);
  }

  lemma {:induction false} StampedEntry(H: string -> string, t: Tree, q: string)
    requires IsDigest(H) && Hashed(H, t) && WfTree(t) && Tidy(t) && q in EntriesBelow(t)
    ensures IsHex64(EntriesBelow(t)[q].nodeHash)
    decreases t
  {
    EntriesDisjoint(t);
    var i := Owner(EachEntries(t.children), q);
    Owned(EachEntries(t.children), i, q);
    var c := t.children[i];
    assert c in t.children && WfTree(c);
    if q != c.entry.path {
      StampedEntry(H, c, q);
    }
  }

  lemma {:induction false} WalkedEntry(w: World, p: string)
    requires WorldOk(w) && p in MapOf(w.entries)
    ensures var e := MapOf(w.entries)[p];
      e.contentHash == "" && e.path == p && e.nodeType == if p in w.disk then "file" else "dir"
  {
    MapOfFacts(w.entries);
    var i :| 0 <= i < |w.entries| && w.entries[i].path == p;
    assert w.entries[i] in w.entries;
  }

  // ---- from entries to rows ----

  lemma {:induction false} StateFor(scope: Scope, es: seq<Entry>, i: nat) returns (j: nat)
    requires i < |es| && es[i].nodeType == NODE_FILE && forall k :: i < k < |es| ==> es[k].path != es[i].path
    ensures LastState(FileStatesFor(scope, es), j) && FileStatesFor(scope, es)[j] == FileStateOf(scope, es[i])
    decreases |es|
  {
    var n := |es| - 1;
    var front := es[..n];
    if i == n {
      j := |FileStatesFor(scope, front)|;
    } else {
      assert front[i] == es[i] && es[n].path != es[i].path;
      j := StateFor(scope, front, i);
      assert FileStatesFor(scope, front) <= FileStatesFor(scope, es);
    }
  }

  lemma {:induction false} StatePaths(scope: Scope, es: seq<Entry>, p: string)
    ensures (exists f :: f in FileStatesFor(scope, es) && f.relPath == p)
       <==> exists i :: 0 <= i < |es| && es[i].path == p && es[i].nodeType == NODE_FILE
  {
    if es != [] {
      var n := |es| - 1;
      var front := es[..n];
      StatePaths(scope, front, p);
      assert forall i :: 0 <= i < n ==> front[i] == es[i];
      if es[n].path == p && es[n].nodeType == NODE_FILE {
        assert FileStateOf(scope, es[n]) in FileStatesFor(scope, es);
      }
      if f :| f in FileStatesFor(scope, front) && f.relPath == p {
        assert f in FileStatesFor(scope, es);
      }
    }
  }

  /** A file row of a saved state. */
  ghost predicate FileRowSays(H: string -> string, w: World, id: int, p: string, row: Store.FileRow)
    requires Taken(H, w).Ok? && p in EntriesBelow(Taken(H, w).value.root) && p in MapOf(w.entries) && p in w.disk
    requires ParentPath(p) == "" || ParentPath(p) in EntriesBelow(Taken(H, w).value.root)
  {
    var walked := MapOf(w.entries)[p];
    && row.lastSnapshot == id && row.status == "active" && row.deletedAt == None && row.chunkSetHash == None
    && row.sizeBytes == walked.sizeBytes && row.mtimeNS == walked.mtimeNS
    && row.contentHash == Some(H(w.disk[p])) && row.nodeHash == Some(H(FileText(p, H(w.disk[p]), walked.sizeBytes)))
    && row.parentHash == Some(if ParentPath(p) == "" then Taken(H, w).value.rootHash else EntryIn(H, w, ParentPath(p)).nodeHash)
  }

  /** A node row of a saved state. */
  ghost predicate NodeRowSays(H: string -> string, w: World, p: string, row: NodeRow)
    requires Taken(H, w).Ok? && p in EntriesBelow(Taken(H, w).value.root) && p in MapOf(w.entries)
    requires ParentPath(p) == "" || ParentPath(p) in EntriesBelow(Taken(H, w).value.root)
  {
    var walked := MapOf(w.entries)[p];
    && row.path == p && row.status == "active" && row.nodeType == (if p in w.disk then "file" else "dir")
    && row.parentPath == (if ParentPath(p) == "" then None else Some(ParentPath(p)))
    && row.sizeBytes == walked.sizeBytes && row.mtimeNS == walked.mtimeNS
    && row.contentHash == (if p in w.disk then Some(H(w.disk[p])) else None)
    && row.nodeHash == EntryIn(H, w, p).nodeHash
    && (p in w.disk ==> row.nodeHash == H(FileText(p, H(w.disk[p]), walked.sizeBytes)))
    && row.parentHash == Some(if ParentPath(p) == "" then Taken(H, w).value.rootHash else EntryIn(H, w, ParentPath(p)).nodeHash)
  }

  lemma HexNotBlank(s: string)
    requires IsHex64(s)
    ensures !Blank(s)
  {
    assert HexChar(s[0]) && !IsSpace(s[0]);
  }

  /** The digest of an entry's directory, as a text column. */
  lemma {:induction false} DirectoryDigest(H: string -> string, w: World, p: string)
    requires IsDigest(H) && WorldOk(w) && p in MapOf(w.entries)
    ensures Taken(H, w).Ok? && p in EntriesBelow(Taken(H, w).value.root)
    ensures ParentPath(p) == "" || ParentPath(p) in EntriesBelow(Taken(H, w).value.root)
    ensures
      var digest := if ParentPath(p) == "" then Taken(H, w).value.rootHash else EntryIn(H, w, ParentPath(p)).nodeHash;
      EntryIn(H, w, p).parentHash == digest && !Blank(digest)
  {
    EntryParent(H, w, p);
    RootHashIsDigest(H, w);
    TreeOfState(H, w);
    if ParentPath(p) == "" {
      HexNotBlank(Taken(H, w).value.rootHash);
    } else {
      StampedEntry(H, Taken(H, w).value.root, ParentPath(p));
      HexNotBlank(EntryIn(H, w, ParentPath(p)).nodeHash);
    }
  }

  lemma {:induction false} FileRowFrom(H: string -> string, w: World, scope: Scope, id: int, now: int, p: string, row: Store.FileRow)
    requires IsDigest(H) && WorldOk(w) && p in MapOf(w.entries) && p in w.disk
    requires Taken(H, w).Ok? && p in EntriesBelow(Taken(H, w).value.root)
    requires FileColumns(row, FileStateOf(scope, EntryIn(H, w, p)), id, now)
    ensures ParentPath(p) == "" || ParentPath(p) in EntriesBelow(Taken(H, w).value.root)
    ensures FileRowSays(H, w, id, p, row)
  {
    EntryIs(H, w, p);
    DirectoryDigest(H, w, p);
    HexNotBlank(H(w.disk[p]));
    HexNotBlank(EntryIn(H, w, p).nodeHash);
  }

  lemma {:induction false} NodeRowFrom(H: string -> string, w: World, p: string, row: NodeRow)
    requires IsDigest(H) && WorldOk(w) && p in MapOf(w.entries)
    requires Taken(H, w).Ok? && p in EntriesBelow(Taken(H, w).value.root)
    requires NodeColumns(row, Facts.NodeOf(EntryIn(H, w, p)))
    ensures ParentPath(p) == "" || ParentPath(p) in EntriesBelow(Taken(H, w).value.root)
    ensures NodeRowSays(H, w, p, row)
  {
    EntryIs(H, w, p);
    DirectoryDigest(H, w, p);
    MapOfFacts(w.entries);
    if p in w.disk {
      HexNotBlank(H(w.disk[p]));
    }
    if ParentPath(p) != "" {
      ParentNotBlank(w, p);
    }
  }

  lemma {:induction false} ParentNotBlank(w: World, p: string)
    requires WorldOk(w) && p in MapOf(w.entries) && ParentPath(p) != ""
    ensures !Blank(ParentPath(p))
  {
    MapOfRecords(w.entries);
    assert Normal(ParentPath(p));
    TrimSpaceEmpty(ParentPath(p));
  }

  // ---- the rows after an execution ----

  /** The entries that are saved: each path of the walk once, with the entry of the snapshot's tree. */
  lemma {:induction false} SavedEntries(H: string -> string, w: World)
    requires IsDigest(H) && WorldOk(w)
    ensures Taken(H, w).Ok? && EntriesBelow(Taken(H, w).value.root).Keys == MapOf(w.entries).Keys
    ensures Listing(EntriesOf(w, Taken(H, w).value), EntriesBelow(Taken(H, w).value.root))
  {
    TreeOfState(H, w);
    WalkListing(H, w.entries, w.disk);
  }

  /** The snapshot lists the walk's entries, among them the directories of all others. */
  ghost predicate ListsWalk(H: string -> string, w: World)
  {
    && Taken(H, w).Ok? && EntriesBelow(Taken(H, w).value.root).Keys == MapOf(w.entries).Keys
    && (forall p :: p in MapOf(w.entries) ==> ParentPath(p) == "" || ParentPath(p) in EntriesBelow(Taken(H, w).value.root))
    && w.disk.Keys <= MapOf(w.entries).Keys
  }

  /** The file rows of the scope: one for each file and no others. */
  ghost predicate FileRowsSay(H: string -> string, w: World, files: map<string, Store.FileRow>, id: int)
    requires ListsWalk(H, w)
  {
    files.Keys == w.disk.Keys && forall p :: p in w.disk ==> FileRowSays(H, w, id, p, files[p])
  }

  /** The node rows of the snapshot: one for each entry and no others. */
  ghost predicate NodeRowsSay(H: string -> string, w: World, nodes: map<string, NodeRow>)
    requires ListsWalk(H, w)
  {
    nodes.Keys == MapOf(w.entries).Keys && forall p :: p in MapOf(w.entries) ==> NodeRowSays(H, w, p, nodes[p])
  }

  lemma {:induction false} EntryAt(H: string -> string, w: World, p: string) returns (i: nat)
    requires IsDigest(H) && WorldOk(w) && p in MapOf(w.entries)
    ensures Taken(H, w).Ok? && p in EntriesBelow(Taken(H, w).value.root)
    ensures
      var es := EntriesOf(w, Taken(H, w).value);
      && i < |es| && es[i] == EntryIn(H, w, p) && es[i].path == p
      && forall k :: 0 <= k < |es| && k != i ==> es[k].path != p
  {
    SavedEntries(H, w);
    var es := EntriesOf(w, Taken(H, w).value);
    i :| 0 <= i < |es| && es[i].path == p;
  }

  lemma {:induction false} SavedFileRow(c: Setting, t: Store.Tables, w: World, parent: Option<int>, fate: Fate, p: string)
    requires IsDigest(c.H) && WorldOk(w) && Store.Inv(t) && Taken(c.H, w).Ok? && p in w.disk && p in MapOf(w.entries)
    ensures
      var save := SaveFor(c.scope, w, Taken(c.H, w).value, parent, fate);
      var files := Store.FilesIn(Store.AfterSave(t, save), c.scope);
      && p in EntriesBelow(Taken(c.H, w).value.root)
      && (ParentPath(p) == "" || ParentPath(p) in EntriesBelow(Taken(c.H, w).value.root))
      && p in files && FileRowSays(c.H, w, Store.SavedId(t, save), p, files[p])
  {
    var save := SaveFor(c.scope, w, Taken(c.H, w).value, parent, fate);
    var es := EntriesOf(w, Taken(c.H, w).value);
    EntryIs(c.H, w, p);
    var i := EntryAt(c.H, w, p);
    var j := StateFor(c.scope, es, i);
    ContentRowsAre(t, save);
    assert LastState(save.files, j);
    FileRowFrom(c.H, w, c.scope, Store.SavedId(t, save), fate.clock.deleted, p, Store.FilesIn(Store.AfterSave(t, save), c.scope)[p]);
  }

  lemma {:induction false} SavedNodeRow(c: Setting, t: Store.Tables, w: World, parent: Option<int>, fate: Fate, p: string)
    requires IsDigest(c.H) && WorldOk(w) && Store.Inv(t) && Taken(c.H, w).Ok? && p in MapOf(w.entries)
    ensures
      var save := SaveFor(c.scope, w, Taken(c.H, w).value, parent, fate);
      var nodes := Store.NodesOf(Store.AfterSave(t, save), Store.SavedId(t, save));
      && p in EntriesBelow(Taken(c.H, w).value.root)
      && (ParentPath(p) == "" || ParentPath(p) in EntriesBelow(Taken(c.H, w).value.root))
      && p in nodes && NodeRowSays(c.H, w, p, nodes[p])
  {
    var save := SaveFor(c.scope, w, Taken(c.H, w).value, parent, fate);
    var i := EntryAt(c.H, w, p);
    ContentRowsAre(t, save);
    assert LastNode(save.nodes, i) && save.nodes[i] == Facts.NodeOf(EntryIn(c.H, w, p));
    NodeRowFrom(c.H, w, p, Store.NodesOf(Store.AfterSave(t, save), Store.SavedId(t, save))[p]);
  }

  /** No other paths have rows. */
  lemma {:induction false} SavedFilePath(c: Setting, t: Store.Tables, w: World, parent: Option<int>, fate: Fate, p: string)
    requires IsDigest(c.H) && WorldOk(w) && Store.Inv(t) && Taken(c.H, w).Ok?
    requires p in Store.FilesIn(Store.AfterSave(t, SaveFor(c.scope, w, Taken(c.H, w).value, parent, fate)), c.scope)
    ensures p in w.disk
  {
    var save := SaveFor(c.scope, w, Taken(c.H, w).value, parent, fate);
    var es := EntriesOf(w, Taken(c.H, w).value);
    SavedEntries(c.H, w);
    ContentRowsAre(t, save);
    StatePaths(c.scope, es, p);
    var i :| 0 <= i < |es| && es[i].path == p && es[i].nodeType == NODE_FILE;
    EntryIs(c.H, w, p);
  }

  lemma {:induction false} SavedNodePath(c: Setting, t: Store.Tables, w: World, parent: Option<int>, fate: Fate, p: string)
    requires IsDigest(c.H) && WorldOk(w) && Store.Inv(t) && Taken(c.H, w).Ok?
    requires var save := SaveFor(c.scope, w, Taken(c.H, w).value, parent, fate);
      p in Store.NodesOf(Store.AfterSave(t, save), Store.SavedId(t, save))
    ensures p in MapOf(w.entries)
  {
    var save := SaveFor(c.scope, w, Taken(c.H, w).value, parent, fate);
    var es := EntriesOf(w, Taken(c.H, w).value);
    SavedEntries(c.H, w);
    ContentRowsAre(t, save);
    var i := NodePath(es, p);
  }

  lemma NodePath(es: seq<Entry>, p: string) returns (i: nat)
    requires p in (set n | n in Facts.NodesFor(es) :: n.path)
    ensures i < |es| && es[i].path == p
  {
    var ns := Facts.NodesFor(es);
    var n :| n in ns && n.path == p;
    i :| 0 <= i < |ns| && ns[i] == n;
  }

  /** The row of the saved state. */
  predicate RootRowSays(H: string -> string, w: World, latest: Option<int>, now: int, row: Store.SnapshotRow, scope: Scope)
    requires Taken(H, w).Ok?
  {
    && row.scope == scope && row.rootHash == Taken(H, w).value.rootHash && row.active && row.status == "active"
    && row.completedAt == Some(now) && (latest.Some? ==> row.parent == latest)
  }

  lemma {:induction false} PathsAreListed(H: string -> string, w: World)
    requires IsDigest(H) && WorldOk(w)
    ensures ListsWalk(H, w)
  {
    TreeOfState(H, w);
    MapOfRecords(w.entries);
  }

  /** After an execution that saves a walked state the scope holds exactly that state: one active snapshot row with its root
      hash, one file row per file with the digests of its contents and of its node text, one node row per entry. */
  lemma {:induction false} StateIsSaved(c: Setting, t: Store.Tables, w: World, fate: Fate)
    requires IsDigest(c.H) && WorldOk(w) && Store.Inv(t) && Execute(c, w, t, fate).saved
    ensures ListsWalk(c.H, w)
    ensures exists id ::
      var t' := Execute(c, w, t, fate).tables;
      && Store.IsLatest(t', c.scope, id) && RootRowSays(c.H, w, LatestId(t, c.scope), fate.now, t'.snapshots[id], c.scope)
      && FileRowsSay(c.H, w, Store.FilesIn(t', c.scope), id) && NodeRowsSay(c.H, w, Store.NodesOf(t', id))
  {
    ExecuteCases(c, w, t, fate);
    PathsAreListed(c.H, w);
    var save := SaveFor(c.scope, w, Taken(c.H, w).value, LatestId(t, c.scope), fate);
    SavedFileRows(c, t, w, LatestId(t, c.scope), fate);
    SavedNodeRows(c, t, w, LatestId(t, c.scope), fate);
    var id, t' := Store.SavedId(t, save), Store.AfterSave(t, save);
    SnapshotRowsAre(t, save);
    Facts.SaveEffect(t, save);
    Facts.ActiveIsLatest(t', save, id, id);
  }

  lemma {:induction false} SavedFileRows(c: Setting, t: Store.Tables, w: World, parent: Option<int>, fate: Fate)
    requires IsDigest(c.H) && WorldOk(w) && Store.Inv(t) && ListsWalk(c.H, w)
    ensures
      var save := SaveFor(c.scope, w, Taken(c.H, w).value, parent, fate);
      FileRowsSay(c.H, w, Store.FilesIn(Store.AfterSave(t, save), c.scope), Store.SavedId(t, save))
  {
    var save := SaveFor(c.scope, w, Taken(c.H, w).value, parent, fate);
    var id, files := Store.SavedId(t, save), Store.FilesIn(Store.AfterSave(t, save), c.scope);
    forall p | p in files
      ensures p in w.disk
    {
      SavedFilePath(c, t, w, parent, fate, p);
    }
    forall p | p in w.disk
      ensures p in files && FileRowSays(c.H, w, id, p, files[p])
    {
      assert p in MapOf(w.entries).Keys;
      SavedFileRow(c, t, w, parent, fate, p);
    }
    assert files.Keys == w.disk.Keys;
  }

  lemma {:induction false} SavedNodeRows(c: Setting, t: Store.Tables, w: World, parent: Option<int>, fate: Fate)
    requires IsDigest(c.H) && WorldOk(w) && Store.Inv(t) && ListsWalk(c.H, w)
    ensures
      var save := SaveFor(c.scope, w, Taken(c.H, w).value, parent, fate);
      NodeRowsSay(c.H, w, Store.NodesOf(Store.AfterSave(t, save), Store.SavedId(t, save)))
  {
    var save := SaveFor(c.scope, w, Taken(c.H, w).value, parent, fate);
    var nodes := Store.NodesOf(Store.AfterSave(t, save), Store.SavedId(t, save));
    forall p | p in nodes
      ensures p in MapOf(w.entries)
    {
      SavedNodePath(c, t, w, parent, fate, p);
    }
    forall p | p in MapOf(w.entries)
      ensures p in nodes && NodeRowSays(c.H, w, p, nodes[p])
    {
      SavedNodeRow(c, t, w, parent, fate, p);
    }
    assert nodes.Keys == MapOf(w.entries).Keys;
  }
}
