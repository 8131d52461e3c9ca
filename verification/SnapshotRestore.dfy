/** Saving a snapshot's entries as rows and rebuilding the snapshot from them
    (internal/jobs/river/sync_worker.go and the index_nodes table of internal/indexstore/sync_store.go). */
module SnapshotRestore {
  import opened Outcomes
  import opened GoStrings
  import opened Sorting
  import opened StringOrder
  import opened DisjointMaps
  import opened Paths
  import opened MerkleHash
  import opened MerkleDiff
  import opened NodeTree
  import opened SnapshotTree
  import opened SnapshotBuild

  /** A row of index_nodes: blank parent paths and hashes are stored as NULL. */
  datatype NodeRow = NodeRow(
    path: string,
    parentPath: Option<string>,
    nodeType: string,
    nodeHash: string,
    parentHash: Option<string>,
    contentHash: Option<string>,
    sizeBytes: Option<int>,
    mtimeNS: Option<int>,
    status: string)

  function EmptyToNil(s: string): Option<string>
  {
    if TrimSpace(s) == "" then None else Some(s)
  }

  function StringFromPtr(s: Option<string>): string
  {
    if s.Some? then s.value else ""
  }

  function ToRow(e: Entry): NodeRow
  {
    NodeRow(e.path, EmptyToNil(e.parentPath), e.nodeType, e.nodeHash, EmptyToNil(e.parentHash),
            EmptyToNil(e.contentHash), e.sizeBytes, e.mtimeNS, "active")
  }

  function FromRow(r: NodeRow): Entry
  {
    Entry(r.path, StringFromPtr(r.parentPath), r.nodeType, r.nodeHash, StringFromPtr(r.parentHash),
          StringFromPtr(r.contentHash), r.sizeBytes, r.mtimeNS)
  }

  /** The rows after upserting one row per entry, keyed by path. */
  function SavedRows(es: seq<Entry>): map<string, NodeRow>
  {
    if es == [] then map[] else SavedRows(es[..|es| - 1])[es[|es| - 1].path := ToRow(es[|es| - 1])]
  }

  function EntriesOfRows(rows: seq<NodeRow>): (es: seq<Entry>)
    ensures |es| == |rows|
  {
    seq(|rows|, i requires 0 <= i < |rows| => FromRow(rows[i]))
  }

  /** snapshotFromMerkleNodes: a snapshot whose root carries no digest of its own. */
  function RestoredSnapshot(rows: seq<NodeRow>, rootHash: string): Result<Snapshot>
  {
    var root :- BuildTree(EntriesOfRows(rows));
    Ok(Snapshot(root, rootHash))
  }

  method SnapshotFromMerkleNodes(rows: seq<NodeRow>, rootHash: string) returns (r: Result<Snapshot>)
    ensures r == RestoredSnapshot(rows, rootHash)
  {
    var entries: seq<Entry> := [];
    for i := 0 to |rows|
      invariant entries == EntriesOfRows(rows[..i])
    {
      assert EntriesOfRows(rows[..i + 1]) == EntriesOfRows(rows[..i]) + [FromRow(rows[i])];
      entries := entries + [FromRow(rows[i])];
    }
    assert rows[..|rows|] == rows;
    var root := BuildNodeTree(entries);
    if root.Err? {
      return Err(root.error);
    }
    return Ok(Snapshot(root.value, rootHash));
  }

  /** Blank hashes are empty, so NULL columns lose nothing. */
  predicate Storable(e: Entry)
  {
    BlankIsEmpty(e.contentHash) && BlankIsEmpty(e.parentHash)
  }

  lemma RowRoundTrip(e: Entry)
    requires Storable(e)
    ensures Fixed(FromRow(ToRow(e))) == Fixed(e)
  {
  }

  lemma {:induction false} SavedRowsAre(es: seq<Entry>, m: EntryMap)
    requires Listing(es, m)
    ensures SavedRows(es).Keys == m.Keys
    ensures forall q :: q in m ==> SavedRows(es)[q] == ToRow(m[q])
  {
    forall q | q in m
      ensures q in SavedRows(es) && SavedRows(es)[q] == ToRow(m[q])
    {
      var i :| 0 <= i < |es| && es[i].path == q;
      SavedRowAt(es, i);
    }
    forall q | q in SavedRows(es)
      ensures q in m
    {
      SavedRowFrom(es, q);
    }
  }

  lemma {:induction false} SavedRowAt(es: seq<Entry>, i: nat)
    requires i < |es| && forall x, y :: 0 <= x < y < |es| ==> es[x].path != es[y].path
    ensures es[i].path in SavedRows(es) && SavedRows(es)[es[i].path] == ToRow(es[i])
  {
    if i < |es| - 1 {
      SavedRowAt(es[..|es| - 1], i);
    }
  }

  lemma {:induction false} SavedRowFrom(es: seq<Entry>, q: string)
    requires q in SavedRows(es)
    ensures exists i :: 0 <= i < |es| && es[i].path == q
  {
    var n := |es| - 1;
    if q == es[n].path {
    } else {
      SavedRowFrom(es[..n], q);
      var i :| 0 <= i < n && es[..n][i].path == q;
      assert es[i].path == q;
    }
  }

  /** What is read back lists the entries that were saved. */
  lemma {:induction false} ReadBack(es: seq<Entry>, m: EntryMap)
    requires MapOk(m) && ParentsRecorded(m) && Listing(es, m) && forall q :: q in m ==> Storable(m[q])
    ensures Clean(EntriesOfRows(InKeyOrder(SavedRows(es))))
    ensures MapOf(EntriesOfRows(InKeyOrder(SavedRows(es)))) == m
  {
    var rows := SavedRows(es);
    SavedRowsAre(es, m);
    SortedKeysStrict(rows.Keys);
    var ks, back := SortedKeys(rows.Keys), EntriesOfRows(InKeyOrder(rows));
    forall i | 0 <= i < |back|
      ensures back[i].path == ks[i] && ks[i] in m && Fixed(back[i]) == m[ks[i]]
    {
      assert ks[i] in ks;
      RowRoundTrip(m[ks[i]]);
    }
    forall i, j | 0 <= i < j < |back|
      ensures back[i].path != back[j].path
    {
      LexTotal(ks[i], ks[i]);
    }
    MapOfIs(back, ks, m);
  }

  lemma {:induction false} MapOfIs(es: seq<Entry>, ks: seq<string>, m: EntryMap)
    requires MapOk(m) && |es| == |ks| && forall q :: q in ks <==> q in m
    requires forall i :: 0 <= i < |es| ==> es[i].path == ks[i] && ks[i] in m && Fixed(es[i]) == m[ks[i]]
    requires forall i, j :: 0 <= i < j < |es| ==> es[i].path != es[j].path
    ensures Clean(es) && MapOf(es) == m
  {
    assert Clean(es);
    forall q | q in m
      ensures q in MapOf(es) && MapOf(es)[q] == m[q]
    {
      assert q in ks;
      var i :| 0 <= i < |ks| && ks[i] == q;
      MapOfAt(es, i);
    }
    forall q | q in MapOf(es)
      ensures q in m
    {
      MapOfFrom(es, q);
      var i :| 0 <= i < |es| && es[i].path == q;
      assert ks[i] in m;
    }
  }

  /** A tidy tree saved as rows and read back in path order is the same tree under a bare root. */
  lemma {:induction false} RestoredTree(t: Tree, es: seq<Entry>)
    requires Tidy(t) && t.entry.path == "" && Listing(es, EntriesBelow(t))
    requires forall q :: q in EntriesBelow(t) ==> Storable(EntriesBelow(t)[q])
    ensures BuildTree(EntriesOfRows(InKeyOrder(SavedRows(es)))) == Ok(Tree(ROOT_ENTRY, t.children))
  {
    var m := EntriesBelow(t);
    var back := EntriesOfRows(InKeyOrder(SavedRows(es)));
    TreeAtRebuilds(t);
    TidyRecords(t);
    ReadBack(es, m);
    BuildIsCanonical(back);
    EntriesHaveParents(t);
    ParentsOfMap(back, m);
    SameChildrenAnyRoot(m, t.entry, ROOT_ENTRY);
  }

  lemma {:induction false} SameChildrenAnyRoot(m: EntryMap, a: Entry, b: Entry)
    requires MapOk(m) && a.path == b.path
    ensures TreeAt(m, a).children == TreeAt(m, b).children
  {
  }

  lemma {:induction false} TidyRecords(t: Tree)
    requires Tidy(t)
    ensures ParentsRecorded(EntriesBelow(t))
    decreases t
  {
    var m := EntriesBelow(t);
    EntriesDisjoint(t);
    forall q | q in m
      ensures m[q].parentPath == ParentPath(q)
    {
      var i := Owner(EachEntries(t.children), q);
      Owned(EachEntries(t.children), i, q);
      var c := t.children[i];
      assert c in t.children;
      TidyRecords(c);
      ChildHasParent(t.entry.path, c.entry.path);
    }
  }

  /** Every entry's parent is the root path or an entry. */
  lemma {:induction false} EntriesHaveParents(t: Tree)
    requires Tidy(t) && t.entry.path == ""
    ensures ParentsIn(EntriesBelow(t))
  {
    forall q | q in EntriesBelow(t)
      ensures ParentPath(q) == "" || ParentPath(q) in EntriesBelow(t)
    {
      ParentOfEntry(t, q);
    }
  }

  lemma {:induction false} ParentOfEntry(t: Tree, q: string)
    requires Tidy(t) && q in EntriesBelow(t)
    ensures ParentPath(q) == t.entry.path || ParentPath(q) in EntriesBelow(t)
    decreases t
  {
    EntriesDisjoint(t);
    var i := Owner(EachEntries(t.children), q);
    var c := t.children[i];
    assert c in t.children;
    if q == c.entry.path {
      ChildHasParent(t.entry.path, q);
    } else {
      ParentOfEntry(c, q);
      Owned(EachEntries(t.children), i, ParentPath(q));
    }
  }

  lemma {:induction false} ParentsOfMap(es: seq<Entry>, m: EntryMap)
    requires Clean(es) && MapOf(es) == m && ParentsIn(m)
    ensures ParentsPresent(es)
  {
    MapOfFacts(es);
    forall i | 0 <= i < |es|
      ensures ParentPath(es[i].path) == "" || HasPath(es, ParentPath(es[i].path))
    {
      assert es[i].path in m;
    }
  }

  /** Diffing against the restored snapshot reports the same changes as diffing against the original. */
  lemma {:induction false} RestoredDiffSame(s: Snapshot, es: seq<Entry>, cur: Option<Snapshot>)
    requires Tidy(s.root) && s.root.entry == ROOT_ENTRY.(nodeHash := s.rootHash)
    requires Listing(es, EntriesBelow(s.root))
    requires forall q :: q in EntriesBelow(s.root) ==> Storable(EntriesBelow(s.root)[q])
    requires cur.Some? ==> cur.value.root.entry.nodeType == NODE_DIR && cur.value.root.entry.nodeHash == cur.value.rootHash
    ensures RestoredSnapshot(InKeyOrder(SavedRows(es)), s.rootHash).Ok?
    ensures SnapshotChanges(Some(RestoredSnapshot(InKeyOrder(SavedRows(es)), s.rootHash).value), cur)
         == SnapshotChanges(Some(s), cur)
  {
    RestoredTree(s.root, es);
    assert Unstamped(s) == Snapshot(Tree(ROOT_ENTRY, s.root.children), s.rootHash);
    RestoredRootSameChanges(s, cur);
  }

  // ---- the entries a snapshot carries ----

  /** BuildSnapshot's copy-back: each walked entry is replaced by the hashed entry at its path. */
  function CopiedBack(entries: seq<Entry>, m: EntryMap): (es: seq<Entry>)
    ensures |es| == |entries|
  {
    seq(|entries|, i requires 0 <= i < |entries| => if entries[i].path in m then m[entries[i].path] else entries[i])
  }

  method CopyBack(entries: seq<Entry>, root: Tree) returns (es: seq<Entry>)
    ensures es == CopiedBack(entries, EntriesBelow(root))
  {
    var hashedEntries := EntriesBelow(root);
    es := entries;
    for i := 0 to |entries|
      invariant |es| == |entries| && es[i..] == entries[i..]
      invariant es[..i] == CopiedBack(entries, hashedEntries)[..i]
    {
      if entries[i].path in hashedEntries {
        es := es[i := hashedEntries[entries[i].path]];
      }
    }
  }

  lemma {:induction false} CopyBackLists(entries: seq<Entry>, m: EntryMap)
    requires Clean(entries) && MapOk(m) && MapOf(entries).Keys == m.Keys
    ensures Listing(CopiedBack(entries, m), m)
  {
    MapOfFacts(entries);
    var es := CopiedBack(entries, m);
    forall i | 0 <= i < |es|
      ensures es[i].path in m && m[es[i].path] == es[i] && es[i].path == entries[i].path
    {
      assert entries[i].path in MapOf(entries).Keys;
    }
    forall q | q in m
      ensures exists i :: 0 <= i < |es| && es[i].path == q
    {
      assert q in MapOf(entries).Keys;
      var i :| 0 <= i < |entries| && entries[i].path == q;
      assert es[i].path == q;
    }
  }

  lemma {:induction false} ShapeKeepsPaths(a: Tree, b: Tree)
    requires SameShape(a, b)
    ensures EntriesBelow(a).Keys == EntriesBelow(b).Keys
    decreases a
  {
    var x, y := EachEntries(a.children), EachEntries(b.children);
    forall i | 0 <= i < |x|
      ensures x[i].Keys == y[i].Keys
    {
      assert SameShape(a.children[i], b.children[i]);
      ShapeKeepsPaths(a.children[i], b.children[i]);
    }
    SameKeysMerged(x, y);
  }

  /** Walked entries carry no hashes yet. */
  ghost predicate Unhashed(t: Tree)
  {
    t.entry.contentHash == "" && forall c :: c in t.children ==> Unhashed(c)
  }

  ghost predicate AllStorable(t: Tree)
  {
    forall c :: c in t.children ==> Storable(c.entry) && AllStorable(c)
  }

  lemma {:induction false} StorableBelow(t: Tree, q: string)
    requires AllStorable(t) && Tidy(t) && q in EntriesBelow(t)
    ensures Storable(EntriesBelow(t)[q])
    decreases t
  {
    EntriesDisjoint(t);
    var i := Owner(EachEntries(t.children), q);
    Owned(EachEntries(t.children), i, q);
    var c := t.children[i];
    assert c in t.children;
    if q != c.entry.path {
      StorableBelow(c, q);
    }
  }

  /** Hashed entries have digests or empty hashes only. */
  lemma {:induction false} HashedStorable(H: string -> string, t: Tree, r: Tree)
    requires IsDigest(H) && Unhashed(t) && WfTree(t) && SameShape(t, r) && Hashed(H, r)
    ensures AllStorable(r)
    ensures BlankIsEmpty(r.entry.contentHash)
    decreases t
  {
    if r.entry.nodeType == NODE_FILE {
      DigestNotBlank(r.entry.contentHash);
    } else {
      DigestNotBlank(r.entry.nodeHash);
      forall i | 0 <= i < |r.children|
        ensures Storable(r.children[i].entry) && AllStorable(r.children[i])
      {
        assert t.children[i] in t.children && r.children[i] in r.children;
        HashedStorable(H, t.children[i], r.children[i]);
      }
    }
  }

  predicate BlankIsEmpty(s: string)
  {
    TrimSpace(s) == "" ==> s == ""
  }

  /** End to end: the snapshot of any walk, saved and restored, diffs against every snapshot like the original. */
  lemma {:induction false} WalkRestores(H: string -> string, entries: seq<Entry>, disk: Disk, cur: Option<Snapshot>)
    requires IsDigest(H) && WalkOk(entries, disk) && forall e :: e in entries ==> e.contentHash == ""
    requires cur.Some? ==> cur.value.root.entry.nodeType == NODE_DIR && cur.value.root.entry.nodeHash == cur.value.rootHash
    ensures SnapshotOf(H, entries, disk).Ok?
    ensures
      var s := SnapshotOf(H, entries, disk).value;
      var saved := CopiedBack(Sort(EntryLe, entries), EntriesBelow(s.root));
      var restored := RestoredSnapshot(InKeyOrder(SavedRows(saved)), s.rootHash);
      restored.Ok? && SnapshotChanges(Some(restored.value), cur) == SnapshotChanges(Some(s), cur)
  {
    SnapshotBuilt(H, entries, disk);
    var s := SnapshotOf(H, entries, disk).value;
    WalkListing(H, entries, disk);
    WalkStorable(H, entries, disk);
    RestoredDiffSame(s, CopiedBack(Sort(EntryLe, entries), EntriesBelow(s.root)), cur);
  }

  /** The entries a snapshot carries list its tree, each path once. */
  lemma {:induction false} WalkListing(H: string -> string, entries: seq<Entry>, disk: Disk)
    requires IsDigest(H) && WalkOk(entries, disk) && SnapshotOf(H, entries, disk).Ok?
    ensures
      var root := SnapshotOf(H, entries, disk).value.root;
      Listing(CopiedBack(Sort(EntryLe, entries), EntriesBelow(root)), EntriesBelow(root))
  {
    SnapshotBuilt(H, entries, disk);
    TreeOfWalk(entries, disk);
    var root, t := SnapshotOf(H, entries, disk).value.root, TreeAt(MapOf(entries), ROOT_ENTRY);
    TidyNormalDirs(t);
    HashTreeIsHashed(H, disk, t, "");
    ShapeKeepsPaths(t, root);
    MapOfRecords(entries);
    TreeHoldsEntries(MapOf(entries));
    EntriesOk(root);
    CleanSorted(entries);
    SortPermutes(EntryLe, entries);
    SameEntries(entries, Sort(EntryLe, entries));
    CopyBackLists(Sort(EntryLe, entries), EntriesBelow(root));
  }

  lemma WalkStorable(H: string -> string, entries: seq<Entry>, disk: Disk)
    requires IsDigest(H) && WalkOk(entries, disk) && SnapshotOf(H, entries, disk).Ok?
    requires forall e :: e in entries ==> e.contentHash == ""
    ensures
      var root := SnapshotOf(H, entries, disk).value.root;
      forall q :: q in EntriesBelow(root) ==> Storable(EntriesBelow(root)[q])
  {
    SnapshotBuilt(H, entries, disk);
    TreeOfWalk(entries, disk);
    var root, t := SnapshotOf(H, entries, disk).value.root, TreeAt(MapOf(entries), ROOT_ENTRY);
    TidyNormalDirs(t);
    MapOfFacts(entries);
    forall q | q in MapOf(entries)
      ensures MapOf(entries)[q].contentHash == ""
    {
      var i :| 0 <= i < |entries| && entries[i].path == q;
      assert entries[i] in entries && MapOf(entries)[entries[i].path] == Fixed(entries[i]);
    }
    TreeAtUnhashed(MapOf(entries), ROOT_ENTRY);
    HashTreeIsHashed(H, disk, t, "");
    HashedStorable(H, t, root);
    forall q | q in EntriesBelow(root)
      ensures Storable(EntriesBelow(root)[q])
    {
      StorableBelow(root, q);
    }
  }

  lemma {:induction false} TreeAtUnhashed(m: EntryMap, e: Entry)
    requires MapOk(m) && e.contentHash == "" && forall q :: q in m ==> m[q].contentHash == ""
    ensures Unhashed(TreeAt(m, e))
    decreases Deeper(m, e.path)
  {
    var ks, kids := KidPaths(m, e.path), TreeAt(m, e).children;
    forall i | 0 <= i < |kids|
      ensures Unhashed(kids[i])
    {
      assert ks[i] in ks;
      TreeAtUnhashed(m, m[ks[i]]);
    }
  }
}
