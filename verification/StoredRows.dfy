/** The rows a committed save leaves, column by column, and when a save is refused
    (internal/indexstore/sync_store.go). */
module StoredRows {
  import opened Outcomes
  import opened GoStrings
  import opened ChunkIndex
  import opened SnapshotRestore
  import opened SnapshotStore
  import opened SnapshotStoreFacts

  /** A text column: blank texts are stored as NULL. */
  predicate Column(stored: Option<string>, text: string)
  {
    stored == if Blank(text) then None else Some(text)
  }

  lemma ColumnIs(text: string)
    ensures Column(EmptyToNil(text), text)
  {
    TrimSpaceEmpty(text);
  }

  // ---- nodes ----

  predicate NodeColumns(row: NodeRow, n: MerkleNode)
  {
    && row.path == n.path && row.nodeType == n.nodeType && row.nodeHash == n.nodeHash && row.status == n.status
    && row.sizeBytes == n.sizeBytes && row.mtimeNS == n.mtimeNS
    && Column(row.parentPath, n.parentPath) && Column(row.parentHash, n.parentHash) && Column(row.contentHash, n.contentHash)
  }

  /** Node i is the last one of its path. */
  predicate LastNode(nodes: seq<MerkleNode>, i: nat)
  {
    i < |nodes| && forall j :: i < j < |nodes| ==> nodes[j].path != nodes[i].path
  }

  lemma {:induction false} NodeRowsAre(nodes: seq<MerkleNode>, i: nat)
    requires LastNode(nodes, i)
    ensures nodes[i].path in UpsertedNodes(map[], nodes) && NodeColumns(UpsertedNodes(map[], nodes)[nodes[i].path], nodes[i])
    decreases |nodes|
  {
    var n := |nodes| - 1;
    if i == n {
      ColumnIs(nodes[i].parentPath);
      ColumnIs(nodes[i].parentHash);
      ColumnIs(nodes[i].contentHash);
    } else {
      assert nodes[..n][i] == nodes[i] && nodes[n].path != nodes[i].path;
      NodeRowsAre(nodes[..n], i);
    }
  }

  // ---- file states ----

  /** A file row: the state's columns, the saved snapshot where it names none, a deletion time only for files that are not
      active. */
  predicate FileColumns(row: FileRow, s: FileState, id: int, now: int)
  {
    && Column(row.contentHash, s.contentHash) && Column(row.nodeHash, s.nodeHash)
    && Column(row.parentHash, s.parentHash) && Column(row.chunkSetHash, s.chunkSetHash)
    && row.sizeBytes == s.sizeBytes && row.mtimeNS == s.mtimeNS && row.status == s.status
    && (s.lastSnapshot.Some? ==> row.lastSnapshot == s.lastSnapshot.value) && (s.lastSnapshot.None? ==> row.lastSnapshot == id)
    && (s.status == "active" ==> row.deletedAt == None)
    && (s.status != "active" && s.deletedAt.Some? ==> row.deletedAt == s.deletedAt)
    && (s.status == "deleted" && s.deletedAt.None? ==> row.deletedAt == Some(now))
    && (s.status != "deleted" && s.deletedAt.None? ==> row.deletedAt == None)
  }

  predicate LastState(files: seq<FileState>, i: nat)
  {
    i < |files| && forall j :: i < j < |files| ==> files[j].relPath != files[i].relPath
  }

  lemma FileRowIs(s: FileState, id: int, now: int)
    ensures FileColumns(FileRowOf(s, id, now), s, id, now)
  {
    ColumnIs(s.contentHash);
    ColumnIs(s.nodeHash);
    ColumnIs(s.parentHash);
    ColumnIs(s.chunkSetHash);
  }

  lemma {:induction false} FileRowsAre(files: seq<FileState>, id: int, now: int, i: nat)
    requires LastState(files, i)
    ensures files[i].relPath in UpsertedFiles(map[], files, id, now)
    ensures FileColumns(UpsertedFiles(map[], files, id, now)[files[i].relPath], files[i], id, now)
    decreases |files|
  {
    var n := |files| - 1;
    if i == n {
      FileRowIs(files[i], id, now);
    } else {
      assert files[..n][i] == files[i] && files[n].relPath != files[i].relPath;
      FileRowsAre(files[..n], id, now, i);
    }
  }

  // ---- snapshots ----

  function Or<T>(a: Option<T>, b: Option<T>): Option<T>
  {
    match a
    case Some(_) => a
    case None => b
  }

  /** The row of the saved root: a new one, or that of its root hash with its creation time and, where the save names no
      parent, its parent. */
  predicate RootColumns(t: Tables, row: SnapshotRow, s: Save, id: int)
  {
    && row.scope == s.root.scope && row.rootHash == s.root.rootHash && row.active == s.root.isActive
    && row.status == (if s.root.status == "" then "pending" else s.root.status)
    && row.completedAt == Or(s.root.completedAt, if s.root.isActive then Some(s.clock.completed) else None)
    && row.parent == Or(s.root.parent, if id in t.snapshots then t.snapshots[id].parent else None)
    && row.createdAt == (if id in t.snapshots then t.snapshots[id].createdAt else s.clock.created)
  }

  /** Another row of the table: an active one of the scope is superseded by an active save, the others stay. */
  predicate OtherColumns(before: SnapshotRow, row: SnapshotRow, s: Save)
  {
    if s.root.isActive && before.scope == s.root.scope && before.active then
      && row.scope == before.scope && row.rootHash == before.rootHash && row.parent == before.parent && row.createdAt == before.createdAt
      && !row.active && row.status == "superseded"
      && row.completedAt == Or(before.completedAt, Or(s.root.completedAt, Some(s.clock.superseded)))
    else row == before
  }

  lemma RootedRow(t: Tables, s: Save)
    requires Inv(t)
    ensures
      var id, t' := SavedId(t, s), Rooted(t, s);
      && id in t'.snapshots && t'.snapshots[id].scope == s.root.scope && t'.snapshots[id].rootHash == s.root.rootHash
      && t'.snapshots[id].parent == Or(s.root.parent, if id in t.snapshots then t.snapshots[id].parent else None)
      && t'.snapshots[id].createdAt == (if id in t.snapshots then t.snapshots[id].createdAt else s.clock.created)
  {
    RootIdFacts(t, s.root.scope, s.root.rootHash);
    UpsertRootFacts(t, Normalized(s.root), s.clock.created);
  }

  lemma SettledRowIs(t: Tables, s: Save, id: int, row: SnapshotRow)
    ensures OtherColumns(row, SettledRow(row, s, false), s)
  {
  }

  /** A committed save among the snapshots: its own row, and every other row as it was or superseded. */
  lemma SnapshotRowsAre(t: Tables, s: Save)
    requires Inv(t)
    ensures
      var id, t' := SavedId(t, s), AfterSave(t, s);
      && id in t'.snapshots && RootColumns(t, t'.snapshots[id], s, id)
      && t'.snapshots.Keys == t.snapshots.Keys + {id}
      && forall i :: i in t.snapshots && i != id ==> OtherColumns(t.snapshots[i], t'.snapshots[i], s)
  {
    var id, t' := SavedId(t, s), AfterSave(t, s);
    SaveEffect(t, s);
    SaveIsSafe(t, s);
    StockedFacts(t, s);
    RootedRow(t, s);
    UpsertRootFacts(t, Normalized(s.root), s.clock.created);
    SettledIs(Stocked(t, s), s, id);
    SaveParents(t, s);
    forall i | i in t.snapshots && i != id
      ensures OtherColumns(t.snapshots[i], t'.snapshots[i], s)
    {
      SettledRowIs(t, s, id, t.snapshots[i]);
    }
  }

  /** The nodes of the saved snapshot and the file states of the scope are exactly those of the save. */
  lemma ContentRowsAre(t: Tables, s: Save)
    requires Inv(t)
    ensures
      var id, t' := SavedId(t, s), AfterSave(t, s);
      && NodesOf(t', id).Keys == (set n | n in s.nodes :: n.path)
      && (forall i: nat :: LastNode(s.nodes, i) ==> NodeColumns(NodesOf(t', id)[s.nodes[i].path], s.nodes[i]))
      && FilesIn(t', s.root.scope).Keys == (set f | f in s.files :: f.relPath)
      && forall i: nat :: LastState(s.files, i) ==> FileColumns(FilesIn(t', s.root.scope)[s.files[i].relPath], s.files[i], id, s.clock.deleted)
  {
    var id := SavedId(t, s);
    SaveEffect(t, s);
    NodeKeys(s.nodes);
    UpsertedFilesOnly(map[], s.files, id, s.clock.deleted);
    forall i: nat | LastNode(s.nodes, i)
      ensures NodeColumns(UpsertedNodes(map[], s.nodes)[s.nodes[i].path], s.nodes[i])
    {
      NodeRowsAre(s.nodes, i);
    }
    forall i: nat | LastState(s.files, i)
      ensures FileColumns(UpsertedFiles(map[], s.files, id, s.clock.deleted)[s.files[i].relPath], s.files[i], id, s.clock.deleted)
    {
      FileRowsAre(s.files, id, s.clock.deleted, i);
    }
  }

  lemma {:induction false} NodeKeys(nodes: seq<MerkleNode>)
    ensures UpsertedNodes(map[], nodes).Keys == NodePaths(nodes)
  {
    forall p
      ensures p in UpsertedNodes(map[], nodes) <==> p in NodePaths(nodes)
    {
      UpsertedNodeAt(map[], nodes, p);
    }
  }

  // ---- when a save is refused ----

  predicate GoodNode(n: MerkleNode)
  {
    !Blank(n.path) && !Blank(n.nodeHash) && n.nodeType != "" && n.status != ""
  }

  predicate GoodState(scope: Scope, f: FileState)
  {
    f.scope == scope && !Blank(f.relPath) && f.status != ""
  }

  /** A save is valid if and only if it names its scope and its root hash, every node has a path, a digest, a type and a
      status, and every file state is of the scope and has a path and a status. */
  lemma {:induction false} SaveErrorIff(s: Save)
    ensures SaveError(s) == None <==>
      && !Blank(s.root.scope.sessionID) && !Blank(s.root.scope.repoRoot) && !Blank(s.root.rootHash)
      && (forall i :: 0 <= i < |s.nodes| ==> GoodNode(s.nodes[i]))
      && forall i :: 0 <= i < |s.files| ==> GoodState(s.root.scope, s.files[i])
  {
    TrimSpaceEmpty(s.root.scope.sessionID);
    TrimSpaceEmpty(s.root.scope.repoRoot);
    TrimSpaceEmpty(s.root.rootHash);
    NodeErrorsIff(s.nodes);
    if ScopeError(s.root.scope).None? {
      FileErrorsIff(s.root.scope, s.files);
    }
  }

  lemma {:induction false} NodeErrorsIff(nodes: seq<MerkleNode>)
    ensures FirstNodeError(nodes) == None <==> forall i :: 0 <= i < |nodes| ==> GoodNode(nodes[i])
  {
    if nodes != [] {
      TrimSpaceEmpty(nodes[0].path);
      TrimSpaceEmpty(nodes[0].nodeHash);
      NodeErrorsIff(nodes[1..]);
      assert forall i :: 0 < i < |nodes| ==> nodes[i] == nodes[1..][i - 1];
    }
  }

  lemma {:induction false} FileErrorsIff(scope: Scope, files: seq<FileState>)
    requires ScopeError(scope).None?
    ensures FirstFileError(scope, files) == None <==> forall i :: 0 <= i < |files| ==> GoodState(scope, files[i])
  {
    if files != [] {
      TrimSpaceEmpty(files[0].relPath);
      FileErrorsIff(scope, files[1..]);
      assert forall i :: 0 < i < |files| ==> files[i] == files[1..][i - 1];
    }
  }

  // ---- which snapshot is listed first ----

  /** An active snapshot is listed before the others; of two that are equally active, the one completed later, one without
      a completion time last; of two completed at the same time, the one created later; of those, the one with the larger
      id. */
  lemma ListedFirst(t: Tables, a: int, b: int)
    requires a in t.snapshots && b in t.snapshots && a != b
    ensures
      var x, y := t.snapshots[a], t.snapshots[b];
      && (x.active && !y.active ==> ListedBefore(t, a, b) && !ListedBefore(t, b, a))
      && (x.active == y.active && x.completedAt.Some? && (y.completedAt.None? || x.completedAt.value > y.completedAt.value) ==>
            ListedBefore(t, a, b) && !ListedBefore(t, b, a))
      && (x.active == y.active && x.completedAt == y.completedAt && x.createdAt > y.createdAt ==>
            ListedBefore(t, a, b) && !ListedBefore(t, b, a))
      && (x.active == y.active && x.completedAt == y.completedAt && x.createdAt == y.createdAt ==>
            (ListedBefore(t, a, b) <==> a > b))
  {
  }
}
