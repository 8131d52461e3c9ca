/** SaveSnapshotState and LoadLatestSnapshot as they run against the database
    (internal/indexstore/sync_store.go). Any statement, and the commit, may fail. */
module SnapshotStoring {
  import opened Outcomes
  import opened GoStrings
  import opened StringOrder
  import opened ChunkIndex
  import opened SnapshotRestore
  import opened SnapshotStore
  import opened SnapshotStoreFacts
  import DeltaPaths

  /** How many statements precede the commit. */
  function Statements(s: Save): nat
  {
    |s.nodes| + |s.files| + if s.root.isActive then 6 else 4
  }

  datatype SavedRoot = SavedRoot(id: int, row: SnapshotRow)

  /** The rows of a table part in path order. */
  method RowsInPathOrder<V>(m: map<string, V>) returns (rows: seq<V>)
    ensures rows == InKeyOrder(m)
  {
    var keys := DeltaPaths.SortedMapKeys(m.Keys);
    SortedKeysStrict(m.Keys);
    rows := [];
    for i := 0 to |keys|
      invariant |rows| == i
      invariant forall k :: 0 <= k < i ==> keys[k] in m && rows[k] == m[keys[k]]
    {
      assert keys[i] in keys;
      rows := rows + [m[keys[i]]];
    }
    assert rows == InKeyOrder(m);
  }

  /** indexstore.SnapshotState */
  datatype SnapshotState = SnapshotState(id: int, root: SnapshotRow, nodes: seq<NodeRow>, files: seq<FileRow>)

  // ---- validation ----

  method ValidateSnapshotNodes(nodes: seq<MerkleNode>) returns (err: Option<string>)
    ensures err == FirstNodeError(nodes)
  {
    for i := 0 to |nodes|
      invariant FirstNodeError(nodes) == FirstNodeError(nodes[i..])
    {
      var e := NodeError(nodes[i]);
      if e.Some? {
        return e;
      }
    }
    return None;
  }

  method ValidateFileStates(scope: Scope, files: seq<FileState>) returns (err: Option<string>)
    ensures err == FirstFileError(scope, files)
  {
    for i := 0 to |files|
      invariant FirstFileError(scope, files) == FirstFileError(scope, files[i..])
    {
      var e := FileError(scope, files[i]);
      if e.Some? {
        return e;
      }
    }
    return None;
  }

  /** One more node, or one more file state. */
  lemma {:induction false} NodeStep(t: Tables, id: int, nodes: seq<MerkleNode>, i: nat)
    requires i < |nodes|
    ensures Run(t, NodeStatements(id, nodes[..i + 1])) == Exec(Run(t, NodeStatements(id, nodes[..i])), UpsertNode(id, nodes[i]))
  {
    assert NodeStatements(id, nodes[..i + 1]) == NodeStatements(id, nodes[..i]) + [UpsertNode(id, nodes[i])];
    RunSnoc(t, NodeStatements(id, nodes[..i]), UpsertNode(id, nodes[i]));
  }

  lemma {:induction false} FileStep(t: Tables, scope: Scope, id: int, files: seq<FileState>, now: int, i: nat)
    requires i < |files|
    ensures Run(t, FileStatements(scope, id, files[..i + 1], now))
         == Exec(Run(t, FileStatements(scope, id, files[..i], now)), UpsertFile(scope, id, files[i], now))
  {
    assert FileStatements(scope, id, files[..i + 1], now)
        == FileStatements(scope, id, files[..i], now) + [UpsertFile(scope, id, files[i], now)];
    RunSnoc(t, FileStatements(scope, id, files[..i], now), UpsertFile(scope, id, files[i], now));
  }

  /** The tables after the first k statements of the loop. */
  ghost predicate FilesWritten(t: Tables, after: Tables, scope: Scope, id: int, files: seq<FileState>, now: int, k: nat)
  {
    k <= |files| && after == Run(t, FileStatements(scope, id, files[..k], now))
  }

  lemma NoFilesWritten(t: Tables, scope: Scope, id: int, files: seq<FileState>, now: int)
    ensures FilesWritten(t, t, scope, id, files, now, 0)
  {
  }

  lemma NextFileWritten(t: Tables, before: Tables, after: Tables, scope: Scope, id: int, files: seq<FileState>, now: int, i: nat)
    requires i < |files| && FilesWritten(t, before, scope, id, files, now, i)
    requires after == Exec(before, UpsertFile(scope, id, files[i], now))
    ensures FilesWritten(t, after, scope, id, files, now, i + 1)
  {
    FileStep(t, scope, id, files, now, i);
  }

  lemma {:induction false} AllFilesWritten(t: Tables, after: Tables, scope: Scope, id: int, files: seq<FileState>, now: int)
    requires FilesWritten(t, after, scope, id, files, now, |files|)
    ensures after == Run(t, FileStatements(scope, id, files, now))
  {
    assert files[..|files|] == files;
  }

  lemma {:induction false} RunSnoc(t: Tables, stmts: seq<Statement>, s: Statement)
    ensures Run(t, stmts + [s]) == Exec(Run(t, stmts), s)
  {
    RunConcat(t, stmts, [s]);
    RunOne(Run(t, stmts), s);
  }

  lemma {:induction false} BodyRuns(t: Tables, s: Save, id: int)
    ensures Run(t, Body(s, id)) ==
      Run(Run(t, NodeStatements(id, s.nodes) + [KeepNodes(id, NodePaths(s.nodes))]),
          FileStatements(s.root.scope, id, s.files, s.clock.deleted) + [KeepFiles(s.root.scope, FilePaths(s.files))])
  {
    RunConcat(t, NodeStatements(id, s.nodes) + [KeepNodes(id, NodePaths(s.nodes))],
              FileStatements(s.root.scope, id, s.files, s.clock.deleted) + [KeepFiles(s.root.scope, FilePaths(s.files))]);
  }

  /** The stages of a save, one after another. */
  lemma SaveStages(t: Tables, s: Save)
    requires Inv(t)
    ensures Inv(Stocked(t, s)) && SnapshotIn(Stocked(t, s), s.root.scope, SavedId(t, s))
    ensures AfterSave(t, s) == Run(Stocked(t, s), Tail(s, SavedId(t, s))) && Inv(AfterSave(t, s))
  {
    SaveIsSafe(t, s);
    StockedFacts(t, s);
    TailFacts(Stocked(t, s), s, SavedId(t, s));
  }

  lemma SomeId(ids: set<int>)
    ensures ids == {} || exists id: int :: id in ids
  {
    if forall id: int :: id !in ids {
      assert ids == {};
    }
  }

  class SyncStore {
    var tables: Tables

    constructor ()
      ensures tables == EMPTY && Inv(tables)
    {
      tables := EMPTY;
    }

    // ---- the statements inside the transaction ----

    method UpsertSnapshotRoot(root: SnapshotRoot, now: int) returns (id: int)
      requires Inv(tables)
      modifies this
      ensures id == RootId(old(tables), root.scope, root.rootHash)
      ensures tables == Exec(old(tables), UpsertRoot(root, now))
    {
      RootIdFacts(tables, root.scope, root.rootHash);
      if i :| i in tables.snapshots && tables.snapshots[i].scope == root.scope && tables.snapshots[i].rootHash == root.rootHash {
        assert RootAt(tables, root.scope, root.rootHash, i);
        id := i;
        tables := tables.(snapshots := tables.snapshots[id := UpdatedRow(tables.snapshots[id], root)]);
      } else {
        id := tables.nextId;
        tables := tables.(snapshots := tables.snapshots[id := InsertedRow(root, now)], nextId := tables.nextId + 1);
      }
    }

    method BulkUpsertSnapshotNodes(id: int, nodes: seq<MerkleNode>, faults: Faults, at: nat) returns (ok: bool)
      modifies this
      ensures ok == NoFault(faults, at, at + |nodes|)
      ensures ok ==> tables == Run(old(tables), NodeStatements(id, nodes))
    {
      for i := 0 to |nodes|
        invariant NoFault(faults, at, at + i)
        invariant tables == Run(old(tables), NodeStatements(id, nodes[..i]))
      {
        if faults(at + i) {
          return false;
        }
        NodeStep(old(tables), id, nodes, i);
        tables := tables.(nodes := tables.nodes[id := NodesOf(tables, id)[nodes[i].path := NodeRowOf(nodes[i])]]);
      }
      assert nodes[..|nodes|] == nodes;
      return true;
    }

    method ClearStaleSnapshotNodes(id: int, nodes: seq<MerkleNode>)
      modifies this
      ensures tables == Exec(old(tables), KeepNodes(id, NodePaths(nodes)))
    {
      var paths: set<string> := {};
      for i := 0 to |nodes|
        invariant tables == old(tables) && paths == NodePaths(nodes[..i])
      {
        assert nodes[..i + 1] == nodes[..i] + [nodes[i]];
        paths := paths + {nodes[i].path};
      }
      assert nodes[..|nodes|] == nodes;
      if id in tables.nodes {
        tables := tables.(nodes := tables.nodes[id := Only(tables.nodes[id], paths)]);
      }
    }

    method BulkUpsertFileState(scope: Scope, id: int, files: seq<FileState>, now: int, faults: Faults, at: nat) returns (ok: bool)
      modifies this
      ensures ok == NoFault(faults, at, at + |files|)
      ensures ok ==> tables == Run(old(tables), FileStatements(scope, id, files, now))
    {
      NoFilesWritten(tables, scope, id, files, now);
      for i := 0 to |files|
        invariant NoFault(faults, at, at + i)
        invariant FilesWritten(old(tables), tables, scope, id, files, now, i)
      {
        if faults(at + i) {
          return false;
        }
        ghost var before := tables;
        UpsertFileRow(scope, id, files[i], now);
        NextFileWritten(old(tables), before, tables, scope, id, files, now, i);
      }
      AllFilesWritten(old(tables), tables, scope, id, files, now);
      return true;
    }

    method UpsertFileRow(scope: Scope, id: int, file: FileState, now: int)
      modifies this
      ensures tables == Exec(old(tables), UpsertFile(scope, id, file, now))
    {
      tables := tables.(files := tables.files[scope := FilesIn(tables, scope)[file.relPath := FileRowOf(file, id, now)]]);
    }

    method ClearStaleFileState(scope: Scope, files: seq<FileState>)
      modifies this
      ensures tables == Exec(old(tables), KeepFiles(scope, FilePaths(files)))
    {
      var paths: set<string> := {};
      for i := 0 to |files|
        invariant tables == old(tables) && paths == FilePaths(files[..i])
      {
        assert files[..i + 1] == files[..i] + [files[i]];
        paths := paths + {files[i].relPath};
      }
      assert files[..|files|] == files;
      tables := tables.(files := tables.files[scope := Only(FilesIn(tables, scope), paths)]);
    }

    method WriteNodes(s: Save, id: int, faults: Faults, at: nat) returns (ok: bool)
      modifies this
      ensures ok == NoFault(faults, at, at + |s.nodes| + 1)
      ensures ok ==> tables == Run(old(tables), NodeStatements(id, s.nodes) + [KeepNodes(id, NodePaths(s.nodes))])
    {
      ok := BulkUpsertSnapshotNodes(id, s.nodes, faults, at);
      if !ok || faults(at + |s.nodes|) {
        return false;
      }
      ClearStaleSnapshotNodes(id, s.nodes);
      RunSnoc(old(tables), NodeStatements(id, s.nodes), KeepNodes(id, NodePaths(s.nodes)));
      return true;
    }

    method WriteFiles(s: Save, id: int, faults: Faults, at: nat) returns (ok: bool)
      modifies this
      ensures ok == NoFault(faults, at, at + |s.files| + 1)
      ensures ok ==> tables == Run(old(tables),
        FileStatements(s.root.scope, id, s.files, s.clock.deleted) + [KeepFiles(s.root.scope, FilePaths(s.files))])
    {
      ok := BulkUpsertFileState(s.root.scope, id, s.files, s.clock.deleted, faults, at);
      if !ok || faults(at + |s.files|) {
        return false;
      }
      ClearStaleFileState(s.root.scope, s.files);
      RunSnoc(old(tables), FileStatements(s.root.scope, id, s.files, s.clock.deleted), KeepFiles(s.root.scope, FilePaths(s.files)));
      return true;
    }

    /** Nodes and file states: the statements of Body. */
    method WriteContents(s: Save, id: int, faults: Faults, at: nat) returns (ok: bool)
      modifies this
      ensures ok == NoFault(faults, at, at + |s.nodes| + |s.files| + 2)
      ensures ok ==> tables == Run(old(tables), Body(s, id))
    {
      ok := WriteNodes(s, id, faults, at);
      if !ok {
        return false;
      }
      ok := WriteFiles(s, id, faults, at + |s.nodes| + 1);
      if ok {
        BodyRuns(old(tables), s, id);
      }
    }

    /** Which snapshot is active: the statements of Tail. */
    method Settle(s: Save, id: int, faults: Faults, at: nat) returns (ok: bool)
      requires Inv(tables) && SnapshotIn(tables, s.root.scope, id)
      modifies this
      ensures ok == NoFault(faults, at, at + if s.root.isActive then 3 else 1)
      ensures ok ==> tables == Run(old(tables), Tail(s, id)) && id in tables.snapshots
    {
      TailFacts(tables, s, id);
      var root := Normalized(s.root);
      if root.isActive {
        if faults(at) {
          return false;
        }
        tables := DeactivateIn(tables, root.scope, id, Completion(root, s.clock.superseded));
      }
      var next := if root.isActive then at + 1 else at;
      if faults(next) {
        return false;
      }
      tables := tables.(snapshots := tables.snapshots[id := Finalized(tables.snapshots[id], root, s.clock.completed)]);
      if tables.snapshots[id].active {
        if faults(next + 1) {
          return false;
        }
        tables := DropSupersededIn(tables, root.scope, id);
      }
      return true;
    }

    /** The statements from the upsert of the root to the commit, up to the first that fails. */
    method Transact(s: Save, faults: Faults) returns (ok: bool, id: int)
      requires Inv(tables)
      modifies this
      ensures ok == NoFault(faults, 0, Statements(s) + 1)
      ensures ok ==> tables == AfterSave(old(tables), s) && id == SavedId(old(tables), s) && id in tables.snapshots
    {
      SaveStages(tables, s);
      ok, id := Stock(s, faults);
      if !ok {
        return;
      }
      ok := Settle(s, id, faults, 3 + |s.nodes| + |s.files|);
      ok := ok && !faults(Statements(s));
    }

    /** The root, its nodes and the file states. */
    method Stock(s: Save, faults: Faults) returns (ok: bool, id: int)
      requires Inv(tables)
      modifies this
      ensures ok == NoFault(faults, 0, 3 + |s.nodes| + |s.files|)
      ensures ok ==> tables == Stocked(old(tables), s) && id == SavedId(old(tables), s)
    {
      if faults(0) {
        return false, 0;
      }
      id := UpsertSnapshotRoot(Normalized(s.root), s.clock.created);
      ok := WriteContents(s, id, faults, 1);
    }

    /** The save either commits as a whole or, when it is invalid or any statement fails, changes nothing. */
    method SaveSnapshotState(s: Save, faults: Faults) returns (r: Result<SavedRoot>)
      requires Inv(tables)
      modifies this
      ensures Inv(tables)
      ensures r.Ok? <==> SaveError(s).None? && NoFault(faults, 0, Statements(s) + 1)
      ensures r.Err? ==> tables == old(tables) && r.error == if SaveError(s).Some? then SaveError(s).value else "save snapshot state"
      ensures r.Ok? ==> tables == AfterSave(old(tables), s) && r.value.id == SavedId(old(tables), s)
      ensures r.Ok? ==> r.value.id in tables.snapshots && r.value.row == tables.snapshots[r.value.id]
    {
      var err := ValidateSave(s);
      if err.Some? {
        return Err(err.value);
      }
      var begun := tables;
      var ok, id := Transact(s, faults);
      if !ok {
        tables := begun;
        return Err("save snapshot state");
      }
      SaveStages(begun, s);
      return Ok(SavedRoot(id, tables.snapshots[id]));
    }

    method ValidateSave(s: Save) returns (err: Option<string>)
      ensures err == SaveError(s)
    {
      if TrimSpace(s.root.scope.sessionID) == "" {
        return Some("session_id is required");
      }
      if TrimSpace(s.root.scope.repoRoot) == "" {
        return Some("repo_root is required");
      }
      if TrimSpace(s.root.rootHash) == "" {
        return Some("root_hash is required");
      }
      err := ValidateSnapshotNodes(s.nodes);
      if err.None? {
        err := ValidateFileStates(s.root.scope, s.files);
      }
    }

    /** The scope's first row in the listing order, with its nodes and the scope's file states in path order. */
    method LoadLatestSnapshot(scope: Scope) returns (r: Result<Option<SnapshotState>>)
      ensures r.Err? <==> ScopeError(scope).Some?
      ensures r == Ok(None) ==> forall id :: !SnapshotIn(tables, scope, id)
      ensures r.Ok? && r.value.Some? ==>
        var state := r.value.value;
        && IsLatest(tables, scope, state.id) && state.root == tables.snapshots[state.id]
        && state.nodes == InKeyOrder(NodesOf(tables, state.id))
        && state.files == InKeyOrder(FilesIn(tables, scope))
    {
      var err := ScopeError(scope);
      if err.Some? {
        return Err(err.value);
      }
      var latest := SelectLatest(scope);
      if latest.None? {
        return Ok(None);
      }
      var nodes := RowsInPathOrder(NodesOf(tables, latest.value));
      var files := RowsInPathOrder(FilesIn(tables, scope));
      return Ok(Some(SnapshotState(latest.value, tables.snapshots[latest.value], nodes, files)));
    }

    /** ORDER BY ... LIMIT 1 */
    method SelectLatest(scope: Scope) returns (latest: Option<int>)
      ensures latest.None? ==> forall id :: !SnapshotIn(tables, scope, id)
      ensures latest.Some? ==> IsLatest(tables, scope, latest.value)
    {
      latest := None;
      var todo := tables.snapshots.Keys;
      while todo != {}
        invariant todo <= tables.snapshots.Keys
        invariant latest.None? ==> forall id :: id in tables.snapshots.Keys - todo ==> !SnapshotIn(tables, scope, id)
        invariant latest.Some? ==> SnapshotIn(tables, scope, latest.value)
        invariant latest.Some? ==> forall id :: id in tables.snapshots.Keys - todo && SnapshotIn(tables, scope, id) && id != latest.value ==>
          ListedBefore(tables, latest.value, id)
        decreases |todo|
      {
        SomeId(todo);
        var id: int :| id in todo;
        todo := todo - {id};
        if tables.snapshots[id].scope == scope {
          if latest.None? || ListedBefore(tables, id, latest.value) {
            latest := Some(id);
          }
        }
      }
    }
  }
}
