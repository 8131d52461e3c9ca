/** The snapshot tables and the statements of SaveSnapshotState, as values
    (internal/indexstore/sync_store.go, internal/storage/postgres/migrations/0005_index_sync.sql). */
module SnapshotStore {
  import opened Outcomes
  import opened GoStrings
  import opened ChunkIndex
  import opened SnapshotRestore

  const STATUS_PENDING: string := "pending"
  const STATUS_SUPERSEDED: string := "superseded"
  const FILE_ACTIVE: string := "active"
  const FILE_DELETED: string := "deleted"

  // ---- what is saved ----

  /** indexsync.SnapshotRoot, as a request. */
  datatype SnapshotRoot = SnapshotRoot(
    scope: Scope,
    rootHash: string,
    parent: Option<int>,
    status: string,
    isActive: bool,
    completedAt: Option<int>)

  datatype MerkleNode = MerkleNode(
    path: string,
    parentPath: string,
    nodeType: string,
    nodeHash: string,
    parentHash: string,
    contentHash: string,
    sizeBytes: Option<int>,
    mtimeNS: Option<int>,
    status: string)

  datatype FileState = FileState(
    scope: Scope,
    relPath: string,
    lastSnapshot: Option<int>,
    contentHash: string,
    nodeHash: string,
    parentHash: string,
    chunkSetHash: string,
    sizeBytes: Option<int>,
    mtimeNS: Option<int>,
    status: string,
    deletedAt: Option<int>)

  /** The clock readings of one save: the database's, and the three the program takes when a time is missing. */
  datatype Clock = Clock(created: int, superseded: int, completed: int, deleted: int)

  datatype Save = Save(root: SnapshotRoot, nodes: seq<MerkleNode>, files: seq<FileState>, clock: Clock)

  // ---- the tables ----

  datatype SnapshotRow = SnapshotRow(
    scope: Scope,
    rootHash: string,
    parent: Option<int>,
    status: string,
    active: bool,
    createdAt: int,
    completedAt: Option<int>)

  datatype FileRow = FileRow(
    lastSnapshot: int,
    contentHash: Option<string>,
    nodeHash: Option<string>,
    parentHash: Option<string>,
    chunkSetHash: Option<string>,
    sizeBytes: Option<int>,
    mtimeNS: Option<int>,
    status: string,
    deletedAt: Option<int>)

  /** index_snapshots by id, index_nodes by snapshot and path, index_file_state by scope and path. */
  datatype Tables = Tables(
    snapshots: map<int, SnapshotRow>,
    nodes: map<int, map<string, NodeRow>>,
    files: map<Scope, map<string, FileRow>>,
    nextId: int)

  const EMPTY: Tables := Tables(map[], map[], map[], 1)

  function NodesOf(t: Tables, id: int): map<string, NodeRow>
  {
    if id in t.nodes then t.nodes[id] else map[]
  }

  function FilesIn(t: Tables, scope: Scope): map<string, FileRow>
  {
    if scope in t.files then t.files[scope] else map[]
  }

  predicate SnapshotIn(t: Tables, scope: Scope, id: int)
  {
    id in t.snapshots && t.snapshots[id].scope == scope
  }

  predicate ActiveIn(t: Tables, scope: Scope, id: int)
  {
    SnapshotIn(t, scope, id) && t.snapshots[id].active
  }

  predicate RootAt(t: Tables, scope: Scope, hash: string, id: int)
  {
    SnapshotIn(t, scope, id) && t.snapshots[id].rootHash == hash
  }

  /** Fresh ids, unique root hashes and at most one active snapshot per scope, nodes only of snapshots. */
  ghost predicate Inv(t: Tables)
  {
    && (forall id :: id in t.snapshots ==> id < t.nextId)
    && (forall scope, hash, i, j :: RootAt(t, scope, hash, i) && RootAt(t, scope, hash, j) ==> i == j)
    && (forall scope, i, j :: ActiveIn(t, scope, i) && ActiveIn(t, scope, j) ==> i == j)
    && (forall id :: id in t.nodes ==> id in t.snapshots)
  }

  // ---- the statements ----

  function Coalesce<T>(a: Option<T>, b: Option<T>): Option<T>
  {
    if a.Some? then a else b
  }

  /** The id the upsert returns: the row with this root hash, or a new one. */
  ghost function RootId(t: Tables, scope: Scope, hash: string): int
  {
    if exists id :: RootAt(t, scope, hash, id) then var id :| RootAt(t, scope, hash, id); id else t.nextId
  }

  function InsertedRow(root: SnapshotRoot, now: int): SnapshotRow
  {
    SnapshotRow(root.scope, root.rootHash, root.parent, root.status, false, now, root.completedAt)
  }

  function UpdatedRow(row: SnapshotRow, root: SnapshotRoot): SnapshotRow
  {
    row.(parent := Coalesce(root.parent, row.parent), status := root.status, completedAt := Coalesce(root.completedAt, row.completedAt))
  }

  function NodeRowOf(n: MerkleNode): NodeRow
  {
    NodeRow(n.path, EmptyToNil(n.parentPath), n.nodeType, n.nodeHash, EmptyToNil(n.parentHash), EmptyToNil(n.contentHash),
            n.sizeBytes, n.mtimeNS, n.status)
  }

  function DeletedAt(s: FileState, now: int): Option<int>
  {
    if s.status == FILE_ACTIVE then None
    else if s.status == FILE_DELETED && s.deletedAt.None? then Some(now)
    else s.deletedAt
  }

  function FileRowOf(s: FileState, id: int, now: int): FileRow
  {
    FileRow(if s.lastSnapshot.Some? then s.lastSnapshot.value else id,
            EmptyToNil(s.contentHash), EmptyToNil(s.nodeHash), EmptyToNil(s.parentHash), EmptyToNil(s.chunkSetHash),
            s.sizeBytes, s.mtimeNS, s.status, DeletedAt(s, now))
  }

  function Superseded(row: SnapshotRow, now: int): SnapshotRow
  {
    row.(active := false, status := STATUS_SUPERSEDED, completedAt := Coalesce(row.completedAt, Some(now)))
  }

  function Finalized(row: SnapshotRow, root: SnapshotRoot, now: int): SnapshotRow
  {
    row.(status := if root.status == "" then STATUS_PENDING else root.status,
         active := root.isActive,
         completedAt := if root.isActive && root.completedAt.None? then Some(now) else root.completedAt,
         parent := Coalesce(root.parent, row.parent))
  }

  datatype Statement =
    | UpsertRoot(root: SnapshotRoot, now: int)
    | UpsertNode(id: int, node: MerkleNode)
    | KeepNodes(id: int, paths: set<string>)
    | UpsertFile(scope: Scope, id: int, state: FileState, now: int)
    | KeepFiles(scope: Scope, paths: set<string>)
    | Deactivate(scope: Scope, id: int, now: int)
    | Finalize(scope: Scope, id: int, root: SnapshotRoot, now: int)
    | DropSuperseded(scope: Scope, id: int)

  ghost function UpsertRootIn(t: Tables, root: SnapshotRoot, now: int): Tables
  {
    var id := RootId(t, root.scope, root.rootHash);
    if RootAt(t, root.scope, root.rootHash, id) then
      t.(snapshots := t.snapshots[id := UpdatedRow(t.snapshots[id], root)])
    else
      t.(snapshots := t.snapshots[id := InsertedRow(root, now)], nextId := t.nextId + 1)
  }

  function DeactivateIn(t: Tables, scope: Scope, id: int, now: int): Tables
  {
    t.(snapshots := map i | i in t.snapshots :: if ActiveIn(t, scope, i) && i != id then Superseded(t.snapshots[i], now) else t.snapshots[i])
  }

  function DropSupersededIn(t: Tables, scope: Scope, id: int): Tables
  {
    t.(nodes := map i | i in t.nodes && !(SnapshotIn(t, scope, i) && i != id) :: t.nodes[i])
  }

  ghost function Exec(t: Tables, s: Statement): Tables
  {
    match s
    case UpsertRoot(root, now) => UpsertRootIn(t, root, now)
    case UpsertNode(id, node) => t.(nodes := t.nodes[id := NodesOf(t, id)[node.path := NodeRowOf(node)]])
    case KeepNodes(id, paths) => if id in t.nodes then t.(nodes := t.nodes[id := Only(t.nodes[id], paths)]) else t
    case UpsertFile(scope, id, state, now) =>
      t.(files := t.files[scope := FilesIn(t, scope)[state.relPath := FileRowOf(state, id, now)]])
    case KeepFiles(scope, paths) => t.(files := t.files[scope := Only(FilesIn(t, scope), paths)])
    case Deactivate(scope, id, now) => DeactivateIn(t, scope, id, now)
    case Finalize(scope, id, root, now) =>
      if SnapshotIn(t, scope, id) then t.(snapshots := t.snapshots[id := Finalized(t.snapshots[id], root, now)]) else t
    case DropSuperseded(scope, id) => DropSupersededIn(t, scope, id)
  }

  /** The rows whose path is in the set. */
  function Only<V>(m: map<string, V>, paths: set<string>): map<string, V>
  {
    map p | p in m && p in paths :: m[p]
  }

  ghost function Run(t: Tables, stmts: seq<Statement>): Tables
  {
    if stmts == [] then t else Exec(Run(t, stmts[..|stmts| - 1]), stmts[|stmts| - 1])
  }

  // ---- SaveSnapshotState ----

  function Normalized(root: SnapshotRoot): SnapshotRoot
  {
    if root.status == "" then root.(status := STATUS_PENDING) else root
  }

  function NodeError(n: MerkleNode): Option<string>
  {
    if TrimSpace(n.path) == "" then Some("node path is required")
    else if TrimSpace(n.nodeHash) == "" then Some("node_hash is required")
    else if n.nodeType == "" then Some("node_type is required")
    else if n.status == "" then Some("node status is required")
    else None
  }

  function ScopeError(scope: Scope): Option<string>
  {
    if TrimSpace(scope.sessionID) == "" then Some("session_id is required")
    else if TrimSpace(scope.repoRoot) == "" then Some("repo_root is required")
    else None
  }

  function FileError(scope: Scope, s: FileState): Option<string>
  {
    if ScopeError(s.scope).Some? then ScopeError(s.scope)
    else if s.scope.sessionID != scope.sessionID then Some("file state session_id does not match scope")
    else if s.scope.repoRoot != scope.repoRoot then Some("file state repo_root does not match scope")
    else if TrimSpace(s.relPath) == "" then Some("file state rel_path is required")
    else if s.status == "" then Some("file state status is required")
    else None
  }

  function FirstNodeError(nodes: seq<MerkleNode>): Option<string>
  {
    if nodes == [] then None else if NodeError(nodes[0]).Some? then NodeError(nodes[0]) else FirstNodeError(nodes[1..])
  }

  function FirstFileError(scope: Scope, files: seq<FileState>): Option<string>
  {
    if files == [] then None else if FileError(scope, files[0]).Some? then FileError(scope, files[0]) else FirstFileError(scope, files[1..])
  }

  function SaveError(s: Save): Option<string>
  {
    if ScopeError(s.root.scope).Some? then ScopeError(s.root.scope)
    else if TrimSpace(s.root.rootHash) == "" then Some("root_hash is required")
    else if FirstNodeError(s.nodes).Some? then FirstNodeError(s.nodes)
    else FirstFileError(s.root.scope, s.files)
  }

  function NodePaths(nodes: seq<MerkleNode>): set<string>
  {
    set n | n in nodes :: n.path
  }

  function FilePaths(files: seq<FileState>): set<string>
  {
    set f | f in files :: f.relPath
  }

  function NodeStatements(id: int, nodes: seq<MerkleNode>): (r: seq<Statement>)
    ensures |r| == |nodes|
  {
    seq(|nodes|, i requires 0 <= i < |nodes| => UpsertNode(id, nodes[i]))
  }

  function FileStatements(scope: Scope, id: int, files: seq<FileState>, now: int): (r: seq<Statement>)
    ensures |r| == |files|
  {
    seq(|files|, i requires 0 <= i < |files| => UpsertFile(scope, id, files[i], now))
  }

  /** snapshotCompletion */
  function Completion(root: SnapshotRoot, now: int): int
  {
    if root.completedAt.Some? then root.completedAt.value else now
  }

  /** The statements that write nodes and file states. */
  function Body(s: Save, id: int): seq<Statement>
  {
    NodeStatements(id, s.nodes) + [KeepNodes(id, NodePaths(s.nodes))] +
    (FileStatements(s.root.scope, id, s.files, s.clock.deleted) + [KeepFiles(s.root.scope, FilePaths(s.files))])
  }

  /** The statements that settle which snapshot is active. */
  function Tail(s: Save, id: int): seq<Statement>
  {
    var root := Normalized(s.root);
    (if root.isActive then [Deactivate(root.scope, id, Completion(root, s.clock.superseded))] else []) +
    [Finalize(root.scope, id, root, s.clock.completed)] +
    (if root.isActive then [DropSuperseded(root.scope, id)] else [])
  }

  ghost function SavedId(t: Tables, s: Save): int
  {
    RootId(t, s.root.scope, s.root.rootHash)
  }

  /** All statements of one save, in order. */
  ghost function Plan(t: Tables, s: Save): seq<Statement>
  {
    [UpsertRoot(Normalized(s.root), s.clock.created)] + (Body(s, SavedId(t, s)) + Tail(s, SavedId(t, s)))
  }

  /** The tables after a committed save. */
  ghost function AfterSave(t: Tables, s: Save): Tables
  {
    Run(t, Plan(t, s))
  }

  // ---- LoadLatestSnapshot ----

  /** ORDER BY is_active DESC, completed_at DESC NULLS LAST, created_at DESC, id DESC: a is listed before b. */
  predicate ListedBefore(t: Tables, a: int, b: int)
    requires a in t.snapshots && b in t.snapshots
  {
    var x, y := t.snapshots[a], t.snapshots[b];
    if x.active != y.active then x.active
    else if x.completedAt != y.completedAt then
      y.completedAt.None? || (x.completedAt.Some? && x.completedAt.value > y.completedAt.value)
    else if x.createdAt != y.createdAt then x.createdAt > y.createdAt
    else a > b
  }

  /** The row LoadLatestSnapshot selects. */
  ghost predicate IsLatest(t: Tables, scope: Scope, id: int)
  {
    SnapshotIn(t, scope, id) && forall other :: SnapshotIn(t, scope, other) && other != id ==> ListedBefore(t, id, other)
  }
}
