/** What every statement of a save keeps, what a whole save establishes, and what holds after any run of saves. */
module SnapshotStoreFacts {
  import opened Outcomes
  import opened ChunkIndex
  import opened MerkleHash
  import opened SnapshotRestore
  import opened SnapshotStore

  // ---- running statements ----

  lemma {:induction false} RunConcat(t: Tables, a: seq<Statement>, b: seq<Statement>)
    ensures Run(t, a + b) == Run(Run(t, a), b)
    decreases |b|
  {
    if b == [] {
      assert a + b == a;
    } else {
      assert (a + b)[..|a + b| - 1] == a + b[..|b| - 1];
      RunConcat(t, a, b[..|b| - 1]);
    }
  }

  lemma {:induction false} RunOne(t: Tables, s: Statement)
    ensures Run(t, [s]) == Exec(t, s)
  {
    assert Run(t, [s][..0]) == t;
  }

  /** The invariant holds before, between and after the statements. */
  ghost predicate Safe(t: Tables, stmts: seq<Statement>)
  {
    forall k :: 0 <= k <= |stmts| ==> Inv(Run(t, stmts[..k]))
  }

  lemma {:induction false} SafeConcat(t: Tables, a: seq<Statement>, b: seq<Statement>)
    requires Safe(t, a) && Safe(Run(t, a), b)
    ensures Safe(t, a + b)
  {
    forall k | 0 <= k <= |a + b|
      ensures Inv(Run(t, (a + b)[..k]))
    {
      if k <= |a| {
        assert (a + b)[..k] == a[..k];
      } else {
        assert (a + b)[..k] == a + b[..k - |a|];
        RunConcat(t, a, b[..k - |a|]);
      }
    }
  }

  lemma SafeOne(t: Tables, s: Statement)
    requires Inv(t) && Inv(Exec(t, s))
    ensures Safe(t, [s])
  {
    RunOne(t, s);
    assert [s][..0] == [] && [s][..1] == [s];
  }

  lemma {:induction false} SafeEnd(t: Tables, stmts: seq<Statement>)
    requires Safe(t, stmts)
    ensures Inv(Run(t, stmts))
  {
    assert stmts[..|stmts|] == stmts;
  }

  // ---- the root row ----

  lemma RootIdFacts(t: Tables, scope: Scope, hash: string)
    requires Inv(t)
    ensures (exists id :: RootAt(t, scope, hash, id)) ==> RootAt(t, scope, hash, RootId(t, scope, hash))
    ensures !(exists id :: RootAt(t, scope, hash, id)) ==> RootId(t, scope, hash) !in t.snapshots
    ensures forall id :: RootAt(t, scope, hash, id) ==> id == RootId(t, scope, hash)
  {
  }

  /** Upserting the root keeps the invariant, deactivates nothing and touches no other row. */
  lemma UpsertRootFacts(t: Tables, root: SnapshotRoot, now: int)
    requires Inv(t)
    ensures Inv(UpsertRootIn(t, root, now))
    ensures
      var id, t' := RootId(t, root.scope, root.rootHash), UpsertRootIn(t, root, now);
      && RootAt(t', root.scope, root.rootHash, id) && t'.snapshots.Keys == t.snapshots.Keys + {id}
      && t'.nodes == t.nodes && t'.files == t.files
      && (forall i :: i in t.snapshots && i != id ==> t'.snapshots[i] == t.snapshots[i])
      && (t'.snapshots[id].active <==> RootAt(t, root.scope, root.rootHash, id) && t.snapshots[id].active)
      && t'.snapshots[id].parent
         == Coalesce(root.parent, if RootAt(t, root.scope, root.rootHash, id) then t.snapshots[id].parent else None)
  {
    RootIdFacts(t, root.scope, root.rootHash);
    var id, t' := RootId(t, root.scope, root.rootHash), UpsertRootIn(t, root, now);
    forall scope, hash, i, j | RootAt(t', scope, hash, i) && RootAt(t', scope, hash, j)
      ensures i == j
    {
      assert i != id ==> RootAt(t, scope, hash, i);
      assert j != id ==> RootAt(t, scope, hash, j);
    }
    forall scope, i, j | ActiveIn(t', scope, i) && ActiveIn(t', scope, j)
      ensures i == j
    {
      assert ActiveIn(t, scope, i) && ActiveIn(t, scope, j);
    }
  }

  // ---- nodes and file states ----

  /** The rows after upserting one by one: the last with a path wins. */
  function UpsertedNodes(m: map<string, NodeRow>, nodes: seq<MerkleNode>): map<string, NodeRow>
  {
    if nodes == [] then m
    else UpsertedNodes(m, nodes[..|nodes| - 1])[nodes[|nodes| - 1].path := NodeRowOf(nodes[|nodes| - 1])]
  }

  function UpsertedFiles(m: map<string, FileRow>, files: seq<FileState>, id: int, now: int): map<string, FileRow>
  {
    if files == [] then m
    else UpsertedFiles(m, files[..|files| - 1], id, now)[files[|files| - 1].relPath := FileRowOf(files[|files| - 1], id, now)]
  }

  lemma {:induction false} UpsertedNodeAt(m: map<string, NodeRow>, nodes: seq<MerkleNode>, p: string)
    ensures p in UpsertedNodes(m, nodes) <==> p in m || p in NodePaths(nodes)
    ensures p in UpsertedNodes(map[], nodes) <==> p in NodePaths(nodes)
    ensures p in NodePaths(nodes) ==> UpsertedNodes(m, nodes)[p] == UpsertedNodes(map[], nodes)[p]
  {
    if nodes != [] {
      var front, last := nodes[..|nodes| - 1], nodes[|nodes| - 1];
      assert nodes == front + [last];
      assert p in NodePaths(nodes) <==> p in NodePaths(front) || p == last.path;
      UpsertedNodeAt(m, front, p);
    }
  }

  lemma {:induction false} UpsertedNodesOnly(m: map<string, NodeRow>, nodes: seq<MerkleNode>)
    ensures Only(UpsertedNodes(m, nodes), NodePaths(nodes)) == UpsertedNodes(map[], nodes)
  {
    forall p
      ensures p in Only(UpsertedNodes(m, nodes), NodePaths(nodes)) <==> p in UpsertedNodes(map[], nodes)
      ensures p in NodePaths(nodes) <==> p in UpsertedNodes(map[], nodes)
      ensures p in NodePaths(nodes) ==> p in UpsertedNodes(m, nodes)
      ensures p in NodePaths(nodes) ==> UpsertedNodes(m, nodes)[p] == UpsertedNodes(map[], nodes)[p]
    {
      UpsertedNodeAt(m, nodes, p);
    }
  }

  lemma {:induction false} UpsertedFileAt(m: map<string, FileRow>, files: seq<FileState>, id: int, now: int, p: string)
    ensures p in UpsertedFiles(m, files, id, now) <==> p in m || p in FilePaths(files)
    ensures p in UpsertedFiles(map[], files, id, now) <==> p in FilePaths(files)
    ensures p in FilePaths(files) ==> UpsertedFiles(m, files, id, now)[p] == UpsertedFiles(map[], files, id, now)[p]
  {
    if files != [] {
      var front, last := files[..|files| - 1], files[|files| - 1];
      assert files == front + [last];
      assert p in FilePaths(files) <==> p in FilePaths(front) || p == last.relPath;
      UpsertedFileAt(m, front, id, now, p);
    }
  }

  lemma {:induction false} UpsertedFilesOnly(m: map<string, FileRow>, files: seq<FileState>, id: int, now: int)
    ensures Only(UpsertedFiles(m, files, id, now), FilePaths(files)) == UpsertedFiles(map[], files, id, now)
    ensures UpsertedFiles(map[], files, id, now).Keys == FilePaths(files)
  {
    forall p
      ensures p in Only(UpsertedFiles(m, files, id, now), FilePaths(files)) <==> p in UpsertedFiles(map[], files, id, now)
      ensures p in UpsertedFiles(map[], files, id, now) <==> p in FilePaths(files)
      ensures p in FilePaths(files) ==> UpsertedFiles(m, files, id, now)[p] == UpsertedFiles(map[], files, id, now)[p]
    {
      UpsertedFileAt(m, files, id, now, p);
    }
  }

  /** Only the nodes of one snapshot and the file states of one scope may differ. */
  ghost predicate OnlyContents(t: Tables, t': Tables, scope: Scope, id: int)
  {
    && t'.snapshots == t.snapshots && t'.nextId == t.nextId
    && (forall i :: i != id ==> NodesOf(t', i) == NodesOf(t, i))
    && (forall other :: other != scope ==> FilesIn(t', other) == FilesIn(t, other))
    && t'.nodes.Keys <= t.nodes.Keys + {id}
  }

  lemma ContentsKeepInv(t: Tables, t': Tables, scope: Scope, id: int)
    requires Inv(t) && id in t.snapshots && OnlyContents(t, t', scope, id)
    ensures Inv(t')
  {
    assert forall s, hash, i :: RootAt(t', s, hash, i) ==> RootAt(t, s, hash, i);
    assert forall s, i :: ActiveIn(t', s, i) ==> ActiveIn(t, s, i);
  }

  predicate Quiet(s: Statement, scope: Scope, id: int)
  {
    match s
    case UpsertNode(i, _) => i == id
    case KeepNodes(i, _) => i == id
    case UpsertFile(o, _, _, _) => o == scope
    case KeepFiles(o, _) => o == scope
    case _ => false
  }

  lemma QuietExec(t: Tables, s: Statement, scope: Scope, id: int)
    requires Quiet(s, scope, id)
    ensures OnlyContents(t, Exec(t, s), scope, id)
  {
  }

  lemma {:induction false} QuietRun(t: Tables, stmts: seq<Statement>, scope: Scope, id: int)
    requires forall k :: 0 <= k < |stmts| ==> Quiet(stmts[k], scope, id)
    ensures OnlyContents(t, Run(t, stmts), scope, id)
  {
    if stmts != [] {
      var front := stmts[..|stmts| - 1];
      QuietRun(t, front, scope, id);
      QuietExec(Run(t, front), stmts[|stmts| - 1], scope, id);
    }
  }

  lemma QuietSafe(t: Tables, stmts: seq<Statement>, scope: Scope, id: int)
    requires Inv(t) && id in t.snapshots && forall k :: 0 <= k < |stmts| ==> Quiet(stmts[k], scope, id)
    ensures Safe(t, stmts)
  {
    forall k | 0 <= k <= |stmts|
      ensures Inv(Run(t, stmts[..k]))
    {
      QuietRun(t, stmts[..k], scope, id);
      ContentsKeepInv(t, Run(t, stmts[..k]), scope, id);
    }
  }

  lemma {:induction false} RunNodes(t: Tables, id: int, nodes: seq<MerkleNode>)
    ensures NodesOf(Run(t, NodeStatements(id, nodes)), id) == UpsertedNodes(NodesOf(t, id), nodes)
    ensures Run(t, NodeStatements(id, nodes)).files == t.files
  {
    if nodes != [] {
      var front := nodes[..|nodes| - 1];
      assert NodeStatements(id, nodes)[..|nodes| - 1] == NodeStatements(id, front);
      RunNodes(t, id, front);
    }
  }

  lemma {:induction false} RunFiles(t: Tables, scope: Scope, id: int, files: seq<FileState>, now: int)
    ensures FilesIn(Run(t, FileStatements(scope, id, files, now)), scope) == UpsertedFiles(FilesIn(t, scope), files, id, now)
    ensures Run(t, FileStatements(scope, id, files, now)).nodes == t.nodes
  {
    if files != [] {
      var front := files[..|files| - 1];
      assert FileStatements(scope, id, files, now)[..|files| - 1] == FileStatements(scope, id, front, now);
      RunFiles(t, scope, id, front, now);
    }
  }

  /** The node statements leave exactly the given nodes. */
  lemma {:induction false} NodesReplaced(t: Tables, id: int, nodes: seq<MerkleNode>)
    ensures NodesOf(Run(t, NodeStatements(id, nodes) + [KeepNodes(id, NodePaths(nodes))]), id) == UpsertedNodes(map[], nodes)
    ensures Run(t, NodeStatements(id, nodes) + [KeepNodes(id, NodePaths(nodes))]).files == t.files
  {
    var mid := Run(t, NodeStatements(id, nodes));
    RunNodes(t, id, nodes);
    RunConcat(t, NodeStatements(id, nodes), [KeepNodes(id, NodePaths(nodes))]);
    RunOne(mid, KeepNodes(id, NodePaths(nodes)));
    UpsertedNodesOnly(NodesOf(t, id), nodes);
    assert id !in mid.nodes ==> UpsertedNodes(NodesOf(t, id), nodes) == map[];
    assert id !in mid.nodes ==> Only<NodeRow>(map[], NodePaths(nodes)) == map[];
  }

  /** The file statements leave exactly the given file states. */
  lemma {:induction false} FilesReplaced(t: Tables, scope: Scope, id: int, files: seq<FileState>, now: int)
    ensures FilesIn(Run(t, FileStatements(scope, id, files, now) + [KeepFiles(scope, FilePaths(files))]), scope)
         == UpsertedFiles(map[], files, id, now)
    ensures Run(t, FileStatements(scope, id, files, now) + [KeepFiles(scope, FilePaths(files))]).nodes == t.nodes
  {
    var mid := Run(t, FileStatements(scope, id, files, now));
    RunFiles(t, scope, id, files, now);
    RunConcat(t, FileStatements(scope, id, files, now), [KeepFiles(scope, FilePaths(files))]);
    RunOne(mid, KeepFiles(scope, FilePaths(files)));
    UpsertedFilesOnly(FilesIn(t, scope), files, id, now);
  }

  lemma {:induction false} BodyFacts(t: Tables, s: Save, id: int)
    requires Inv(t) && id in t.snapshots
    ensures Safe(t, Body(s, id)) && OnlyContents(t, Run(t, Body(s, id)), s.root.scope, id)
    ensures NodesOf(Run(t, Body(s, id)), id) == UpsertedNodes(map[], s.nodes)
    ensures FilesIn(Run(t, Body(s, id)), s.root.scope) == UpsertedFiles(map[], s.files, id, s.clock.deleted)
  {
    var scope := s.root.scope;
    var a := NodeStatements(id, s.nodes) + [KeepNodes(id, NodePaths(s.nodes))];
    var b := FileStatements(scope, id, s.files, s.clock.deleted) + [KeepFiles(scope, FilePaths(s.files))];
    QuietSafe(t, a + b, scope, id);
    QuietRun(t, a + b, scope, id);
    NodesReplaced(t, id, s.nodes);
    RunConcat(t, a, b);
    FilesReplaced(Run(t, a), scope, id, s.files, s.clock.deleted);
  }

  // ---- activation ----

  lemma DeactivateFacts(t: Tables, scope: Scope, id: int, now: int)
    requires Inv(t)
    ensures Inv(DeactivateIn(t, scope, id, now))
    ensures forall i :: ActiveIn(DeactivateIn(t, scope, id, now), scope, i) ==> i == id
  {
    var t' := DeactivateIn(t, scope, id, now);
    assert forall s, hash, i :: RootAt(t', s, hash, i) ==> RootAt(t, s, hash, i);
    assert forall s, i :: ActiveIn(t', s, i) ==> ActiveIn(t, s, i);
  }

  /** Activating a row keeps the invariant when no other row of the scope is active. */
  lemma FinalizeFacts(t: Tables, scope: Scope, id: int, root: SnapshotRoot, now: int)
    requires Inv(t) && SnapshotIn(t, scope, id)
    requires root.isActive ==> forall i :: ActiveIn(t, scope, i) ==> i == id
    ensures Inv(Exec(t, Finalize(scope, id, root, now)))
  {
    var t' := Exec(t, Finalize(scope, id, root, now));
    assert forall s, hash, i :: RootAt(t', s, hash, i) ==> RootAt(t, s, hash, i);
    assert forall s, i :: ActiveIn(t', s, i) ==> if i == id then s == scope && root.isActive else ActiveIn(t, s, i);
  }

  lemma DropFacts(t: Tables, scope: Scope, id: int)
    requires Inv(t)
    ensures Inv(DropSupersededIn(t, scope, id))
  {
    var t' := DropSupersededIn(t, scope, id);
    assert forall s, hash, i :: RootAt(t', s, hash, i) ==> RootAt(t, s, hash, i);
    assert forall s, i :: ActiveIn(t', s, i) ==> ActiveIn(t, s, i);
  }

  /** The tables after the closing statements. */
  ghost function Settled(t: Tables, s: Save, id: int): Tables
  {
    var root := Normalized(s.root);
    if root.isActive then
      DropSupersededIn(
        Exec(DeactivateIn(t, root.scope, id, Completion(root, s.clock.superseded)), Finalize(root.scope, id, root, s.clock.completed)),
        root.scope, id)
    else Exec(t, Finalize(root.scope, id, root, s.clock.completed))
  }

  lemma {:induction false} TailFacts(t: Tables, s: Save, id: int)
    requires Inv(t) && SnapshotIn(t, s.root.scope, id)
    ensures Safe(t, Tail(s, id)) && Run(t, Tail(s, id)) == Settled(t, s, id)
  {
    var root := Normalized(s.root);
    var fin := Finalize(root.scope, id, root, s.clock.completed);
    if root.isActive {
      var dea := Deactivate(root.scope, id, Completion(root, s.clock.superseded));
      var drop := DropSuperseded(root.scope, id);
      var t1 := Exec(t, dea);
      DeactivateFacts(t, root.scope, id, dea.now);
      var t2 := Exec(t1, fin);
      FinalizeFacts(t1, root.scope, id, root, s.clock.completed);
      DropFacts(t2, root.scope, id);
      SafeOne(t, dea);
      SafeOne(t1, fin);
      SafeOne(t2, drop);
      RunOne(t, dea);
      RunOne(t1, fin);
      RunOne(t2, drop);
      SafeConcat(t, [dea], [fin]);
      RunConcat(t, [dea], [fin]);
      SafeConcat(t, [dea] + [fin], [drop]);
      RunConcat(t, [dea] + [fin], [drop]);
    } else {
      FinalizeFacts(t, root.scope, id, root, s.clock.completed);
      SafeOne(t, fin);
      RunOne(t, fin);
      assert Tail(s, id) == [fin];
    }
  }

  // ---- a whole save ----

  /** The tables after the root was upserted. */
  ghost function Rooted(t: Tables, s: Save): Tables
  {
    UpsertRootIn(t, Normalized(s.root), s.clock.created)
  }

  ghost function Stocked(t: Tables, s: Save): Tables
  {
    Run(Rooted(t, s), Body(s, SavedId(t, s)))
  }

  /** The invariant holds before, between and after all statements of every save. */
  lemma SaveIsSafe(t: Tables, s: Save)
    requires Inv(t)
    ensures Safe(t, Plan(t, s)) && Inv(AfterSave(t, s))
    ensures AfterSave(t, s) == Settled(Stocked(t, s), s, SavedId(t, s))
  {
    var id, first := SavedId(t, s), UpsertRoot(Normalized(s.root), s.clock.created);
    var body, tail := Body(s, id), Tail(s, id);
    UpsertRootFacts(t, Normalized(s.root), s.clock.created);
    SafeOne(t, first);
    RunOne(t, first);
    BodyFacts(Rooted(t, s), s, id);
    SafeEnd(Rooted(t, s), body);
    TailFacts(Stocked(t, s), s, id);
    SafeConcat(Rooted(t, s), body, tail);
    RunConcat(Rooted(t, s), body, tail);
    SafeConcat(t, [first], body + tail);
    RunConcat(t, [first], body + tail);
    SafeEnd(t, Plan(t, s));
  }

  /** What one scope looks like: its snapshots, their nodes, its file states. */
  ghost predicate SameScope(t: Tables, t': Tables, scope: Scope)
  {
    && (forall i :: SnapshotIn(t', scope, i) <==> SnapshotIn(t, scope, i))
    && (forall i :: SnapshotIn(t, scope, i) ==> t'.snapshots[i] == t.snapshots[i] && NodesOf(t', i) == NodesOf(t, i))
    && FilesIn(t', scope) == FilesIn(t, scope)
  }

  /** The tables hold exactly this save for its scope. */
  ghost predicate Holds(t: Tables, s: Save, id: int)
  {
    && RootAt(t, s.root.scope, s.root.rootHash, id)
    && t.snapshots[id].active == s.root.isActive
    && t.snapshots[id].status == (if s.root.status == "" then STATUS_PENDING else s.root.status)
    && t.snapshots[id].completedAt == (if s.root.isActive then Some(Completion(s.root, s.clock.completed)) else s.root.completedAt)
    && NodesOf(t, id) == UpsertedNodes(map[], s.nodes)
    && FilesIn(t, s.root.scope) == UpsertedFiles(map[], s.files, id, s.clock.deleted)
    && (s.root.isActive ==> forall i :: SnapshotIn(t, s.root.scope, i) && i != id ==> !t.snapshots[i].active && NodesOf(t, i) == map[])
  }

  /** What the closing statements do to one row. */
  function SettledRow(row: SnapshotRow, s: Save, mine: bool): SnapshotRow
  {
    var root := Normalized(s.root);
    if mine then Finalized(row, root, s.clock.completed)
    else if root.isActive && row.scope == root.scope && row.active then Superseded(row, Completion(root, s.clock.superseded))
    else row
  }

  lemma SettledIs(t: Tables, s: Save, id: int)
    requires SnapshotIn(t, s.root.scope, id)
    ensures Settled(t, s, id).snapshots == map i | i in t.snapshots :: SettledRow(t.snapshots[i], s, i == id)
    ensures Settled(t, s, id).files == t.files
    ensures Settled(t, s, id).nodes ==
      if s.root.isActive then map i | i in t.nodes && !(SnapshotIn(t, s.root.scope, i) && i != id) :: t.nodes[i] else t.nodes
  {
  }

  lemma SettledActive(t: Tables, s: Save, id: int)
    requires RootAt(t, s.root.scope, s.root.rootHash, id) && s.root.isActive
    ensures
      var t' := Settled(t, s, id);
      && t'.snapshots.Keys == t.snapshots.Keys && t'.files == t.files
      && (forall i :: i in t.snapshots ==> t'.snapshots[i].scope == t.snapshots[i].scope && t'.snapshots[i].rootHash == t.snapshots[i].rootHash)
      && t'.snapshots[id] == Finalized(t.snapshots[id], Normalized(s.root), s.clock.completed) && NodesOf(t', id) == NodesOf(t, id)
      && (forall i :: i in t.snapshots && t.snapshots[i].scope != s.root.scope ==> t'.snapshots[i] == t.snapshots[i] && NodesOf(t', i) == NodesOf(t, i))
      && (forall i :: SnapshotIn(t, s.root.scope, i) && i != id ==> !t'.snapshots[i].active && NodesOf(t', i) == map[])
  {
    SettledIs(t, s, id);
  }

  lemma SettledInactive(t: Tables, s: Save, id: int)
    requires RootAt(t, s.root.scope, s.root.rootHash, id) && !s.root.isActive
    ensures
      var t' := Settled(t, s, id);
      && t'.snapshots.Keys == t.snapshots.Keys && t'.files == t.files && t'.nodes == t.nodes
      && (forall i :: i in t.snapshots && i != id ==> t'.snapshots[i] == t.snapshots[i])
      && t'.snapshots[id] == Finalized(t.snapshots[id], Normalized(s.root), s.clock.completed)
  {
    SettledIs(t, s, id);
  }

  lemma {:induction false} SettledHolds(t: Tables, s: Save, id: int)
    requires RootAt(t, s.root.scope, s.root.rootHash, id)
    requires NodesOf(t, id) == UpsertedNodes(map[], s.nodes)
    requires FilesIn(t, s.root.scope) == UpsertedFiles(map[], s.files, id, s.clock.deleted)
    ensures Holds(Settled(t, s, id), s, id)
  {
    if s.root.isActive {
      SettledActive(t, s, id);
    } else {
      SettledInactive(t, s, id);
    }
  }

  lemma SettledOthers(t: Tables, s: Save, id: int, other: Scope)
    requires RootAt(t, s.root.scope, s.root.rootHash, id) && other != s.root.scope
    ensures SameScope(t, Settled(t, s, id), other)
  {
    if s.root.isActive {
      SettledActive(t, s, id);
    } else {
      SettledInactive(t, s, id);
    }
  }

  lemma StockedFacts(t: Tables, s: Save)
    requires Inv(t)
    ensures Inv(Stocked(t, s)) && RootAt(Stocked(t, s), s.root.scope, s.root.rootHash, SavedId(t, s))
    ensures NodesOf(Stocked(t, s), SavedId(t, s)) == UpsertedNodes(map[], s.nodes)
    ensures FilesIn(Stocked(t, s), s.root.scope) == UpsertedFiles(map[], s.files, SavedId(t, s), s.clock.deleted)
    ensures Stocked(t, s).snapshots == Rooted(t, s).snapshots
    ensures forall other :: other != s.root.scope ==> SameScope(t, Stocked(t, s), other)
  {
    var id, t' := SavedId(t, s), Stocked(t, s);
    UpsertRootFacts(t, Normalized(s.root), s.clock.created);
    BodyFacts(Rooted(t, s), s, id);
    SafeEnd(Rooted(t, s), Body(s, id));
    RootIdFacts(t, s.root.scope, s.root.rootHash);
    forall other | other != s.root.scope
      ensures SameScope(t, t', other)
    {
      OtherScopeKept(t, Rooted(t, s), t', s.root.scope, id, other);
    }
  }

  lemma OtherScopeKept(t: Tables, mid: Tables, t': Tables, scope: Scope, id: int, other: Scope)
    requires other != scope && SnapshotIn(mid, scope, id) && OnlyContents(mid, t', scope, id)
    requires mid.snapshots.Keys == t.snapshots.Keys + {id} && mid.nodes == t.nodes && mid.files == t.files
    requires forall i :: i in t.snapshots && i != id ==> mid.snapshots[i] == t.snapshots[i]
    requires id in t.snapshots ==> t.snapshots[id].scope == scope
    ensures SameScope(t, t', other)
  {
  }

  /** A committed save: its row, its nodes and its file states and no others; other scopes are untouched. */
  lemma SaveEffect(t: Tables, s: Save)
    requires Inv(t)
    ensures Inv(AfterSave(t, s)) && Holds(AfterSave(t, s), s, SavedId(t, s))
    ensures forall other :: other != s.root.scope ==> SameScope(t, AfterSave(t, s), other)
  {
    SaveIsSafe(t, s);
    StockedFacts(t, s);
    SettledHolds(Stocked(t, s), s, SavedId(t, s));
    forall other | other != s.root.scope
      ensures SameScope(t, AfterSave(t, s), other)
    {
      SettledOthers(Stocked(t, s), s, SavedId(t, s), other);
      assert SameScope(t, Stocked(t, s), other) && SameScope(Stocked(t, s), AfterSave(t, s), other);
    }
  }

  /** After an active save the snapshot that is loaded is the saved one. */
  lemma ActiveIsLatest(t: Tables, s: Save, id: int, latest: int)
    requires Holds(t, s, id) && s.root.isActive
    ensures IsLatest(t, s.root.scope, latest) <==> latest == id
  {
  }

  // ---- a save that is not active ----

  ghost predicate HasActive(t: Tables, scope: Scope)
  {
    exists i :: ActiveIn(t, scope, i)
  }

  /** A save that is not active leaves the scope with an active snapshot exactly when one with another
      root hash was active before: re-saving the active root hash deactivates the scope. */
  lemma InactiveSave(t: Tables, s: Save)
    requires Inv(t) && !s.root.isActive
    ensures HasActive(AfterSave(t, s), s.root.scope)
       <==> exists i :: ActiveIn(t, s.root.scope, i) && t.snapshots[i].rootHash != s.root.rootHash
  {
    var scope, id := s.root.scope, SavedId(t, s);
    SaveIsSafe(t, s);
    StockedFacts(t, s);
    SettledInactive(Stocked(t, s), s, id);
    UpsertRootFacts(t, Normalized(s.root), s.clock.created);
    RootIdFacts(t, scope, s.root.rootHash);
    forall i
      ensures ActiveIn(AfterSave(t, s), scope, i) <==> ActiveIn(t, scope, i) && t.snapshots[i].rootHash != s.root.rootHash
    {
      ActiveAfterInactive(t, Stocked(t, s), AfterSave(t, s), scope, s.root.rootHash, id, i);
    }
  }

  lemma ActiveAfterInactive(t: Tables, mid: Tables, t': Tables, scope: Scope, hash: string, id: int, i: int)
    requires RootAt(t, scope, hash, id) || (id !in t.snapshots && forall j :: !RootAt(t, scope, hash, j))
    requires forall j :: RootAt(t, scope, hash, j) ==> j == id
    requires mid.snapshots.Keys == t.snapshots.Keys + {id} == t'.snapshots.Keys
    requires i in t.snapshots && i != id ==> mid.snapshots[i] == t.snapshots[i]
    requires i in mid.snapshots && i != id ==> t'.snapshots[i] == mid.snapshots[i]
    requires !t'.snapshots[id].active
    ensures ActiveIn(t', scope, i) <==> ActiveIn(t, scope, i) && t.snapshots[i].rootHash != hash
  {
    assert i in t.snapshots && t.snapshots[i].scope == scope && t.snapshots[i].rootHash == hash ==> RootAt(t, scope, hash, i);
  }

  // ---- parent links ----

  ghost function ParentOf(t: Tables, id: int): Option<int>
  {
    if id in t.snapshots then t.snapshots[id].parent else None
  }

  /** A save sets its own parent link, unless none is given, and leaves the others. */
  lemma SaveParents(t: Tables, s: Save)
    requires Inv(t)
    ensures ParentOf(AfterSave(t, s), SavedId(t, s)) == Coalesce(s.root.parent, ParentOf(t, SavedId(t, s)))
    ensures forall i :: i in t.snapshots && i != SavedId(t, s) ==> ParentOf(AfterSave(t, s), i) == ParentOf(t, i)
    ensures AfterSave(t, s).snapshots.Keys == t.snapshots.Keys + {SavedId(t, s)}
    ensures forall i :: i in t.snapshots ==>
      i in AfterSave(t, s).snapshots && AfterSave(t, s).snapshots[i].scope == t.snapshots[i].scope &&
      AfterSave(t, s).snapshots[i].rootHash == t.snapshots[i].rootHash
  {
    var id := SavedId(t, s);
    SaveIsSafe(t, s);
    StockedFacts(t, s);
    UpsertRootFacts(t, Normalized(s.root), s.clock.created);
    RootIdFacts(t, s.root.scope, s.root.rootHash);
    SettledRows(Stocked(t, s), s, id);
    assert id in t.snapshots ==> RootAt(t, s.root.scope, s.root.rootHash, id);
  }

  lemma SettledRows(t: Tables, s: Save, id: int)
    requires RootAt(t, s.root.scope, s.root.rootHash, id)
    ensures Settled(t, s, id).snapshots.Keys == t.snapshots.Keys
    ensures forall i :: i in t.snapshots ==>
      Settled(t, s, id).snapshots[i].scope == t.snapshots[i].scope &&
      Settled(t, s, id).snapshots[i].rootHash == t.snapshots[i].rootHash
    ensures forall i :: i in t.snapshots ==>
      Settled(t, s, id).snapshots[i].parent == if i == id then Coalesce(s.root.parent, t.snapshots[i].parent) else t.snapshots[i].parent
  {
    SettledIs(t, s, id);
  }

  // ---- the nodes of a snapshot ----

  /** snapshotEntriesToMerkleNodes */
  function NodeOf(e: Entry): MerkleNode
  {
    MerkleNode(e.path, e.parentPath, e.nodeType, e.nodeHash, e.parentHash, e.contentHash, e.sizeBytes, e.mtimeNS, "active")
  }

  function NodesFor(entries: seq<Entry>): (ns: seq<MerkleNode>)
    ensures |ns| == |entries|
  {
    seq(|entries|, i requires 0 <= i < |entries| => NodeOf(entries[i]))
  }

  /** Saving a snapshot's entries as nodes stores exactly their rows. */
  lemma {:induction false} NodesAreSavedRows(entries: seq<Entry>)
    ensures UpsertedNodes(map[], NodesFor(entries)) == SavedRows(entries)
  {
    if entries != [] {
      var front := entries[..|entries| - 1];
      NodesAreSavedRows(front);
      assert NodesFor(entries)[..|entries| - 1] == NodesFor(front);
    }
  }

  // ---- runs ----

  /** One call of SaveSnapshotState: it commits, or an error anywhere rolls everything back. */
  datatype Attempt = Attempt(save: Save, committed: bool)

  ghost function AfterAttempts(t: Tables, attempts: seq<Attempt>): Tables
  {
    if attempts == [] then t
    else
      var before, last := AfterAttempts(t, attempts[..|attempts| - 1]), attempts[|attempts| - 1];
      if last.committed then AfterSave(before, last.save) else before
  }

  /** The last committed save of a scope. */
  function LastCommitted(attempts: seq<Attempt>, scope: Scope): Option<Save>
  {
    if attempts == [] then None
    else
      var last := attempts[|attempts| - 1];
      if last.committed && last.save.root.scope == scope then Some(last.save)
      else LastCommitted(attempts[..|attempts| - 1], scope)
  }

  /** The scope is as its last committed save left it; without one it has no snapshot and no file state. */
  ghost predicate ScopeReflects(t: Tables, scope: Scope, last: Option<Save>)
  {
    match last
    case None => (forall i :: !SnapshotIn(t, scope, i)) && FilesIn(t, scope) == map[]
    case Some(s) => exists id :: Holds(t, s, id)
  }

  lemma SameScopeReflects(t: Tables, t': Tables, scope: Scope, last: Option<Save>)
    requires SameScope(t, t', scope) && ScopeReflects(t, scope, last)
    requires last.Some? ==> last.value.root.scope == scope
    ensures ScopeReflects(t', scope, last)
  {
    if last.Some? {
      var id :| Holds(t, last.value, id);
      assert Holds(t', last.value, id);
    }
  }

  lemma {:induction false} LastCommittedScope(attempts: seq<Attempt>, scope: Scope)
    ensures LastCommitted(attempts, scope).Some? ==> LastCommitted(attempts, scope).value.root.scope == scope
  {
    if attempts != [] {
      LastCommittedScope(attempts[..|attempts| - 1], scope);
    }
  }

  /** Over every run of saves, failed ones included: the invariant holds and every scope is exactly
      as its last committed save left it. */
  lemma {:induction false} RunsOfSaves(attempts: seq<Attempt>, scope: Scope)
    ensures Inv(AfterAttempts(EMPTY, attempts))
    ensures ScopeReflects(AfterAttempts(EMPTY, attempts), scope, LastCommitted(attempts, scope))
  {
    if attempts != [] {
      var front, last := attempts[..|attempts| - 1], attempts[|attempts| - 1];
      RunsOfSaves(front, scope);
      if last.committed {
        var t := AfterAttempts(EMPTY, front);
        SaveEffect(t, last.save);
        if last.save.root.scope != scope {
          LastCommittedScope(front, scope);
          SameScopeReflects(t, AfterSave(t, last.save), scope, LastCommitted(front, scope));
        }
      }
    }
  }
}
