/** An execution without failures saves, and SyncWorker.run as it drives the store and the queue
    (internal/jobs/river/sync_worker.go). */
module SyncWorking {
  import opened Outcomes
  import opened GoStrings
  import opened Sorting
  import opened DisjointMaps
  import opened MerkleHash
  import opened FlatDiff
  import opened MerkleDiff
  import opened NodeTree
  import opened SnapshotTree
  import opened SnapshotBuild
  import opened SnapshotRestore
  import opened ChunkIndex
  import opened IndexFacts
  import opened Worlds
  import opened SyncWorker
  import Store = SnapshotStore
  import Facts = SnapshotStoreFacts
  import SnapshotStoring
  import MerkleDiffing
  import IndexWorker
  import DeltaPaths

  // ---- the entries of a snapshot are valid nodes and file states ----

  predicate ValidEntry(e: Entry)
  {
    TrimSpace(e.path) != "" && TrimSpace(e.nodeHash) != "" && e.nodeType != ""
  }

  predicate Stamped(e: Entry)
  {
    IsHex64(e.nodeHash) && KnownType(e.nodeType)
  }

  ghost predicate AllStamped(t: Tree)
  {
    forall c :: c in t.children ==> Stamped(c.entry) && AllStamped(c)
  }

  lemma {:induction false} HashedStamped(H: string -> string, t: Tree)
    requires IsDigest(H) && Hashed(H, t) && WfTree(t)
    ensures AllStamped(t)
    decreases t
  {
    forall i | 0 <= i < |t.children|
      ensures Stamped(t.children[i].entry) && AllStamped(t.children[i])
    {
      assert t.children[i] in t.children;
      HashedStamped(H, t.children[i]);
    }
  }

  lemma {:induction false} StampedBelow(t: Tree, q: string)
    requires AllStamped(t) && Tidy(t) && q in EntriesBelow(t)
    ensures Stamped(EntriesBelow(t)[q])
    decreases t
  {
    EntriesDisjoint(t);
    var i := Owner(EachEntries(t.children), q);
    Owned(EachEntries(t.children), i, q);
    var c := t.children[i];
    assert c in t.children;
    if q != c.entry.path {
      StampedBelow(c, q);
    }
  }

  lemma EntriesValid(H: string -> string, w: World, i: nat)
    requires IsDigest(H) && WorldOk(w) && Taken(H, w).Ok? && i < |EntriesOf(w, Taken(H, w).value)|
    ensures ValidEntry(EntriesOf(w, Taken(H, w).value)[i])
  {
    var s := Taken(H, w).value;
    SnapshotBuilt(H, w.entries, w.disk);
    WalkListing(H, w.entries, w.disk);
    RootHashIsDigest(H, w);
    EntriesOk(s.root);
    var e := EntriesOf(w, s)[i];
    assert EntriesBelow(s.root)[e.path] == e;
    HashedStamped(H, s.root);
    StampedBelow(s.root, e.path);
    DigestNotBlank(e.nodeHash);
    NormalBase(e.path);
  }

  lemma {:induction false} NoNodeErrors(entries: seq<Entry>)
    requires forall i :: 0 <= i < |entries| ==> ValidEntry(entries[i])
    ensures Store.FirstNodeError(Facts.NodesFor(entries)) == None
  {
    if entries != [] {
      NoNodeErrors(entries[1..]);
      assert Facts.NodesFor(entries)[1..] == Facts.NodesFor(entries[1..]);
      assert ValidEntry(entries[0]);
    }
  }

  lemma {:induction false} NoFileErrors(scope: Scope, files: seq<Store.FileState>)
    requires forall f :: f in files ==> Store.FileError(scope, f) == None
    ensures Store.FirstFileError(scope, files) == None
  {
    if files != [] {
      NoFileErrors(scope, files[1..]);
    }
  }

  lemma {:induction false} FileStatesValid(scope: Scope, entries: seq<Entry>)
    requires Store.ScopeError(scope).None? && forall i :: 0 <= i < |entries| ==> ValidEntry(entries[i])
    ensures forall f :: f in FileStatesFor(scope, entries) ==> Store.FileError(scope, f) == None
  {
    if entries != [] {
      FileStatesValid(scope, entries[..|entries| - 1]);
      assert ValidEntry(entries[|entries| - 1]);
    }
  }

  /** The save of a walked state passes all validation. */
  lemma SaveIsValid(H: string -> string, scope: Scope, w: World, parent: Option<int>, fate: Fate)
    requires IsDigest(H) && WorldOk(w) && Taken(H, w).Ok? && Store.ScopeError(scope).None?
    ensures Store.SaveError(SaveFor(scope, w, Taken(H, w).value, parent, fate)) == None
  {
    var entries := EntriesOf(w, Taken(H, w).value);
    forall i | 0 <= i < |entries|
      ensures ValidEntry(entries[i])
    {
      EntriesValid(H, w, i);
    }
    RootHashIsDigest(H, w);
    NoNodeErrors(entries);
    FileStatesValid(scope, entries);
    NoFileErrors(scope, FileStatesFor(scope, entries));
  }

  /** Progress: an execution in which the walk, the load and the save succeed saves the state,
      unless it is the stored one already. */
  lemma FaultFreeSaves(c: Setting, t: Store.Tables, saved: seq<World>, w: World, fate: Fate, hashed: set<string>)
    requires IsDigest(c.H) && NoCollision(c.H, hashed) && Store.ScopeError(c.scope).None? && Tracks(c, t, saved)
    requires Ready(c, w, hashed) && (saved != [] ==> Ready(c, saved[|saved| - 1], hashed))
    requires !fate.walkFails && !fate.loadFails && fate.save != RolledBack
    ensures Taken(c.H, w).Ok? && (saved != [] ==> Taken(c.H, saved[|saved| - 1]).Ok?)
    ensures Execute(c, w, t, fate).saved
       <==> (saved == [] || Taken(c.H, saved[|saved| - 1]).value.rootHash != Taken(c.H, w).value.rootHash)
  {
    PreviousIsReloaded(c, t, saved);
    RootHashIsDigest(c.H, w);
    DeltaTouches(c, saved, w, hashed);
    ChangesForParts(c, saved, w);
    SaveIsValid(c.H, c.scope, w, LatestId(t, c.scope), fate);
    NoneIsLatest(c, t, saved);
    PreparedUnlessCurrent(c, w, t, fate, Reloaded(c.H, saved).value);
  }

  lemma ChangesForParts(c: Setting, saved: seq<World>, w: World)
    requires ChangesFor(c.H, saved, w).Ok?
    ensures Taken(c.H, w).Ok? && Reloaded(c.H, saved).Ok?
    ensures SnapshotChanges(Reloaded(c.H, saved).value, Some(Taken(c.H, w).value)).Ok?
  {
  }

  lemma NoneIsLatest(c: Setting, t: Store.Tables, saved: seq<World>)
    requires Tracks(c, t, saved)
    ensures saved == [] ==> LatestId(t, c.scope) == None
  {
    if saved == [] {
      assert forall id :: !Store.IsLatest(t, c.scope, id);
    }
  }

  lemma PreparedUnlessCurrent(c: Setting, w: World, t: Store.Tables, fate: Fate, previous: Option<Snapshot>)
    requires Store.ScopeError(c.scope).None? && !fate.walkFails && !fate.loadFails && fate.save != RolledBack
    requires Taken(c.H, w).Ok? && PreviousSnapshot(t, LatestId(t, c.scope)) == Ok(previous)
    requires SnapshotChanges(previous, Some(Taken(c.H, w).value)).Ok?
    requires Store.SaveError(SaveFor(c.scope, w, Taken(c.H, w).value, LatestId(t, c.scope), fate)) == None
    ensures
      var latest := LatestId(t, c.scope);
      Execute(c, w, t, fate).saved
      <==> !(latest.Some? && TrimSpace(t.snapshots[latest.value].rootHash) == Taken(c.H, w).value.rootHash)
  {
  }

  // ---- the job ----

  method SnapshotEntriesToMerkleNodes(entries: seq<Entry>) returns (nodes: seq<Store.MerkleNode>)
    ensures nodes == Facts.NodesFor(entries)
  {
    nodes := [];
    for i := 0 to |entries|
      invariant nodes == Facts.NodesFor(entries[..i])
    {
      assert Facts.NodesFor(entries[..i + 1]) == Facts.NodesFor(entries[..i]) + [Facts.NodeOf(entries[i])];
      nodes := nodes + [Facts.NodeOf(entries[i])];
    }
    assert entries[..|entries|] == entries;
  }

  method SnapshotEntriesToFileStates(scope: Scope, entries: seq<Entry>) returns (states: seq<Store.FileState>)
    ensures states == FileStatesFor(scope, entries)
  {
    states := [];
    for i := 0 to |entries|
      invariant states == FileStatesFor(scope, entries[..i])
    {
      assert entries[..i + 1][..i] == entries[..i];
      if entries[i].nodeType == NODE_FILE {
        states := states + [FileStateOf(scope, entries[i])];
      }
    }
    assert entries[..|entries|] == entries;
  }

  class SyncJob {
    const store: SnapshotStoring.SyncStore
    /** Every payload whose enqueuing was attempted. */
    var attempts: seq<IndexWorker.Payload>

    constructor (store: SnapshotStoring.SyncStore)
      ensures this.store == store && attempts == []
    {
      this.store := store;
      attempts := [];
    }

    /** latestSnapshotForDiff: the rebuilt snapshot and its id. */
    method LatestSnapshotForDiff(state: Option<SnapshotStoring.SnapshotState>) returns (r: Result<Option<Snapshot>>, parent: Option<int>)
      ensures state.None? ==> r == Ok(None) && parent == None
      ensures state.Some? && TrimSpace(state.value.root.rootHash) == "" ==> r == Err("latest snapshot root_hash is required")
      ensures state.Some? && TrimSpace(state.value.root.rootHash) != "" ==>
        var restored := RestoredSnapshot(state.value.nodes, state.value.root.rootHash);
        r == if restored.Ok? then Ok(Some(restored.value)) else Err(restored.error)
      ensures state.Some? && r.Ok? ==> parent == Some(state.value.id)
    {
      parent := None;
      if state.None? {
        return Ok(None), None;
      }
      if TrimSpace(state.value.root.rootHash) == "" {
        return Err("latest snapshot root_hash is required"), None;
      }
      var s := SnapshotFromMerkleNodes(state.value.nodes, state.value.root.rootHash);
      if s.Err? {
        return Err(s.error), None;
      }
      return Ok(Some(s.value)), Some(state.value.id);
    }

    /** Everything before the save; nothing is changed. */
    method PrepareRun(c: Setting, w: World, fate: Fate) returns (plan: Plan)
      ensures plan == Prepare(c, w, store.tables, fate)
    {
      var invalid := Store.ScopeError(c.scope);
      if invalid.Some? {
        return Stop(Failed(invalid.value));
      }
      if fate.walkFails {
        return Stop(Failed("build sync snapshot"));
      }
      var taken := Taken(c.H, w);
      if taken.Err? {
        return Stop(Failed(taken.error));
      }
      if fate.loadFails {
        return Stop(Failed("load latest snapshot"));
      }
      var loaded := store.LoadLatestSnapshot(c.scope);
      var state := loaded.value;
      LoadedIsLatest(store.tables, c.scope, state);
      if state.Some? && TrimSpace(state.value.root.rootHash) == taken.value.rootHash {
        return Stop(AlreadyCurrent);
      }
      var previous, parent := LatestSnapshotForDiff(state);
      if previous.Err? {
        return Stop(Failed(previous.error));
      }
      var delta, err := MerkleDiffing.DiffSnapshots(previous.value, Some(taken.value));
      if err.Some? {
        return Stop(Failed(err.value));
      }
      return Proceed(taken.value, parent, delta.previousRootHash, delta.changes);
    }

    /** The save, and the enqueuing of a delta that is not empty. */
    method SaveThenEnqueue(c: Setting, save: Store.Save, previousRootHash: string, changes: seq<FileDelta>, fate: Fate) returns (outcome: Outcome)
      requires Store.Inv(store.tables)
      modifies this`attempts, store
      ensures Store.Inv(store.tables)
      ensures Did(SaveAndEnqueue(c, old(store.tables), save, previousRootHash, changes, fate), old(attempts), outcome)
    {
      var faults: Faults := if fate.save == RolledBack then (k: nat) => true else (k: nat) => false;
      FaultsAreFate(save, faults, fate.save);
      SavedHash(store.tables, save);
      var saved := store.SaveSnapshotState(save, faults);
      if saved.Err? {
        return Failed(saved.error);
      }
      if fate.save == AckLost {
        return Failed("save snapshot state");
      }
      if changes == [] {
        return SavedNoDeltas;
      }
      var link := DeltaPaths.Link(save.root.parent, saved.value.id, previousRootHash, saved.value.row.rootHash);
      var delta := DeltaPaths.SyncDeltaFromSet(c.scope, link, changes);
      attempts := attempts + [IndexWorker.Payload(c.scope.sessionID, c.scope.repoRoot, IndexWorker.PURPOSE_APPLY_DELTA,
                                                  saved.value.id, saved.value.row.rootHash, delta)];
      return EnqueueOutcome(fate.enqueue);
    }

    /** The store, the queue and the outcome are what the step says. */
    ghost predicate Did(step: Step, before: seq<IndexWorker.Payload>, outcome: Outcome)
      reads this, store
    {
      && store.tables == step.tables && outcome == step.outcome
      && attempts == before + if step.attempted.Some? then [step.attempted.value] else []
    }

    /** One execution of the job. */
    method Run(c: Setting, w: World, fate: Fate) returns (outcome: Outcome)
      requires Store.Inv(store.tables)
      modifies this`attempts, store
      ensures Store.Inv(store.tables)
      ensures Did(Execute(c, w, old(store.tables), fate), old(attempts), outcome)
    {
      var plan := PrepareRun(c, w, fate);
      if plan.Stop? {
        return plan.outcome;
      }
      var save := MakeSave(c.scope, w, plan.current, plan.latest, fate);
      outcome := SaveThenEnqueue(c, save, plan.previousRootHash, plan.changes, fate);
    }
  }

  method MakeSave(scope: Scope, w: World, s: Snapshot, parent: Option<int>, fate: Fate) returns (save: Store.Save)
    ensures save == SaveFor(scope, w, s, parent, fate)
  {
    var entries := CopyBack(Sort(EntryLe, w.entries), s.root);
    var nodes := SnapshotEntriesToMerkleNodes(entries);
    var states := SnapshotEntriesToFileStates(scope, entries);
    var root := Store.SnapshotRoot(scope, s.rootHash, parent, "active", true, Some(fate.now));
    return Store.Save(root, nodes, states, fate.clock);
  }

  /** The row that is returned carries the saved root hash. */
  lemma SavedHash(t: Store.Tables, save: Store.Save)
    requires Store.Inv(t)
    ensures Store.RootAt(Store.AfterSave(t, save), save.root.scope, save.root.rootHash, Store.SavedId(t, save))
  {
    Facts.SaveEffect(t, save);
  }

  lemma LoadedIsLatest(t: Store.Tables, scope: Scope, state: Option<SnapshotStoring.SnapshotState>)
    requires state.None? ==> forall id :: !Store.SnapshotIn(t, scope, id)
    requires state.Some? ==> Store.IsLatest(t, scope, state.value.id)
    ensures LatestId(t, scope) == if state.Some? then Some(state.value.id) else None
  {
    if state.Some? {
      LatestIdIs(t, scope, state.value.id);
    } else {
      assert forall id :: !Store.IsLatest(t, scope, id);
    }
  }

  lemma FaultsAreFate(save: Store.Save, faults: Faults, fate: SaveFate)
    requires forall k: nat :: faults(k) == (fate == RolledBack)
    ensures NoFault(faults, 0, SnapshotStoring.Statements(save) + 1) <==> fate != RolledBack
  {
    assert fate == RolledBack ==> faults(0);
  }
}
