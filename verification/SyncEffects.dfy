/** What an execution of the sync job reports and what it enqueues, in terms of the stored snapshot, the two states of the
    repository and what fails (internal/jobs/river/sync_worker.go). */
module SyncEffects {
  import opened Outcomes
  import opened GoStrings
  import opened StringOrder
  import opened MerkleHash
  import opened FlatDiff
  import opened MerkleDiff
  import opened IndexFacts
  import opened Worlds
  import opened PreimageTexts
  import opened DeltaRecords
  import opened SavedStates
  import opened SyncWorker
  import opened SyncWorking
  import Store = SnapshotStore
  import Facts = SnapshotStoreFacts
  import DeltaApply
  import DeltaPaths
  import IndexWorker

  // ---- the outcome ----

  /** The latest snapshot of the scope has this state's root hash. */
  ghost predicate StoredAlready(c: Setting, t: Store.Tables, w: World)
  {
    && Taken(c.H, w).Ok?
    && exists id :: Store.IsLatest(t, c.scope, id) && t.snapshots[id].rootHash == Taken(c.H, w).value.rootHash
  }

  /** Some file is new, gone, or has other contents or another size. */
  ghost predicate FilesDiffer(v: World, w: World)
  {
    exists p :: (p in v.disk) != (p in w.disk) || (p in v.disk && p in w.disk && (v.disk[p] != w.disk[p] || SizeIn(v, p) != SizeIn(w, p)))
  }

  /** The outcome that the state, the tables and the failures call for. */
  ghost predicate OutcomeFor(c: Setting, t: Store.Tables, v: World, w: World, fate: Fate, outcome: Outcome)
  {
    if fate.walkFails then outcome == Failed("build sync snapshot")
    else if fate.loadFails then outcome == Failed("load latest snapshot")
    else if StoredAlready(c, t, w) then outcome == AlreadyCurrent
    else if fate.save != Committed then outcome == Failed("save snapshot state")
    else if !FilesDiffer(v, w) then outcome == SavedNoDeltas
    else if fate.enqueue == Enqueued then outcome == JobEnqueued
    else if fate.enqueue == Duplicate then outcome == JobDuplicate
    else outcome == Failed("enqueue index job")
  }

  lemma {:induction false} StoredIff(c: Setting, t: Store.Tables, saved: seq<World>, w: World)
    requires IsDigest(c.H) && Tracks(c, t, saved) && Taken(c.H, w).Ok? && (saved != [] ==> WorldOk(saved[|saved| - 1]))
    ensures StoredAlready(c, t, w) <==>
      LatestId(t, c.scope).Some? && TrimSpace(t.snapshots[LatestId(t, c.scope).value].rootHash) == Taken(c.H, w).value.rootHash
  {
    if saved == [] {
      assert forall id :: !Store.IsLatest(t, c.scope, id);
    } else {
      var v := saved[|saved| - 1];
      RootHashIsDigest(c.H, v);
      StoredLatest(t, c.scope, v, Taken(c.H, v).value);
      var id := LatestId(t, c.scope).value;
      assert TrimSpace(t.snapshots[id].rootHash) == t.snapshots[id].rootHash;
      forall other | Store.IsLatest(t, c.scope, other)
        ensures other == id
      {
        LatestIdIs(t, c.scope, other);
      }
    }
  }

  lemma DifferIff(v: World, w: World)
    ensures FilesDiffer(v, w) <==> Changed(v, w) != {} || Vanished(v, w) != {}
  {
    if p :| p in Changed(v, w) {
      assert FilesDiffer(v, w);
    } else if p :| p in Vanished(v, w) {
      assert FilesDiffer(v, w);
    }
    if p :| (p in v.disk) != (p in w.disk) || (p in v.disk && p in w.disk && (v.disk[p] != w.disk[p] || SizeIn(v, p) != SizeIn(w, p))) {
      assert p in Changed(v, w) || p in Vanished(v, w);
    }
  }

  lemma {:induction false} DeltaIff(c: Setting, saved: seq<World>, w: World, hashed: set<string>)
    requires IsDigest(c.H) && NoCollision(c.H, hashed) && Ready(c, w, hashed) && (saved != [] ==> Ready(c, saved[|saved| - 1], hashed))
    ensures ChangesFor(c.H, saved, w).Ok? && (ChangesFor(c.H, saved, w).value == [] <==> !FilesDiffer(LastWorld(saved), w))
  {
    DeltaTouches(c, saved, w, hashed);
    DifferIff(LastWorld(saved), w);
    SomethingCollected(ChangesFor(c.H, saved, w).value);
    assert DeltaPaths.RecordsFor([]) == [];
  }

  /** Every change names a path to upsert or to delete. */
  lemma {:induction false} SomethingCollected(changes: seq<FileDelta>)
    requires DeltaApply.CollectPaths(DeltaPaths.RecordsFor(changes)).Ok?
    ensures changes != [] ==>
      var sets := DeltaApply.CollectPaths(DeltaPaths.RecordsFor(changes)).value;
      sets.upserts != {} || sets.deletes != {}
  {
    if changes != [] {
      var rs := DeltaPaths.RecordsFor(changes);
      var before := DeltaApply.CollectPaths(rs[..|rs| - 1]).value;
      assert DeltaApply.CollectPaths(rs) == DeltaApply.CollectChange(before, rs[|rs| - 1]);
      RecordsCarry(changes);
    }
  }

  /** What is prepared when the walk and the load succeed. */
  lemma {:induction false} PreparedIs(c: Setting, t: Store.Tables, saved: seq<World>, w: World, fate: Fate, hashed: set<string>)
    requires IsDigest(c.H) && NoCollision(c.H, hashed) && Store.ScopeError(c.scope).None? && Tracks(c, t, saved)
    requires Ready(c, w, hashed) && (saved != [] ==> Ready(c, saved[|saved| - 1], hashed))
    requires !fate.walkFails && !fate.loadFails
    ensures Taken(c.H, w).Ok? && Reloaded(c.H, saved).Ok? && ChangesFor(c.H, saved, w).Ok?
    ensures Prepare(c, w, t, fate) ==
      if StoredAlready(c, t, w) then Stop(AlreadyCurrent)
      else Proceed(Taken(c.H, w).value, LatestId(t, c.scope), RootHashOf(Reloaded(c.H, saved).value), ChangesFor(c.H, saved, w).value)
  {
    PreviousIsReloaded(c, t, saved);
    DeltaTouches(c, saved, w, hashed);
    ChangesForParts(c, saved, w);
    StoredIff(c, t, saved, w);
  }

  /** A save with a payload to enqueue, or none. */
  lemma SavedOutcome(c: Setting, t: Store.Tables, save: Store.Save, previousRootHash: string, changes: seq<FileDelta>, fate: Fate)
    requires Store.SaveError(save) == None
    ensures
      var outcome := SaveAndEnqueue(c, t, save, previousRootHash, changes, fate).outcome;
      if fate.save != Committed then outcome == Failed("save snapshot state")
      else if changes == [] then outcome == SavedNoDeltas
      else if fate.enqueue == Enqueued then outcome == JobEnqueued
      else if fate.enqueue == Duplicate then outcome == JobDuplicate
      else outcome == Failed("enqueue index job")
  {
  }

  /** Over every state of the tables that a run can lead to: the job reports that the snapshot is current exactly when the
      latest one has its root hash, no deltas exactly when no file differs, and otherwise what became of the enqueuing. */
  lemma {:induction false} OutcomeIs(c: Setting, t: Store.Tables, saved: seq<World>, w: World, fate: Fate, hashed: set<string>)
    requires IsDigest(c.H) && NoCollision(c.H, hashed) && Store.ScopeError(c.scope).None? && Tracks(c, t, saved)
    requires Ready(c, w, hashed) && (saved != [] ==> Ready(c, saved[|saved| - 1], hashed))
    ensures OutcomeFor(c, t, LastWorld(saved), w, fate, Execute(c, w, t, fate).outcome)
  {
    RootHashIsDigest(c.H, w);
    if !fate.walkFails && !fate.loadFails {
      PreparedIs(c, t, saved, w, fate, hashed);
      DeltaIff(c, saved, w, hashed);
      SaveIsValid(c.H, c.scope, w, LatestId(t, c.scope), fate);
      SavedOutcome(c, t, SaveFor(c.scope, w, Taken(c.H, w).value, LatestId(t, c.scope), fate), RootHashOf(Reloaded(c.H, saved).value),
                   ChangesFor(c.H, saved, w).value, fate);
    }
  }

  // ---- the payload ----

  /** A record of a delta between two states: its file is in one of them, the action says in which, and the hashes are those
      of the file's contents and node text, empty where it is absent. */
  ghost predicate RecordSays(H: string -> string, v: World, w: World, r: DeltaApply.DeltaRecord)
  {
    var p := r.path;
    && (p in v.disk || p in w.disk) && r.nodeType == "file"
    && r.action == (if p !in v.disk then "add" else if p in w.disk then "modify" else "delete")
    && r.previousContentHash == (if p in v.disk then H(v.disk[p]) else "")
    && r.currentContentHash == (if p in w.disk then H(w.disk[p]) else "")
    && r.previousNodeHash == (if p in v.disk then H(FileText(p, H(v.disk[p]), SizeIn(v, p))) else "")
    && r.currentNodeHash == (if p in w.disk then H(FileText(p, H(w.disk[p]), SizeIn(w, p))) else "")
  }

  /** One record for each file that differs, in path order, and no others. */
  ghost predicate RecordsSay(H: string -> string, v: World, w: World, rs: seq<DeltaApply.DeltaRecord>)
  {
    && (forall i :: 0 <= i < |rs| ==> RecordSays(H, v, w, rs[i]))
    && (forall p :: p in Changed(v, w) + Vanished(v, w) <==> exists i :: 0 <= i < |rs| && rs[i].path == p)
    && forall i, j :: 0 <= i < j < |rs| ==> LexLe(rs[i].path, rs[j].path) && rs[i].path != rs[j].path
  }

  /** What the file map of a state's snapshot says about a path. */
  lemma InfoIs(c: Setting, s: Option<Snapshot>, v: World, hashed: set<string>, p: string)
    requires Describes(c, s, v, hashed)
    ensures p in FilesOf(s) <==> p in v.disk
    ensures p in v.disk ==>
      && Recorded(c, FilesOf(s), v, hashed, p)
      && FilesOf(s)[p].contentHash == c.H(v.disk[p]) && FilesOf(s)[p].nodeHash == c.H(FileText(p, c.H(v.disk[p]), SizeIn(v, p)))
  {
    assert p in FilesOf(s).Keys <==> p in v.disk.Keys;
    if p in v.disk {
      assert Recorded(c, FilesOf(s), v, hashed, p);
      FilePreimageText(p, c.H(v.disk[p]), SizeIn(v, p));
    }
  }

  lemma RecordFrom(c: Setting, prev: Option<Snapshot>, v: World, cur: Option<Snapshot>, w: World, hashed: set<string>,
                   d: FileDelta, r: DeltaApply.DeltaRecord)
    requires Describes(c, prev, v, hashed) && Describes(c, cur, w, hashed)
    requires Tells(d, FilesOf(prev), FilesOf(cur)) && CarriesChange(r, d)
    ensures RecordSays(c.H, v, w, r)
  {
    InfoIs(c, prev, v, hashed, d.path);
    InfoIs(c, cur, w, hashed, d.path);
  }

  lemma TouchedIff(c: Setting, prev: Option<Snapshot>, v: World, cur: Option<Snapshot>, w: World, hashed: set<string>, p: string)
    requires IsDigest(c.H) && NoCollision(c.H, hashed) && Describes(c, prev, v, hashed) && Describes(c, cur, w, hashed)
    ensures Touched(FilesOf(prev), FilesOf(cur), p) <==> p in Changed(v, w) + Vanished(v, w)
  {
    InfoIs(c, prev, v, hashed, p);
    InfoIs(c, cur, w, hashed, p);
    if p in v.disk && p in w.disk {
      NodeHashIff(c, FilesOf(prev), v, FilesOf(cur), w, hashed, p);
    }
  }

  /** The records of the delta between the last saved state and this one. */
  lemma {:induction false} RecordsAre(c: Setting, saved: seq<World>, w: World, hashed: set<string>)
    requires IsDigest(c.H) && NoCollision(c.H, hashed) && Ready(c, w, hashed) && (saved != [] ==> Ready(c, saved[|saved| - 1], hashed))
    ensures ChangesFor(c.H, saved, w).Ok?
    ensures RecordsSay(c.H, LastWorld(saved), w, DeltaPaths.RecordsFor(ChangesFor(c.H, saved, w).value))
  {
    var v, prev := LastWorld(saved), LastTaken(c.H, saved);
    TakenDescribes(c, w, hashed);
    LastDescribes(c, saved, hashed);
    ReloadedChanges(c.H, saved, w);
    var cur := Some(Taken(c.H, w).value);
    DescribedPair(c, prev, v, cur, w, hashed);
    ChangesTell(c.H, prev, cur);
    TellingRecords(c, prev, v, cur, w, hashed, SnapshotChanges(prev, cur).value);
  }

  lemma {:induction false} TellingRecords(c: Setting, prev: Option<Snapshot>, v: World, cur: Option<Snapshot>, w: World, hashed: set<string>,
                                          changes: seq<FileDelta>)
    requires IsDigest(c.H) && NoCollision(c.H, hashed) && Describes(c, prev, v, hashed) && Describes(c, cur, w, hashed)
    requires AllTell(changes, FilesOf(prev), FilesOf(cur))
    ensures RecordsSay(c.H, v, w, DeltaPaths.RecordsFor(changes))
  {
    var rs := DeltaPaths.RecordsFor(changes);
    RecordsCarry(changes);
    forall i | 0 <= i < |rs|
      ensures RecordSays(c.H, v, w, rs[i]) && rs[i].path == changes[i].path
    {
      RecordFrom(c, prev, v, cur, w, hashed, changes[i], rs[i]);
    }
    forall p
      ensures p in Changed(v, w) + Vanished(v, w) <==> exists i :: 0 <= i < |rs| && rs[i].path == p
    {
      TouchedIff(c, prev, v, cur, w, hashed, p);
      if i :| 0 <= i < |changes| && changes[i].path == p {
        assert rs[i].path == p;
      }
    }
  }

  /** The payload of the index job: the scope, the row and the root hash of the saved snapshot, the row and the root hash of
      the one before, if any, and one record per file that differs. */
  ghost predicate PayloadSays(c: Setting, t: Store.Tables, t': Store.Tables, v: World, w: World, payload: IndexWorker.Payload)
    requires Taken(c.H, w).Ok?
  {
    var delta := payload.delta;
    && payload.sessionID == delta.sessionID == c.scope.sessionID && payload.repoRoot == delta.repoRoot == c.scope.repoRoot
    && payload.purpose == "index.apply_delta"
    && payload.rootHash == delta.currentRootHash == Taken(c.H, w).value.rootHash
    && Store.IsLatest(t', c.scope, payload.snapshotID) && delta.currentSnapshotID == Some(payload.snapshotID)
    && (if delta.previousSnapshotID.Some?
        then
          && Store.IsLatest(t, c.scope, delta.previousSnapshotID.value)
          && delta.previousRootHash == t.snapshots[delta.previousSnapshotID.value].rootHash
        else (forall id :: !Store.SnapshotIn(t, c.scope, id)) && delta.previousRootHash == "")
    && RecordsSay(c.H, v, w, delta.changes)
  }

  /** Whatever an execution tries to enqueue says exactly what it saved and how the files differ from the state before. */
  lemma {:induction false} PayloadIs(c: Setting, t: Store.Tables, saved: seq<World>, w: World, fate: Fate, hashed: set<string>)
    requires IsDigest(c.H) && NoCollision(c.H, hashed) && Store.ScopeError(c.scope).None? && Tracks(c, t, saved)
    requires Ready(c, w, hashed) && (saved != [] ==> Ready(c, saved[|saved| - 1], hashed))
    requires Execute(c, w, t, fate).attempted.Some?
    ensures Taken(c.H, w).Ok?
    ensures PayloadSays(c, t, Execute(c, w, t, fate).tables, LastWorld(saved), w, Execute(c, w, t, fate).attempted.value)
  {
    ExecuteCases(c, w, t, fate);
    PreviousIsReloaded(c, t, saved);
    RecordsAre(c, saved, w, hashed);
    ChangesForParts(c, saved, w);
    var latest := LatestId(t, c.scope);
    var save := SaveFor(c.scope, w, Taken(c.H, w).value, latest, fate);
    Facts.SaveEffect(t, save);
    Facts.ActiveIsLatest(Store.AfterSave(t, save), save, Store.SavedId(t, save), Store.SavedId(t, save));
    PreviousNamed(c, t, saved);
  }

  /** The latest row is that of the last saved state, with its root hash. */
  lemma {:induction false} PreviousNamed(c: Setting, t: Store.Tables, saved: seq<World>)
    requires IsDigest(c.H) && Tracks(c, t, saved) && (saved != [] ==> WorldOk(saved[|saved| - 1])) && Reloaded(c.H, saved).Ok?
    ensures LatestId(t, c.scope).None? ==> (forall id :: !Store.SnapshotIn(t, c.scope, id)) && RootHashOf(Reloaded(c.H, saved).value) == ""
    ensures LatestId(t, c.scope).Some? ==>
      && Store.IsLatest(t, c.scope, LatestId(t, c.scope).value)
      && RootHashOf(Reloaded(c.H, saved).value) == t.snapshots[LatestId(t, c.scope).value].rootHash
  {
    if saved == [] {
      NoneIsLatest(c, t, saved);
    } else {
      var v := saved[|saved| - 1];
      RootHashIsDigest(c.H, v);
      StoredLatest(t, c.scope, v, Taken(c.H, v).value);
    }
  }
}
