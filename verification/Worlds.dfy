/** The states of a repository, what is hashed for them, and the paths a delta between two of them touches. */
module Worlds {
  import opened Outcomes
  import opened GoStrings
  import opened Sorting
  import opened StringOrder
  import opened Paths
  import opened MerkleHash
  import opened FlatDiff
  import opened MerkleDiff
  import opened NodeTree
  import opened SnapshotTree
  import opened SnapshotBuild
  import opened SnapshotRestore
  import opened WalkFiles
  import opened ChunkIndex
  import opened IndexFacts
  import opened IndexRuns
  import DeltaApply
  import DeltaPaths

  /** One state of the repository: the walked entries and the contents of the files. */
  datatype World = World(entries: seq<Entry>, disk: Disk)

  const NO_WORLD: World := World([], map[])

  ghost predicate WorldOk(w: World)
  {
    WalkOk(w.entries, w.disk) && forall e :: e in w.entries ==> e.contentHash == ""
  }

  function LastWorld(worlds: seq<World>): World
  {
    if worlds == [] then NO_WORLD else worlds[|worlds| - 1]
  }

  function Taken(H: string -> string, w: World): Result<Snapshot>
  {
    SnapshotOf(H, w.entries, w.disk)
  }

  /** The snapshot of the last state, saved as node rows and rebuilt from them. */
  ghost function Reloaded(H: string -> string, worlds: seq<World>): Result<Option<Snapshot>>
  {
    if worlds == [] then Ok(None)
    else
      var w := worlds[|worlds| - 1];
      var s :- Taken(H, w);
      var saved := CopiedBack(Sort(EntryLe, w.entries), EntriesBelow(s.root));
      var loaded :- RestoredSnapshot(InKeyOrder(SavedRows(saved)), s.rootHash);
      Ok(Some(loaded))
  }

  /** The changes the sync job finds in the next state after these states. */
  ghost function ChangesFor(H: string -> string, worlds: seq<World>, w: World): Result<seq<FileDelta>>
  {
    var current :- Taken(H, w);
    var previous :- Reloaded(H, worlds);
    SnapshotChanges(previous, Some(current))
  }

  // ---- what is assumed of a run ----

  /** Everything hashed for one state: tree nodes, file contents and chunks. */
  ghost predicate HashedIn(c: Setting, w: World, hashed: set<string>)
  {
    && (Taken(c.H, w).Ok? ==> Preimages(Taken(c.H, w).value.root) <= hashed)
    && (forall p :: p in w.disk ==> w.disk[p] in hashed)
    && Hashes(c, w.disk, hashed)
  }

  /** A well-formed state whose hashed strings are among these. */
  ghost predicate Ready(c: Setting, w: World, hashed: set<string>)
  {
    WorldOk(w) && HashedIn(c, w, hashed)
  }

  ghost predicate AllReady(c: Setting, worlds: seq<World>, hashed: set<string>)
  {
    worlds == [] || (AllReady(c, worlds[..|worlds| - 1], hashed) && Ready(c, worlds[|worlds| - 1], hashed))
  }

  lemma {:induction false} EachReady(c: Setting, worlds: seq<World>, hashed: set<string>)
    requires forall i :: 0 <= i < |worlds| ==> Ready(c, worlds[i], hashed)
    ensures AllReady(c, worlds, hashed)
  {
    if worlds != [] {
      var front := worlds[..|worlds| - 1];
      assert forall i :: 0 <= i < |front| ==> front[i] == worlds[i];
      EachReady(c, front, hashed);
    }
  }

  /** A normalised scope, a deterministic embedder, no collision. */
  ghost predicate SettingOk(c: Setting, embedder: Embedder, hashed: set<string>)
  {
    && DeltaApply.ScopeOk(c.scope) && TrimSpace(c.scope.sessionID) == c.scope.sessionID
    && Deterministic(c, embedder) && IsDigest(c.H) && NoCollision(c.H, hashed)
  }

  /** The assumptions of a run. */
  ghost predicate RunOk(c: Setting, worlds: seq<World>, embedder: Embedder, hashed: set<string>)
  {
    SettingOk(c, embedder, hashed) && AllReady(c, worlds, hashed)
  }

  lemma DiskPathsNormal(w: World)
    requires WorldOk(w)
    ensures NormalKeys(w.disk.Keys)
  {
    MapOfFacts(w.entries);
    forall p | p in w.disk
      ensures Normal(p)
    {
      var i :| 0 <= i < |w.entries| && w.entries[i].path == p;
    }
  }

  // ---- the paths of a delta ----

  ghost function SizeIn(w: World, p: string): Option<int>
  {
    if p in MapOf(w.entries) then MapOf(w.entries)[p].sizeBytes else None
  }

  /** The files that are new or differ in contents or size. */
  ghost function Changed(prev: World, w: World): set<string>
  {
    set p | p in w.disk && !(p in prev.disk && prev.disk[p] == w.disk[p] && SizeIn(prev, p) == SizeIn(w, p))
  }

  function Vanished(prev: World, w: World): set<string>
  {
    prev.disk.Keys - w.disk.Keys
  }

  /** The snapshot of the last state before reloading. */
  ghost function LastTaken(H: string -> string, worlds: seq<World>): Option<Snapshot>
  {
    if worlds == [] || Taken(H, worlds[|worlds| - 1]).Err? then None else Some(Taken(H, worlds[|worlds| - 1]).value)
  }

  /** Diffing against the reloaded snapshot is diffing against the one that was taken. */
  lemma ReloadedChanges(H: string -> string, worlds: seq<World>, w: World)
    requires IsDigest(H) && WorldOk(w) && (worlds != [] ==> WorldOk(worlds[|worlds| - 1]))
    ensures Taken(H, w).Ok?
    ensures ChangesFor(H, worlds, w) == SnapshotChanges(LastTaken(H, worlds), Some(Taken(H, w).value))
  {
    SnapshotBuilt(H, w.entries, w.disk);
    if worlds != [] {
      var v := worlds[|worlds| - 1];
      WalkRestores(H, v.entries, v.disk, Some(Taken(H, w).value));
    }
  }

  /** A snapshot, or none, of this state. */
  ghost predicate Describes(c: Setting, s: Option<Snapshot>, w: World, hashed: set<string>)
  {
    && (s.Some? ==> SnapshotOk(c.H, s.value))
    && SnapshotPreimages(s) <= hashed
    && FilesOf(s).Keys == w.disk.Keys && NormalKeys(w.disk.Keys)
    && forall p :: p in w.disk ==> Recorded(c, FilesOf(s), w, hashed, p)
  }

  /** The file's record, and the strings hashed for it. */
  ghost predicate Recorded(c: Setting, files: FileMap, w: World, hashed: set<string>, p: string)
    requires p in w.disk
  {
    && p in files && files[p] == InfoFor(c.H, p, w.disk[p], SizeIn(w, p))
    && w.disk[p] in hashed && FilePreimage(p, c.H(w.disk[p]), SizeIn(w, p)) in hashed
  }

  lemma FileRecorded(c: Setting, w: World, hashed: set<string>, p: string)
    requires IsDigest(c.H) && Ready(c, w, hashed) && p in w.disk
    ensures Taken(c.H, w).Ok? && Recorded(c, Files(Taken(c.H, w).value.root), w, hashed, p)
  {
    WalkFilesAre(c.H, w.entries, w.disk);
    WalkPreimage(c.H, w.entries, w.disk, p);
    assert SizesOf(MapOf(w.entries))[p] == SizeIn(w, p);
  }

  lemma TakenDescribes(c: Setting, w: World, hashed: set<string>)
    requires IsDigest(c.H) && Ready(c, w, hashed)
    ensures Taken(c.H, w).Ok? && Describes(c, Some(Taken(c.H, w).value), w, hashed)
  {
    SnapshotBuilt(c.H, w.entries, w.disk);
    DiskPathsNormal(w);
    forall p | p in w.disk
      ensures Recorded(c, Files(Taken(c.H, w).value.root), w, hashed, p)
    {
      FileRecorded(c, w, hashed, p);
    }
  }

  lemma NothingDescribed(c: Setting, hashed: set<string>)
    ensures Describes(c, None, NO_WORLD, hashed)
  {
  }

  lemma LastDescribes(c: Setting, worlds: seq<World>, hashed: set<string>)
    requires IsDigest(c.H) && (worlds != [] ==> Ready(c, worlds[|worlds| - 1], hashed))
    ensures Describes(c, LastTaken(c.H, worlds), LastWorld(worlds), hashed)
  {
    if worlds == [] {
      NothingDescribed(c, hashed);
    } else {
      TakenDescribes(c, worlds[|worlds| - 1], hashed);
    }
  }

  lemma DescribedPair(c: Setting, prev: Option<Snapshot>, v: World, cur: Option<Snapshot>, w: World, hashed: set<string>)
    requires NoCollision(c.H, hashed) && Describes(c, prev, v, hashed) && Describes(c, cur, w, hashed)
    ensures SnapshotsOk(c.H, prev, cur)
  {
    NoCollisionPart(c.H, hashed, SnapshotPreimages(prev) + SnapshotPreimages(cur));
  }

  /** The files that are new or have another node hash. */
  ghost function Rehashed(fa: FileMap, fb: FileMap): set<string>
  {
    set p | p in fb && (p !in fa || fa[p].nodeHash != fb[p].nodeHash)
  }

  /** The changes between well-formed snapshots have distinct normal paths, so that the applier's and
      MaterializeChangedFiles' upserts and deletes agree: the paths added or modified, and the paths removed. */
  lemma DiffPaths(H: string -> string, prev: Option<Snapshot>, cur: Option<Snapshot>)
    requires IsDigest(H) && SnapshotsOk(H, prev, cur)
    requires NormalKeys(FilesOf(prev).Keys) && NormalKeys(FilesOf(cur).Keys)
    ensures SnapshotChanges(prev, cur).Ok?
    ensures
      var changes := SnapshotChanges(prev, cur).value;
      var fa, fb := FilesOf(prev), FilesOf(cur);
      && DeltaPaths.TrimmedUpserts(changes) == Rehashed(fa, fb) && DeltaPaths.TrimmedDeletes(changes) == fa.Keys - fb.Keys
      && DeltaApply.CollectPaths(DeltaPaths.RecordsFor(changes)) == Ok(DeltaApply.PathSets(Rehashed(fa, fb), fa.Keys - fb.Keys))
  {
    var fa, fb := FilesOf(prev), FilesOf(cur);
    DiffIsFlat(H, prev, cur);
    FlatIsExact(fa, fb);
    var changes := Flat(fa, fb);
    forall i | 0 <= i < |changes|
      ensures Normal(changes[i].path)
    {
      assert changes[i] in changes && ChangeAt(fa, fb, changes[i].path).Some?;
    }
    DeltaPaths.ExactPaths(changes, fa, fb);
    DeltaPaths.MaterializeAgrees(changes);
  }

  /** Without collisions a file's node hash stays the same if and only if its contents and size do. */
  lemma NodeHashIff(c: Setting, fa: FileMap, v: World, fb: FileMap, w: World, hashed: set<string>, p: string)
    requires IsDigest(c.H) && NoCollision(c.H, hashed) && p in v.disk && p in w.disk
    requires Recorded(c, fa, v, hashed, p) && Recorded(c, fb, w, hashed, p)
    ensures fa[p].nodeHash == fb[p].nodeHash <==> v.disk[p] == w.disk[p] && SizeIn(v, p) == SizeIn(w, p)
  {
    if fa[p].nodeHash == fb[p].nodeHash {
      FilePreimageInjective(p, c.H(v.disk[p]), SizeIn(v, p), p, c.H(w.disk[p]), SizeIn(w, p));
    }
  }

  lemma ChangedAt(c: Setting, fa: FileMap, v: World, fb: FileMap, w: World, hashed: set<string>, p: string)
    requires IsDigest(c.H) && NoCollision(c.H, hashed) && fa.Keys == v.disk.Keys && fb.Keys == w.disk.Keys
    requires p in v.disk ==> Recorded(c, fa, v, hashed, p)
    requires p in w.disk ==> Recorded(c, fb, w, hashed, p)
    ensures p in Rehashed(fa, fb) <==> p in Changed(v, w)
  {
    if p in v.disk && p in w.disk {
      NodeHashIff(c, fa, v, fb, w, hashed, p);
    }
  }

  lemma RehashedAreChanged(c: Setting, prev: Option<Snapshot>, v: World, cur: Option<Snapshot>, w: World, hashed: set<string>)
    requires IsDigest(c.H) && NoCollision(c.H, hashed) && Describes(c, prev, v, hashed) && Describes(c, cur, w, hashed)
    ensures Rehashed(FilesOf(prev), FilesOf(cur)) == Changed(v, w)
  {
    var fa, fb := FilesOf(prev), FilesOf(cur);
    forall p
      ensures p in Rehashed(fa, fb) <==> p in Changed(v, w)
    {
      ChangedAt(c, fa, v, fb, w, hashed, p);
    }
    SameElements(Rehashed(fa, fb), Changed(v, w));
  }

  lemma SameElements(a: set<string>, b: set<string>)
    requires forall p :: p in a <==> p in b
    ensures a == b
  {
  }

  /** The paths a delta touches: exactly the changed and the vanished files. */
  lemma ChangesTouch(c: Setting, prev: Option<Snapshot>, v: World, cur: Option<Snapshot>, w: World, hashed: set<string>)
    requires IsDigest(c.H) && NoCollision(c.H, hashed) && Describes(c, prev, v, hashed) && Describes(c, cur, w, hashed)
    ensures SnapshotChanges(prev, cur).Ok?
    ensures DeltaApply.CollectPaths(DeltaPaths.RecordsFor(SnapshotChanges(prev, cur).value))
         == Ok(DeltaApply.PathSets(Changed(v, w), Vanished(v, w)))
  {
    DescribedPair(c, prev, v, cur, w, hashed);
    DiffPaths(c.H, prev, cur);
    RehashedAreChanged(c, prev, v, cur, w, hashed);
  }

  lemma DeltaTouches(c: Setting, worlds: seq<World>, w: World, hashed: set<string>)
    requires IsDigest(c.H) && NoCollision(c.H, hashed) && Ready(c, w, hashed)
    requires worlds != [] ==> Ready(c, worlds[|worlds| - 1], hashed)
    ensures ChangesFor(c.H, worlds, w).Ok?
    ensures DeltaApply.CollectPaths(DeltaPaths.RecordsFor(ChangesFor(c.H, worlds, w).value))
         == Ok(DeltaApply.PathSets(Changed(LastWorld(worlds), w), Vanished(LastWorld(worlds), w)))
  {
    TakenDescribes(c, w, hashed);
    LastDescribes(c, worlds, hashed);
    ReloadedChanges(c.H, worlds, w);
    ChangesTouch(c, LastTaken(c.H, worlds), LastWorld(worlds), Some(Taken(c.H, w).value), w, hashed);
  }
}
