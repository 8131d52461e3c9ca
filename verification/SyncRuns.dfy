/** Whole runs of the synchronisation: every state of the repository is walked, hashed, compared with the
    snapshot reloaded from the store, and the delta, if it is delivered, is applied to the index
    (internal/indexing/delta_apply.go, rebuild.go, internal/jobs/river/sync_worker.go). */
module SyncRuns {
  import opened Outcomes
  import opened GoStrings
  import opened Sorting
  import opened StringOrder
  import opened MerkleHash
  import opened FlatDiff
  import opened Chunker
  import opened ChunkerFacts
  import opened ChunkIndex
  import opened IndexFacts
  import opened IndexTheorems
  import opened IndexRuns
  import opened Worlds
  import DeltaApply
  import DeltaPaths

  // ---- runs ----

  /** A saved state, and whether the delta that leads to it reaches the index. */
  datatype Stage = Stage(world: World, delivered: bool)

  function WorldsIn(stages: seq<Stage>): (ws: seq<World>)
    ensures |ws| == |stages|
  {
    if stages == [] then [] else WorldsIn(stages[..|stages| - 1]) + [stages[|stages| - 1].world]
  }

  const NO_LINK: DeltaPaths.Link := DeltaPaths.Link(None, 0, "", "")

  /** Applying one delta while the disk still matches its snapshot. An empty delta is not enqueued. */
  ghost function StepRows(c: Setting, rows: seq<ChunkRecord>, changes: seq<FileDelta>, disk: Disk, embedder: Embedder): Result<seq<ChunkRecord>>
  {
    if changes == [] then Ok(rows)
    else
      var applied :- DeltaApply.Apply(c.H, c.scope, rows, DeltaPaths.DeltaOf(c.scope, NO_LINK, changes), disk, Some(embedder));
      Ok(applied.rows)
  }

  /** The applier does not read which snapshots a delta joins. */
  lemma ApplyIgnoresLink(c: Setting, rows: seq<ChunkRecord>, link: DeltaPaths.Link, changes: seq<FileDelta>, disk: Disk, embedder: Embedder)
    ensures DeltaApply.Apply(c.H, c.scope, rows, DeltaPaths.DeltaOf(c.scope, link, changes), disk, Some(embedder))
         == DeltaApply.Apply(c.H, c.scope, rows, DeltaPaths.DeltaOf(c.scope, NO_LINK, changes), disk, Some(embedder))
  {
  }

  /** The rows of the scope after the delivered deltas were applied in turn, from an empty index. */
  ghost function IndexOver(c: Setting, stages: seq<Stage>, embedder: Embedder): Result<seq<ChunkRecord>>
  {
    if stages == [] then Ok([])
    else
      var front, last := stages[..|stages| - 1], stages[|stages| - 1];
      var rows :- IndexOver(c, front, embedder);
      var changes :- ChangesFor(c.H, WorldsIn(front), last.world);
      if last.delivered then StepRows(c, rows, changes, last.world.disk, embedder) else Ok(rows)
  }

  // ---- what the index carries ----

  /** The contents the index reflects: a delivered delta brings the changed files that are not blank and drops the
      vanished ones; a lost delta changes nothing. */
  ghost function Carried(stages: seq<Stage>): Disk
  {
    if stages == [] then map[]
    else
      var front, last := stages[..|stages| - 1], stages[|stages| - 1];
      if last.delivered then Delivered(Carried(front), LastWorld(WorldsIn(front)), last.world) else Carried(front)
  }

  ghost function Delivered(before: Disk, prev: World, w: World): Disk
  {
    NextContents(before, Changed(prev, w), Vanished(prev, w), w.disk)
  }

  lemma NextHashed(c: Setting, before: Disk, prev: World, w: World, hashed: set<string>)
    requires Hashes(c, before, hashed) && Hashes(c, w.disk, hashed)
    ensures Hashes(c, Delivered(before, prev, w), hashed)
  {
  }

  lemma {:induction false} CarriedHashed(c: Setting, stages: seq<Stage>, hashed: set<string>)
    requires AllReady(c, WorldsIn(stages), hashed)
    ensures Hashes(c, Carried(stages), hashed)
  {
    if stages != [] {
      var front, last := stages[..|stages| - 1], stages[|stages| - 1];
      FrontReady(c, stages, hashed);
      CarriedHashed(c, front, hashed);
      NextHashed(c, Carried(front), LastWorld(WorldsIn(front)), last.world, hashed);
    }
  }

  lemma FrontReady(c: Setting, stages: seq<Stage>, hashed: set<string>)
    requires AllReady(c, WorldsIn(stages), hashed) && stages != []
    ensures AllReady(c, WorldsIn(stages[..|stages| - 1]), hashed) && Ready(c, stages[|stages| - 1].world, hashed)
  {
    var ws := WorldsIn(stages);
    assert ws[..|ws| - 1] == WorldsIn(stages[..|stages| - 1]) && ws[|ws| - 1] == stages[|stages| - 1].world;
  }

  lemma {:induction false} LastReady(c: Setting, worlds: seq<World>, hashed: set<string>)
    requires AllReady(c, worlds, hashed)
    ensures worlds != [] ==> Ready(c, worlds[|worlds| - 1], hashed)
    ensures NormalKeys(LastWorld(worlds).disk.Keys)
  {
    if worlds != [] {
      DiskPathsNormal(worlds[|worlds| - 1]);
    }
  }

  /** An empty delta touches nothing. */
  lemma NothingTouched(before: Disk, prev: World, w: World)
    requires DeltaApply.CollectPaths([]) == Ok(DeltaApply.PathSets(Changed(prev, w), Vanished(prev, w)))
    ensures Delivered(before, prev, w) == before
  {
    assert Changed(prev, w) == {} && Vanished(prev, w) == {};
  }

  lemma ApplyIsApplyPaths(c: Setting, before: Disk, changes: seq<FileDelta>, sets: DeltaApply.PathSets, disk: Disk, embedder: Embedder)
    requires DeltaApply.ScopeOk(c.scope) && TrimSpace(c.scope.sessionID) == c.scope.sessionID
    requires DeltaApply.CollectPaths(DeltaPaths.RecordsFor(changes)) == Ok(sets)
    ensures DeltaApply.Apply(c.H, c.scope, RebuildRows(c, before), DeltaPaths.DeltaOf(c.scope, NO_LINK, changes), disk, Some(embedder))
         == DeltaApply.ApplyPaths(c.H, c.scope, RebuildRows(c, before), SortedKeys(sets.upserts), SortedKeys(sets.deletes), disk, Some(embedder))
  {
    RebuildMember(c, before);
    ListedFixed(RebuildRows(c, before));
  }

  /** Applying one delta carries the index from one set of contents to the next. */
  lemma StepCarries(c: Setting, before: Disk, prev: World, w: World, changes: seq<FileDelta>, embedder: Embedder, hashed: set<string>)
    requires SettingOk(c, embedder, hashed) && Hashes(c, before, hashed) && Hashes(c, w.disk, hashed)
    requires NormalKeys(prev.disk.Keys) && NormalKeys(w.disk.Keys)
    requires DeltaApply.CollectPaths(DeltaPaths.RecordsFor(changes)) == Ok(DeltaApply.PathSets(Changed(prev, w), Vanished(prev, w)))
    ensures StepRows(c, RebuildRows(c, before), changes, w.disk, embedder) == Ok(RebuildRows(c, Delivered(before, prev, w)))
  {
    if changes == [] {
      assert DeltaPaths.RecordsFor(changes) == [];
      NothingTouched(before, prev, w);
    } else {
      ApplyIsApplyPaths(c, before, changes, DeltaApply.PathSets(Changed(prev, w), Vanished(prev, w)), w.disk, embedder);
      ApplyStep(c, before, Changed(prev, w), Vanished(prev, w), w.disk, embedder, hashed);
    }
  }

  /** The index is what a rebuild of the carried contents would store. */
  ghost predicate Carries(c: Setting, stages: seq<Stage>, embedder: Embedder)
  {
    IndexOver(c, stages, embedder) == Ok(RebuildRows(c, Carried(stages)))
  }

  lemma NoFilesNoRows(c: Setting)
    ensures RebuildRows(c, map[]) == []
  {
    var none: Disk := map[];
    SortedKeysStrict(none.Keys);
  }

  lemma {:induction false} StageCarries(c: Setting, stages: seq<Stage>, embedder: Embedder, hashed: set<string>)
    requires RunOk(c, WorldsIn(stages), embedder, hashed) && stages != []
    requires Carries(c, stages[..|stages| - 1], embedder)
    ensures Carries(c, stages, embedder)
  {
    var front, last := stages[..|stages| - 1], stages[|stages| - 1];
    FrontReady(c, stages, hashed);
    LastReady(c, WorldsIn(front), hashed);
    DiskPathsNormal(last.world);
    CarriedHashed(c, front, hashed);
    DeltaTouches(c, WorldsIn(front), last.world, hashed);
    StepCarries(c, Carried(front), LastWorld(WorldsIn(front)), last.world, ChangesFor(c.H, WorldsIn(front), last.world).value, embedder, hashed);
  }

  /** After every run, whatever deltas are lost, the index is what a rebuild of the carried contents would store. */
  lemma {:induction false} LossyRunReflects(c: Setting, stages: seq<Stage>, embedder: Embedder, hashed: set<string>)
    requires RunOk(c, WorldsIn(stages), embedder, hashed)
    ensures Carries(c, stages, embedder)
  {
    if stages == [] {
      NoFilesNoRows(c);
    } else {
      FrontReady(c, stages, hashed);
      LossyRunReflects(c, stages[..|stages| - 1], embedder, hashed);
      StageCarries(c, stages, embedder, hashed);
    }
  }

  // ---- the carried contents, path by path ----

  function PrevAt(stages: seq<Stage>, k: nat): World
    requires k < |stages|
  {
    if k == 0 then NO_WORLD else stages[k - 1].world
  }

  /** Stage k's delta is delivered and brings contents with text for the file. */
  ghost predicate Upserted(stages: seq<Stage>, k: nat, p: string)
  {
    && k < |stages| && stages[k].delivered
    && p in Changed(PrevAt(stages, k), stages[k].world) && !Blank(stages[k].world.disk[p])
  }

  /** Stage k's delta is delivered and drops the file. */
  ghost predicate Dropped(stages: seq<Stage>, k: nat, p: string)
  {
    k < |stages| && stages[k].delivered && p in Vanished(PrevAt(stages, k), stages[k].world)
  }

  /** The last delivered text of the file is stage k's, and no later delivered delta drops the file. */
  ghost predicate Held(stages: seq<Stage>, p: string, k: nat)
  {
    Upserted(stages, k, p) && forall j: nat :: k < j < |stages| ==> !Upserted(stages, j, p) && !Dropped(stages, j, p)
  }

  lemma ChunksIffFilled(content: string)
    ensures HasChunks(content) <==> !Blank(content)
  {
    NoChunksIffBlank(content, DEFAULT_POLICY);
  }

  lemma FrontSame(stages: seq<Stage>, k: nat, p: string)
    requires k < |stages| - 1
    ensures Upserted(stages[..|stages| - 1], k, p) == Upserted(stages, k, p)
    ensures Dropped(stages[..|stages| - 1], k, p) == Dropped(stages, k, p)
  {
    var front := stages[..|stages| - 1];
    assert front[k] == stages[k] && PrevAt(front, k) == PrevAt(stages, k);
  }

  lemma LastPrev(stages: seq<Stage>)
    requires stages != []
    ensures LastWorld(WorldsIn(stages[..|stages| - 1])) == PrevAt(stages, |stages| - 1)
  {
    var front := stages[..|stages| - 1];
    if front != [] {
      assert WorldsIn(front)[|front| - 1] == front[|front| - 1].world;
    }
  }

  /** What the last stage does to one path. */
  lemma {:induction false} LastStageAt(stages: seq<Stage>, p: string)
    requires stages != []
    ensures
      var n := |stages| - 1;
      var before, now := Carried(stages[..n]), Carried(stages);
      && (Upserted(stages, n, p) ==> p in now && now[p] == stages[n].world.disk[p])
      && (!Upserted(stages, n, p) && Dropped(stages, n, p) ==> p !in now)
      && (!Upserted(stages, n, p) && !Dropped(stages, n, p) ==> (p in now <==> p in before) && (p in now ==> now[p] == before[p]))
  {
    LastPrev(stages);
    var w := stages[|stages| - 1].world;
    if p in w.disk {
      ChunksIffFilled(w.disk[p]);
    }
  }

  /** The index carries a file if and only if some stage's text of it is held, and then that text. */
  lemma {:induction false} CarriedIff(stages: seq<Stage>, p: string)
    ensures p in Carried(stages) <==> exists k: nat :: Held(stages, p, k)
    ensures forall k: nat :: Held(stages, p, k) ==> p in Carried(stages) && Carried(stages)[p] == stages[k].world.disk[p]
  {
    if stages != [] {
      var n := |stages| - 1;
      var front := stages[..n];
      CarriedIff(front, p);
      LastStageAt(stages, p);
      if Upserted(stages, n, p) {
        assert Held(stages, p, n);
      }
      forall k: nat | Held(stages, p, k)
        ensures p in Carried(stages) && Carried(stages)[p] == stages[k].world.disk[p]
      {
        if k < n {
          HeldFront(stages, p, k);
          assert front[k] == stages[k];
        }
      }
      if p in Carried(stages) && !Upserted(stages, n, p) {
        var k: nat :| Held(front, p, k);
        HeldFront(stages, p, k);
        assert Held(stages, p, k);
      }
    }
  }

  lemma HeldFront(stages: seq<Stage>, p: string, k: nat)
    requires k < |stages| - 1
    ensures Held(stages, p, k) <==>
      Held(stages[..|stages| - 1], p, k) && !Upserted(stages, |stages| - 1, p) && !Dropped(stages, |stages| - 1, p)
  {
    var n := |stages| - 1;
    forall j: nat | j < n
      ensures Upserted(stages[..n], j, p) == Upserted(stages, j, p) && Dropped(stages[..n], j, p) == Dropped(stages, j, p)
    {
      FrontSame(stages, j, p);
    }
  }

  // ---- when the rebuilt rows agree ----

  function ChunksAt(files: Disk, p: string): seq<string>
  {
    if p in files then ChunkContents(files[p], DEFAULT_POLICY) else []
  }

  lemma RowInIff(c: Setting, a: Disk, b: Disk, r: ChunkRecord)
    requires ChunksAt(a, r.relPath) == ChunksAt(b, r.relPath)
    ensures (r.relPath in a && r in RowsFor(c, r.relPath, a[r.relPath]))
       <==> (r.relPath in b && r in RowsFor(c, r.relPath, b[r.relPath]))
  {
  }

  /** Row i of a file carries its chunk i. */
  lemma RowAt(c: Setting, p: string, content: string, i: nat)
    requires i < |ChunkContents(content, DEFAULT_POLICY)|
    ensures
      var r := RowsFor(c, p, content)[i];
      r.relPath == p && r.chunkIndex == i && r.content == ChunkContents(content, DEFAULT_POLICY)[i]
  {
  }

  /** A row of a file has one of the file's chunks at its index. */
  lemma ChunkOfRow(c: Setting, p: string, content: string, r: ChunkRecord)
    requires r in RowsFor(c, p, content)
    ensures 0 <= r.chunkIndex < |ChunkContents(content, DEFAULT_POLICY)|
    ensures r.content == ChunkContents(content, DEFAULT_POLICY)[r.chunkIndex]
  {
    var rows := RowsFor(c, p, content);
    var j :| 0 <= j < |rows| && rows[j] == r;
    RowAt(c, p, content, j);
  }

  /** A chunk that only one of two sets of files has. */
  lemma RowOfOne(c: Setting, a: Disk, b: Disk, p: string, i: nat)
    requires i < |ChunksAt(a, p)| && (i < |ChunksAt(b, p)| ==> ChunksAt(b, p)[i] != ChunksAt(a, p)[i])
    ensures RebuildRows(c, a) != RebuildRows(c, b)
  {
    var r := RowsFor(c, p, a[p])[i];
    RowAt(c, p, a[p], i);
    RebuildMember(c, a);
    RebuildMember(c, b);
    assert r in RowsFor(c, p, a[p]);
    assert r in RebuildRows(c, a);
    if r in RebuildRows(c, b) {
      ChunkOfRow(c, p, b[p], r);
    }
  }

  /** Two sets of files have the same rows if and only if every path has the same chunks. */
  lemma RowsAgreeIff(c: Setting, a: Disk, b: Disk)
    ensures RebuildRows(c, a) == RebuildRows(c, b) <==> forall p :: ChunksAt(a, p) == ChunksAt(b, p)
  {
    if p :| ChunksAt(a, p) != ChunksAt(b, p) {
      DifferentAt(c, a, b, p);
    } else {
      RebuildMember(c, a);
      RebuildMember(c, b);
      forall r
        ensures r in RebuildRows(c, a) <==> r in RebuildRows(c, b)
      {
        RowInIff(c, a, b, r);
      }
      StrictUnique(RecordLe, RebuildRows(c, a), RebuildRows(c, b));
    }
  }

  lemma DifferentAt(c: Setting, a: Disk, b: Disk, p: string)
    requires ChunksAt(a, p) != ChunksAt(b, p)
    ensures RebuildRows(c, a) != RebuildRows(c, b)
  {
    var x, y := ChunksAt(a, p), ChunksAt(b, p);
    if |x| < |y| {
      RowOfOne(c, b, a, p, |x|);
    } else if |y| < |x| {
      RowOfOne(c, a, b, p, |y|);
    } else {
      var i :| 0 <= i < |x| && x[i] != y[i];
      RowOfOne(c, a, b, p, i);
    }
  }

  // ---- when a run that may lose deltas ends like a rebuild ----

  /** The text of the file that the index holds has the chunks of its current contents; a file of which it holds none
      is absent or blank. */
  ghost predicate Settled(stages: seq<Stage>, disk: Disk, p: string)
  {
    && (forall k: nat :: Held(stages, p, k) ==> ChunkContents(stages[k].world.disk[p], DEFAULT_POLICY) == ChunksAt(disk, p))
    && ((exists k: nat :: Held(stages, p, k)) || (p in disk ==> Blank(disk[p])))
  }

  lemma {:induction false} SettledIff(stages: seq<Stage>, disk: Disk, p: string)
    ensures Settled(stages, disk, p) <==> ChunksAt(Carried(stages), p) == ChunksAt(disk, p)
  {
    CarriedIff(stages, p);
    if p in disk {
      ChunksIffFilled(disk[p]);
    }
    if k: nat :| Held(stages, p, k) {
      assert Carried(stages)[p] == stages[k].world.disk[p];
    }
  }

  /** Over every run, whatever deltas are lost: the index equals what RunFullRebuild would write for the last state,
      embeddings included, if and only if every path is settled. */
  lemma {:induction false} LossyRunEqualsRebuild(c: Setting, stages: seq<Stage>, embedder: Embedder, hashed: set<string>)
    requires RunOk(c, WorldsIn(stages), embedder, hashed) && stages != []
    ensures
      var disk := stages[|stages| - 1].world.disk;
      IndexOver(c, stages, embedder) == DeltaApply.Rebuild(c.H, c.scope, SortedKeys(disk.Keys), disk, embedder)
      <==> forall p :: Settled(stages, disk, p)
  {
    var disk := stages[|stages| - 1].world.disk;
    LossyRunReflects(c, stages, embedder, hashed);
    FrontReady(c, stages, hashed);
    DiskPathsNormal(stages[|stages| - 1].world);
    RebuildIs(c, disk, embedder);
    RowsAgreeIff(c, Carried(stages), disk);
    forall p
      ensures Settled(stages, disk, p) <==> ChunksAt(Carried(stages), p) == ChunksAt(disk, p)
    {
      SettledIff(stages, disk, p);
    }
  }

  /** A repository with some text whose only delta is lost: the index stays empty and no rebuild would leave it so. */
  lemma {:induction false} LostDelta(c: Setting, w: World, embedder: Embedder, hashed: set<string>, p: string)
    requires RunOk(c, [w], embedder, hashed) && p in w.disk && !Blank(w.disk[p])
    ensures IndexOver(c, [Stage(w, false)], embedder) == Ok([])
    ensures DeltaApply.Rebuild(c.H, c.scope, SortedKeys(w.disk.Keys), w.disk, embedder) != Ok([])
  {
    var stages := [Stage(w, false)];
    assert stages[..0] == [] && WorldsIn(stages) == [w];
    LossyRunReflects(c, stages, embedder, hashed);
    assert Carried(stages) == Carried([]) == map[];
    NoFilesNoRows(c);
    assert forall k: nat :: !Held(stages, p, k);
    LossyRunEqualsRebuild(c, stages, embedder, hashed);
    assert !Settled(stages, w.disk, p);
  }

  // ---- every delta delivered: what the index reflects after a sequence of file maps ----

  /** For every file its last contents with chunks since it came to exist. */
  function Effective(disks: seq<Disk>): Disk
  {
    if disks == [] then map[]
    else
      Reflected(Effective(disks[..|disks| - 1]), disks[|disks| - 1])
  }

  /** What the index reflects next: blank files keep what was reflected before. */
  function Reflected(before: Disk, disk: Disk): Disk
  {
    map p | p in disk && (HasChunks(disk[p]) || p in before) :: if HasChunks(disk[p]) then disk[p] else before[p]
  }

  function LastDisk(disks: seq<Disk>): Disk
  {
    if disks == [] then map[] else disks[|disks| - 1]
  }

  lemma {:induction false} EffectiveFacts(disks: seq<Disk>)
    ensures Effective(disks).Keys <= LastDisk(disks).Keys
    ensures forall p :: p in LastDisk(disks) && HasChunks(LastDisk(disks)[p]) ==>
      p in Effective(disks) && Effective(disks)[p] == LastDisk(disks)[p]
  {
  }

  /** The file is blank now but had other contents earlier in its current life. */
  ghost predicate Stale(disks: seq<Disk>, p: string)
  {
    disks != [] && p in LastDisk(disks) && Blank(LastDisk(disks)[p]) &&
    exists i :: 0 <= i < |disks| && FilledSince(disks, p, i)
  }

  ghost predicate FilledSince(disks: seq<Disk>, p: string, i: nat)
  {
    i < |disks| && (forall j :: i <= j < |disks| ==> p in disks[j]) && !Blank(disks[i][p])
  }

  lemma {:induction false} EffectiveIffFilled(disks: seq<Disk>, p: string)
    ensures p in Effective(disks) <==> exists i :: 0 <= i < |disks| && FilledSince(disks, p, i)
    ensures p in Effective(disks) ==> HasChunks(Effective(disks)[p])
  {
    if disks != [] {
      var front := disks[..|disks| - 1];
      EffectiveIffFilled(front, p);
      FilledStep(disks, p);
      ReflectedAt(Effective(front), disks[|disks| - 1], p);
    }
  }

  lemma ReflectedAt(before: Disk, disk: Disk, p: string)
    requires p in before ==> HasChunks(before[p])
    ensures p in Reflected(before, disk) <==> p in disk && (!Blank(disk[p]) || p in before)
    ensures p in Reflected(before, disk) ==> HasChunks(Reflected(before, disk)[p])
  {
    if p in disk {
      ChunksIffFilled(disk[p]);
    }
  }

  lemma FilledStep(disks: seq<Disk>, p: string)
    requires disks != []
    ensures
      var front, disk := disks[..|disks| - 1], disks[|disks| - 1];
      (exists i :: 0 <= i < |disks| && FilledSince(disks, p, i)) <==>
      p in disk && (!Blank(disk[p]) || exists i :: 0 <= i < |front| && FilledSince(front, p, i))
  {
    var n := |disks| - 1;
    var front := disks[..n];
    assert p in disks[n] && !Blank(disks[n][p]) ==> FilledSince(disks, p, n);
    forall i | 0 <= i < n
      ensures FilledSince(disks, p, i) <==> FilledSince(front, p, i) && p in disks[n]
    {
      assert forall j :: 0 <= j < n ==> front[j] == disks[j];
    }
  }

  lemma {:induction false} StaleIff(disks: seq<Disk>, p: string)
    requires disks != []
    ensures Stale(disks, p) <==> p in Effective(disks) && !HasChunks(LastDisk(disks)[p])
  {
    EffectiveFacts(disks);
    EffectiveIffFilled(disks, p);
    if p in LastDisk(disks) {
      ChunksIffFilled(LastDisk(disks)[p]);
    }
  }

  /** One delta, with at least the changed files upserted and exactly the vanished ones deleted,
      takes the index from one state to the next. */
  lemma NextIsReflected(before: Disk, prior: Disk, disk: Disk, U: set<string>)
    requires U <= disk.Keys && forall p :: p in disk && p !in U ==> p in prior && prior[p] == disk[p]
    requires before.Keys <= prior.Keys
    requires forall p :: p in prior && HasChunks(prior[p]) ==> p in before && before[p] == prior[p]
    ensures NextContents(before, U, prior.Keys - disk.Keys, disk) == Reflected(before, disk)
  {
    var next := NextContents(before, U, prior.Keys - disk.Keys, disk);
    forall p
      ensures p in next <==> p in Reflected(before, disk)
      ensures p in next && p in Reflected(before, disk) ==> next[p] == Reflected(before, disk)[p]
    {
      NextAt(before, prior, disk, U, p);
    }
  }

  lemma NextAt(before: Disk, prior: Disk, disk: Disk, U: set<string>, p: string)
    requires U <= disk.Keys && (p in disk && p !in U ==> p in prior && prior[p] == disk[p])
    requires before.Keys <= prior.Keys
    requires p in prior && HasChunks(prior[p]) ==> p in before && before[p] == prior[p]
    ensures
      var next, r := NextContents(before, U, prior.Keys - disk.Keys, disk), Reflected(before, disk);
      (p in next <==> p in r) && (p in next && p in r ==> next[p] == r[p])
  {
  }

  lemma {:induction false} StaleFiles(disks: seq<Disk>)
    requires disks != []
    ensures forall p :: p in Effective(disks) ==> p in LastDisk(disks) && HasChunks(Effective(disks)[p])
    ensures (exists p :: Stale(disks, p)) <==> exists p :: p in Effective(disks) && !HasChunks(LastDisk(disks)[p])
  {
    EffectiveFacts(disks);
    forall p
      ensures p in Effective(disks) ==> HasChunks(Effective(disks)[p])
      ensures Stale(disks, p) <==> p in Effective(disks) && !HasChunks(LastDisk(disks)[p])
    {
      EffectiveIffFilled(disks, p);
      StaleIff(disks, p);
    }
  }

  // ---- no delta lost ----

  function AllDelivered(worlds: seq<World>): (stages: seq<Stage>)
    ensures |stages| == |worlds|
  {
    if worlds == [] then [] else AllDelivered(worlds[..|worlds| - 1]) + [Stage(worlds[|worlds| - 1], true)]
  }

  /** The rows of the scope after each delta was applied in turn. */
  ghost function IndexAfter(c: Setting, worlds: seq<World>, embedder: Embedder): Result<seq<ChunkRecord>>
  {
    IndexOver(c, AllDelivered(worlds), embedder)
  }

  function DisksOf(worlds: seq<World>): (ds: seq<Disk>)
    ensures |ds| == |worlds|
  {
    if worlds == [] then [] else DisksOf(worlds[..|worlds| - 1]) + [worlds[|worlds| - 1].disk]
  }

  lemma {:induction false} DeliveredWorlds(worlds: seq<World>)
    ensures WorldsIn(AllDelivered(worlds)) == worlds
  {
    if worlds != [] {
      DeliveredWorlds(worlds[..|worlds| - 1]);
    }
  }

  lemma {:induction false} LastOf(worlds: seq<World>)
    ensures LastDisk(DisksOf(worlds)) == LastWorld(worlds).disk
  {
  }

  lemma {:induction false} CarriedIsEffective(worlds: seq<World>)
    ensures Carried(AllDelivered(worlds)) == Effective(DisksOf(worlds))
  {
    if worlds != [] {
      var front, w := worlds[..|worlds| - 1], worlds[|worlds| - 1];
      CarriedIsEffective(front);
      DeliveredWorlds(front);
      LastOf(front);
      EffectiveFacts(DisksOf(front));
      NextIsReflected(Effective(DisksOf(front)), LastWorld(front).disk, w.disk, Changed(LastWorld(front), w));
    }
  }

  /** After every run the index is what a rebuild of each file's last text in its current life would store. */
  lemma {:induction false} RunReflects(c: Setting, worlds: seq<World>, embedder: Embedder, hashed: set<string>)
    requires RunOk(c, worlds, embedder, hashed)
    ensures IndexAfter(c, worlds, embedder) == Ok(RebuildRows(c, Effective(DisksOf(worlds))))
  {
    DeliveredWorlds(worlds);
    LossyRunReflects(c, AllDelivered(worlds), embedder, hashed);
    CarriedIsEffective(worlds);
  }

  /** Rebuilding the effective contents is rebuilding the last contents exactly when no file is stale. */
  lemma {:induction false} EffectiveRebuild(c: Setting, disks: seq<Disk>)
    requires disks != []
    ensures RebuildRows(c, Effective(disks)) == RebuildRows(c, LastDisk(disks)) <==> !exists p :: Stale(disks, p)
  {
    EffectiveFacts(disks);
    StaleFiles(disks);
    RowsAgreeIff(c, Effective(disks), LastDisk(disks));
    if p :| Stale(disks, p) {
      StaleIff(disks, p);
      EffectiveIffFilled(disks, p);
      assert ChunksAt(Effective(disks), p) != ChunksAt(LastDisk(disks), p);
    }
  }

  /** A run leaves what RunFullRebuild would write for the last state, embeddings included,
      exactly when no file is blank that was filled earlier in its current life. */
  lemma {:induction false} RunEqualsRebuild(c: Setting, worlds: seq<World>, embedder: Embedder, hashed: set<string>)
    requires RunOk(c, worlds, embedder, hashed) && worlds != []
    ensures
      var disk := worlds[|worlds| - 1].disk;
      IndexAfter(c, worlds, embedder) == DeltaApply.Rebuild(c.H, c.scope, SortedKeys(disk.Keys), disk, embedder)
      <==> !exists p :: Stale(DisksOf(worlds), p)
  {
    RunReflects(c, worlds, embedder, hashed);
    DiskPathsNormal(worlds[|worlds| - 1]);
    LastOf(worlds);
    RebuildIs(c, worlds[|worlds| - 1].disk, embedder);
    EffectiveRebuild(c, DisksOf(worlds));
  }
}
