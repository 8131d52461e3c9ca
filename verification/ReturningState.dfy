/** A state that returns after a delta was lost: its job is queued again and skipped, because the checkpoint still holds
    its record (internal/jobs/river/index_worker.go, internal/indexstore/sync_store.go). */
module ReturningState {
  import opened Outcomes
  import opened StringOrder
  import opened GoStrings
  import opened MerkleHash
  import opened ChunkIndex
  import opened IndexFacts
  import opened Worlds
  import opened SyncRuns
  import opened SyncWorker
  import opened SyncWorking
  import opened SyncDelivery
  import opened IndexTurns
  import opened JobPipeline
  import opened Discovery
  import opened Paths
  import opened NodeTree
  import Walk = RepositoryWalk
  import Index = IndexWorker
  import Store = SnapshotStore
  import DeltaApply
  import DeltaPaths

  // ---- runs in which every state is saved ----

  predicate Saves(fate: Fate)
  {
    !fate.walkFails && !fate.loadFails && fate.save == Committed
  }

  ghost predicate Differ(v: World, w: World)
  {
    Changed(v, w) != {} || Vanished(v, w) != {}
  }

  function Before(runs: seq<Execution>, k: nat): World
    requires k < |runs|
  {
    if k == 0 then NO_WORLD else runs[k - 1].world
  }

  /** Execution k saves a state with other files than the one before. */
  ghost predicate SavesAt(c: Setting, runs: seq<Execution>, k: nat, hashed: set<string>)
    requires k < |runs|
  {
    Saves(runs[k].fate) && Ready(c, runs[k].world, hashed) && Differ(Before(runs, k), runs[k].world)
  }

  ghost predicate AllSave(c: Setting, runs: seq<Execution>, hashed: set<string>)
  {
    forall k :: 0 <= k < |runs| ==> SavesAt(c, runs, k, hashed)
  }

  lemma AllSaveFront(c: Setting, runs: seq<Execution>, hashed: set<string>)
    requires runs != [] && AllSave(c, runs, hashed)
    ensures AllSave(c, runs[..|runs| - 1], hashed)
  {
    var front := runs[..|runs| - 1];
    forall k | 0 <= k < |front|
      ensures SavesAt(c, front, k, hashed)
    {
      assert SavesAt(c, runs, k, hashed) && Before(front, k) == Before(runs, k);
    }
  }

  /** The entry of an execution: its state, queued as its fate says. */
  predicate LoggedAs(e: Execution, entry: Logged)
  {
    entry.world == e.world && entry.Queued() == e.fate.enqueue.Queues()
  }

  ghost predicate AllLogged(runs: seq<Execution>, log: seq<Logged>)
  {
    |log| == |runs| && forall k :: 0 <= k < |runs| ==> LoggedAs(runs[k], log[k])
  }

  lemma AllLoggedSnoc(runs: seq<Execution>, log: seq<Logged>, entry: Logged)
    requires runs != [] && AllLogged(runs[..|runs| - 1], log) && LoggedAs(runs[|runs| - 1], entry)
    ensures AllLogged(runs, log + [entry])
  {
    forall k | 0 <= k < |runs|
      ensures LoggedAs(runs[k], (log + [entry])[k])
    {
      if k < |log| {
        assert LoggedAs(runs[..|runs| - 1][k], log[k]);
      }
    }
  }

  lemma {:induction false} WorldAt(log: seq<Logged>, k: nat)
    requires k < |log|
    ensures WorldsOf(log)[k] == log[k].world
  {
    if k < |log| - 1 {
      WorldAt(log[..|log| - 1], k);
    }
  }

  lemma {:induction false} LoggedReady(c: Setting, runs: seq<Execution>, log: seq<Logged>, hashed: set<string>)
    requires AllLogged(runs, log) && AllSave(c, runs, hashed)
    ensures AllReady(c, WorldsOf(log), hashed)
  {
    forall k | 0 <= k < |log|
      ensures Ready(c, WorldsOf(log)[k], hashed)
    {
      WorldAt(log, k);
      assert LoggedAs(runs[k], log[k]) && SavesAt(c, runs, k, hashed);
    }
    EachReady(c, WorldsOf(log), hashed);
  }

  /** A state with other files than the one before has another root hash and a delta. */
  lemma DifferHasDelta(c: Setting, saved: seq<World>, w: World, hashed: set<string>)
    requires IsDigest(c.H) && NoCollision(c.H, hashed) && Ready(c, w, hashed) && Differ(LastWorld(saved), w)
    requires saved != [] ==> Ready(c, saved[|saved| - 1], hashed)
    ensures ChangesFor(c.H, saved, w).Ok? && ChangesFor(c.H, saved, w).value != [] && Taken(c.H, w).Ok?
    ensures saved != [] ==>
      Taken(c.H, saved[|saved| - 1]).Ok? && Taken(c.H, saved[|saved| - 1]).value.rootHash != Taken(c.H, w).value.rootHash
  {
    DeltaTouches(c, saved, w, hashed);
    assert DeltaPaths.RecordsFor([]) == [];
    EmptyIff(c, saved, w, hashed);
    if saved != [] {
      DifferentFiles(c, saved[|saved| - 1], w, hashed);
    }
  }

  lemma SavedStep(c: Setting, s: RunState, e: Execution, hashed: set<string>)
    requires IsDigest(c.H) && NoCollision(c.H, hashed) && DeltaApply.ScopeOk(c.scope) && Saves(e.fate)
    requires Tracks(c, s.tables, WorldsOf(s.log)) && Ready(c, e.world, hashed) && Differ(LastWorld(WorldsOf(s.log)), e.world)
    requires s.log != [] ==> Ready(c, WorldsOf(s.log)[|s.log| - 1], hashed)
    ensures exists entry :: Next(c, s, e).log == s.log + [entry] && LoggedAs(e, entry)
  {
    var saved := WorldsOf(s.log);
    DifferHasDelta(c, saved, e.world, hashed);
    FaultFreeSaves(c, s.tables, saved, e.world, e.fate, hashed);
    AttemptedStep(c, s.tables, saved, e, hashed);
    var entry := EntryFor(e.world, Execute(c, e.world, s.tables, e.fate), e.fate);
    assert LoggedAs(e, entry) && Next(c, s, e).log == s.log + [entry];
  }

  lemma AttemptedStep(c: Setting, t: Store.Tables, saved: seq<World>, e: Execution, hashed: set<string>)
    requires IsDigest(c.H) && Tracks(c, t, saved) && (saved != [] ==> WorldOk(saved[|saved| - 1]))
    requires Execute(c, e.world, t, e.fate).saved && e.fate.save == Committed
    requires ChangesFor(c.H, saved, e.world).Ok? && ChangesFor(c.H, saved, e.world).value != []
    ensures Execute(c, e.world, t, e.fate).attempted.Some?
  {
    PreviousIsReloaded(c, t, saved);
    AttemptedIfChanged(c, t, saved, e.world, e.fate);
  }

  /** Such a run logs every state. */
  lemma {:induction false} EveryStateLogged(c: Setting, runs: seq<Execution>, hashed: set<string>)
    requires IsDigest(c.H) && NoCollision(c.H, hashed) && DeltaApply.ScopeOk(c.scope) && AllSave(c, runs, hashed)
    ensures AllLogged(runs, AfterRun(c, runs).log)
  {
    if runs == [] {
      assert AfterRun(c, runs).log == [];
    } else {
      AllSaveFront(c, runs, hashed);
      EveryStateLogged(c, runs[..|runs| - 1], hashed);
      LogsOne(c, runs, hashed);
    }
  }

  lemma {:induction false} WorldsAreOk(c: Setting, runs: seq<Execution>, hashed: set<string>)
    requires AllSave(c, runs, hashed)
    ensures forall k :: 0 <= k < |runs| ==> WorldOk(runs[k].world)
  {
    forall k | 0 <= k < |runs|
      ensures WorldOk(runs[k].world)
    {
      assert SavesAt(c, runs, k, hashed);
    }
  }

  /** The log ends with the state of the last execution. */
  lemma {:induction false} LoggedLast(c: Setting, runs: seq<Execution>, log: seq<Logged>, hashed: set<string>)
    requires runs != [] && AllSave(c, runs, hashed) && AllLogged(runs[..|runs| - 1], log)
    ensures LastWorld(WorldsOf(log)) == Before(runs, |runs| - 1)
    ensures log != [] ==> Ready(c, WorldsOf(log)[|log| - 1], hashed)
  {
    var n := |runs| - 1;
    if n > 0 {
      WorldAt(log, n - 1);
      assert LoggedAs(runs[..n][n - 1], log[n - 1]) && SavesAt(c, runs, n - 1, hashed);
    }
  }

  lemma {:induction false} LogsOne(c: Setting, runs: seq<Execution>, hashed: set<string>)
    requires IsDigest(c.H) && NoCollision(c.H, hashed) && DeltaApply.ScopeOk(c.scope) && runs != []
    requires AllSave(c, runs, hashed) && AllLogged(runs[..|runs| - 1], AfterRun(c, runs[..|runs| - 1]).log)
    ensures AllLogged(runs, AfterRun(c, runs).log)
  {
    var n := |runs| - 1;
    var s := AfterRun(c, runs[..n]);
    LoggedLast(c, runs, s.log, hashed);
    WorldsAreOk(c, runs, hashed);
    RunIsTracked(c, runs[..n]);
    assert SavesAt(c, runs, n, hashed);
    SavedStep(c, s, runs[n], hashed);
    var entry :| Next(c, s, runs[n]).log == s.log + [entry] && LoggedAs(runs[n], entry);
    AllLoggedSnoc(runs, s.log, entry);
  }

  // ---- the run ----

  /** First one file, then a second, then another text of the first. */
  ghost predicate States(w0: World, w1: World, w2: World, p: string, q: string, x: string, z: string, u: string)
  {
    && p != q && x != z && !Blank(x) && !Blank(u)
    && w0.disk == map[p := x] && w1.disk == map[p := x, q := u] && w2.disk == map[p := z, q := u]
    && SizeIn(w0, p) == SizeIn(w1, p)
  }

  /** The deltas of the first and the third state are lost, those of the second are queued both times. */
  ghost predicate Returns(runs: seq<Execution>, p: string, q: string, x: string, z: string, u: string)
  {
    && |runs| == 4 && runs[3].world == runs[1].world && States(runs[0].world, runs[1].world, runs[2].world, p, q, x, z, u)
    && (forall k :: 0 <= k < 4 ==> Saves(runs[k].fate))
    && !runs[0].fate.enqueue.Queues() && runs[1].fate.enqueue.Queues()
    && !runs[2].fate.enqueue.Queues() && runs[3].fate.enqueue.Queues()
  }

  lemma StatesDiffer(w0: World, w1: World, w2: World, p: string, q: string, x: string, z: string, u: string)
    requires States(w0, w1, w2, p, q, x, z, u)
    ensures Differ(NO_WORLD, w0) && Differ(w0, w1) && Differ(w1, w2) && Differ(w2, w1)
    ensures p !in Changed(w0, w1) && q in Changed(w0, w1) && p in Changed(w2, w1)
    ensures Vanished(w2, w1) == {}
  {
    assert p in Changed(NO_WORLD, w0) && q in Changed(w0, w1) && p in Changed(w1, w2) && p in Changed(w2, w1);
  }

  lemma ReturnsDiffer(runs: seq<Execution>, k: nat, p: string, q: string, x: string, z: string, u: string)
    requires Returns(runs, p, q, x, z, u) && k < 4
    ensures Saves(runs[k].fate) && Differ(Before(runs, k), runs[k].world)
  {
    StatesDiffer(runs[0].world, runs[1].world, runs[2].world, p, q, x, z, u);
    if k == 0 {
    } else if k == 1 {
    } else if k == 2 {
    } else {
      assert k == 3;
    }
  }

  lemma {:induction false} ReturnsLogged(c: Setting, runs: seq<Execution>, p: string, q: string, x: string, z: string, u: string, hashed: set<string>)
    requires IsDigest(c.H) && NoCollision(c.H, hashed) && DeltaApply.ScopeOk(c.scope)
    requires Returns(runs, p, q, x, z, u) && forall k :: 0 <= k < |runs| ==> Ready(c, runs[k].world, hashed)
    ensures forall k :: 0 <= k < |runs| ==> WorldOk(runs[k].world)
    ensures AllLogged(runs, AfterRun(c, runs).log) && AllReady(c, WorldsOf(AfterRun(c, runs).log), hashed)
  {
    forall k | 0 <= k < |runs|
      ensures SavesAt(c, runs, k, hashed)
    {
      ReturnsDiffer(runs, k, p, q, x, z, u);
    }
    EveryStateLogged(c, runs, hashed);
    LoggedReady(c, runs, AfterRun(c, runs).log, hashed);
  }

  /** The stages of a log of four. */
  lemma {:induction false} FourStages(log: seq<Logged>, effects: Effects)
    requires |log| == 4 && !log[0].Queued() && log[1].Queued() && !log[2].Queued() && log[3].Queued()
    ensures StagesOf(log, effects) ==
      [Stage(log[0].world, false), Stage(log[1].world, effects(0)), Stage(log[2].world, false), Stage(log[3].world, effects(1))]
    ensures JobsOf(log) == [JobFor(log[1]), JobFor(log[3])]
  {
    var a, b, d := log[..1], log[..2], log[..3];
    assert d[..2] == b && b[..1] == a && a[..0] == [];
    assert QueuedIn(a) == 0 && QueuedIn(b) == 1 && QueuedIn(d) == 1;
    assert StagesOf(a, effects) == [Stage(log[0].world, false)];
    assert StagesOf(b, effects) == StagesOf(a, effects) + [Stage(log[1].world, effects(0))];
    assert StagesOf(d, effects) == StagesOf(b, effects) + [Stage(log[2].world, false)];
    assert JobsOf(a) == [] && JobsOf(b) == [JobFor(log[1])] && JobsOf(d) == JobsOf(b);
  }

  // ---- what is settled ----

  lemma OnlySecond(stages: seq<Stage>, w0: World, w1: World, w2: World, p: string, q: string, x: string, z: string, u: string)
    requires States(w0, w1, w2, p, q, x, z, u)
    requires stages == [Stage(w0, false), Stage(w1, true), Stage(w2, false), Stage(w1, false)]
    ensures !Settled(stages, w1.disk, p)
  {
    StatesDiffer(w0, w1, w2, p, q, x, z, u);
    assert forall k: nat :: !Held(stages, p, k);
  }

  lemma BothTimes(stages: seq<Stage>, w0: World, w1: World, w2: World, p: string, q: string, x: string, z: string, u: string, r: string)
    requires States(w0, w1, w2, p, q, x, z, u)
    requires stages == [Stage(w0, false), Stage(w1, true), Stage(w2, false), Stage(w1, true)]
    ensures Settled(stages, w1.disk, r)
  {
    StatesDiffer(w0, w1, w2, p, q, x, z, u);
    assert forall k: nat :: Held(stages, r, k) ==> stages[k].world == w1 && r in w1.disk;
    assert PrevAt(stages, 1) == w0 && PrevAt(stages, 3) == w2;
    if r == p {
      assert Held(stages, p, 3);
    } else if r == q {
      assert Upserted(stages, 1, q);
      assert Held(stages, q, 1) || Held(stages, q, 3);
    }
  }

  // ---- the theorem ----

  const EVERY: Effects := (k: nat) => true

  lemma SecondIsSkipped(turns: seq<Turn>)
    requires |turns| == 2 && Calm(turns[0].tries) && Calm(turns[1].tries) && Succeeds(turns[0].tries)
    requires RecordOf(turns[0].job.payload) == RecordOf(turns[1].job.payload)
    ensures Applies(turns, 0) && Skipped(turns, 1) && !Applies(turns, 1)
  {
    assert turns[..0] == [] && turns[..1] == [turns[0]] && [turns[0]][..0] == [];
    SucceedsTakes(turns[0].tries);
    CalmTakesOnce(false, turns[0].tries);
  }

  lemma {:induction false} SameRecords(c: Setting, runs: seq<Execution>, turns: seq<Turn>)
    requires IsDigest(c.H) && forall k :: 0 <= k < |runs| ==> WorldOk(runs[k].world)
    requires
      var log := AfterRun(c, runs).log;
      && |log| == 4 && log[1].Queued() && log[3].Queued() && log[1].world == log[3].world
      && JobsIn(turns) == JobsOf(log) == [JobFor(log[1]), JobFor(log[3])]
    ensures |turns| == 2 && RecordOf(turns[0].job.payload) == RecordOf(turns[1].job.payload)
  {
    var log := AfterRun(c, runs).log;
    RunIsTracked(c, runs);
    HashInLog(c, log, 1);
    HashInLog(c, log, 3);
    SameRecordIff(c, runs, 0, 1);
    JobAt(turns, 0);
    JobAt(turns, 1);
  }

  /** A queued payload carries the root hash of its state. */
  lemma {:induction false} HashInLog(c: Setting, log: seq<Logged>, k: nat)
    requires GoodLog(c, log) && k < |log| && log[k].Queued()
    ensures Taken(c.H, log[k].world).Ok? && log[k].attempt.value.payload.rootHash == Taken(c.H, log[k].world).value.rootHash
  {
    if k < |log| - 1 {
      HashInLog(c, log[..|log| - 1], k);
    } else {
      HashInEntry(c, WorldsOf(log[..k]), log[k]);
    }
  }

  lemma HashInEntry(c: Setting, before: seq<World>, entry: Logged)
    requires GoodEntry(c, before, entry) && entry.Queued()
    ensures Taken(c.H, entry.world).Ok? && entry.attempt.value.payload.rootHash == Taken(c.H, entry.world).value.rootHash
  {
    var link :| SyncWorker.Carries(c, link, entry, ChangesFor(c.H, before, entry.world).value);
  }

  /** Every job is tried until its runner succeeds, without restarts. Were every queued delta applied, the index would be
      the rebuild of the state that returned; but its second job is skipped, and the index is not. */
  lemma {:induction false} ReturnIsSkipped(clean: Index.Cleaner, c: Setting, runs: seq<Execution>, turns: seq<Turn>, embedder: Embedder,
                                           hashed: set<string>, p: string, q: string, x: string, z: string, u: string)
    requires CanonicalRoot(clean, c.scope) && SettingOk(c, embedder, hashed) && Returns(runs, p, q, x, z, u)
    requires forall k :: 0 <= k < |runs| ==> Ready(c, runs[k].world, hashed)
    requires JobsIn(turns) == JobsOf(AfterRun(c, runs).log)
    requires forall k :: 0 <= k < |turns| ==> Calm(turns[k].tries) && Succeeds(turns[k].tries)
    ensures
      var disk := runs[1].world.disk;
      Applied(c, AfterRun(c, runs).log, EVERY, embedder)
      == DeltaApply.Rebuild(c.H, c.scope, SortedKeys(disk.Keys), disk, embedder)
      != RowsAfter(c, AfterTurns(clean, turns).ran, embedder)
  {
    ReturnsLogged(c, runs, p, q, x, z, u, hashed);
    EndsReturned(runs, AfterRun(c, runs).log, p, q, x, z, u);
    SkippedIsUnsettled(clean, c, runs, turns, p, q, x, z, u);
    AppliedIsSettled(c, runs, p, q, x, z, u);
    SettledAndNot(clean, c, runs, turns, runs[1].world.disk, embedder, hashed, p);
  }

  lemma {:induction false} SettledAndNot(clean: Index.Cleaner, c: Setting, runs: seq<Execution>, turns: seq<Turn>, disk: Disk, embedder: Embedder,
                      hashed: set<string>, p: string)
    requires CanonicalRoot(clean, c.scope) && forall k :: 0 <= k < |runs| ==> WorldOk(runs[k].world)
    requires AfterRun(c, runs).log != [] && RunOk(c, WorldsOf(AfterRun(c, runs).log), embedder, hashed)
    requires JobsIn(turns) == JobsOf(AfterRun(c, runs).log)
    requires
      var log := AfterRun(c, runs).log;
      && disk == log[|log| - 1].world.disk && !Settled(StagesOf(log, EffectsOf(turns)), disk, p)
      && forall r :: Settled(StagesOf(log, EVERY), disk, r)
    ensures
      Applied(c, AfterRun(c, runs).log, EVERY, embedder)
      == DeltaApply.Rebuild(c.H, c.scope, SortedKeys(disk.Keys), disk, embedder)
      != RowsAfter(c, AfterTurns(clean, turns).ran, embedder)
  {
    PipelineConverges(clean, c, runs, turns, embedder, hashed);
    SyncConverges(c, runs, EVERY, embedder, hashed);
  }

  lemma EndsReturned(runs: seq<Execution>, log: seq<Logged>, p: string, q: string, x: string, z: string, u: string)
    requires Returns(runs, p, q, x, z, u) && AllLogged(runs, log)
    ensures log != [] && log[|log| - 1].world == runs[1].world
  {
    assert LoggedAs(runs[3], log[3]);
  }

  lemma {:induction false} SkippedIsUnsettled(clean: Index.Cleaner, c: Setting, runs: seq<Execution>, turns: seq<Turn>,
                                              p: string, q: string, x: string, z: string, u: string)
    requires IsDigest(c.H) && Returns(runs, p, q, x, z, u) && forall k :: 0 <= k < |runs| ==> WorldOk(runs[k].world)
    requires AllLogged(runs, AfterRun(c, runs).log) && JobsIn(turns) == JobsOf(AfterRun(c, runs).log)
    requires forall k :: 0 <= k < |turns| ==> Calm(turns[k].tries) && Succeeds(turns[k].tries)
    ensures !Settled(StagesOf(AfterRun(c, runs).log, EffectsOf(turns)), runs[1].world.disk, p)
  {
    var log := AfterRun(c, runs).log;
    assert forall k :: 0 <= k < 4 ==> LoggedAs(runs[k], log[k]);
    FourStages(log, EffectsOf(turns));
    SameRecords(c, runs, turns);
    SecondIsSkipped(turns);
    OnlySecond(StagesOf(log, EffectsOf(turns)), runs[0].world, runs[1].world, runs[2].world, p, q, x, z, u);
  }

  lemma {:induction false} AppliedIsSettled(c: Setting, runs: seq<Execution>, p: string, q: string, x: string, z: string, u: string)
    requires Returns(runs, p, q, x, z, u) && AllLogged(runs, AfterRun(c, runs).log)
    ensures forall r :: Settled(StagesOf(AfterRun(c, runs).log, EVERY), runs[1].world.disk, r)
  {
    var log := AfterRun(c, runs).log;
    assert forall k :: 0 <= k < 4 ==> LoggedAs(runs[k], log[k]);
    FourStages(log, EVERY);
    forall r
      ensures Settled(StagesOf(log, EVERY), runs[1].world.disk, r)
    {
      BothTimes(StagesOf(log, EVERY), runs[0].world, runs[1].world, runs[2].world, p, q, x, z, u, r);
    }
  }

  // ---- such states exist ----

  function Note(name: string, content: string): FsNode
  {
    FsFile(name, true, content, |content|, 0)
  }

  lemma NoteParts(p: string, x: string)
    requires ShouldIndexPath(p)
    ensures Walk.NodeContents("", Note(p, x)) == map[p := x] && WalkNode("", Note(p, x)) == [FileEntry(p, |x|, 0)]
  {
    assert ChildPath("", p) == p;
  }

  lemma {:induction false} OneNote(p: string, x: string)
    requires ShouldIndexPath(p)
    ensures Walk.Contents("", [Note(p, x)]) == map[p := x] && SnapshotWalk("", [Note(p, x)]) == [FileEntry(p, |x|, 0)]
    ensures SizeIn(Walk.WorldOf([Note(p, x)]), p) == Some(|x|)
  {
    var nodes, es := [Note(p, x)], [FileEntry(p, |x|, 0)];
    NoteParts(p, x);
    assert nodes[1..] == [] && es[..0] == [];
    assert Walk.Contents("", nodes) == Walk.Contents("", nodes[1..]) + Walk.NodeContents("", nodes[0]);
    assert SnapshotWalk("", nodes) == WalkNode("", nodes[0]) + SnapshotWalk("", nodes[1..]);
    assert MapOf(es) == MapOf(es[..0])[p := Fixed(es[0])];
  }

  lemma {:induction false} TwoNotes(p: string, x: string, q: string, u: string)
    requires ShouldIndexPath(p) && ShouldIndexPath(q) && p != q
    ensures Walk.Contents("", [Note(p, x), Note(q, u)]) == map[p := x, q := u]
    ensures SizeIn(Walk.WorldOf([Note(p, x), Note(q, u)]), p) == Some(|x|)
  {
    var nodes, es := [Note(p, x), Note(q, u)], [FileEntry(p, |x|, 0), FileEntry(q, |u|, 0)];
    NoteParts(p, x);
    OneNote(q, u);
    assert nodes[1..] == [Note(q, u)] && es[..1] == [es[0]] && [es[0]][..0] == [];
    assert Walk.Contents("", nodes) == Walk.Contents("", nodes[1..]) + Walk.NodeContents("", nodes[0]);
    assert SnapshotWalk("", nodes) == WalkNode("", nodes[0]) + SnapshotWalk("", nodes[1..]) == es;
    assert MapOf(es) == MapOf(es[..1])[q := Fixed(es[1])];
    assert MapOf([es[0]]) == MapOf([es[0]][..0])[p := Fixed(es[0])];
  }

  /** Directory trees of one and two files give such states. */
  lemma TreesReturn(p: string, q: string, x: string, z: string, u: string)
    requires ShouldIndexPath(p) && ShouldIndexPath(q) && p != q && x != z && !Blank(x) && !Blank(u)
    ensures States(Walk.WorldOf([Note(p, x)]), Walk.WorldOf([Note(p, x), Note(q, u)]), Walk.WorldOf([Note(p, z), Note(q, u)]), p, q, x, z, u)
  {
    OneNote(p, x);
    TwoNotes(p, x, q, u);
    TwoNotes(p, z, q, u);
  }
}
