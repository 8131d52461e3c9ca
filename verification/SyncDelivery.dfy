/** From the sync job's log to the index: what reaches the queue may be applied, what is refused or skipped as a
    duplicate is lost (internal/jobs/river/sync_worker.go). */
module SyncDelivery {
  import opened Outcomes
  import opened GoStrings
  import opened StringOrder
  import opened MerkleHash
  import opened IndexRuns
  import opened ChunkIndex
  import opened IndexFacts
  import opened Worlds
  import opened SyncRuns
  import opened SyncWorker
  import opened SyncWorking
  import Store = SnapshotStore
  import Links = ParentLinks
  import IndexWorker
  import DeltaApply

  // ---- the index after the queued jobs ----

  /** Which of the queued deltas take effect, numbered from 0: a job may fail for good, or be skipped. */
  type Effects = nat -> bool

  function QueuedIn(log: seq<Logged>): nat
  {
    if log == [] then 0 else QueuedIn(log[..|log| - 1]) + if log[|log| - 1].Queued() then 1 else 0
  }

  /** The last entry's delta is queued and takes effect. */
  predicate LastTakes(log: seq<Logged>, effects: Effects)
    requires log != []
  {
    log[|log| - 1].Queued() && effects(QueuedIn(log[..|log| - 1]))
  }

  /** The rows after those deltas were applied in order, each on its own state. */
  ghost function Applied(c: Setting, log: seq<Logged>, effects: Effects, embedder: Embedder): Result<seq<ChunkRecord>>
  {
    if log == [] then Ok([])
    else
      var last := log[|log| - 1];
      var rows :- Applied(c, log[..|log| - 1], effects, embedder);
      if LastTakes(log, effects) then AppliedTo(c, rows, last.attempt.value.payload, last.world.disk, embedder) else Ok(rows)
  }

  /** The rows after one payload was applied. */
  ghost function AppliedTo(c: Setting, rows: seq<ChunkRecord>, payload: IndexWorker.Payload, disk: DeltaApply.Disk, embedder: Embedder)
    : Result<seq<ChunkRecord>>
  {
    var applied :- DeltaApply.Apply(c.H, c.scope, rows, payload.delta, disk, Some(embedder));
    Ok(applied.rows)
  }

  function StagesOf(log: seq<Logged>, effects: Effects): (stages: seq<Stage>)
    ensures |stages| == |log|
  {
    if log == [] then []
    else StagesOf(log[..|log| - 1], effects) + [Stage(log[|log| - 1].world, LastTakes(log, effects))]
  }

  lemma {:induction false} StageWorlds(log: seq<Logged>, effects: Effects)
    ensures WorldsIn(StagesOf(log, effects)) == WorldsOf(log)
  {
    if log != [] {
      StageWorlds(log[..|log| - 1], effects);
    }
  }

  lemma {:induction false} StagesSnoc(log: seq<Logged>, effects: Effects)
    requires log != []
    ensures
      var stages, last := StagesOf(log, effects), log[|log| - 1];
      && stages[..|stages| - 1] == StagesOf(log[..|log| - 1], effects)
      && stages[|stages| - 1] == Stage(last.world, LastTakes(log, effects))
  {
  }

  /** Applying a queued payload is the step of the run. */
  lemma QueuedStep(c: Setting, before: seq<World>, entry: Logged, rows: seq<ChunkRecord>, embedder: Embedder)
    requires GoodEntry(c, before, entry) && entry.Queued()
    ensures StepRows(c, rows, ChangesFor(c.H, before, entry.world).value, entry.world.disk, embedder)
         == AppliedTo(c, rows, entry.attempt.value.payload, entry.world.disk, embedder)
  {
    var changes := ChangesFor(c.H, before, entry.world).value;
    var link :| SyncWorker.Carries(c, link, entry, changes);
    ApplyIgnoresLink(c, rows, link, changes, entry.world.disk, embedder);
  }

  /** The index is that of the run in which exactly those deltas are delivered. */
  lemma {:induction false} AppliedIsIndexed(c: Setting, log: seq<Logged>, effects: Effects, embedder: Embedder)
    requires GoodLog(c, log)
    ensures Applied(c, log, effects, embedder) == IndexOver(c, StagesOf(log, effects), embedder)
  {
    if log != [] {
      var front, last := log[..|log| - 1], log[|log| - 1];
      AppliedIsIndexed(c, front, effects, embedder);
      StagesSnoc(log, effects);
      StageWorlds(front, effects);
      if last.Queued() && Applied(c, front, effects, embedder).Ok? {
        QueuedStep(c, WorldsOf(front), last, Applied(c, front, effects, embedder).value, embedder);
      }
    }
  }

  /** Over every run of the sync job, whatever fails, whatever enqueuing is refused or skipped, and whichever queued
      deltas take effect: the index equals the full rebuild of the last saved state if and only if every path is
      settled. */
  lemma {:induction false} SyncConverges(c: Setting, runs: seq<Execution>, effects: Effects, embedder: Embedder, hashed: set<string>)
    requires IsDigest(c.H) && forall k :: 0 <= k < |runs| ==> WorldOk(runs[k].world)
    requires AfterRun(c, runs).log != [] && RunOk(c, WorldsOf(AfterRun(c, runs).log), embedder, hashed)
    ensures
      var log := AfterRun(c, runs).log;
      var disk := log[|log| - 1].world.disk;
      Applied(c, log, effects, embedder) == DeltaApply.Rebuild(c.H, c.scope, SortedKeys(disk.Keys), disk, embedder)
      <==> forall p :: Settled(StagesOf(log, effects), disk, p)
  {
    var log := AfterRun(c, runs).log;
    RunIsTracked(c, runs);
    AppliedIsIndexed(c, log, effects, embedder);
    StageWorlds(log, effects);
    StagesSnoc(log, effects);
    LossyRunEqualsRebuild(c, StagesOf(log, effects), embedder, hashed);
  }

  // ---- nothing lost ----

  /** Every saved state's delta was queued, unless it was empty. */
  ghost predicate AllQueued(c: Setting, log: seq<Logged>)
  {
    log == [] ||
    var front, last := log[..|log| - 1], log[|log| - 1];
    AllQueued(c, front) && (last.Queued() || ChangesFor(c.H, WorldsOf(front), last.world) == Ok([]))
  }

  /** Every queued delta takes effect. */
  predicate AllEffective(log: seq<Logged>, effects: Effects)
  {
    forall k :: 0 <= k < QueuedIn(log) ==> effects(k)
  }

  lemma {:induction false} EffectiveFront(log: seq<Logged>, effects: Effects)
    requires log != [] && AllEffective(log, effects)
    ensures AllEffective(log[..|log| - 1], effects) && (log[|log| - 1].Queued() ==> LastTakes(log, effects))
  {
    var n := QueuedIn(log[..|log| - 1]);
    assert n <= QueuedIn(log) && (log[|log| - 1].Queued() ==> n < QueuedIn(log));
  }

  lemma {:induction false} DeliveredSnoc(worlds: seq<World>, w: World)
    ensures AllDelivered(worlds + [w]) == AllDelivered(worlds) + [Stage(w, true)]
  {
    assert (worlds + [w])[..|worlds|] == worlds;
  }

  lemma {:induction false} IndexStep(c: Setting, stages: seq<Stage>, last: Stage, embedder: Embedder)
    requires ChangesFor(c.H, WorldsIn(stages), last.world).Ok?
    ensures IndexOver(c, stages + [last], embedder) ==
      (match IndexOver(c, stages, embedder)
       case Ok(rows) =>
         if last.delivered then StepRows(c, rows, ChangesFor(c.H, WorldsIn(stages), last.world).value, last.world.disk, embedder) else Ok(rows)
       case Err(e) => Err(e))
  {
    assert (stages + [last])[..|stages|] == stages;
  }

  lemma {:induction false} QueuedIsDelivered(c: Setting, log: seq<Logged>, effects: Effects, embedder: Embedder)
    requires GoodLog(c, log) && AllQueued(c, log) && AllEffective(log, effects)
    ensures IndexOver(c, StagesOf(log, effects), embedder) == IndexAfter(c, WorldsOf(log), embedder)
  {
    if log != [] {
      EffectiveFront(log, effects);
      QueuedIsDelivered(c, log[..|log| - 1], effects, embedder);
      QueuedIsDeliveredStep(c, log, effects, embedder);
    }
  }

  lemma {:induction false} QueuedIsDeliveredStep(c: Setting, log: seq<Logged>, effects: Effects, embedder: Embedder)
    requires log != [] && ChangesFor(c.H, WorldsOf(log[..|log| - 1]), log[|log| - 1].world).Ok?
    requires LastTakes(log, effects) || ChangesFor(c.H, WorldsOf(log[..|log| - 1]), log[|log| - 1].world).value == []
    requires IndexOver(c, StagesOf(log[..|log| - 1], effects), embedder) == IndexAfter(c, WorldsOf(log[..|log| - 1]), embedder)
    ensures IndexOver(c, StagesOf(log, effects), embedder) == IndexAfter(c, WorldsOf(log), embedder)
  {
    var front, last := log[..|log| - 1], log[|log| - 1];
    StageWorlds(front, effects);
    DeliveredWorlds(WorldsOf(front));
    DeliveredSnoc(WorldsOf(front), last.world);
    IndexStep(c, StagesOf(front, effects), Stage(last.world, LastTakes(log, effects)), embedder);
    IndexStep(c, AllDelivered(WorldsOf(front)), Stage(last.world, true), embedder);
  }

  /** If every delta is queued and takes effect, the index equals the full rebuild of the last saved state unless a file
      is blank that was filled earlier in its life. */
  lemma {:induction false} DeliveredConverges(c: Setting, runs: seq<Execution>, effects: Effects, embedder: Embedder, hashed: set<string>)
    requires IsDigest(c.H) && forall k :: 0 <= k < |runs| ==> WorldOk(runs[k].world)
    requires AfterRun(c, runs).log != [] && AllQueued(c, AfterRun(c, runs).log)
    requires AllEffective(AfterRun(c, runs).log, effects)
    requires RunOk(c, WorldsOf(AfterRun(c, runs).log), embedder, hashed)
    ensures
      var log := AfterRun(c, runs).log;
      var disk := log[|log| - 1].world.disk;
      Applied(c, log, effects, embedder) == DeltaApply.Rebuild(c.H, c.scope, SortedKeys(disk.Keys), disk, embedder)
      <==> !exists p :: Stale(DisksOf(WorldsOf(log)), p)
  {
    var log := AfterRun(c, runs).log;
    RunIsTracked(c, runs);
    AppliedIsIndexed(c, log, effects, embedder);
    QueuedIsDelivered(c, log, effects, embedder);
    RunEqualsRebuild(c, WorldsOf(log), embedder, hashed);
  }

  // ---- a lost delta ----

  /** An execution that saves the state, unless it is the stored one, but does not queue its delta: the save is not
      acknowledged, or the enqueuing is refused or skipped as a duplicate of another job of the scope. */
  predicate LosesDelta(fate: Fate)
  {
    && !fate.walkFails && !fate.loadFails
    && (fate.save == AckLost || (fate.save == Committed && !fate.enqueue.Queues()))
  }

  /** A save that is acknowledged attempts to enqueue a delta that is not empty. */
  lemma AttemptedIfChanged(c: Setting, t: Store.Tables, saved: seq<World>, w: World, fate: Fate)
    requires Execute(c, w, t, fate).saved && fate.save == Committed
    requires PreviousSnapshot(t, LatestId(t, c.scope)) == Reloaded(c.H, saved)
    requires ChangesFor(c.H, saved, w).Ok? && ChangesFor(c.H, saved, w).value != []
    ensures Execute(c, w, t, fate).attempted.Some?
  {
    AttemptCases(c, w, t, fate);
    ChangesForIs(c, saved, w, PreviousSnapshot(t, LatestId(t, c.scope)).value);
  }

  /** The latest snapshot has the root hash of this state. */
  ghost predicate IsCurrent(c: Setting, t: Store.Tables, w: World)
  {
    && Taken(c.H, w).Ok? && LatestId(t, c.scope).Some?
    && TrimSpace(t.snapshots[LatestId(t, c.scope).value].rootHash) == Taken(c.H, w).value.rootHash
  }

  lemma CurrentStays(c: Setting, s: RunState, w: World, fate: Fate)
    requires IsCurrent(c, s.tables, w)
    ensures Next(c, s, Execution(w, fate)) == s
  {
    ExecuteCases(c, w, s.tables, fate);
  }

  lemma {:induction false} NextRun(c: Setting, runs: seq<Execution>, e: Execution)
    ensures AfterRun(c, runs + [e]) == Next(c, AfterRun(c, runs), e)
  {
    assert (runs + [e])[..|runs|] == runs;
  }

  lemma AppendRuns(runs: seq<Execution>, more: seq<Execution>)
    requires more != []
    ensures runs + more == (runs + more[..|more| - 1]) + [more[|more| - 1]]
  {
  }

  lemma {:induction false} CurrentStaysFor(c: Setting, runs: seq<Execution>, w: World, more: seq<Execution>)
    requires IsCurrent(c, AfterRun(c, runs).tables, w) && forall k :: 0 <= k < |more| ==> more[k].world == w
    ensures AfterRun(c, runs + more) == AfterRun(c, runs)
    decreases |more|
  {
    if more == [] {
      assert runs + more == runs;
    } else {
      var front, last := more[..|more| - 1], more[|more| - 1];
      CurrentStaysFor(c, runs, w, front);
      AppendRuns(runs, more);
      NextRun(c, runs + front, last);
      assert last == Execution(w, last.fate);
      CurrentStays(c, AfterRun(c, runs), w, last.fate);
    }
  }

  /** An execution that loses its delta leaves the state current and at most one entry, whose delta is not queued. */
  lemma {:induction false} LosingStep(c: Setting, s: RunState, w: World, fate: Fate, hashed: set<string>)
    requires IsDigest(c.H) && NoCollision(c.H, hashed) && DeltaApply.ScopeOk(c.scope) && LosesDelta(fate)
    requires Tracks(c, s.tables, WorldsOf(s.log)) && AllReady(c, WorldsOf(s.log), hashed) && Ready(c, w, hashed)
    ensures
      var next := Next(c, s, Execution(w, fate));
      && IsCurrent(c, next.tables, w)
      && (next.log == s.log || exists entry: Logged :: !entry.Queued() && next.log == s.log + [entry])
  {
    LastReady(c, WorldsOf(s.log), hashed);
    var step := Execute(c, w, s.tables, fate);
    if step.saved {
      SavedIsCurrent(c, s.tables, w, fate);
      if fate.save == AckLost {
        UnacknowledgedSave(c, w, s.tables, fate);
      }
      assert !EntryFor(w, step, fate).Queued();
    } else {
      UnsavedIsCurrent(c, s.tables, WorldsOf(s.log), w, fate, hashed);
    }
  }

  lemma SavedIsCurrent(c: Setting, t: Store.Tables, w: World, fate: Fate)
    requires IsDigest(c.H) && WorldOk(w) && Store.Inv(t) && Execute(c, w, t, fate).saved
    ensures IsCurrent(c, Execute(c, w, t, fate).tables, w)
  {
    FirstEffect(c, t, w, fate);
    RootHashIsDigest(c.H, w);
    StoredPrevious(Execute(c, w, t, fate).tables, c.scope, w, Taken(c.H, w).value);
  }

  lemma UnsavedIsCurrent(c: Setting, t: Store.Tables, saved: seq<World>, w: World, fate: Fate, hashed: set<string>)
    requires IsDigest(c.H) && NoCollision(c.H, hashed) && DeltaApply.ScopeOk(c.scope) && Tracks(c, t, saved)
    requires Ready(c, w, hashed) && (saved != [] ==> Ready(c, saved[|saved| - 1], hashed))
    requires !fate.walkFails && !fate.loadFails && fate.save != RolledBack && !Execute(c, w, t, fate).saved
    ensures Execute(c, w, t, fate).tables == t && IsCurrent(c, t, w)
  {
    FaultFreeSaves(c, t, saved, w, fate, hashed);
    PreviousIsReloaded(c, t, saved);
    ExecuteCases(c, w, t, fate);
  }

  /** After a save without acknowledgement nothing is enqueued. */
  lemma UnacknowledgedSave(c: Setting, w: World, t: Store.Tables, fate: Fate)
    requires fate.save == AckLost
    ensures Execute(c, w, t, fate).attempted.None?
  {
  }

  /** A delta that is not queued is lost for good: however often the job runs again on that state, the index stays what
      the earlier deltas made it, and it is not the rebuild if some file's text in it has other chunks. */
  lemma {:induction false} LostForever(c: Setting, before: seq<Execution>, w: World, fate: Fate, more: seq<Execution>, effects: Effects,
                                       embedder: Embedder, hashed: set<string>, p: string)
    requires LosesDelta(fate) && (forall k :: 0 <= k < |before| ==> WorldOk(before[k].world)) && forall k :: 0 <= k < |more| ==> more[k].world == w
    requires RunOk(c, WorldsOf(AfterRun(c, before).log), embedder, hashed) && Ready(c, w, hashed)
    requires ChunksAt(Carried(StagesOf(AfterRun(c, before).log, effects)), p) != ChunksAt(w.disk, p)
    ensures
      var log := AfterRun(c, before + [Execution(w, fate)] + more).log;
      Applied(c, log, effects, embedder) == Applied(c, AfterRun(c, before).log, effects, embedder)
      != DeltaApply.Rebuild(c.H, c.scope, SortedKeys(w.disk.Keys), w.disk, embedder)
  {
    var e, log := Execution(w, fate), AfterRun(c, before).log;
    RunIsTracked(c, before);
    LosingStep(c, AfterRun(c, before), w, fate, hashed);
    NextRun(c, before, e);
    CurrentStaysFor(c, before + [e], w, more);
    NotQueuedKeeps(c, log, AfterRun(c, before + [e]).log, effects, embedder);
    AppliedIsIndexed(c, log, effects, embedder);
    StageWorlds(log, effects);
    LossyRunReflects(c, StagesOf(log, effects), embedder, hashed);
    DiskPathsNormal(w);
    RebuildIs(c, w.disk, embedder);
    RowsAgreeIff(c, Carried(StagesOf(log, effects)), w.disk);
  }

  lemma {:induction false} NotQueuedKeeps(c: Setting, log: seq<Logged>, next: seq<Logged>, effects: Effects, embedder: Embedder)
    requires next == log || exists entry: Logged :: !entry.Queued() && next == log + [entry]
    ensures Applied(c, next, effects, embedder) == Applied(c, log, effects, embedder)
  {
    if next != log {
      assert next[..|next| - 1] == log;
    }
  }

  // ---- parent links ----

  function RootHashesOf(H: string -> string, log: seq<Logged>): seq<string>
  {
    if log == [] then []
    else
      var last := Taken(H, log[|log| - 1].world);
      RootHashesOf(H, log[..|log| - 1]) + [if last.Ok? then last.value.rootHash else ""]
  }

  lemma NamesStored(c: Setting, t: Store.Tables, saved: seq<World>, w: World, fate: Fate)
    requires Tracks(c, t, saved) && Taken(c.H, w).Ok?
    ensures Links.NamesLatest(t, SaveFor(c.scope, w, Taken(c.H, w).value, LatestId(t, c.scope), fate))
  {
    if saved == [] {
      assert forall id :: !Store.IsLatest(t, c.scope, id);
    } else {
      StoredLatest(t, c.scope, saved[|saved| - 1], Taken(c.H, saved[|saved| - 1]).value);
    }
  }

  lemma {:induction false} HashesSnoc(H: string -> string, log: seq<Logged>, entry: Logged)
    requires Taken(H, entry.world).Ok?
    ensures RootHashesOf(H, log + [entry]) == RootHashesOf(H, log) + [Taken(H, entry.world).value.rootHash]
  {
    assert (log + [entry])[..|log|] == log;
  }

  lemma LinkStep(c: Setting, before: RunState, e: Execution)
    requires Tracks(c, before.tables, WorldsOf(before.log)) && Links.Chain(before.tables, c.scope, RootHashesOf(c.H, before.log))
    ensures Links.Chain(Next(c, before, e).tables, c.scope, RootHashesOf(c.H, Next(c, before, e).log))
  {
    var step := Execute(c, e.world, before.tables, e.fate);
    ExecuteCases(c, e.world, before.tables, e.fate);
    if step.saved {
      var save := SaveFor(c.scope, e.world, Taken(c.H, e.world).value, LatestId(before.tables, c.scope), e.fate);
      NamesStored(c, before.tables, WorldsOf(before.log), e.world, e.fate);
      Links.ChainStep(before.tables, save, RootHashesOf(c.H, before.log));
      HashesSnoc(c.H, before.log, EntryFor(e.world, step, e.fate));
    }
  }

  lemma {:induction false} RunIsChain(c: Setting, runs: seq<Execution>)
    requires IsDigest(c.H) && forall k :: 0 <= k < |runs| ==> WorldOk(runs[k].world)
    ensures Links.Chain(AfterRun(c, runs).tables, c.scope, RootHashesOf(c.H, AfterRun(c, runs).log))
  {
    if runs != [] {
      var front, e := runs[..|runs| - 1], runs[|runs| - 1];
      RunIsChain(c, front);
      RunIsTracked(c, front);
      LinkStep(c, AfterRun(c, front), e);
    }
  }

  /** Over every run of the sync job the parent links of its scope are acyclic if and only if no state was saved
      again after another one, that is, the saved root hashes are pairwise distinct. */
  lemma RunLinksAcyclicIff(c: Setting, runs: seq<Execution>)
    requires IsDigest(c.H) && forall k :: 0 <= k < |runs| ==> WorldOk(runs[k].world)
    ensures Links.Acyclic(AfterRun(c, runs).tables, c.scope) <==> Links.Distinct(RootHashesOf(c.H, AfterRun(c, runs).log))
  {
    RunIsChain(c, runs);
    Links.ChainAcyclicIff(AfterRun(c, runs).tables, c.scope, RootHashesOf(c.H, AfterRun(c, runs).log));
  }
}
