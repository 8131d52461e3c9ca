/** The two jobs together: the payloads the sync job queues, worked off by the index job with retries, restarts and its
    checkpoint (internal/jobs/river/sync_worker.go, internal/jobs/river/index_worker.go). */
module JobPipeline {
  import opened Outcomes
  import opened GoStrings
  import opened StringOrder
  import opened MerkleHash
  import opened FlatDiff
  import opened MerkleDiff
  import opened ChunkIndex
  import opened IndexFacts
  import opened IndexTheorems
  import opened IndexRuns
  import opened Worlds
  import opened SyncRuns
  import opened SyncWorker
  import opened SyncDelivery
  import opened RootChanges
  import opened IndexTurns
  import Index = IndexWorker
  import Store = SnapshotStore
  import Facts = SnapshotStoreFacts
  import Twice = ApplyTwice
  import Paths
  import DeltaApply
  import DeltaPaths

  // ---- what the sync job queues ----

  function JobFor(entry: Logged): Job
    requires entry.Queued()
  {
    Job(entry.attempt.value.payload, entry.world.disk)
  }

  function JobsOf(log: seq<Logged>): (jobs: seq<Job>)
    ensures |jobs| == QueuedIn(log)
  {
    if log == [] then []
    else JobsOf(log[..|log| - 1]) + if log[|log| - 1].Queued() then [JobFor(log[|log| - 1])] else []
  }

  /** The root of the scope is canonical. */
  predicate CanonicalRoot(clean: Index.Cleaner, scope: Scope)
  {
    Index.NormalizeRepoRoot(clean, scope.repoRoot) == scope.repoRoot
  }

  function KeyFor(clean: Index.Cleaner, scope: Scope): string
  {
    Index.JobIdentityKey(clean, Index.PURPOSE_APPLY_DELTA, scope.sessionID, scope.repoRoot)
  }

  lemma PurposeIsTrimmed()
    ensures TrimSpace(Index.PURPOSE_APPLY_DELTA) == Index.PURPOSE_APPLY_DELTA != ""
  {
    var s := Index.PURPOSE_APPLY_DELTA;
    assert s[0] == 'i' && s[|s| - 1] == 'a';
    TrimSpaceFixed(s);
  }

  /** A payload of the sync job is taken as it is. */
  lemma PayloadCheckpointed(clean: Index.Cleaner, scope: Scope, link: DeltaPaths.Link, changes: seq<FileDelta>)
    requires TrimSpace(scope.sessionID) == scope.sessionID != "" && scope.repoRoot != "" && CanonicalRoot(clean, scope)
    requires IsHex64(link.currentRootHash) && changes != []
    ensures
      var payload := PayloadFor(scope, link, changes);
      Checkpointed(clean, KeyFor(clean, scope), payload)
  {
    PurposeIsTrimmed();
    DigestIsTrimmed(link.currentRootHash);
    assert |DeltaPaths.RecordsFor(changes)| > 0;
  }

  lemma EntryCheckpointed(clean: Index.Cleaner, c: Setting, before: seq<World>, entry: Logged)
    requires IsDigest(c.H) && GoodEntry(c, before, entry) && WorldOk(entry.world) && entry.Queued()
    requires TrimSpace(c.scope.sessionID) == c.scope.sessionID != "" && c.scope.repoRoot != "" && CanonicalRoot(clean, c.scope)
    ensures
      var payload := entry.attempt.value.payload;
      && Checkpointed(clean, KeyFor(clean, c.scope), payload)
      && payload.rootHash == Taken(c.H, entry.world).value.rootHash
  {
    var changes := ChangesFor(c.H, before, entry.world).value;
    var link :| SyncWorker.Carries(c, link, entry, changes);
    RootHashIsDigest(c.H, entry.world);
    PayloadCheckpointed(clean, c.scope, link, changes);
  }

  /** A named scope with a canonical root. */
  predicate Named(clean: Index.Cleaner, scope: Scope)
  {
    TrimSpace(scope.sessionID) == scope.sessionID != "" && scope.repoRoot != "" && CanonicalRoot(clean, scope)
  }

  lemma {:induction false} JobsCheckpointed(clean: Index.Cleaner, c: Setting, log: seq<Logged>, k: nat)
    requires IsDigest(c.H) && GoodLog(c, log) && Named(clean, c.scope) && k < |JobsOf(log)|
    ensures Checkpointed(clean, KeyFor(clean, c.scope), JobsOf(log)[k].payload)
  {
    var front, last := log[..|log| - 1], log[|log| - 1];
    if k < |JobsOf(front)| {
      JobsCheckpointed(clean, c, front, k);
    } else {
      EntryCheckpointed(clean, c, WorldsOf(front), last);
    }
  }

  lemma {:induction false} TurnsCheckpointed(clean: Index.Cleaner, c: Setting, log: seq<Logged>, turns: seq<Turn>)
    requires IsDigest(c.H) && GoodLog(c, log) && Named(clean, c.scope) && JobsIn(turns) == JobsOf(log)
    ensures AllCheckpointed(clean, KeyFor(clean, c.scope), turns)
  {
    forall k | 0 <= k < |turns|
      ensures Checkpointed(clean, KeyFor(clean, c.scope), turns[k].job.payload)
    {
      JobAt(turns, k);
      JobsCheckpointed(clean, c, log, k);
    }
  }

  // ---- the index after the turns ----

  /** The rows after the runner took effect for these jobs in turn, each on its own state. */
  ghost function RowsAfter(c: Setting, ran: seq<Job>, embedder: Embedder): Result<seq<ChunkRecord>>
  {
    if ran == [] then Ok([])
    else
      var last := ran[|ran| - 1];
      var rows :- RowsAfter(c, ran[..|ran| - 1], embedder);
      AppliedTo(c, rows, last.payload, last.disk, embedder)
  }

  /** The queued deltas that reach the index. */
  function EffectsOf(turns: seq<Turn>): Effects
  {
    (k: nat) => k < |turns| && Applies(turns, k)
  }

  lemma {:induction false} RowsSnoc(c: Setting, ran: seq<Job>, job: Job, embedder: Embedder)
    ensures
      var rows, next := RowsAfter(c, ran, embedder), RowsAfter(c, ran + [job], embedder);
      if rows.Ok? then next == AppliedTo(c, rows.value, job.payload, job.disk, embedder) else next == rows
  {
    assert (ran + [job])[..|ran|] == ran;
  }

  /** Rows that applying the job again does not change. */
  lemma {:induction false} RowsRepeat(c: Setting, ran: seq<Job>, job: Job, n: nat, embedder: Embedder, rows: seq<ChunkRecord>)
    requires n > 0 && RowsAfter(c, ran + [job], embedder) == Ok(rows)
    requires AppliedTo(c, rows, job.payload, job.disk, embedder) == Ok(rows)
    ensures RowsAfter(c, ran + Repeated(job, n), embedder) == Ok(rows)
    decreases n
  {
    if n == 1 {
      assert Repeated(job, 1) == [job];
    } else {
      RowsRepeat(c, ran, job, n - 1, embedder, rows);
      assert ran + Repeated(job, n) == ran + Repeated(job, n - 1) + [job];
      RowsSnoc(c, ran + Repeated(job, n - 1), job, embedder);
    }
  }

  /** A delta between two states writes only paths that it also clears. */
  lemma DeltaReplaces(prev: World, w: World)
    requires NormalKeys(w.disk.Keys)
    ensures Twice.Replaces(w.disk, DeltaApply.PathSets(Changed(prev, w), Vanished(prev, w)))
  {
    forall p | p in Twice.Written(w.disk, Changed(prev, w))
      ensures p in Twice.Targets(Twice.Written(w.disk, Changed(prev, w)))
    {
      Paths.NormalIsFixed(p);
    }
  }

  /** Applying the delta between two states a second time changes nothing. */
  lemma AppliedAgain(c: Setting, before: Disk, prev: World, w: World, payload: Index.Payload, embedder: Embedder, rows: seq<ChunkRecord>)
    requires NormalKeys(w.disk.Keys) && AppliedTo(c, RebuildRows(c, before), payload, w.disk, embedder) == Ok(rows)
    requires DeltaApply.CollectPaths(payload.delta.changes) == Ok(DeltaApply.PathSets(Changed(prev, w), Vanished(prev, w)))
    ensures AppliedTo(c, rows, payload, w.disk, embedder) == Ok(rows)
  {
    RebuildMember(c, before);
    StrictIsUnique(RebuildRows(c, before));
    DeltaReplaces(prev, w);
    Twice.ApplyIdempotent(c.H, c.scope, RebuildRows(c, before), payload.delta, w.disk, Some(embedder), Some(embedder));
  }

  lemma EntryTouches(c: Setting, before: seq<World>, entry: Logged, hashed: set<string>)
    requires IsDigest(c.H) && NoCollision(c.H, hashed) && GoodEntry(c, before, entry) && entry.Queued()
    requires Ready(c, entry.world, hashed) && (before != [] ==> Ready(c, before[|before| - 1], hashed))
    ensures DeltaApply.CollectPaths(entry.attempt.value.payload.delta.changes)
         == Ok(DeltaApply.PathSets(Changed(LastWorld(before), entry.world), Vanished(LastWorld(before), entry.world)))
  {
    DeltaTouches(c, before, entry.world, hashed);
  }

  lemma ReadyFront(c: Setting, log: seq<Logged>, hashed: set<string>)
    requires log != [] && AllReady(c, WorldsOf(log), hashed)
    ensures AllReady(c, WorldsOf(log[..|log| - 1]), hashed) && Ready(c, log[|log| - 1].world, hashed)
    ensures var before := WorldsOf(log[..|log| - 1]);
      before != [] ==> Ready(c, before[|before| - 1], hashed)
  {
    var ws := WorldsOf(log);
    assert ws[..|ws| - 1] == WorldsOf(log[..|log| - 1]) && ws[|ws| - 1] == log[|log| - 1].world;
  }

  /** The index after a log in terms of the texts it holds. */
  lemma {:induction false} AppliedRows(c: Setting, log: seq<Logged>, effects: Effects, embedder: Embedder, hashed: set<string>)
    requires GoodLog(c, log) && RunOk(c, WorldsOf(log), embedder, hashed)
    ensures Applied(c, log, effects, embedder) == Ok(RebuildRows(c, Carried(StagesOf(log, effects))))
  {
    AppliedIsIndexed(c, log, effects, embedder);
    StageWorlds(log, effects);
    LossyRunReflects(c, StagesOf(log, effects), embedder, hashed);
  }

  /** Once the last delta of a log has taken effect, applying it again changes nothing. */
  lemma {:induction false} TakenIsSteady(c: Setting, log: seq<Logged>, effects: Effects, embedder: Embedder, hashed: set<string>)
    requires log != [] && GoodLog(c, log) && RunOk(c, WorldsOf(log), embedder, hashed) && LastTakes(log, effects)
    ensures
      var job, rows, next := JobFor(log[|log| - 1]), Applied(c, log[..|log| - 1], effects, embedder), Applied(c, log, effects, embedder);
      && rows.Ok? && next.Ok? && AppliedTo(c, rows.value, job.payload, job.disk, embedder) == next
      && AppliedTo(c, next.value, job.payload, job.disk, embedder) == next
  {
    var front, last := log[..|log| - 1], log[|log| - 1];
    ReadyFront(c, log, hashed);
    AppliedRows(c, front, effects, embedder, hashed);
    AppliedRows(c, log, effects, embedder, hashed);
    EntryTouches(c, WorldsOf(front), last, hashed);
    DiskPathsNormal(last.world);
    AppliedAgain(c, Carried(StagesOf(front, effects)), LastWorld(WorldsOf(front)), last.world, JobFor(last).payload, embedder,
                 Applied(c, log, effects, embedder).value);
  }

  /** The last job of a log, run any number of times but none. */
  lemma {:induction false} LastJobRuns(c: Setting, log: seq<Logged>, effects: Effects, ran: seq<Job>, n: nat, embedder: Embedder, hashed: set<string>)
    requires log != [] && GoodLog(c, log) && RunOk(c, WorldsOf(log), embedder, hashed) && LastTakes(log, effects) && n > 0
    requires RowsAfter(c, ran, embedder) == Applied(c, log[..|log| - 1], effects, embedder)
    ensures RowsAfter(c, ran + Repeated(JobFor(log[|log| - 1]), n), embedder) == Applied(c, log, effects, embedder)
  {
    TakenIsSteady(c, log, effects, embedder, hashed);
    var rows, next := Applied(c, log[..|log| - 1], effects, embedder).value, Applied(c, log, effects, embedder).value;
    RunsRepeat(c, ran, JobFor(log[|log| - 1]), n, embedder, rows, next);
  }

  lemma {:induction false} UntakenKeeps(c: Setting, log: seq<Logged>, effects: Effects, embedder: Embedder)
    requires log != [] && !LastTakes(log, effects)
    ensures Applied(c, log, effects, embedder) == Applied(c, log[..|log| - 1], effects, embedder)
  {
  }

  lemma {:induction false} RunsRepeat(c: Setting, ran: seq<Job>, job: Job, n: nat, embedder: Embedder, rows: seq<ChunkRecord>, next: seq<ChunkRecord>)
    requires n > 0 && RowsAfter(c, ran, embedder) == Ok(rows)
    requires AppliedTo(c, rows, job.payload, job.disk, embedder) == Ok(next) == AppliedTo(c, next, job.payload, job.disk, embedder)
    ensures RowsAfter(c, ran + Repeated(job, n), embedder) == Ok(next)
  {
    RowsSnoc(c, ran, job, embedder);
    RowsRepeat(c, ran, job, n, embedder, next);
  }

  /** The jobs of a log, job by job. */
  lemma {:induction false} RepeatsOf(log: seq<Logged>, counts: seq<nat>)
    requires log != [] && |counts| == |JobsOf(log)|
    ensures
      var front, last := log[..|log| - 1], log[|log| - 1];
      var n := |JobsOf(front)|;
      && n <= |counts|
      && (last.Queued() ==>
            n == |counts| - 1 && Repeats(JobsOf(log), counts) == Repeats(JobsOf(front), counts[..n]) + Repeated(JobFor(last), counts[n]))
      && (last.Queued() && counts[n] == 0 ==> Repeats(JobsOf(log), counts) == Repeats(JobsOf(front), counts[..n]))
      && (!last.Queued() ==> counts[..n] == counts && Repeats(JobsOf(log), counts) == Repeats(JobsOf(front), counts[..n]))
  {
    var front, last := log[..|log| - 1], log[|log| - 1];
    var n := |JobsOf(front)|;
    if last.Queued() {
      assert JobsOf(log)[..n] == JobsOf(front);
    } else {
      assert counts[..n] == counts && JobsOf(log) == JobsOf(front);
    }
  }

  /** Running each queued job as often as its count says leaves what its positive counts leave. */
  lemma {:induction false} RunsAreApplied(c: Setting, log: seq<Logged>, effects: Effects, counts: seq<nat>, embedder: Embedder, hashed: set<string>)
    requires GoodLog(c, log) && RunOk(c, WorldsOf(log), embedder, hashed) && |counts| == |JobsOf(log)|
    requires Positive(counts, effects)
    ensures RowsAfter(c, Repeats(JobsOf(log), counts), embedder) == Applied(c, log, effects, embedder)
  {
    if log != [] {
      var front := log[..|log| - 1];
      var n := |JobsOf(front)|;
      GoodFront(c, log, embedder, hashed);
      PositiveFront(log, counts, effects);
      RunsAreApplied(c, front, effects, counts[..n], embedder, hashed);
      LastRuns(c, log, effects, counts, embedder, hashed);
    }
  }

  /** The positive counts are those of the deltas that take effect. */
  predicate Positive(counts: seq<nat>, effects: Effects)
  {
    forall k :: 0 <= k < |counts| ==> (counts[k] > 0 <==> effects(k))
  }

  lemma {:induction false} PositiveFront(log: seq<Logged>, counts: seq<nat>, effects: Effects)
    requires log != [] && |counts| == |JobsOf(log)| && Positive(counts, effects)
    ensures
      var n := |JobsOf(log[..|log| - 1])|;
      && n <= |counts| && Positive(counts[..n], effects)
      && (log[|log| - 1].Queued() ==> (counts[|counts| - 1] > 0 <==> LastTakes(log, effects)))
  {
  }

  lemma {:induction false} GoodFront(c: Setting, log: seq<Logged>, embedder: Embedder, hashed: set<string>)
    requires log != [] && GoodLog(c, log) && RunOk(c, WorldsOf(log), embedder, hashed)
    ensures GoodLog(c, log[..|log| - 1]) && RunOk(c, WorldsOf(log[..|log| - 1]), embedder, hashed)
  {
    ReadyFront(c, log, hashed);
  }

  lemma {:induction false} LastRuns(c: Setting, log: seq<Logged>, effects: Effects, counts: seq<nat>, embedder: Embedder, hashed: set<string>)
    requires log != [] && GoodLog(c, log) && RunOk(c, WorldsOf(log), embedder, hashed)
    requires |counts| == |JobsOf(log)| >= |JobsOf(log[..|log| - 1])|
    requires log[|log| - 1].Queued() ==> (counts[|counts| - 1] > 0 <==> LastTakes(log, effects))
    requires
      var front := log[..|log| - 1];
      RowsAfter(c, Repeats(JobsOf(front), counts[..|JobsOf(front)|]), embedder) == Applied(c, front, effects, embedder)
    ensures RowsAfter(c, Repeats(JobsOf(log), counts), embedder) == Applied(c, log, effects, embedder)
  {
    var front := log[..|log| - 1];
    var n := |JobsOf(front)|;
    RepeatsOf(log, counts);
    if LastTakes(log, effects) {
      LastJobRuns(c, log, effects, Repeats(JobsOf(front), counts[..n]), counts[n], embedder, hashed);
    } else {
      UntakenKeeps(c, log, effects, embedder);
    }
  }

  /** Both jobs over every run, with any failures of either, retries and restarts: the runner leaves the index in which
      exactly the deltas are applied that are queued and not skipped. */
  lemma {:induction false} PipelineApplies(clean: Index.Cleaner, c: Setting, log: seq<Logged>, turns: seq<Turn>, embedder: Embedder, hashed: set<string>)
    requires GoodLog(c, log) && RunOk(c, WorldsOf(log), embedder, hashed) && CanonicalRoot(clean, c.scope)
    requires JobsIn(turns) == JobsOf(log)
    ensures RowsAfter(c, AfterTurns(clean, turns).ran, embedder) == Applied(c, log, EffectsOf(turns), embedder)
  {
    TurnsCheckpointed(clean, c, log, turns);
    TurnsRun(clean, KeyFor(clean, c.scope), turns);
    var counts :| Counts(turns, counts) && AfterTurns(clean, turns).ran == Repeats(JobsIn(turns), counts);
    assert Positive(counts, EffectsOf(turns)) by {
      forall k | 0 <= k < |counts|
        ensures counts[k] > 0 <==> EffectsOf(turns)(k)
      {
        assert CountsAt(turns, counts, k);
      }
    }
    RunsAreApplied(c, log, EffectsOf(turns), counts, embedder, hashed);
  }

  /** Both jobs end to end, whatever fails in either: the index equals the full rebuild of the last saved state if and
      only if every path is settled, where a delta counts as delivered if it is queued, some try of its job takes
      effect, and the checkpoint does not skip it. */
  lemma {:induction false} PipelineConverges(clean: Index.Cleaner, c: Setting, runs: seq<Execution>, turns: seq<Turn>,
                                             embedder: Embedder, hashed: set<string>)
    requires CanonicalRoot(clean, c.scope) && forall k :: 0 <= k < |runs| ==> WorldOk(runs[k].world)
    requires AfterRun(c, runs).log != [] && RunOk(c, WorldsOf(AfterRun(c, runs).log), embedder, hashed)
    requires JobsIn(turns) == JobsOf(AfterRun(c, runs).log)
    ensures
      var log := AfterRun(c, runs).log;
      var disk := log[|log| - 1].world.disk;
      RowsAfter(c, AfterTurns(clean, turns).ran, embedder) == DeltaApply.Rebuild(c.H, c.scope, SortedKeys(disk.Keys), disk, embedder)
      <==> forall p :: Settled(StagesOf(log, EffectsOf(turns)), disk, p)
  {
    RunIsTracked(c, runs);
    PipelineApplies(clean, c, AfterRun(c, runs).log, turns, embedder, hashed);
    SyncConverges(c, runs, EffectsOf(turns), embedder, hashed);
  }

  // ---- which jobs are skipped ----

  /** Every payload names the row of its root hash. */
  ghost predicate Numbered(t: Store.Tables, scope: Scope, log: seq<Logged>)
  {
    forall i :: 0 <= i < |log| ==> NamesRow(t, scope, log[i])
  }

  ghost predicate NamesRow(t: Store.Tables, scope: Scope, entry: Logged)
  {
    entry.attempt.Some? ==> Store.RootAt(t, scope, entry.attempt.value.payload.rootHash, entry.attempt.value.payload.snapshotID)
  }

  /** A save renumbers no row. */
  lemma NumberedKept(t: Store.Tables, save: Store.Save, log: seq<Logged>)
    requires Store.Inv(t) && Numbered(t, save.root.scope, log)
    ensures Numbered(Store.AfterSave(t, save), save.root.scope, log)
  {
    Facts.SaveParents(t, save);
  }

  lemma NumberedEntry(c: Setting, t: Store.Tables, w: World, fate: Fate)
    requires Store.Inv(t) && Execute(c, w, t, fate).saved
    ensures NamesRow(Execute(c, w, t, fate).tables, c.scope, EntryFor(w, Execute(c, w, t, fate), fate))
  {
    ExecuteCases(c, w, t, fate);
    Facts.SaveEffect(t, SaveFor(c.scope, w, Taken(c.H, w).value, LatestId(t, c.scope), fate));
  }

  lemma NumberedStep(c: Setting, before: RunState, e: Execution)
    requires Store.Inv(before.tables) && Numbered(before.tables, c.scope, before.log)
    ensures Numbered(Next(c, before, e).tables, c.scope, Next(c, before, e).log)
  {
    var t, step := before.tables, Execute(c, e.world, before.tables, e.fate);
    ExecuteCases(c, e.world, t, e.fate);
    if step.saved {
      NumberedKept(t, SaveFor(c.scope, e.world, Taken(c.H, e.world).value, LatestId(t, c.scope), e.fate), before.log);
      NumberedEntry(c, t, e.world, e.fate);
    }
  }

  lemma {:induction false} RunIsNumbered(c: Setting, runs: seq<Execution>)
    requires IsDigest(c.H) && forall k :: 0 <= k < |runs| ==> WorldOk(runs[k].world)
    ensures Store.Inv(AfterRun(c, runs).tables) && Numbered(AfterRun(c, runs).tables, c.scope, AfterRun(c, runs).log)
  {
    RunIsTracked(c, runs);
    if runs != [] {
      var front, e := runs[..|runs| - 1], runs[|runs| - 1];
      RunIsNumbered(c, front);
      NumberedStep(c, AfterRun(c, front), e);
    }
  }

  lemma {:induction false} JobEntry(log: seq<Logged>, k: nat) returns (i: nat)
    requires k < |JobsOf(log)|
    ensures i < |log| && log[i].Queued() && JobsOf(log)[k] == JobFor(log[i])
  {
    var front := log[..|log| - 1];
    if k < |JobsOf(front)| {
      i := JobEntry(front, k);
    } else {
      i := |log| - 1;
    }
  }

  /** Two queued jobs of a run have the same record if and only if they have the same root hash. */
  lemma SameRecordIff(c: Setting, runs: seq<Execution>, i: nat, j: nat)
    requires IsDigest(c.H) && forall k :: 0 <= k < |runs| ==> WorldOk(runs[k].world)
    requires i < |JobsOf(AfterRun(c, runs).log)| && j < |JobsOf(AfterRun(c, runs).log)|
    ensures
      var p, q := JobsOf(AfterRun(c, runs).log)[i].payload, JobsOf(AfterRun(c, runs).log)[j].payload;
      RecordOf(p) == RecordOf(q) <==> p.rootHash == q.rootHash
  {
    var s := AfterRun(c, runs);
    RunIsNumbered(c, runs);
    var a := JobEntry(s.log, i);
    var b := JobEntry(s.log, j);
    var p, q := JobsOf(s.log)[i].payload, JobsOf(s.log)[j].payload;
    assert NamesRow(s.tables, c.scope, s.log[a]) && NamesRow(s.tables, c.scope, s.log[b]);
  }

  lemma {:induction false} RememberedJob(turns: seq<Turn>) returns (i: nat)
    requires Remembered(turns).Some?
    ensures i < |turns| && Remembered(turns) == Some(RecordOf(turns[i].job.payload))
  {
    var front := turns[..|turns| - 1];
    if Remembered(turns) == Some(RecordOf(turns[|turns| - 1].job.payload)) {
      i := |turns| - 1;
    } else {
      i := RememberedJob(front);
    }
  }

  /** A job is skipped if and only if the checkpoint holds its root hash: its state has returned since, without the
      delta of another state having been acknowledged in between. */
  lemma {:induction false} SkippedIff(c: Setting, runs: seq<Execution>, turns: seq<Turn>, k: nat)
    requires IsDigest(c.H) && forall i :: 0 <= i < |runs| ==> WorldOk(runs[i].world)
    requires JobsIn(turns) == JobsOf(AfterRun(c, runs).log) && k < |turns|
    ensures Skipped(turns, k) <==>
      Remembered(turns[..k]).Some? && Remembered(turns[..k]).value.rootHash == turns[k].job.payload.rootHash
  {
    if Remembered(turns[..k]).Some? {
      var i := RememberedJob(turns[..k]);
      assert turns[..k][i] == turns[i];
      JobAt(turns, i);
      JobAt(turns, k);
      SameRecordIff(c, runs, i, k);
    }
  }

  // ---- nothing lost, nothing skipped ----

  /** The state whose delta was queued last. */
  function LastQueued(log: seq<Logged>): Option<World>
  {
    if log == [] then None
    else if log[|log| - 1].Queued() then Some(log[|log| - 1].world)
    else LastQueued(log[..|log| - 1])
  }

  ghost function FilesAfter(H: string -> string, worlds: seq<World>): FileMap
  {
    FilesOf(LastTaken(H, worlds))
  }

  /** A delta is empty if and only if the files are those of the state before. */
  lemma EmptyIff(c: Setting, worlds: seq<World>, w: World, hashed: set<string>)
    requires IsDigest(c.H) && NoCollision(c.H, hashed) && Ready(c, w, hashed)
    requires worlds != [] ==> Ready(c, worlds[|worlds| - 1], hashed)
    ensures Taken(c.H, w).Ok?
    ensures ChangesFor(c.H, worlds, w) == Ok([]) <==> FilesAfter(c.H, worlds) == Files(Taken(c.H, w).value.root)
  {
    TakenDescribes(c, w, hashed);
    LastDescribes(c, worlds, hashed);
    ReloadedChanges(c.H, worlds, w);
    DescribedPair(c, LastTaken(c.H, worlds), LastWorld(worlds), Some(Taken(c.H, w).value), w, hashed);
    EmptyDeltaIffSameFiles(c.H, LastTaken(c.H, worlds), Some(Taken(c.H, w).value));
  }

  /** States with different files have different root hashes. */
  lemma DifferentFiles(c: Setting, v: World, w: World, hashed: set<string>)
    requires IsDigest(c.H) && NoCollision(c.H, hashed) && Ready(c, v, hashed) && Ready(c, w, hashed)
    ensures Taken(c.H, v).Ok? && Taken(c.H, w).Ok?
    ensures Files(Taken(c.H, v).value.root) != Files(Taken(c.H, w).value.root) ==>
      Taken(c.H, v).value.rootHash != Taken(c.H, w).value.rootHash
  {
    TakenDescribes(c, v, hashed);
    TakenDescribes(c, w, hashed);
    var a, b := Taken(c.H, v).value, Taken(c.H, w).value;
    DescribedPair(c, Some(a), v, Some(b), w, hashed);
    EmptyDeltaIffSameFiles(c.H, Some(a), Some(b));
    if a.rootHash == b.rootHash {
      EqualRootsNoChange(c.H, a, b);
      DiffIsFlat(c.H, Some(a), Some(b));
    }
  }

  /** The queue so far: alternating jobs, the last of a state that has the files of the state saved last. */
  ghost predicate QueueGood(c: Setting, log: seq<Logged>, hashed: set<string>)
  {
    var jobs, v := JobsOf(log), LastQueued(log);
    && Alternate(jobs)
    && (v.None? ==> jobs == [] && FilesAfter(c.H, WorldsOf(log)) == map[])
    && (v.Some? ==>
          && jobs != [] && Ready(c, v.value, hashed) && Taken(c.H, v.value).Ok?
          && jobs[|jobs| - 1].payload.rootHash == Taken(c.H, v.value).value.rootHash
          && FilesAfter(c.H, WorldsOf(log)) == Files(Taken(c.H, v.value).value.root))
  }

  lemma {:induction false} FilesOfLast(c: Setting, log: seq<Logged>)
    requires log != [] && Taken(c.H, log[|log| - 1].world).Ok?
    ensures FilesAfter(c.H, WorldsOf(log)) == Files(Taken(c.H, log[|log| - 1].world).value.root)
  {
    assert WorldsOf(log)[|log| - 1] == log[|log| - 1].world;
  }

  lemma {:induction false} QueueStep(c: Setting, log: seq<Logged>, hashed: set<string>)
    requires IsDigest(c.H) && NoCollision(c.H, hashed)
    requires log != [] && GoodLog(c, log) && AllQueued(c, log) && AllReady(c, WorldsOf(log), hashed)
    requires QueueGood(c, log[..|log| - 1], hashed)
    ensures QueueGood(c, log, hashed)
  {
    var front, last := log[..|log| - 1], log[|log| - 1];
    ReadyFront(c, log, hashed);
    EmptyIff(c, WorldsOf(front), last.world, hashed);
    FilesOfLast(c, log);
    if last.Queued() {
      QueuedKeeps(c, front, last, hashed);
      QueueGrows(c, log, hashed);
    } else {
      QueueStays(c, log, hashed);
    }
  }

  lemma {:induction false} QueueGrows(c: Setting, log: seq<Logged>, hashed: set<string>)
    requires log != [] && log[|log| - 1].Queued() && Ready(c, log[|log| - 1].world, hashed)
    requires Taken(c.H, log[|log| - 1].world).Ok?
    requires FilesAfter(c.H, WorldsOf(log)) == Files(Taken(c.H, log[|log| - 1].world).value.root)
    requires Alternate(JobsOf(log[..|log| - 1]) + [JobFor(log[|log| - 1])])
    requires JobFor(log[|log| - 1]).payload.rootHash == Taken(c.H, log[|log| - 1].world).value.rootHash
    ensures QueueGood(c, log, hashed)
  {
  }

  lemma {:induction false} QueueStays(c: Setting, log: seq<Logged>, hashed: set<string>)
    requires log != [] && !log[|log| - 1].Queued() && QueueGood(c, log[..|log| - 1], hashed)
    requires FilesAfter(c.H, WorldsOf(log)) == FilesAfter(c.H, WorldsOf(log[..|log| - 1]))
    ensures QueueGood(c, log, hashed)
  {
    assert JobsOf(log) == JobsOf(log[..|log| - 1]) && LastQueued(log) == LastQueued(log[..|log| - 1]);
  }

  /** A job that is queued next alternates with the one queued last. */
  lemma {:induction false} QueuedKeeps(c: Setting, front: seq<Logged>, last: Logged, hashed: set<string>)
    requires IsDigest(c.H) && NoCollision(c.H, hashed)
    requires QueueGood(c, front, hashed) && GoodEntry(c, WorldsOf(front), last) && last.Queued()
    requires WorldOk(last.world) && Ready(c, last.world, hashed) && Taken(c.H, last.world).Ok?
    requires FilesAfter(c.H, WorldsOf(front)) != Files(Taken(c.H, last.world).value.root)
    ensures Alternate(JobsOf(front) + [JobFor(last)])
    ensures JobFor(last).payload.rootHash == Taken(c.H, last.world).value.rootHash
  {
    var changes := ChangesFor(c.H, WorldsOf(front), last.world).value;
    var link :| SyncWorker.Carries(c, link, last, changes);
    var v := LastQueued(front);
    if v.Some? {
      DifferentFiles(c, v.value, last.world, hashed);
    }
    AlternateSnoc(JobsOf(front), JobFor(last));
  }

  lemma AlternateSnoc(jobs: seq<Job>, job: Job)
    requires Alternate(jobs) && (jobs != [] ==> RecordOf(jobs[|jobs| - 1].payload) != RecordOf(job.payload))
    ensures Alternate(jobs + [job])
  {
  }

  lemma {:induction false} QueueAlternates(c: Setting, log: seq<Logged>, hashed: set<string>)
    requires IsDigest(c.H) && NoCollision(c.H, hashed)
    requires GoodLog(c, log) && AllQueued(c, log) && AllReady(c, WorldsOf(log), hashed)
    ensures QueueGood(c, log, hashed)
  {
    if log != [] {
      ReadyFront(c, log, hashed);
      QueueAlternates(c, log[..|log| - 1], hashed);
      QueueStep(c, log, hashed);
    }
  }

  lemma {:induction false} RepeatsOnce(jobs: seq<Job>, counts: seq<nat>)
    requires |jobs| == |counts| && forall k :: 0 <= k < |counts| ==> counts[k] == 1
    ensures Repeats(jobs, counts) == jobs
  {
    if jobs != [] {
      var n := |jobs| - 1;
      RepeatsOnce(jobs[..n], counts[..n]);
      assert Repeated(jobs[n], 1) == [jobs[n]];
    }
  }

  /** If the sync job loses no delta and every queued job is retried until its runner succeeds, the checkpoint skips none
      and every delta reaches the index; without restarts and lost acknowledgements exactly once, in order. */
  lemma {:induction false} PipelineAppliesAll(clean: Index.Cleaner, c: Setting, runs: seq<Execution>, turns: seq<Turn>, hashed: set<string>)
    requires IsDigest(c.H) && NoCollision(c.H, hashed) && Named(clean, c.scope)
    requires forall k :: 0 <= k < |runs| ==> WorldOk(runs[k].world)
    requires AllQueued(c, AfterRun(c, runs).log) && AllReady(c, WorldsOf(AfterRun(c, runs).log), hashed)
    requires JobsIn(turns) == JobsOf(AfterRun(c, runs).log) && forall i :: 0 <= i < |turns| ==> Succeeds(turns[i].tries)
    ensures forall k :: 0 <= k < |turns| ==> !Skipped(turns, k) && Applies(turns, k)
    ensures (forall i :: 0 <= i < |turns| ==> Calm(turns[i].tries)) ==> AfterTurns(clean, turns).ran == JobsOf(AfterRun(c, runs).log)
  {
    var log := AfterRun(c, runs).log;
    RunIsTracked(c, runs);
    QueueAlternates(c, log, hashed);
    forall k | 0 <= k < |turns|
      ensures !Skipped(turns, k) && Applies(turns, k)
    {
      AlternateApply(turns, k);
    }
    TurnsCheckpointed(clean, c, log, turns);
    TurnsRun(clean, KeyFor(clean, c.scope), turns);
    var counts :| Counts(turns, counts) && AfterTurns(clean, turns).ran == Repeats(JobsIn(turns), counts);
    if forall i :: 0 <= i < |turns| ==> Calm(turns[i].tries) {
      forall k | 0 <= k < |counts|
        ensures counts[k] == 1
      {
        assert CountsAt(turns, counts, k) && Applies(turns, k);
      }
      RepeatsOnce(JobsOf(log), counts);
    }
  }

  lemma {:induction false} AllTake(log: seq<Logged>, turns: seq<Turn>)
    requires JobsIn(turns) == JobsOf(log) && forall k :: 0 <= k < |turns| ==> !Skipped(turns, k) && Applies(turns, k)
    ensures AllEffective(log, EffectsOf(turns))
  {
    assert |turns| == QueuedIn(log);
  }

  /** If no delta is lost and every queued job is retried until its runner succeeds, the index equals the full rebuild of
      the last saved state unless a file is blank that was filled earlier in its life. */
  lemma {:induction false} LosslessPipeline(clean: Index.Cleaner, c: Setting, runs: seq<Execution>, turns: seq<Turn>,
                                            embedder: Embedder, hashed: set<string>)
    requires CanonicalRoot(clean, c.scope) && forall k :: 0 <= k < |runs| ==> WorldOk(runs[k].world)
    requires AfterRun(c, runs).log != [] && AllQueued(c, AfterRun(c, runs).log)
    requires RunOk(c, WorldsOf(AfterRun(c, runs).log), embedder, hashed)
    requires JobsIn(turns) == JobsOf(AfterRun(c, runs).log) && forall i :: 0 <= i < |turns| ==> Succeeds(turns[i].tries)
    ensures
      var log := AfterRun(c, runs).log;
      var disk := log[|log| - 1].world.disk;
      RowsAfter(c, AfterTurns(clean, turns).ran, embedder) == DeltaApply.Rebuild(c.H, c.scope, SortedKeys(disk.Keys), disk, embedder)
      <==> !exists p :: Stale(DisksOf(WorldsOf(log)), p)
  {
    RunIsTracked(c, runs);
    PipelineApplies(clean, c, AfterRun(c, runs).log, turns, embedder, hashed);
    PipelineAppliesAll(clean, c, runs, turns, hashed);
    AllTake(AfterRun(c, runs).log, turns);
    DeliveredConverges(c, runs, EffectsOf(turns), embedder, hashed);
  }
}
