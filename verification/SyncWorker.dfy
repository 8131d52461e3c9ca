/** The sync job: snapshot, compare with the stored one, save, enqueue the delta; with failures anywhere
    (internal/jobs/river/sync_worker.go). */
module SyncWorker {
  import opened Outcomes
  import opened GoStrings
  import opened Sorting
  import opened StringOrder
  import opened MerkleHash
  import opened FlatDiff
  import opened MerkleDiff
  import opened NodeTree
  import opened SnapshotTree
  import opened SnapshotBuild
  import opened SnapshotRestore
  import opened ChunkIndex
  import opened IndexFacts
  import opened Worlds
  import Store = SnapshotStore
  import Facts = SnapshotStoreFacts
  import IndexWorker
  import DeltaPaths

  // ---- one execution ----

  /** What becomes of the save: a lost acknowledgement reports an error although the transaction committed. */
  datatype SaveFate = Committed | RolledBack | AckLost

  /** What becomes of the enqueuing: a duplicate is skipped because a job of the scope is queued already; a lost
      acknowledgement reports an error although the job is queued. */
  datatype EnqueueFate = Enqueued | Duplicate | Refused | Unacknowledged {
    predicate Queues() { Enqueued? || Unacknowledged? }
  }

  /** What the environment does to one execution, and the clock it reads. */
  datatype Fate = Fate(walkFails: bool, loadFails: bool, save: SaveFate, enqueue: EnqueueFate, now: int, clock: Store.Clock)

  datatype Outcome = Failed(error: string) | AlreadyCurrent | SavedNoDeltas | JobEnqueued | JobDuplicate

  /** The tables afterwards, whether a save took effect, and the payload whose enqueuing was attempted. */
  datatype Step = Step(tables: Store.Tables, saved: bool, attempted: Option<IndexWorker.Payload>, outcome: Outcome)

  /** The entries of a snapshot as BuildSnapshot returns them. */
  function EntriesOf(w: World, s: Snapshot): seq<Entry>
  {
    CopiedBack(Sort(EntryLe, w.entries), EntriesBelow(s.root))
  }

  function FileStateOf(scope: Scope, e: Entry): Store.FileState
  {
    Store.FileState(scope, e.path, None, e.contentHash, e.nodeHash, e.parentHash, "", e.sizeBytes, e.mtimeNS, "active", None)
  }

  /** snapshotEntriesToFileStates */
  function FileStatesFor(scope: Scope, entries: seq<Entry>): seq<Store.FileState>
  {
    if entries == [] then []
    else
      var last := entries[|entries| - 1];
      FileStatesFor(scope, entries[..|entries| - 1]) + if last.nodeType == NODE_FILE then [FileStateOf(scope, last)] else []
  }

  function SaveFor(scope: Scope, w: World, s: Snapshot, parent: Option<int>, fate: Fate): Store.Save
  {
    Store.Save(
      Store.SnapshotRoot(scope, s.rootHash, parent, "active", true, Some(fate.now)),
      Facts.NodesFor(EntriesOf(w, s)),
      FileStatesFor(scope, EntriesOf(w, s)),
      fate.clock)
  }

  ghost function LatestId(t: Store.Tables, scope: Scope): Option<int>
  {
    if exists id :: Store.IsLatest(t, scope, id) then var id :| Store.IsLatest(t, scope, id); Some(id) else None
  }

  lemma LatestIdIs(t: Store.Tables, scope: Scope, id: int)
    requires Store.IsLatest(t, scope, id)
    ensures LatestId(t, scope) == Some(id)
  {
    var other := LatestId(t, scope).value;
    assert Store.IsLatest(t, scope, other);
    assert Store.SnapshotIn(t, scope, other) && Store.SnapshotIn(t, scope, id);
  }

  /** latestSnapshotForDiff */
  ghost function PreviousSnapshot(t: Store.Tables, latest: Option<int>): Result<Option<Snapshot>>
    requires latest.Some? ==> latest.value in t.snapshots
  {
    if latest.None? then Ok(None)
    else if TrimSpace(t.snapshots[latest.value].rootHash) == "" then Err("latest snapshot root_hash is required")
    else
      var s :- RestoredSnapshot(InKeyOrder(Store.NodesOf(t, latest.value)), t.snapshots[latest.value].rootHash);
      Ok(Some(s))
  }

  function Untouched(t: Store.Tables, outcome: Outcome): Step
  {
    Step(t, false, None, outcome)
  }

  datatype Plan = Stop(outcome: Outcome) | Proceed(current: Snapshot, latest: Option<int>, previousRootHash: string, changes: seq<FileDelta>)

  /** SyncWorker.run up to the save. */
  ghost function Prepare(c: Setting, w: World, t: Store.Tables, fate: Fate): Plan
  {
    if Store.ScopeError(c.scope).Some? then Stop(Failed(Store.ScopeError(c.scope).value))
    else if fate.walkFails then Stop(Failed("build sync snapshot"))
    else if Taken(c.H, w).Err? then Stop(Failed(Taken(c.H, w).error))
    else if fate.loadFails then Stop(Failed("load latest snapshot"))
    else
      var current, latest := Taken(c.H, w).value, LatestId(t, c.scope);
      if latest.Some? && TrimSpace(t.snapshots[latest.value].rootHash) == current.rootHash then Stop(AlreadyCurrent)
      else if PreviousSnapshot(t, latest).Err? then Stop(Failed(PreviousSnapshot(t, latest).error))
      else
        var previous := PreviousSnapshot(t, latest).value;
        var changes := SnapshotChanges(previous, Some(current));
        if changes.Err? then Stop(Failed(changes.error)) else Proceed(current, latest, RootHashOf(previous), changes.value)
  }

  /** The payload of the index job. */
  function PayloadFor(scope: Scope, link: DeltaPaths.Link, changes: seq<FileDelta>): IndexWorker.Payload
  {
    IndexWorker.Payload(scope.sessionID, scope.repoRoot, IndexWorker.PURPOSE_APPLY_DELTA, link.currentSnapshotID,
                        link.currentRootHash, DeltaPaths.DeltaOf(scope, link, changes))
  }

  /** SyncWorker.run */
  ghost function Execute(c: Setting, w: World, t: Store.Tables, fate: Fate): Step
  {
    match Prepare(c, w, t, fate)
    case Stop(outcome) => Untouched(t, outcome)
    case Proceed(current, latest, previousRootHash, changes) =>
      SaveAndEnqueue(c, t, SaveFor(c.scope, w, current, latest, fate), previousRootHash, changes, fate)
  }

  ghost function LinkFor(t: Store.Tables, save: Store.Save, previousRootHash: string): DeltaPaths.Link
  {
    DeltaPaths.Link(save.root.parent, Store.SavedId(t, save), previousRootHash, save.root.rootHash)
  }

  ghost function SaveAndEnqueue(c: Setting, t: Store.Tables, save: Store.Save, previousRootHash: string, changes: seq<FileDelta>, fate: Fate): Step
  {
    if Store.SaveError(save).Some? then Untouched(t, Failed(Store.SaveError(save).value))
    else if fate.save == RolledBack then Untouched(t, Failed("save snapshot state"))
    else
      var saved := Store.AfterSave(t, save);
      if fate.save == AckLost then Step(saved, true, None, Failed("save snapshot state"))
      else if changes == [] then Step(saved, true, None, SavedNoDeltas)
      else Step(saved, true, Some(PayloadFor(c.scope, LinkFor(t, save, previousRootHash), changes)), EnqueueOutcome(fate.enqueue))
  }

  function EnqueueOutcome(fate: EnqueueFate): Outcome
  {
    match fate
    case Enqueued => JobEnqueued
    case Duplicate => JobDuplicate
    case Refused => Failed("enqueue index job")
    case Unacknowledged => Failed("enqueue index job")
  }

  // ---- what the tables say about the states saved so far ----

  /** The latest snapshot of the scope is this one, taken of this state. */
  ghost predicate StoredAt(t: Store.Tables, scope: Scope, w: World, s: Snapshot, id: int)
  {
    && Store.IsLatest(t, scope, id) && t.snapshots[id].rootHash == s.rootHash
    && Store.NodesOf(t, id) == SavedRows(EntriesOf(w, s))
  }

  ghost predicate Stored(t: Store.Tables, scope: Scope, w: World, s: Snapshot)
  {
    exists id :: StoredAt(t, scope, w, s, id)
  }

  ghost predicate Follows(c: Setting, t: Store.Tables, w: World)
  {
    Taken(c.H, w).Ok? && Stored(t, c.scope, w, Taken(c.H, w).value)
  }

  ghost predicate Tracks(c: Setting, t: Store.Tables, saved: seq<World>)
  {
    && Store.Inv(t)
    && (saved == [] ==> forall id :: !Store.SnapshotIn(t, c.scope, id))
    && (saved != [] ==> Follows(c, t, saved[|saved| - 1]))
  }

  lemma RootHashIsDigest(H: string -> string, w: World)
    requires IsDigest(H) && WorldOk(w)
    ensures Taken(H, w).Ok? && IsHex64(Taken(H, w).value.rootHash)
    ensures TrimSpace(Taken(H, w).value.rootHash) == Taken(H, w).value.rootHash != ""
  {
    SnapshotBuilt(H, w.entries, w.disk);
    DigestIsTrimmed(Taken(H, w).value.rootHash);
  }

  lemma DigestIsTrimmed(s: string)
    requires IsHex64(s)
    ensures TrimSpace(s) == s != ""
  {
    assert HexChar(s[0]) && HexChar(s[63]);
    assert !IsSpace(s[0]) && !IsSpace(s[63]);
    TrimSpaceFixed(s);
  }

  lemma StoredLatest(t: Store.Tables, scope: Scope, w: World, s: Snapshot)
    requires Stored(t, scope, w, s)
    ensures LatestId(t, scope).Some? && StoredAt(t, scope, w, s, LatestId(t, scope).value)
  {
    var id :| StoredAt(t, scope, w, s, id);
    LatestIdIs(t, scope, id);
  }

  lemma StoredPrevious(t: Store.Tables, scope: Scope, w: World, s: Snapshot)
    requires Stored(t, scope, w, s) && IsHex64(s.rootHash)
    ensures LatestId(t, scope).Some? && t.snapshots[LatestId(t, scope).value].rootHash == s.rootHash == TrimSpace(s.rootHash)
    ensures PreviousSnapshot(t, LatestId(t, scope)) ==
      (match RestoredSnapshot(InKeyOrder(SavedRows(EntriesOf(w, s))), s.rootHash)
       case Ok(r) => Ok(Some(r))
       case Err(e) => Err(e))
  {
    StoredLatest(t, scope, w, s);
    DigestIsTrimmed(s.rootHash);
  }

  /** The previous snapshot is the reloaded snapshot of the last saved state. */
  lemma PreviousIsReloaded(c: Setting, t: Store.Tables, saved: seq<World>)
    requires Tracks(c, t, saved) && IsDigest(c.H) && (saved != [] ==> WorldOk(saved[|saved| - 1]))
    ensures PreviousSnapshot(t, LatestId(t, c.scope)) == Reloaded(c.H, saved)
    ensures saved != [] ==>
      LatestId(t, c.scope).Some? && Taken(c.H, saved[|saved| - 1]).Ok? &&
      TrimSpace(t.snapshots[LatestId(t, c.scope).value].rootHash) == Taken(c.H, saved[|saved| - 1]).value.rootHash
  {
    if saved == [] {
      assert forall id :: !Store.IsLatest(t, c.scope, id);
    } else {
      var w := saved[|saved| - 1];
      RootHashIsDigest(c.H, w);
      StoredPrevious(t, c.scope, w, Taken(c.H, w).value);
    }
  }

  lemma SavedIsStored(scope: Scope, w: World, s: Snapshot, t: Store.Tables, parent: Option<int>, fate: Fate)
    requires Store.Inv(t)
    ensures
      var t' := Store.AfterSave(t, SaveFor(scope, w, s, parent, fate));
      Store.Inv(t') && Stored(t', scope, w, s)
  {
    var save := SaveFor(scope, w, s, parent, fate);
    var id, t' := Store.SavedId(t, save), Store.AfterSave(t, save);
    Facts.SaveEffect(t, save);
    Facts.ActiveIsLatest(t', save, id, id);
    Facts.NodesAreSavedRows(EntriesOf(w, s));
    assert StoredAt(t', scope, w, s, id);
  }

  /** The two ways an execution ends: with a save, reached only by passing every check, or without any effect. */
  lemma ExecuteCases(c: Setting, w: World, t: Store.Tables, fate: Fate)
    ensures var step, latest := Execute(c, w, t, fate), LatestId(t, c.scope);
      && (!step.saved ==> step.tables == t && step.attempted.None?)
      && (step.saved ==>
            && Taken(c.H, w).Ok? && PreviousSnapshot(t, latest).Ok?
            && (latest.Some? ==> TrimSpace(t.snapshots[latest.value].rootHash) != Taken(c.H, w).value.rootHash)
            && step.tables == Store.AfterSave(t, SaveFor(c.scope, w, Taken(c.H, w).value, latest, fate))
            && SnapshotChanges(PreviousSnapshot(t, latest).value, Some(Taken(c.H, w).value)).Ok?
            && (step.attempted.Some? ==>
                  var changes := SnapshotChanges(PreviousSnapshot(t, latest).value, Some(Taken(c.H, w).value)).value;
                  && changes != []
                  && step.attempted == Some(PayloadFor(
                       c.scope,
                       LinkFor(t, SaveFor(c.scope, w, Taken(c.H, w).value, latest, fate), RootHashOf(PreviousSnapshot(t, latest).value)),
                       changes))))
  {
    var plan := Prepare(c, w, t, fate);
    if plan.Proceed? {
      SaveCases(c, t, SaveFor(c.scope, w, plan.current, plan.latest, fate), plan.previousRootHash, plan.changes, fate);
    }
  }

  /** A save that is acknowledged attempts to enqueue exactly when the delta is not empty. */
  lemma AttemptCases(c: Setting, w: World, t: Store.Tables, fate: Fate)
    requires Execute(c, w, t, fate).saved && fate.save == Committed
    ensures Taken(c.H, w).Ok? && PreviousSnapshot(t, LatestId(t, c.scope)).Ok?
    ensures
      var changes := SnapshotChanges(PreviousSnapshot(t, LatestId(t, c.scope)).value, Some(Taken(c.H, w).value));
      changes.Ok? && (Execute(c, w, t, fate).attempted.Some? <==> changes.value != [])
  {
    var plan := Prepare(c, w, t, fate);
    ProceedCases(c, w, t, fate);
    SaveCases(c, t, SaveFor(c.scope, w, plan.current, plan.latest, fate), plan.previousRootHash, plan.changes, fate);
  }

  lemma ProceedCases(c: Setting, w: World, t: Store.Tables, fate: Fate)
    ensures var plan, latest := Prepare(c, w, t, fate), LatestId(t, c.scope);
      && (plan.Stop? ==> !Execute(c, w, t, fate).saved)
      && (plan.Proceed? ==>
            && Taken(c.H, w).Ok? && PreviousSnapshot(t, latest).Ok?
            && SnapshotChanges(PreviousSnapshot(t, latest).value, Some(Taken(c.H, w).value)) == Ok(plan.changes))
  {
  }

  lemma SaveCases(c: Setting, t: Store.Tables, save: Store.Save, previousRootHash: string, changes: seq<FileDelta>, fate: Fate)
    ensures var step := SaveAndEnqueue(c, t, save, previousRootHash, changes, fate);
      && (!step.saved ==> step.tables == t && step.attempted.None?)
      && (step.saved ==> step.tables == Store.AfterSave(t, save))
      && (step.attempted.Some? ==>
            changes != [] && step.attempted == Some(PayloadFor(c.scope, LinkFor(t, save, previousRootHash), changes)))
      && (step.saved && fate.save == Committed ==> (step.attempted.Some? <==> changes != []))
  {
  }

  // ---- runs of executions ----

  /** An attempt to enqueue a payload, and what became of it. */
  datatype Attempt = Attempt(payload: IndexWorker.Payload, fate: EnqueueFate)

  /** One effective save, with the attempt to enqueue its delta, if there was one. */
  datatype Logged = Logged(world: World, attempt: Option<Attempt>) {
    /** The payload reaches the queue. */
    predicate Queued() { attempt.Some? && attempt.value.fate.Queues() }
  }

  function WorldsOf(log: seq<Logged>): (ws: seq<World>)
    ensures |ws| == |log|
  {
    if log == [] then [] else WorldsOf(log[..|log| - 1]) + [log[|log| - 1].world]
  }

  lemma {:induction false} WorldsSnoc(log: seq<Logged>, entry: Logged)
    ensures WorldsOf(log + [entry]) == WorldsOf(log) + [entry.world]
  {
    assert (log + [entry])[..|log|] == log;
  }

  datatype Execution = Execution(world: World, fate: Fate)

  datatype RunState = RunState(tables: Store.Tables, log: seq<Logged>)

  function EntryFor(w: World, step: Step, fate: Fate): Logged
  {
    Logged(w, if step.attempted.Some? then Some(Attempt(step.attempted.value, fate.enqueue)) else None)
  }

  function LogStep(log: seq<Logged>, w: World, step: Step, fate: Fate): seq<Logged>
  {
    if step.saved then log + [EntryFor(w, step, fate)] else log
  }

  ghost function Next(c: Setting, before: RunState, e: Execution): RunState
  {
    var step := Execute(c, e.world, before.tables, e.fate);
    RunState(step.tables, LogStep(before.log, e.world, step, e.fate))
  }

  /** The tables and the log after these executions, starting from any tables. */
  ghost function AfterRunFrom(c: Setting, t: Store.Tables, runs: seq<Execution>): RunState
  {
    if runs == [] then RunState(t, []) else Next(c, AfterRunFrom(c, t, runs[..|runs| - 1]), runs[|runs| - 1])
  }

  ghost function AfterRun(c: Setting, runs: seq<Execution>): RunState
  {
    AfterRunFrom(c, Store.EMPTY, runs)
  }

  function Attempts(log: seq<Logged>): nat
  {
    if log == [] then 0 else Attempts(log[..|log| - 1]) + if log[|log| - 1].attempt.Some? then 1 else 0
  }

  // ---- an unchanging repository ----

  /** Executing again on the state that is stored changes nothing and attempts nothing. */
  lemma NothingLeftToDo(c: Setting, t: Store.Tables, w: World, fate: Fate)
    requires IsDigest(c.H) && WorldOk(w) && Follows(c, t, w)
    ensures var step := Execute(c, w, t, fate);
      step.tables == t && !step.saved && step.attempted.None?
  {
    RootHashIsDigest(c.H, w);
    StoredPrevious(t, c.scope, w, Taken(c.H, w).value);
    ExecuteCases(c, w, t, fate);
  }

  /** Either nothing has happened yet, or one save has, and its state is stored. */
  ghost predicate AtMostOnce(c: Setting, t: Store.Tables, s: RunState, w: World)
  {
    || s == RunState(t, [])
    || (|s.log| == 1 && s.log[0].world == w && Store.Inv(s.tables) && Follows(c, s.tables, w))
  }

  lemma AtMostOnceStep(c: Setting, t: Store.Tables, s: RunState, w: World, fate: Fate)
    requires IsDigest(c.H) && Store.Inv(t) && WorldOk(w) && AtMostOnce(c, t, s, w)
    ensures AtMostOnce(c, t, Next(c, s, Execution(w, fate)), w)
    ensures s.log != [] ==> Next(c, s, Execution(w, fate)) == s
  {
    if s.log != [] {
      NothingLeftToDo(c, s.tables, w, fate);
    } else {
      FirstEffect(c, t, w, fate);
    }
  }

  /** An execution has no effect, or its state is stored. */
  lemma FirstEffect(c: Setting, t: Store.Tables, w: World, fate: Fate)
    requires Store.Inv(t)
    ensures var step := Execute(c, w, t, fate);
      if step.saved then Store.Inv(step.tables) && Follows(c, step.tables, w) else step.tables == t
  {
    ExecuteCases(c, w, t, fate);
    if Execute(c, w, t, fate).saved {
      SavedIsStored(c.scope, w, Taken(c.H, w).value, t, LatestId(t, c.scope), fate);
    }
  }

  lemma {:induction false} RunsAtMostOnce(c: Setting, t: Store.Tables, runs: seq<Execution>, w: World)
    requires IsDigest(c.H) && Store.Inv(t) && WorldOk(w) && forall k :: 0 <= k < |runs| ==> runs[k].world == w
    ensures AtMostOnce(c, t, AfterRunFrom(c, t, runs), w)
  {
    if runs != [] {
      var front, last := runs[..|runs| - 1], runs[|runs| - 1];
      RunsAtMostOnce(c, t, front, w);
      assert last == Execution(w, last.fate);
      AtMostOnceStep(c, t, AfterRunFrom(c, t, front), w, last.fate);
    }
  }

  /** On an unchanging repository, whatever is stored and whatever fails: at most one save takes effect, at most one
      enqueuing is attempted, and after the save no execution changes anything. */
  lemma {:induction false} UnchangingRepository(c: Setting, t: Store.Tables, runs: seq<Execution>, w: World)
    requires IsDigest(c.H) && Store.Inv(t) && WorldOk(w) && forall k :: 0 <= k < |runs| ==> runs[k].world == w
    ensures |AfterRunFrom(c, t, runs).log| <= 1 && Attempts(AfterRunFrom(c, t, runs).log) <= 1
    ensures AfterRunFrom(c, t, runs).log == [] ==> AfterRunFrom(c, t, runs).tables == t
    ensures AfterRunFrom(c, t, runs).log != [] ==>
      forall fate :: Next(c, AfterRunFrom(c, t, runs), Execution(w, fate)) == AfterRunFrom(c, t, runs)
  {
    RunsAtMostOnce(c, t, runs, w);
    var s := AfterRunFrom(c, t, runs);
    if s.log != [] {
      forall fate
        ensures Next(c, s, Execution(w, fate)) == s
      {
        AtMostOnceStep(c, t, s, w, fate);
      }
      assert s.log[..0] == [];
    }
  }

  // ---- every run ----

  /** The attempted delta, if any, is the delta from the state saved before; no state is saved twice in a row. */
  ghost predicate GoodEntry(c: Setting, before: seq<World>, entry: Logged)
  {
    && ChangesFor(c.H, before, entry.world).Ok? && Taken(c.H, entry.world).Ok?
    && (entry.attempt.Some? ==>
          && ChangesFor(c.H, before, entry.world).value != []
          && exists link :: Carries(c, link, entry, ChangesFor(c.H, before, entry.world).value))
    && Fresh(c, before, entry.world)
  }

  /** The payload is for this state and these changes. */
  ghost predicate Carries(c: Setting, link: DeltaPaths.Link, entry: Logged, changes: seq<FileDelta>)
    requires entry.attempt.Some? && Taken(c.H, entry.world).Ok?
  {
    link.currentRootHash == Taken(c.H, entry.world).value.rootHash && entry.attempt.value.payload == PayloadFor(c.scope, link, changes)
  }

  /** The root hash differs from that of the state saved before. */
  ghost predicate Fresh(c: Setting, before: seq<World>, w: World)
  {
    before != [] ==>
      Taken(c.H, before[|before| - 1]).Ok? && Taken(c.H, w).Ok? &&
      Taken(c.H, w).value.rootHash != Taken(c.H, before[|before| - 1]).value.rootHash
  }

  lemma ChangesForIs(c: Setting, before: seq<World>, w: World, prev: Option<Snapshot>)
    requires Taken(c.H, w).Ok? && Reloaded(c.H, before) == Ok(prev)
    ensures ChangesFor(c.H, before, w) == SnapshotChanges(prev, Some(Taken(c.H, w).value))
  {
  }

  /** What one execution does, whatever fails. */
  lemma ExecutionKeeps(c: Setting, t: Store.Tables, saved: seq<World>, w: World, fate: Fate)
    requires IsDigest(c.H) && Tracks(c, t, saved) && WorldOk(w) && (saved != [] ==> WorldOk(saved[|saved| - 1]))
    ensures var step := Execute(c, w, t, fate);
      && (step.saved ==> Tracks(c, step.tables, saved + [w]) && GoodEntry(c, saved, EntryFor(w, step, fate)))
      && (!step.saved ==> step.tables == t && step.attempted.None?)
  {
    ExecuteCases(c, w, t, fate);
    PreviousIsReloaded(c, t, saved);
    if Execute(c, w, t, fate).saved {
      var latest := LatestId(t, c.scope);
      SavedIsStored(c.scope, w, Taken(c.H, w).value, t, latest, fate);
      assert (saved + [w])[|saved + [w]| - 1] == w;
      GoodExecution(c, t, saved, w, fate);
    }
  }

  lemma GoodExecution(c: Setting, t: Store.Tables, saved: seq<World>, w: World, fate: Fate)
    requires Execute(c, w, t, fate).saved && PreviousSnapshot(t, LatestId(t, c.scope)) == Reloaded(c.H, saved)
    requires saved != [] ==>
      LatestId(t, c.scope).Some? && Taken(c.H, saved[|saved| - 1]).Ok? &&
      TrimSpace(t.snapshots[LatestId(t, c.scope).value].rootHash) == Taken(c.H, saved[|saved| - 1]).value.rootHash
    ensures GoodEntry(c, saved, EntryFor(w, Execute(c, w, t, fate), fate))
  {
    ExecuteCases(c, w, t, fate);
    var latest := LatestId(t, c.scope);
    var prev := PreviousSnapshot(t, latest).value;
    ChangesForIs(c, saved, w, prev);
    var entry := EntryFor(w, Execute(c, w, t, fate), fate);
    if entry.attempt.Some? {
      var link := LinkFor(t, SaveFor(c.scope, w, Taken(c.H, w).value, latest, fate), RootHashOf(prev));
      assert Carries(c, link, entry, ChangesFor(c.H, saved, w).value);
    }
  }

  /** Every entry is good with respect to the states saved before it. */
  ghost predicate GoodLog(c: Setting, log: seq<Logged>)
  {
    log == [] ||
    var front, last := log[..|log| - 1], log[|log| - 1];
    GoodLog(c, front) && WorldOk(last.world) && GoodEntry(c, WorldsOf(front), last)
  }

  lemma {:induction false} GoodSnoc(c: Setting, log: seq<Logged>, entry: Logged)
    requires GoodLog(c, log) && WorldOk(entry.world) && GoodEntry(c, WorldsOf(log), entry)
    ensures GoodLog(c, log + [entry])
  {
    assert (log + [entry])[..|log|] == log;
  }

  lemma {:induction false} LastSavedOk(c: Setting, log: seq<Logged>)
    requires GoodLog(c, log)
    ensures log != [] ==> WorldOk(WorldsOf(log)[|log| - 1])
  {
  }

  lemma {:induction false} TrackStep(c: Setting, before: RunState, e: Execution)
    requires IsDigest(c.H) && WorldOk(e.world) && Tracks(c, before.tables, WorldsOf(before.log)) && GoodLog(c, before.log)
    ensures Tracks(c, Next(c, before, e).tables, WorldsOf(Next(c, before, e).log)) && GoodLog(c, Next(c, before, e).log)
  {
    var saved, step := WorldsOf(before.log), Execute(c, e.world, before.tables, e.fate);
    LastSavedOk(c, before.log);
    ExecutionKeeps(c, before.tables, saved, e.world, e.fate);
    if step.saved {
      GoodSnoc(c, before.log, EntryFor(e.world, step, e.fate));
      WorldsSnoc(before.log, EntryFor(e.world, step, e.fate));
    }
  }

  /** Over every run, whatever fails: the stored snapshot is the last saved state's, and every attempted delta
      leads from the state saved before to the state saved with it. */
  lemma {:induction false} RunIsTracked(c: Setting, runs: seq<Execution>)
    requires IsDigest(c.H) && forall k :: 0 <= k < |runs| ==> WorldOk(runs[k].world)
    ensures Tracks(c, AfterRun(c, runs).tables, WorldsOf(AfterRun(c, runs).log)) && GoodLog(c, AfterRun(c, runs).log)
  {
    if runs != [] {
      var front, e := runs[..|runs| - 1], runs[|runs| - 1];
      RunIsTracked(c, front);
      TrackStep(c, AfterRun(c, front), e);
    }
  }
}
