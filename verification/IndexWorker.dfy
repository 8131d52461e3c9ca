/** The index job and its checkpoint, with failing runners and retries
    (internal/jobs/river/index_worker.go, internal/jobs/contracts/index_sync_job.go). */
module IndexWorker {
  import opened Outcomes
  import opened GoStrings
  import DeltaApply

  /** contracts.IndexJobPayload; the request time is only reported. */
  datatype Payload = Payload(sessionID: string, repoRoot: string, purpose: string, snapshotID: int, rootHash: string, delta: DeltaApply.SyncDelta)

  /** indexCheckpointRecord */
  datatype Record = Record(snapshotID: int, rootHash: string)

  const PURPOSE_APPLY_DELTA: string := "index.apply_delta"
  const SEPARATOR: string := "::"

  /** filepath.Clean */
  type Cleaner = string -> string

  function NormalizePart(value: string): string
  {
    ToLower(TrimSpace(value))
  }

  function NormalizeRepoRoot(clean: Cleaner, repoRoot: string): string
  {
    if TrimSpace(repoRoot) == "" then "" else clean(TrimSpace(repoRoot))
  }

  function JobIdentityKey(clean: Cleaner, purpose: string, sessionID: string, repoRoot: string): string
  {
    NormalizePart(purpose) + SEPARATOR + NormalizePart(sessionID) + SEPARATOR + NormalizeRepoRoot(clean, repoRoot)
  }

  /** normalizeIndexPayload */
  function NormalizePayload(clean: Cleaner, p: Payload): Result<Payload>
  {
    var n := Payload(TrimSpace(p.sessionID), NormalizeRepoRoot(clean, p.repoRoot),
                     if TrimSpace(p.purpose) == "" then PURPOSE_APPLY_DELTA else TrimSpace(p.purpose),
                     p.snapshotID, TrimSpace(p.rootHash), p.delta);
    if n.sessionID == "" then Err("index job session_id is required")
    else if n.repoRoot == "" then Err("index job repo_root is required")
    else Ok(n)
  }

  // ---- the checkpoint ----

  datatype Mark = Mark(key: string, record: Record)

  /** checkpointRecordForPayload: without a snapshot id and a root hash there is nothing to remember. */
  function MarkOf(clean: Cleaner, p: Payload): Option<Mark>
  {
    var record := Record(p.snapshotID, TrimSpace(p.rootHash));
    if record.snapshotID == 0 && record.rootHash == "" then None
    else Some(Mark(JobIdentityKey(clean, p.purpose, p.sessionID, p.repoRoot), record))
  }

  type Records = map<string, Record>

  predicate IsMarked(records: Records, mark: Option<Mark>)
  {
    mark.Some? && mark.value.key in records && records[mark.value.key] == mark.value.record
  }

  function Marked(records: Records, mark: Option<Mark>): Records
  {
    if mark.Some? then records[mark.value.key := mark.value.record] else records
  }

  // ---- one execution ----

  /** What the runner and the after-apply hook do in one execution. */
  datatype Fate = Fate(runner: Result<DeltaApply.Applied>, afterFails: bool)

  datatype Outcome = Failed(error: string) | EmptyDelta | AlreadyApplied | Done(filesTouched: nat, chunksReplaced: nat)

  /** The checkpoint afterwards, and the payload with which the runner succeeded, if it did. */
  datatype Step = Step(records: Records, ran: Option<Payload>, outcome: Outcome)

  function Execute(clean: Cleaner, records: Records, payload: Payload, fate: Fate): Step
  {
    match NormalizePayload(clean, payload)
    case Err(e) => Step(records, None, Failed(e))
    case Ok(p) =>
      if p.delta.changes == [] then Step(records, None, EmptyDelta)
      else if IsMarked(records, MarkOf(clean, p)) then Step(records, None, AlreadyApplied)
      else if fate.runner.Err? then Step(records, None, Failed(fate.runner.error))
      else Step(Marked(records, MarkOf(clean, p)), Some(p),
                if fate.afterFails then Failed("finalize index apply")
                else Done(fate.runner.value.FilesTouched(), fate.runner.value.ChunksReplaced()))
  }

  /** The payload with which an execution calls the runner, if it does. */
  function Called(clean: Cleaner, records: Records, payload: Payload): Option<Payload>
  {
    match NormalizePayload(clean, payload)
    case Err(_) => None
    case Ok(p) => if p.delta.changes == [] || IsMarked(records, MarkOf(clean, p)) then None else Some(p)
  }

  lemma CalledRuns(clean: Cleaner, records: Records, payload: Payload, fate: Fate)
    ensures Execute(clean, records, payload, fate).ran == if fate.runner.Ok? then Called(clean, records, payload) else None
  {
  }

  // ---- runs ----

  datatype Execution = Execution(payload: Payload, fate: Fate)

  /** The checkpoint, and the marks of all successful runner calls in order. */
  datatype RunState = RunState(records: Records, applied: seq<Mark>)

  function Next(clean: Cleaner, s: RunState, e: Execution): RunState
  {
    var step := Execute(clean, s.records, e.payload, e.fate);
    RunState(step.records,
             if step.ran.Some? && MarkOf(clean, step.ran.value).Some? then s.applied + [MarkOf(clean, step.ran.value).value] else s.applied)
  }

  function AfterRun(clean: Cleaner, runs: seq<Execution>): RunState
  {
    if runs == [] then RunState(map[], []) else Next(clean, AfterRun(clean, runs[..|runs| - 1]), runs[|runs| - 1])
  }

  /** The record of the last successful call with this key. */
  function LastRecord(applied: seq<Mark>, key: string): Option<Record>
  {
    if applied == [] then None
    else if applied[|applied| - 1].key == key then Some(applied[|applied| - 1].record)
    else LastRecord(applied[..|applied| - 1], key)
  }

  function Lookup(records: Records, key: string): Option<Record>
  {
    if key in records then Some(records[key]) else None
  }

  /** Two successful calls with the same key and record have one with the same key and another record between them. */
  ghost predicate Alternates(applied: seq<Mark>)
  {
    forall i, j :: 0 <= i < j < |applied| && applied[i] == applied[j] ==> DifferentBetween(applied, i, j)
  }

  ghost predicate DifferentBetween(applied: seq<Mark>, i: nat, j: nat)
    requires i < j < |applied|
  {
    exists m :: i < m < j && applied[m].key == applied[i].key && applied[m].record != applied[i].record
  }

  ghost predicate Consistent(s: RunState)
  {
    Alternates(s.applied) && forall key :: Lookup(s.records, key) == LastRecord(s.applied, key)
  }

  /** A call after call i with another last record has a call with that record after call i. */
  lemma {:induction false} LastAfter(applied: seq<Mark>, i: nat)
    requires i < |applied| && LastRecord(applied, applied[i].key) != Some(applied[i].record)
    ensures exists m :: i < m < |applied| && applied[m].key == applied[i].key && applied[m].record != applied[i].record
    decreases |applied|
  {
    var n := |applied| - 1;
    if applied[n].key != applied[i].key {
      LastAfter(applied[..n], i);
      var m :| i < m < n && applied[..n][m].key == applied[..n][i].key && applied[..n][m].record != applied[..n][i].record;
      assert applied[m] == applied[..n][m];
    }
  }

  lemma {:induction false} AlternatesSnoc(applied: seq<Mark>, mark: Mark)
    requires Alternates(applied) && LastRecord(applied, mark.key) != Some(mark.record)
    ensures Alternates(applied + [mark])
  {
    var all := applied + [mark];
    forall i, j | 0 <= i < j < |all| && all[i] == all[j]
      ensures DifferentBetween(all, i, j)
    {
      if j < |applied| {
        assert DifferentBetween(applied, i, j);
        var m :| i < m < j && applied[m].key == applied[i].key && applied[m].record != applied[i].record;
        assert all[m] == applied[m];
      } else {
        LastAfter(applied, i);
        var m :| i < m < |applied| && applied[m].key == applied[i].key && applied[m].record != applied[i].record;
        assert all[m] == applied[m];
      }
    }
  }

  lemma {:induction false} LastSnoc(applied: seq<Mark>, mark: Mark, key: string)
    ensures LastRecord(applied + [mark], key) == if mark.key == key then Some(mark.record) else LastRecord(applied, key)
  {
    assert (applied + [mark])[..|applied|] == applied;
  }

  lemma StepKeeps(clean: Cleaner, s: RunState, e: Execution)
    requires Consistent(s)
    ensures Consistent(Next(clean, s, e))
  {
    var step := Execute(clean, s.records, e.payload, e.fate);
    if step.ran.Some? && MarkOf(clean, step.ran.value).Some? {
      var mark := MarkOf(clean, step.ran.value).value;
      assert Lookup(s.records, mark.key) == LastRecord(s.applied, mark.key);
      AlternatesSnoc(s.applied, mark);
      forall key
        ensures Lookup(step.records, key) == LastRecord(s.applied + [mark], key)
      {
        LastSnoc(s.applied, mark, key);
      }
    }
  }

  /** Over every run, whatever fails and whatever is retried: each key's checkpoint is the record of its last
      successfully applied payload, and no record is applied twice without a different one in between. */
  lemma {:induction false} RunsAreConsistent(clean: Cleaner, runs: seq<Execution>)
    ensures Consistent(AfterRun(clean, runs))
  {
    if runs != [] {
      RunsAreConsistent(clean, runs[..|runs| - 1]);
      StepKeeps(clean, AfterRun(clean, runs[..|runs| - 1]), runs[|runs| - 1]);
    }
  }

  /** Retrying an applied payload calls nothing, whether or not its after-apply hook failed. */
  lemma RetryDoesNothing(clean: Cleaner, records: Records, payload: Payload, fate: Fate, again: Fate)
    requires Execute(clean, records, payload, fate).ran.Some?
    requires MarkOf(clean, Execute(clean, records, payload, fate).ran.value).Some?
    ensures
      var after := Execute(clean, records, payload, fate).records;
      Execute(clean, after, payload, again) == Step(after, None, AlreadyApplied)
  {
  }

  // ---- which scopes share a checkpoint ----

  predicate NoColon(s: string)
  {
    ':' !in s
  }

  /** The key determines its parts as long as purpose and session contain no colon. */
  lemma KeyDeterminesParts(clean: Cleaner, purpose: string, session: string, root: string, purpose': string, session': string, root': string)
    requires NoColon(NormalizePart(purpose)) && NoColon(NormalizePart(session))
    requires NoColon(NormalizePart(purpose')) && NoColon(NormalizePart(session'))
    ensures JobIdentityKey(clean, purpose, session, root) == JobIdentityKey(clean, purpose', session', root')
       <==> NormalizePart(purpose) == NormalizePart(purpose') && NormalizePart(session) == NormalizePart(session') &&
            NormalizeRepoRoot(clean, root) == NormalizeRepoRoot(clean, root')
  {
    var p, q := NormalizePart(purpose), NormalizePart(purpose');
    var s, t := NormalizePart(session), NormalizePart(session');
    var a, b := NormalizeRepoRoot(clean, root), NormalizeRepoRoot(clean, root');
    if JobIdentityKey(clean, purpose, session, root) == JobIdentityKey(clean, purpose', session', root') {
      Regroup(p, s, a);
      Regroup(q, t, b);
      FirstPart(p, SEPARATOR + (s + (SEPARATOR + a)), q, SEPARATOR + (t + (SEPARATOR + b)));
      assert (SEPARATOR + (s + (SEPARATOR + a)))[2..] == s + (SEPARATOR + a);
      assert (SEPARATOR + (t + (SEPARATOR + b)))[2..] == t + (SEPARATOR + b);
      FirstPart(s, SEPARATOR + a, t, SEPARATOR + b);
      assert (SEPARATOR + a)[2..] == a && (SEPARATOR + b)[2..] == b;
    }
  }

  lemma Regroup(p: string, s: string, a: string)
    ensures p + SEPARATOR + s + SEPARATOR + a == p + (SEPARATOR + (s + (SEPARATOR + a)))
  {
  }

  lemma FirstPart(x: string, u: string, y: string, v: string)
    requires NoColon(x) && NoColon(y) && |u| > 0 && |v| > 0 && u[0] == ':' && v[0] == ':' && x + u == y + v
    ensures x == y && u == v
  {
    var s := x + u;
    assert s[|x|] == ':' && s[|y|] == ':';
    assert forall k :: 0 <= k < |x| ==> s[k] == x[k];
    assert forall k :: 0 <= k < |y| ==> s[k] == y[k];
    assert |x| == |y|;
    assert x == s[..|x|] && y == s[..|y|] && u == s[|x|..] && v == s[|y|..];
  }

  // ---- the job ----

  class MemoryCheckpoint {
    var records: Records

    constructor ()
      ensures records == map[]
    {
      records := map[];
    }

    method IsApplied(clean: Cleaner, payload: Payload) returns (applied: bool)
      ensures applied == IsMarked(records, MarkOf(clean, payload))
    {
      var mark := MarkOf(clean, payload);
      if mark.None? || mark.value.key !in records {
        return false;
      }
      return records[mark.value.key] == mark.value.record;
    }

    method MarkApplied(clean: Cleaner, payload: Payload)
      modifies this
      ensures records == Marked(old(records), MarkOf(clean, payload))
    {
      var mark := MarkOf(clean, payload);
      if mark.Some? {
        records := records[mark.value.key := mark.value.record];
      }
    }
  }

  class IndexJob {
    const checkpoint: MemoryCheckpoint
    /** The payloads with which the runner succeeded. */
    var ran: seq<Payload>

    constructor (checkpoint: MemoryCheckpoint)
      ensures this.checkpoint == checkpoint && ran == []
    {
      this.checkpoint := checkpoint;
      ran := [];
    }

    /** IndexWorker.runJob */
    method RunJob(clean: Cleaner, payload: Payload, fate: Fate) returns (outcome: Outcome)
      modifies this`ran, checkpoint
      ensures
        var step := Execute(clean, old(checkpoint.records), payload, fate);
        && checkpoint.records == step.records && outcome == step.outcome
        && ran == old(ran) + if step.ran.Some? then [step.ran.value] else []
    {
      var normalized := NormalizePayload(clean, payload);
      if normalized.Err? {
        return Failed(normalized.error);
      }
      var p := normalized.value;
      if p.delta.changes == [] {
        return EmptyDelta;
      }
      var applied := checkpoint.IsApplied(clean, p);
      if applied {
        return AlreadyApplied;
      }
      if fate.runner.Err? {
        return Failed(fate.runner.error);
      }
      ran := ran + [p];
      checkpoint.MarkApplied(clean, p);
      if fate.afterFails {
        return Failed("finalize index apply");
      }
      return Done(fate.runner.value.FilesTouched(), fate.runner.value.ChunksReplaced());
    }
  }
}
