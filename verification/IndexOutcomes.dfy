/** What an execution of the index job reports, from the payload, the checkpoint and what the runner does
    (internal/jobs/river/index_worker.go, internal/jobs/contracts/index_sync_job.go, internal/indexing/delta_apply.go). */
module IndexOutcomes {
  import opened Outcomes
  import opened GoStrings
  import opened Sorting
  import opened StringOrder
  import opened Paths
  import opened ChunkIndex
  import opened IndexWorker
  import DeltaApply
  import ApplyTwice

  // ---- payloads ----

  /** The key of a job: purpose and session trimmed and in lower case, the cleaned root. */
  lemma KeyText(clean: Cleaner, purpose: string, sessionID: string, repoRoot: string)
    ensures JobIdentityKey(clean, purpose, sessionID, repoRoot) ==
      ToLower(TrimSpace(purpose)) + "::" + ToLower(TrimSpace(sessionID)) + "::" +
      (if Blank(repoRoot) then "" else clean(TrimSpace(repoRoot)))
  {
    TrimSpaceEmpty(repoRoot);
  }

  /** A payload is taken if and only if it names a session and a root; then its parts are trimmed, its root is cleaned, and
      a missing purpose is that of applying a delta. */
  lemma NormalizedIs(clean: Cleaner, p: Payload)
    ensures NormalizePayload(clean, p).Ok? <==>
      !Blank(p.sessionID) && !Blank(p.repoRoot) && clean(TrimSpace(p.repoRoot)) != ""
    ensures NormalizePayload(clean, p).Ok? ==>
      NormalizePayload(clean, p).value ==
        Payload(TrimSpace(p.sessionID), clean(TrimSpace(p.repoRoot)), if Blank(p.purpose) then "index.apply_delta" else TrimSpace(p.purpose),
                p.snapshotID, TrimSpace(p.rootHash), p.delta)
  {
    TrimSpaceEmpty(p.sessionID);
    TrimSpaceEmpty(p.repoRoot);
    TrimSpaceEmpty(p.purpose);
  }

  /** The checkpoint holds the payload's snapshot id and root hash under its key. */
  predicate Held(clean: Cleaner, records: Records, p: Payload)
  {
    var key := JobIdentityKey(clean, p.purpose, p.sessionID, p.repoRoot);
    && (p.snapshotID != 0 || !Blank(p.rootHash))
    && key in records && records[key].snapshotID == p.snapshotID && records[key].rootHash == TrimSpace(p.rootHash)
  }

  lemma HeldIff(clean: Cleaner, records: Records, p: Payload)
    ensures IsMarked(records, MarkOf(clean, p)) <==> Held(clean, records, p)
  {
    TrimSpaceEmpty(p.rootHash);
  }

  /** The checkpoint with the payload's record, if it has one. */
  lemma MarkedIs(clean: Cleaner, records: Records, p: Payload)
    ensures
      var key := JobIdentityKey(clean, p.purpose, p.sessionID, p.repoRoot);
      Marked(records, MarkOf(clean, p)) ==
        if p.snapshotID != 0 || !Blank(p.rootHash) then records[key := Record(p.snapshotID, TrimSpace(p.rootHash))] else records
  {
    TrimSpaceEmpty(p.rootHash);
  }

  // ---- outcomes ----

  /** The outcome of an execution whose payload is taken as p. */
  predicate OutcomeFor(clean: Cleaner, records: Records, p: Payload, fate: Fate, step: Step)
  {
    if p.delta.changes == [] then step == Step(records, None, EmptyDelta)
    else if Held(clean, records, p) then step == Step(records, None, AlreadyApplied)
    else
      match fate.runner
      case Err(e) => step == Step(records, None, Failed(e))
      case Ok(applied) =>
        && step.ran == Some(p) && step.records == Marked(records, MarkOf(clean, p))
        && step.outcome == if fate.afterFails then Failed("finalize index apply")
                           else Done(|applied.upsertedPaths| + |applied.deletedPaths|, |applied.rows|)
  }

  /** An execution reports an empty delta, an applied one, the runner's or the hook's error, or the counts of what the runner
      did; only a runner that succeeds is remembered. */
  lemma OutcomeIs(clean: Cleaner, records: Records, payload: Payload, fate: Fate)
    ensures
      var step := Execute(clean, records, payload, fate);
      match NormalizePayload(clean, payload)
      case Err(e) => step == Step(records, None, Failed(e))
      case Ok(p) => OutcomeFor(clean, records, p, fate, step)
  {
    var normalized := NormalizePayload(clean, payload);
    if normalized.Ok? {
      HeldIff(clean, records, normalized.value);
    }
  }

  // ---- the counts ----

  /** A list of the elements of a set without repetition has as many. */
  lemma {:induction false} ListSize(s: seq<string>, keys: set<string>)
    requires (forall x :: x in s <==> x in keys) && forall i, j :: 0 <= i < j < |s| ==> s[i] != s[j]
    ensures |s| == |keys|
    decreases |s|
  {
    if s == [] {
      assert keys == {};
    } else {
      var n := |s| - 1;
      var rest := keys - {s[n]};
      forall x
        ensures x in s[..n] <==> x in rest
      {
        assert x in s <==> x in s[..n] || x == s[n];
      }
      ListSize(s[..n], rest);
      assert |keys| == |rest| + 1;
    }
  }

  lemma SortedSize(keys: set<string>)
    ensures |SortedKeys(keys)| == |keys|
  {
    ListSize(StringOrder.Listed(keys), keys);
    SortPermutes(LexLe, StringOrder.Listed(keys));
  }

  /** The paths a delta's file changes name. */
  function NamedPaths(changes: seq<DeltaApply.DeltaRecord>): set<string>
  {
    set c | c in changes && (c.nodeType == "" || c.nodeType == "file") && NormalizeRelativePath(c.path).Ok? ::
      NormalizeRelativePath(c.path).value
  }

  lemma {:induction false} CollectedAreNamed(changes: seq<DeltaApply.DeltaRecord>)
    requires DeltaApply.CollectPaths(changes).Ok?
    ensures
      var sets := DeltaApply.CollectPaths(changes).value;
      sets.upserts + sets.deletes == NamedPaths(changes) && sets.upserts !! sets.deletes
  {
    if changes != [] {
      var n := |changes| - 1;
      CollectedAreNamed(changes[..n]);
      NamedAdds(changes[..n], changes[n]);
      assert changes == changes[..n] + [changes[n]];
    }
  }

  lemma NamedAdds(front: seq<DeltaApply.DeltaRecord>, c: DeltaApply.DeltaRecord)
    ensures NamedPaths(front + [c]) == NamedPaths(front) + NamedPaths([c])
  {
    assert forall d :: d in front + [c] <==> d in front || d in [c];
  }

  /** A delta that is applied touches as many files as its file changes name paths, and leaves as many chunks as the index
      has rows. */
  lemma FilesTouchedAre(H: string -> string, scope: Scope, rows: seq<ChunkRecord>, delta: DeltaApply.SyncDelta, disk: DeltaApply.Disk,
                        embedder: Option<Embedder>)
    requires DeltaApply.Apply(H, scope, rows, delta, disk, embedder).Ok?
    ensures
      var applied := DeltaApply.Apply(H, scope, rows, delta, disk, embedder).value;
      && applied.FilesTouched() == |NamedPaths(delta.changes)| == |applied.upsertedPaths| + |applied.deletedPaths|
      && applied.ChunksReplaced() == |applied.rows|
  {
    AppliedPaths(H, scope, rows, delta, disk, embedder);
    var sets := DeltaApply.CollectPaths(delta.changes).value;
    CollectedAreNamed(delta.changes);
    SortedSize(sets.upserts);
    SortedSize(sets.deletes);
    UnionSize(sets.upserts, sets.deletes);
  }

  lemma UnionSize(a: set<string>, b: set<string>)
    requires a !! b
    ensures |a + b| == |a| + |b|
  {
  }

  lemma AppliedPaths(H: string -> string, scope: Scope, rows: seq<ChunkRecord>, delta: DeltaApply.SyncDelta, disk: DeltaApply.Disk,
                     embedder: Option<Embedder>)
    requires DeltaApply.Apply(H, scope, rows, delta, disk, embedder).Ok?
    ensures DeltaApply.CollectPaths(delta.changes).Ok?
    ensures
      var applied, sets := DeltaApply.Apply(H, scope, rows, delta, disk, embedder).value, DeltaApply.CollectPaths(delta.changes).value;
      applied.upsertedPaths == SortedKeys(sets.upserts) && applied.deletedPaths == SortedKeys(sets.deletes)
  {
    var sets := DeltaApply.CollectPaths(delta.changes).value;
    ApplyTwice.ApplyIsPaths(H, scope, rows, delta, disk, embedder);
    PathsReported(H, scope, DeltaApply.Listed(rows), SortedKeys(sets.upserts), SortedKeys(sets.deletes), disk, embedder);
  }

  lemma PathsReported(H: string -> string, scope: Scope, existing: seq<ChunkRecord>, upserts: seq<string>, deletes: seq<string>,
                      disk: DeltaApply.Disk, embedder: Option<Embedder>)
    requires DeltaApply.ApplyPaths(H, scope, existing, upserts, deletes, disk, embedder).Ok?
    ensures
      var applied := DeltaApply.ApplyPaths(H, scope, existing, upserts, deletes, disk, embedder).value;
      applied.upsertedPaths == upserts && applied.deletedPaths == deletes
  {
  }
}
