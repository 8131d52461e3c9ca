/** Index jobs worked off one after another: each is tried any number of times, and the checkpoint, which is in memory,
    decides whether its runner is called (internal/jobs/river/index_worker.go). */
module IndexTurns {
  import opened Outcomes
  import Index = IndexWorker
  import DeltaApply

  /** A payload and the state of the repository that its delta leads to. */
  datatype Job = Job(payload: Index.Payload, disk: DeltaApply.Disk)

  /** One execution of a job: whether the process was restarted before, which empties the checkpoint, and whether a
      failing runner has stored its rows all the same, because only the acknowledgement was lost. */
  datatype Try = Try(restarted: bool, fate: Index.Fate, ackLost: bool) {
    predicate Acknowledged() { fate.runner.Ok? }
    predicate Effective() { fate.runner.Ok? || ackLost }
  }

  datatype Turn = Turn(job: Job, tries: seq<Try>)

  /** The checkpoint, and the jobs whose runner took effect, in order. */
  datatype Worked = Worked(records: Index.Records, ran: seq<Job>)

  function TryStep(clean: Index.Cleaner, s: Worked, job: Job, t: Try): Worked
  {
    var records := if t.restarted then map[] else s.records;
    var called := Index.Called(clean, records, job.payload);
    Worked(Index.Execute(clean, records, job.payload, t.fate).records,
           if called.Some? && t.Effective() then s.ran + [job.(payload := called.value)] else s.ran)
  }

  function AfterTries(clean: Index.Cleaner, s: Worked, job: Job, tries: seq<Try>): Worked
  {
    if tries == [] then s else TryStep(clean, AfterTries(clean, s, job, tries[..|tries| - 1]), job, tries[|tries| - 1])
  }

  /** All turns in order, from an empty checkpoint. */
  function AfterTurns(clean: Index.Cleaner, turns: seq<Turn>): Worked
  {
    if turns == [] then Worked(map[], [])
    else
      var last := turns[|turns| - 1];
      AfterTries(clean, AfterTurns(clean, turns[..|turns| - 1]), last.job, last.tries)
  }

  // ---- what the tries of a job come to ----

  function RecordOf(payload: Index.Payload): Index.Record
  {
    Index.Record(payload.snapshotID, payload.rootHash)
  }

  /** A payload that the worker takes as it is and remembers under this key. */
  ghost predicate Checkpointed(clean: Index.Cleaner, key: string, payload: Index.Payload)
  {
    && Index.NormalizePayload(clean, payload) == Ok(payload) && payload.delta.changes != []
    && Index.MarkOf(clean, payload) == Some(Index.Mark(key, RecordOf(payload)))
  }

  predicate Restarts(tries: seq<Try>)
  {
    exists j :: 0 <= j < |tries| && tries[j].restarted
  }

  /** Try i takes effect: its runner would, and the checkpoint does not hold the job's record, be it that it did not at
      the start or that a restart has emptied it since. */
  predicate TakesAt(held: bool, tries: seq<Try>, i: nat)
    requires i < |tries|
  {
    tries[i].Effective() && (held ==> exists j :: 0 <= j <= i && tries[j].restarted)
  }

  predicate Takes(held: bool, tries: seq<Try>)
  {
    exists i :: 0 <= i < |tries| && TakesAt(held, tries, i)
  }

  /** Some try is acknowledged and no restart follows it. */
  predicate Keeps(tries: seq<Try>)
  {
    exists i :: 0 <= i < |tries| && KeptFrom(tries, i)
  }

  predicate KeptFrom(tries: seq<Try>, i: nat)
    requires i < |tries|
  {
    tries[i].Acknowledged() && forall j :: i < j < |tries| ==> !tries[j].restarted
  }

  /** The record under the job's key after its tries. */
  function RecordAfter(before: Option<Index.Record>, own: Index.Record, tries: seq<Try>): Option<Index.Record>
  {
    if Keeps(tries) then Some(own) else if Restarts(tries) then None else before
  }

  /** No restart and no lost acknowledgement. */
  predicate Calm(tries: seq<Try>)
  {
    forall i :: 0 <= i < |tries| ==> !tries[i].restarted && !tries[i].ackLost
  }

  lemma RestartsSnoc(tries: seq<Try>)
    requires tries != []
    ensures Restarts(tries) <==> Restarts(tries[..|tries| - 1]) || tries[|tries| - 1].restarted
  {
    var front := tries[..|tries| - 1];
    assert forall j :: 0 <= j < |front| ==> front[j] == tries[j];
  }

  lemma KeepsSnoc(tries: seq<Try>)
    requires tries != []
    ensures Keeps(tries) <==> tries[|tries| - 1].Acknowledged() || (Keeps(tries[..|tries| - 1]) && !tries[|tries| - 1].restarted)
  {
    var n := |tries| - 1;
    forall i | 0 <= i < n
      ensures KeptFrom(tries, i) <==> KeptFrom(tries[..n], i) && !tries[n].restarted
    {
      assert forall j :: 0 <= j < n ==> tries[..n][j] == tries[j];
    }
    assert KeptFrom(tries, n) <==> tries[n].Acknowledged();
  }

  lemma TakesSnoc(held: bool, tries: seq<Try>)
    requires tries != []
    ensures Takes(held, tries) <==>
      Takes(held, tries[..|tries| - 1]) || (tries[|tries| - 1].Effective() && (held ==> Restarts(tries)))
  {
    var n := |tries| - 1;
    forall i | 0 <= i < n
      ensures TakesAt(held, tries, i) <==> TakesAt(held, tries[..n], i)
    {
      assert forall j :: 0 <= j < n ==> tries[..n][j] == tries[j];
    }
    assert TakesAt(held, tries, n) <==> tries[n].Effective() && (held ==> Restarts(tries));
  }

  /** While the checkpoint holds the job's record, either a try before took effect or none can. */
  lemma HeldIsTaken(held: bool, tries: seq<Try>)
    requires Keeps(tries) && (held ==> Restarts(tries))
    ensures Takes(held, tries)
  {
    var i :| 0 <= i < |tries| && KeptFrom(tries, i);
    assert TakesAt(held, tries, i);
  }

  /** What one try adds: it calls the runner exactly when the checkpoint does not hold the job's record. */
  lemma TryStepIs(clean: Index.Cleaner, key: string, s: Worked, job: Job, t: Try)
    requires Checkpointed(clean, key, job.payload)
    ensures
      var before := if t.restarted then None else Index.Lookup(s.records, key);
      var own, after := RecordOf(job.payload), TryStep(clean, s, job, t);
      && after.ran == (if before != Some(own) && t.Effective() then s.ran + [job] else s.ran)
      && Index.Lookup(after.records, key) == if t.Acknowledged() then Some(own) else before
  {
  }

  function Repeated(job: Job, n: nat): (jobs: seq<Job>)
    ensures |jobs| == n
  {
    seq(n, _ => job)
  }

  /** However a job's tries go: its runner takes effect some number of times, at least once if and only if it takes at
      all, at most once without restarts and lost acknowledgements; and the checkpoint is as RecordAfter says. */
  lemma {:induction false} TriesAre(clean: Index.Cleaner, key: string, s: Worked, job: Job, tries: seq<Try>) returns (n: nat)
    requires Checkpointed(clean, key, job.payload)
    ensures
      var after, before, own := AfterTries(clean, s, job, tries), Index.Lookup(s.records, key), RecordOf(job.payload);
      && after.ran == s.ran + Repeated(job, n)
      && (n > 0 <==> Takes(before == Some(own), tries)) && (Calm(tries) ==> n <= 1)
      && Index.Lookup(after.records, key) == RecordAfter(before, own, tries)
  {
    if tries == [] {
      n := 0;
      assert s.ran + Repeated(job, 0) == s.ran;
    } else {
      var front, last := tries[..|tries| - 1], tries[|tries| - 1];
      var m := TriesAre(clean, key, s, job, front);
      TryStepIs(clean, key, AfterTries(clean, s, job, front), job, last);
      n := CountAfter(Index.Lookup(s.records, key), RecordOf(job.payload), tries, m);
      assert Repeated(job, m) + [job] == Repeated(job, m + 1);
      assert s.ran + Repeated(job, m) + [job] == s.ran + Repeated(job, m + 1);
    }
  }

  lemma CountAfter(before: Option<Index.Record>, own: Index.Record, tries: seq<Try>, m: nat) returns (n: nat)
    requires tries != [] && (m > 0 <==> Takes(before == Some(own), tries[..|tries| - 1]))
    requires Calm(tries[..|tries| - 1]) ==> m <= 1
    ensures
      var last := tries[|tries| - 1];
      var now := if last.restarted then None else RecordAfter(before, own, tries[..|tries| - 1]);
      && n == (if now != Some(own) && last.Effective() then m + 1 else m)
      && (n > 0 <==> Takes(before == Some(own), tries)) && (Calm(tries) ==> n <= 1)
      && RecordAfter(before, own, tries) == if last.Acknowledged() then Some(own) else now
  {
    var front, last, held := tries[..|tries| - 1], tries[|tries| - 1], before == Some(own);
    var now := if last.restarted then None else RecordAfter(before, own, front);
    n := if now != Some(own) && last.Effective() then m + 1 else m;
    RestartsSnoc(tries);
    KeepsSnoc(tries);
    TakesSnoc(held, tries);
    if Keeps(front) && (held ==> Restarts(front)) {
      HeldIsTaken(held, front);
    }
    if Calm(tries) && m > 0 {
      CalmTakesOnce(held, front);
    }
  }

  lemma CalmTakesOnce(held: bool, tries: seq<Try>)
    requires Takes(held, tries) && Calm(tries)
    ensures Keeps(tries)
  {
    var i :| 0 <= i < |tries| && TakesAt(held, tries, i);
    assert KeptFrom(tries, i);
  }

  // ---- what the turns come to ----

  /** The record the checkpoint holds after these turns. */
  function Remembered(turns: seq<Turn>): Option<Index.Record>
  {
    if turns == [] then None
    else
      var last := turns[|turns| - 1];
      RecordAfter(Remembered(turns[..|turns| - 1]), RecordOf(last.job.payload), last.tries)
  }

  /** Turn k finds its own record in the checkpoint: its delta counts as applied already. */
  predicate Skipped(turns: seq<Turn>, k: nat)
    requires k < |turns|
  {
    Remembered(turns[..k]) == Some(RecordOf(turns[k].job.payload))
  }

  /** Turn k's delta reaches the index. */
  predicate Applies(turns: seq<Turn>, k: nat)
    requires k < |turns|
  {
    Takes(Skipped(turns, k), turns[k].tries)
  }

  ghost predicate AllCheckpointed(clean: Index.Cleaner, key: string, turns: seq<Turn>)
  {
    forall k :: 0 <= k < |turns| ==> Checkpointed(clean, key, turns[k].job.payload)
  }

  function JobsIn(turns: seq<Turn>): (jobs: seq<Job>)
    ensures |jobs| == |turns|
  {
    if turns == [] then [] else JobsIn(turns[..|turns| - 1]) + [turns[|turns| - 1].job]
  }

  /** Each job as often as its count says, in order. */
  function Repeats(jobs: seq<Job>, counts: seq<nat>): seq<Job>
    requires |jobs| == |counts|
  {
    if jobs == [] then []
    else
      var n := |jobs| - 1;
      Repeats(jobs[..n], counts[..n]) + Repeated(jobs[n], counts[n])
  }

  /** The counts of these turns: positive exactly for those that apply, at most one for calm ones. */
  ghost predicate Counts(turns: seq<Turn>, counts: seq<nat>)
  {
    |counts| == |turns| && forall k :: 0 <= k < |turns| ==> CountsAt(turns, counts, k)
  }

  ghost predicate CountsAt(turns: seq<Turn>, counts: seq<nat>, k: nat)
    requires k < |turns| == |counts|
  {
    (counts[k] > 0 <==> Applies(turns, k)) && (Calm(turns[k].tries) ==> counts[k] <= 1)
  }

  lemma AppliesFront(turns: seq<Turn>, k: nat)
    requires k < |turns| - 1
    ensures Applies(turns[..|turns| - 1], k) == Applies(turns, k)
  {
    assert turns[..|turns| - 1][..k] == turns[..k];
  }

  lemma {:induction false} JobsFront(turns: seq<Turn>)
    requires turns != []
    ensures JobsIn(turns)[..|turns| - 1] == JobsIn(turns[..|turns| - 1]) && JobsIn(turns)[|turns| - 1] == turns[|turns| - 1].job
  {
  }

  lemma CountsSnoc(turns: seq<Turn>, counts: seq<nat>, n: nat)
    requires turns != [] && Counts(turns[..|turns| - 1], counts)
    requires n > 0 <==> Applies(turns, |turns| - 1)
    requires Calm(turns[|turns| - 1].tries) ==> n <= 1
    ensures Counts(turns, counts + [n])
  {
    forall k | 0 <= k < |turns|
      ensures CountsAt(turns, counts + [n], k)
    {
      if k < |turns| - 1 {
        AppliesFront(turns, k);
        assert CountsAt(turns[..|turns| - 1], counts, k);
      }
    }
  }

  /** Over all turns, whatever fails, however often a job is retried and whenever the process is restarted: the runner
      takes effect for exactly the jobs that apply, in order. */
  lemma {:induction false} TurnsRun(clean: Index.Cleaner, key: string, turns: seq<Turn>)
    requires AllCheckpointed(clean, key, turns)
    ensures Index.Lookup(AfterTurns(clean, turns).records, key) == Remembered(turns)
    ensures exists counts :: Counts(turns, counts) && AfterTurns(clean, turns).ran == Repeats(JobsIn(turns), counts)
  {
    if turns == [] {
      var none: seq<nat> := [];
      assert Counts(turns, none) && Repeats(JobsIn(turns), none) == [];
    } else {
      var front, last := turns[..|turns| - 1], turns[|turns| - 1];
      TurnsRun(clean, key, front);
      var counts :| Counts(front, counts) && AfterTurns(clean, front).ran == Repeats(JobsIn(front), counts);
      var n := TriesAre(clean, key, AfterTurns(clean, front), last.job, last.tries);
      CountsSnoc(turns, counts, n);
      JobsFront(turns);
      assert (counts + [n])[..|front|] == counts;
    }
  }

  // ---- jobs that are not skipped ----

  predicate Succeeds(tries: seq<Try>)
  {
    exists i :: 0 <= i < |tries| && tries[i].Acknowledged()
  }

  /** A job whose record the checkpoint does not hold is applied exactly once, whatever fails and however often it is
      retried, unless a restart or a lost acknowledgement comes between; if its runner never succeeds, not at all. */
  lemma {:induction false} TurnAppliesOnce(clean: Index.Cleaner, key: string, s: Worked, job: Job, tries: seq<Try>)
    requires Checkpointed(clean, key, job.payload) && Index.Lookup(s.records, key) != Some(RecordOf(job.payload)) && Calm(tries)
    ensures AfterTries(clean, s, job, tries) ==
      if Succeeds(tries) then Worked(s.records[key := RecordOf(job.payload)], s.ran + [job]) else s
  {
    if tries != [] {
      var front, last := tries[..|tries| - 1], tries[|tries| - 1];
      TurnAppliesOnce(clean, key, s, job, front);
      assert forall i :: 0 <= i < |front| ==> front[i] == tries[i];
      assert Succeeds(tries) <==> Succeeds(front) || last.Acknowledged();
    }
  }

  /** Each job has another record than the one before. */
  predicate Alternate(jobs: seq<Job>)
  {
    forall k :: 0 < k < |jobs| ==> RecordOf(jobs[k - 1].payload) != RecordOf(jobs[k].payload)
  }

  lemma {:induction false} JobAt(turns: seq<Turn>, k: nat)
    requires k < |turns|
    ensures JobsIn(turns)[k] == turns[k].job
  {
    if k < |turns| - 1 {
      JobAt(turns[..|turns| - 1], k);
    }
  }

  lemma SucceedsTakes(tries: seq<Try>)
    requires Succeeds(tries)
    ensures Takes(false, tries) && (Keeps(tries) || Restarts(tries))
  {
    var i :| 0 <= i < |tries| && tries[i].Acknowledged();
    assert TakesAt(false, tries, i);
    assert KeptFrom(tries, i) || Restarts(tries);
  }

  /** If neighbouring jobs have different records and each is retried until its runner succeeds, none is skipped and
      all apply. */
  lemma {:induction false} AlternateApply(turns: seq<Turn>, k: nat)
    requires Alternate(JobsIn(turns)) && k < |turns| && forall i :: 0 <= i < |turns| ==> Succeeds(turns[i].tries)
    ensures !Skipped(turns, k) && Applies(turns, k)
  {
    SucceedsTakes(turns[k].tries);
    if k > 0 {
      SucceedsTakes(turns[k - 1].tries);
      JobAt(turns, k - 1);
      JobAt(turns, k);
      assert turns[..k][|turns[..k]| - 1] == turns[k - 1];
    }
  }
}
