/** What the records of a difference say, field by field, in terms of the two snapshots
    (internal/indexsync/diff/merkle_diff.go, internal/jobs/river/sync_worker.go). */
module DeltaRecords {
  import opened Outcomes
  import opened StringOrder
  import opened MerkleHash
  import opened FlatDiff
  import opened MerkleDiff
  import DeltaApply
  import DeltaPaths

  // ---- the order of strings ----

  /** The first place at which the strings differ. */
  ghost predicate DifferAt(a: string, b: string, k: nat)
  {
    k < |a| && k < |b| && a[..k] == b[..k] && a[k] != b[k]
  }

  /** The order is that of the bytes: a prefix comes first, otherwise the first difference decides. */
  lemma {:induction false} LexLeIff(a: string, b: string)
    ensures LexLe(a, b) <==> a <= b || exists k: nat :: DifferAt(a, b, k) && a[k] < b[k]
  {
    if a != [] && b != [] && a[0] == b[0] {
      var x, y := a[1..], b[1..];
      LexLeIff(x, y);
      assert a <= b <==> x <= y;
      forall k: nat
        ensures DifferAt(x, y, k) <==> DifferAt(a, b, k + 1)
      {
        DifferLater(a, b, k);
      }
      if k: nat :| DifferAt(x, y, k) && x[k] < y[k] {
        assert DifferAt(a, b, k + 1) && a[k + 1] < b[k + 1];
      }
      if k: nat :| DifferAt(a, b, k) && a[k] < b[k] {
        assert k > 0 && DifferAt(x, y, k - 1) && x[k - 1] < y[k - 1];
      }
    } else if a != [] && b != [] {
      assert DifferAt(a, b, 0);
      assert forall k: nat :: DifferAt(a, b, k) && k > 0 ==> a[..k][0] == b[..k][0];
    }
  }

  lemma DifferLater(a: string, b: string, k: nat)
    requires a != [] && b != [] && a[0] == b[0]
    ensures DifferAt(a[1..], b[1..], k) <==> DifferAt(a, b, k + 1)
  {
    if k < |a| - 1 && k < |b| - 1 {
      assert a[..k + 1] == [a[0]] + a[1..][..k] && b[..k + 1] == [b[0]] + b[1..][..k];
      assert a[..k + 1][1..] == a[1..][..k] && b[..k + 1][1..] == b[1..][..k];
    }
  }

  // ---- one record ----

  /** The record's hashes are those of the file in both maps, empty where it is absent, and its operation says in which
      of them it is. */
  predicate Tells(d: FileDelta, fa: FileMap, fb: FileMap)
  {
    && d.previousNodeHash == (if d.path in fa then fa[d.path].nodeHash else "")
    && d.previousContentHash == (if d.path in fa then fa[d.path].contentHash else "")
    && d.currentNodeHash == (if d.path in fb then fb[d.path].nodeHash else "")
    && d.currentContentHash == (if d.path in fb then fb[d.path].contentHash else "")
    && (d.op == Add <==> d.path !in fa && d.path in fb)
    && (d.op == Delete <==> d.path in fa && d.path !in fb)
    && (d.op == Modify <==> d.path in fa && d.path in fb && fa[d.path].nodeHash != fb[d.path].nodeHash)
  }

  /** The file was added, removed or got another node hash. */
  predicate Touched(fa: FileMap, fb: FileMap, p: string)
  {
    (p in fa) != (p in fb) || (p in fa && p in fb && fa[p].nodeHash != fb[p].nodeHash)
  }

  /** Every record tells what happened to its file, every touched file has exactly one record, and the paths increase. */
  ghost predicate AllTell(changes: seq<FileDelta>, fa: FileMap, fb: FileMap)
  {
    && (forall i :: 0 <= i < |changes| ==> Tells(changes[i], fa, fb))
    && (forall p :: Touched(fa, fb, p) <==> exists i :: 0 <= i < |changes| && changes[i].path == p)
    && (forall i, j :: 0 <= i < j < |changes| ==> LexLe(changes[i].path, changes[j].path) && changes[i].path != changes[j].path)
  }

  /** The changes of two snapshots say all that happened to the files. */
  lemma ChangesTell(H: string -> string, prev: Option<Snapshot>, cur: Option<Snapshot>)
    requires IsDigest(H) && SnapshotsOk(H, prev, cur)
    ensures SnapshotChanges(prev, cur).Ok?
    ensures AllTell(SnapshotChanges(prev, cur).value, FilesOf(prev), FilesOf(cur))
  {
    DiffIsFlat(H, prev, cur);
    FlatTells(FilesOf(prev), FilesOf(cur));
  }

  lemma FlatTells(fa: FileMap, fb: FileMap)
    ensures AllTell(Flat(fa, fb), fa, fb)
  {
    FlatIsExact(fa, fb);
    var changes := Flat(fa, fb);
    forall i | 0 <= i < |changes|
      ensures Tells(changes[i], fa, fb) && Touched(fa, fb, changes[i].path)
    {
      assert changes[i] in changes;
    }
    forall p | Touched(fa, fb, p)
      ensures exists i :: 0 <= i < |changes| && changes[i].path == p
    {
      assert ChangeAt(fa, fb, p).value in changes;
    }
    forall i, j | 0 <= i < j < |changes|
      ensures LexLe(changes[i].path, changes[j].path) && changes[i].path != changes[j].path
    {
      assert DeltaLe(changes[i], changes[j]);
    }
  }

  /** Records are sorted by path, those of one path by operation: additions, modifications, deletions. */
  lemma DeltaLeIff(a: FileDelta, b: FileDelta)
    ensures DeltaLe(a, b) <==>
      if a.path != b.path then LexLe(a.path, b.path) else a.op == Add || b.op == Delete || a.op == b.op
  {
  }

  // ---- the records of the index job ----

  /** The record carries the change under its action's name. */
  predicate CarriesChange(r: DeltaApply.DeltaRecord, d: FileDelta)
  {
    && r.path == d.path && r.nodeType == "file"
    && r.action == (match d.op case Add => "add" case Modify => "modify" case Delete => "delete")
    && r.previousNodeHash == d.previousNodeHash && r.currentNodeHash == d.currentNodeHash
    && r.previousContentHash == d.previousContentHash && r.currentContentHash == d.currentContentHash
  }

  /** One record per change, in order. */
  lemma RecordsCarry(changes: seq<FileDelta>)
    ensures |DeltaPaths.RecordsFor(changes)| == |changes|
    ensures forall i :: 0 <= i < |changes| ==> CarriesChange(DeltaPaths.RecordsFor(changes)[i], changes[i])
  {
  }
}
