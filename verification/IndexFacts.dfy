/** Facts about refreshing and merging chunk records: reuse of embeddings is sound, untouched rows are kept. */
module IndexFacts {
  import opened Outcomes
  import opened Decimal
  import opened Sorting
  import opened Paths
  import opened MerkleHash
  import opened ChunkIndex

  // ---- keys ----

  /** A chunk key determines the path and the index, colons in the path or not. */
  lemma ChunkKeyInjective(p: string, i: int, q: string, j: int)
    requires ChunkKey(p, i) == ChunkKey(q, j)
    ensures p == q && i == j
  {
    var s, a, b := ChunkKey(p, i), Itoa(i), Itoa(j);
    assert s == p + (":" + a) && s == q + (":" + b);
    assert s[|p|] == ':' && s[|q|] == ':';
    assert forall k :: |p| < k < |s| ==> s[k] == a[k - |p| - 1];
    assert forall k :: |q| < k < |s| ==> s[k] == b[k - |q| - 1];
    assert |p| == |q|;
    CancelRight(p, ":" + a, q, ":" + b);
    assert a == (":" + a)[1..] && b == (":" + b)[1..];
    ItoaInjective(i, j);
  }

  lemma {:induction false} ByKeyFrom(existing: seq<ChunkRecord>, k: string)
    requires k in ByKey(existing)
    ensures ByKey(existing)[k] in existing && KeyOf(ByKey(existing)[k]) == k
  {
    var n := |existing| - 1;
    if k != KeyOf(existing[n]) {
      ByKeyFrom(existing[..n], k);
    }
  }

  /** No two rows are the same chunk. */
  ghost predicate UniqueKeys(rs: seq<ChunkRecord>)
  {
    DistinctKeys(RecordLe, rs)
  }

  lemma UniqueAt(rs: seq<ChunkRecord>, i: nat, j: nat)
    requires UniqueKeys(rs) && i < j < |rs|
    ensures rs[i].relPath != rs[j].relPath || rs[i].chunkIndex != rs[j].chunkIndex
  {
    RecordTie(rs[i], rs[j]);
  }

  lemma {:induction false} ByKeyAt(existing: seq<ChunkRecord>, i: nat)
    requires UniqueKeys(existing) && i < |existing|
    ensures KeyOf(existing[i]) in ByKey(existing) && ByKey(existing)[KeyOf(existing[i])] == existing[i]
  {
    var n := |existing| - 1;
    if i < n {
      ByKeyAt(existing[..n], i);
      UniqueAt(existing, i, n);
      if KeyOf(existing[i]) == KeyOf(existing[n]) {
        ChunkKeyInjective(existing[i].relPath, existing[i].chunkIndex, existing[n].relPath, existing[n].chunkIndex);
      }
    }
  }

  // ---- embeddings ----

  /** A deterministic embedder: one model, one dimension, one vector per text. */
  datatype Setting = Setting(H: string -> string, scope: Scope, model: string, dims: int, f: string -> seq<real>)

  function Vectors(f: string -> seq<real>, texts: seq<string>): (vs: seq<seq<real>>)
    ensures |vs| == |texts|
  {
    seq(|texts|, i requires 0 <= i < |texts| => f(texts[i]))
  }

  ghost predicate Deterministic(c: Setting, embedder: Embedder)
  {
    && c.dims > 0
    && (forall t :: |c.f(t)| == c.dims)
    && forall texts :: texts != [] ==> embedder(texts) == Ok(EmbedResult(c.model, c.dims, Vectors(c.f, texts)))
  }

  function Embedded(c: Setting, r: ChunkRecord): ChunkRecord
  {
    WithEmbedding(r, c.model, c.dims, c.f(r.content))
  }

  function EmbeddedAll(c: Setting, rs: seq<ChunkRecord>): (out: seq<ChunkRecord>)
    ensures |out| == |rs|
  {
    seq(|rs|, i requires 0 <= i < |rs| => Embedded(c, rs[i]))
  }

  function PreimageOf(r: ChunkRecord): string
  {
    ChunkPreimage(r.relPath, r.chunkIndex, r.content)
  }

  /** The record carries the hash of its own content. */
  predicate OwnHash(c: Setting, r: ChunkRecord)
  {
    r.contentHash == c.H(PreimageOf(r))
  }

  /** The record carries its own content hash and its content's embedding. */
  predicate Faithful(c: Setting, r: ChunkRecord)
  {
    OwnHash(c, r) && Embedded(c, r) == r
  }

  /** The contents hashed into records at one chunk do not collide. */
  lemma SameHashSameContent(c: Setting, a: ChunkRecord, b: ChunkRecord, hashed: set<string>)
    requires NoCollision(c.H, hashed) && PreimageOf(a) in hashed && PreimageOf(b) in hashed
    requires OwnHash(c, a) && OwnHash(c, b) && a.contentHash == b.contentHash
    requires a.relPath == b.relPath && a.chunkIndex == b.chunkIndex
    ensures a.content == b.content
  {
    var head := a.relPath + "\n" + Itoa(a.chunkIndex) + "\n";
    assert PreimageOf(a) == head + a.content && PreimageOf(b) == head + b.content;
    assert a.content == (head + a.content)[|head|..] && b.content == (head + b.content)[|head|..];
  }

  lemma {:induction false} ReusedIsEmbedded(c: Setting, existing: seq<ChunkRecord>, r: ChunkRecord, hashed: set<string>)
    requires NoCollision(c.H, hashed)
    requires forall e :: e in existing ==> Faithful(c, e) && PreimageOf(e) in hashed
    requires OwnHash(c, r) && PreimageOf(r) in hashed && Matched(ByKey(existing), r)
    ensures Reused(ByKey(existing), r) == Embedded(c, r)
  {
    ByKeyFrom(existing, KeyOf(r));
    var e := ByKey(existing)[KeyOf(r)];
    ChunkKeyInjective(e.relPath, e.chunkIndex, r.relPath, r.chunkIndex);
    SameHashSameContent(c, e, r, hashed);
  }

  /** How many records before position k are unmatched. */
  ghost function Rank(m: map<string, ChunkRecord>, rs: seq<ChunkRecord>, k: nat): nat
    requires k <= |rs|
  {
    |Pending(m, rs[..k])|
  }

  lemma {:induction false} RankMonotone(m: map<string, ChunkRecord>, rs: seq<ChunkRecord>, k: nat)
    requires k < |rs|
    ensures Rank(m, rs, k) + (if Matched(m, rs[k]) then 0 else 1) <= |Pending(m, rs)|
    decreases |rs|
  {
    if k == |rs| - 1 {
      assert rs[..k] == rs[..|rs| - 1];
    } else {
      assert rs[..|rs| - 1][..k] == rs[..k];
      RankMonotone(m, rs[..|rs| - 1], k);
    }
  }

  /** An unmatched record's content is the text at its rank. */
  lemma {:induction false} PendingTextAt(m: map<string, ChunkRecord>, rs: seq<ChunkRecord>, k: nat)
    requires k < |rs| && !Matched(m, rs[k])
    ensures Rank(m, rs, k) < |PendingTexts(m, rs)| && PendingTexts(m, rs)[Rank(m, rs, k)] == rs[k].content
    decreases |rs|
  {
    RankMonotone(m, rs, k);
    if k == |rs| - 1 {
      assert rs[..k] == rs[..|rs| - 1];
    } else {
      assert rs[..|rs| - 1][..k] == rs[..k];
      PendingTextAt(m, rs[..|rs| - 1], k);
    }
  }

  lemma {:induction false} FilledAt(m: map<string, ChunkRecord>, rs: seq<ChunkRecord>, e: EmbedResult, k: nat)
    requires k < |rs| && |e.vectors| >= |Pending(m, rs)|
    ensures Matched(m, rs[k]) ==> Filled(m, rs, e)[k] == Reused(m, rs[k])
    ensures Rank(m, rs, k) < |e.vectors| || Matched(m, rs[k])
    ensures !Matched(m, rs[k]) ==>
      Filled(m, rs, e)[k] == WithEmbedding(rs[k], e.model, e.dimensions, e.vectors[Rank(m, rs, k)])
    decreases |rs|
  {
    RankMonotone(m, rs, k);
    var front := rs[..|rs| - 1];
    if k == |rs| - 1 {
      assert rs[..k] == front;
    } else {
      assert front[..k] == rs[..k];
      FilledAt(m, front, e, k);
    }
  }

  lemma {:induction false} FilledIsEmbedded(c: Setting, existing: seq<ChunkRecord>, rs: seq<ChunkRecord>, e: EmbedResult, hashed: set<string>)
    requires NoCollision(c.H, hashed)
    requires forall x :: x in existing ==> Faithful(c, x) && PreimageOf(x) in hashed
    requires forall x :: x in rs ==> OwnHash(c, x) && PreimageOf(x) in hashed
    requires |e.vectors| == |PendingTexts(ByKey(existing), rs)|
    requires e.vectors != [] ==> e == EmbedResult(c.model, c.dims, Vectors(c.f, PendingTexts(ByKey(existing), rs)))
    ensures Filled(ByKey(existing), rs, e) == EmbeddedAll(c, rs)
  {
    var m := ByKey(existing);
    forall k | 0 <= k < |rs|
      ensures Filled(m, rs, e)[k] == Embedded(c, rs[k])
    {
      assert rs[k] in rs;
      FilledAt(m, rs, e, k);
      if Matched(m, rs[k]) {
        ReusedIsEmbedded(c, existing, rs[k], hashed);
      } else {
        PendingTextAt(m, rs, k);
      }
    }
  }

  /** The batches for the embedder: exactly the unmatched contents, in order, if there are any. */
  function Calls(existing: seq<ChunkRecord>, rs: seq<ChunkRecord>): seq<seq<string>>
  {
    var texts := PendingTexts(ByKey(existing), rs);
    if texts == [] then [] else [texts]
  }

  /** Reusing embeddings gives the records that embedding every chunk afresh would give. */
  lemma ReuseIsSound(c: Setting, existing: seq<ChunkRecord>, rs: seq<ChunkRecord>, embedder: Embedder, hashed: set<string>)
    requires Deterministic(c, embedder) && NoCollision(c.H, hashed)
    requires forall x :: x in existing ==> Faithful(c, x) && PreimageOf(x) in hashed
    requires forall x :: x in rs ==> OwnHash(c, x) && PreimageOf(x) in hashed
    ensures Refresh(existing, rs, Some(embedder)) == Ok(Refreshed(EmbeddedAll(c, rs), Calls(existing, rs)))
  {
    var m := ByKey(existing);
    var texts := PendingTexts(m, rs);
    if texts == [] {
      FilledIsEmbedded(c, existing, rs, NO_VECTORS, hashed);
    } else {
      var e := EmbedResult(c.model, c.dims, Vectors(c.f, texts));
      assert embedder(texts) == Ok(e);
      FilledIsEmbedded(c, existing, rs, e, hashed);
    }
  }

  lemma {:induction false} NonePending(m: map<string, ChunkRecord>, rs: seq<ChunkRecord>)
    requires forall i :: 0 <= i < |rs| ==> Matched(m, rs[i])
    ensures Pending(m, rs) == []
  {
    if rs != [] {
      NonePending(m, rs[..|rs| - 1]);
    }
  }

  /** With every record matched, nothing is sent to the embedder and the existing embeddings are taken. */
  lemma {:induction false} AllMatched(existing: seq<ChunkRecord>, rs: seq<ChunkRecord>, out: seq<ChunkRecord>, embedder: Option<Embedder>)
    requires |out| == |rs|
    requires forall i :: 0 <= i < |rs| ==> Matched(ByKey(existing), rs[i]) && out[i] == Reused(ByKey(existing), rs[i])
    ensures Refresh(existing, rs, embedder) == Ok(Refreshed(out, []))
  {
    var m := ByKey(existing);
    NonePending(m, rs);
    forall k | 0 <= k < |rs|
      ensures Filled(m, rs, NO_VECTORS)[k] == out[k]
    {
      FilledAt(m, rs, NO_VECTORS, k);
    }
    assert Filled(m, rs, NO_VECTORS) == out;
  }

  // ---- merging ----

  lemma {:induction false} KeptElements(existing: seq<ChunkRecord>, removed: seq<string>)
    ensures forall r :: r in Kept(existing, removed) <==> r in existing && r.relPath !in removed
  {
    if existing != [] {
      var n := |existing| - 1;
      KeptElements(existing[..n], removed);
      assert existing == existing[..n] + [existing[n]];
    }
  }

  lemma {:induction false} KeptUnique(existing: seq<ChunkRecord>, removed: seq<string>)
    requires UniqueKeys(existing)
    ensures UniqueKeys(Kept(existing, removed))
  {
    if existing != [] {
      var n := |existing| - 1;
      var front := existing[..n];
      KeptUnique(front, removed);
      KeptElements(front, removed);
      if existing[n].relPath !in removed {
        var k := Kept(front, removed);
        forall i | 0 <= i < |k|
          ensures !(RecordLe(k[i], existing[n]) && RecordLe(existing[n], k[i]))
        {
          assert k[i] in k && k[i] in front;
          var x :| 0 <= x < n && front[x] == k[i];
          assert existing[x] == k[i];
        }
      }
    }
  }

  /** Kept rows and new rows on removed paths never clash. */
  lemma UniqueConcat(kept: seq<ChunkRecord>, added: seq<ChunkRecord>, removed: seq<string>)
    requires UniqueKeys(kept) && UniqueKeys(added)
    requires forall r :: r in kept ==> r.relPath !in removed
    requires forall r :: r in added ==> r.relPath in removed
    ensures UniqueKeys(kept + added)
  {
    var all := kept + added;
    forall i, j | 0 <= i < j < |all|
      ensures !(RecordLe(all[i], all[j]) && RecordLe(all[j], all[i]))
    {
      RecordTie(all[i], all[j]);
      if i < |kept| <= j {
        assert all[i] in kept && all[j] in added;
      }
    }
  }

  lemma NormalizedAreSame(ps: seq<string>)
    requires forall p :: p in ps ==> Normal(p)
    ensures NormalizedPaths(ps) == Ok(ps)
  {
    var rs := seq(|ps|, i requires 0 <= i < |ps| => NormalizeRelativePath(ps[i]));
    forall i | 0 <= i < |ps|
      ensures rs[i] == Ok(ps[i])
    {
      assert ps[i] in ps;
      NormalIsFixed(ps[i]);
    }
    CollectOk(rs);
    assert Collect(rs).value == ps;
  }

  /** A merge on normal paths: the rows outside the removed paths, and the refreshed records, in order. */
  lemma {:induction false} MergedElements(scope: Scope, existing: seq<ChunkRecord>, refreshed: seq<ChunkRecord>, deletes: seq<string>)
    requires AllInScope(scope, existing)
    requires forall p :: p in deletes ==> Normal(p)
    requires forall r :: r in refreshed ==> Normal(r.relPath)
    ensures Merged(scope, existing, refreshed, deletes)
         == Ok(Sort(RecordLe, Kept(existing, deletes + PathsOfRecords(refreshed)) + refreshed))
    ensures forall r :: r in Merged(scope, existing, refreshed, deletes).value <==>
      r in refreshed || (r in existing && r.relPath !in deletes && r.relPath !in PathsOfRecords(refreshed))
  {
    forall p | p in PathsOfRecords(refreshed)
      ensures Normal(p)
    {
      var i :| 0 <= i < |refreshed| && PathsOfRecords(refreshed)[i] == p;
      assert refreshed[i] in refreshed;
    }
    NormalizedAreSame(deletes);
    NormalizedAreSame(PathsOfRecords(refreshed));
    var removed := deletes + PathsOfRecords(refreshed);
    KeptElements(existing, removed);
    SortPermutes(RecordLe, Kept(existing, removed) + refreshed);
  }

  lemma {:induction false} MergedUnique(existing: seq<ChunkRecord>, refreshed: seq<ChunkRecord>, deletes: seq<string>)
    requires UniqueKeys(existing) && UniqueKeys(refreshed)
    ensures UniqueKeys(Kept(existing, deletes + PathsOfRecords(refreshed)) + refreshed)
  {
    var removed := deletes + PathsOfRecords(refreshed);
    KeptElements(existing, removed);
    KeptUnique(existing, removed);
    forall r | r in refreshed
      ensures r.relPath in removed
    {
      var i :| 0 <= i < |refreshed| && refreshed[i] == r;
      assert PathsOfRecords(refreshed)[i] == r.relPath;
    }
    UniqueConcat(Kept(existing, removed), refreshed, removed);
  }
}
