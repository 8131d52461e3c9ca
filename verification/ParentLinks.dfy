/** The parent links of a scope's snapshots when every save names the latest snapshot as its parent, as the sync job
    does (internal/jobs/river/sync_worker.go, internal/indexstore/sync_store.go). */
module ParentLinks {
  import opened Outcomes
  import opened ChunkIndex
  import opened SnapshotStore
  import opened SnapshotStoreFacts

  // ---- links ----

  /** Following k parent links. */
  ghost function Follow(t: Tables, id: int, k: nat): Option<int>
    decreases k
  {
    if k == 0 then Some(id)
    else if ParentOf(t, id).None? then None
    else Follow(t, ParentOf(t, id).value, k - 1)
  }

  /** No snapshot of the scope is its own ancestor. */
  ghost predicate Acyclic(t: Tables, scope: Scope)
  {
    forall id, k: nat :: SnapshotIn(t, scope, id) && k >= 1 ==> Follow(t, id, k) != Some(id)
  }

  // ---- the hashes saved so far ----

  /** No later save has the same root hash. */
  predicate LastAt(hs: seq<string>, i: nat)
  {
    i < |hs| && forall j :: i < j < |hs| ==> hs[j] != hs[i]
  }

  predicate Distinct(hs: seq<string>)
  {
    forall i, j :: 0 <= i < j < |hs| ==> hs[i] != hs[j]
  }

  ghost function Row(t: Tables, scope: Scope, hash: string): int
  {
    RootId(t, scope, hash)
  }

  /** The scope's rows and links after saving these root hashes in turn: each row links to the row saved before
      its own last save, the first to none. */
  ghost predicate Chain(t: Tables, scope: Scope, hs: seq<string>)
  {
    && Inv(t)
    && (forall id :: SnapshotIn(t, scope, id) ==> t.snapshots[id].rootHash in hs)
    && (forall i :: 0 <= i < |hs| ==> RootAt(t, scope, hs[i], Row(t, scope, hs[i])))
    && (forall i :: 0 <= i < |hs| && LastAt(hs, i) ==> Linked(t, scope, hs, i))
    && (hs != [] ==> IsLatest(t, scope, Row(t, scope, hs[|hs| - 1])))
  }

  ghost predicate Linked(t: Tables, scope: Scope, hs: seq<string>, i: nat)
    requires i < |hs|
  {
    ParentOf(t, Row(t, scope, hs[i])) == if i == 0 then None else Some(Row(t, scope, hs[i - 1]))
  }

  // ---- acyclic exactly when no hash returns ----

  /** Through saves that are the last of their hash, links lead straight back. */
  lemma {:induction false} FollowBack(t: Tables, scope: Scope, hs: seq<string>, m: nat, l: nat)
    requires Chain(t, scope, hs) && m <= l < |hs| && forall j :: m < j <= l ==> LastAt(hs, j)
    ensures Follow(t, Row(t, scope, hs[l]), l - m) == Some(Row(t, scope, hs[m]))
    decreases l - m
  {
    if m < l {
      assert LastAt(hs, l) && Linked(t, scope, hs, l);
      FollowBack(t, scope, hs, m, l - 1);
    }
  }

  lemma {:induction false} FollowPastStart(t: Tables, scope: Scope, hs: seq<string>, i: nat, k: nat)
    requires Chain(t, scope, hs) && Distinct(hs) && i < |hs| && k > i
    ensures Follow(t, Row(t, scope, hs[i]), k) == None
    decreases i
  {
    assert LastAt(hs, i) && Linked(t, scope, hs, i);
    if i > 0 {
      FollowPastStart(t, scope, hs, i - 1, k - 1);
    }
  }

  lemma DifferentRows(t: Tables, scope: Scope, hs: seq<string>, i: nat, j: nat)
    requires Chain(t, scope, hs) && i < |hs| && j < |hs| && hs[i] != hs[j]
    ensures Row(t, scope, hs[i]) != Row(t, scope, hs[j])
  {
    assert RootAt(t, scope, hs[i], Row(t, scope, hs[i])) && RootAt(t, scope, hs[j], Row(t, scope, hs[j]));
  }

  lemma DistinctIsAcyclic(t: Tables, scope: Scope, hs: seq<string>)
    requires Chain(t, scope, hs) && Distinct(hs)
    ensures Acyclic(t, scope)
  {
    forall id, k: nat | SnapshotIn(t, scope, id) && k >= 1
      ensures Follow(t, id, k) != Some(id)
    {
      var i :| 0 <= i < |hs| && hs[i] == t.snapshots[id].rootHash;
      RootIdFacts(t, scope, hs[i]);
      assert RootAt(t, scope, hs[i], id);
      NeverBack(t, scope, hs, i, k);
    }
  }

  lemma {:induction false} NeverBack(t: Tables, scope: Scope, hs: seq<string>, i: nat, k: nat)
    requires Chain(t, scope, hs) && Distinct(hs) && i < |hs| && k >= 1
    ensures Follow(t, Row(t, scope, hs[i]), k) != Some(Row(t, scope, hs[i]))
  {
    if k > i {
      FollowPastStart(t, scope, hs, i, k);
    } else {
      FollowBack(t, scope, hs, i - k, i);
      DifferentRows(t, scope, hs, i - k, i);
    }
  }

  /** The last save whose hash is saved again later. */
  lemma {:induction false} LastRepeated(hs: seq<string>, n: nat) returns (m: nat)
    requires n <= |hs| && (forall j :: n <= j < |hs| ==> LastAt(hs, j)) && !Distinct(hs)
    ensures m < |hs| && !LastAt(hs, m) && forall j :: m < j < |hs| ==> LastAt(hs, j)
    decreases n
  {
    if n == 0 {
      assert Distinct(hs) by {
        forall i, j | 0 <= i < j < |hs|
          ensures hs[i] != hs[j]
        {
          assert LastAt(hs, i);
        }
      }
    }
    if LastAt(hs, n - 1) {
      m := LastRepeated(hs, n - 1);
    } else {
      m := n - 1;
    }
  }

  lemma RepeatedIsCyclic(t: Tables, scope: Scope, hs: seq<string>)
    requires Chain(t, scope, hs) && !Distinct(hs)
    ensures !Acyclic(t, scope)
  {
    var m := LastRepeated(hs, |hs|);
    var l :| m < l < |hs| && hs[l] == hs[m];
    FollowBack(t, scope, hs, m, l);
    var id := Row(t, scope, hs[l]);
    assert RootAt(t, scope, hs[l], id);
    assert Follow(t, id, l - m) == Some(id);
  }

  /** The links are acyclic if and only if no root hash was saved twice. */
  lemma ChainAcyclicIff(t: Tables, scope: Scope, hs: seq<string>)
    requires Chain(t, scope, hs)
    ensures Acyclic(t, scope) <==> Distinct(hs)
  {
    if Distinct(hs) {
      DistinctIsAcyclic(t, scope, hs);
    } else {
      RepeatedIsCyclic(t, scope, hs);
    }
  }

  // ---- saves ----

  /** An active save whose parent is the latest snapshot of its scope, if there is one. */
  ghost predicate NamesLatest(t: Tables, s: Save)
  {
    && s.root.isActive
    && (s.root.parent.None? ==> forall id :: !SnapshotIn(t, s.root.scope, id))
    && (s.root.parent.Some? ==> IsLatest(t, s.root.scope, s.root.parent.value))
  }

  lemma LatestIsOne(t: Tables, scope: Scope, a: int, b: int)
    requires IsLatest(t, scope, a) && IsLatest(t, scope, b)
    ensures a == b
  {
    assert SnapshotIn(t, scope, a) && SnapshotIn(t, scope, b);
  }

  /** Rows keep their numbers. */
  lemma RowKept(t: Tables, t': Tables, scope: Scope, hash: string, id: int)
    requires Inv(t) && Inv(t') && RootAt(t, scope, hash, id) && RootAt(t', scope, hash, id)
    ensures Row(t, scope, hash) == id && Row(t', scope, hash) == id
  {
    RootIdFacts(t, scope, hash);
    RootIdFacts(t', scope, hash);
  }

  /** What a save does to the rows and links of its scope. */
  lemma SaveRows(t: Tables, s: Save, hs: seq<string>)
    requires Chain(t, s.root.scope, hs)
    ensures
      var t', scope, hash := AfterSave(t, s), s.root.scope, s.root.rootHash;
      && Inv(t') && Row(t', scope, hash) == SavedId(t, s) && RootAt(t', scope, hash, SavedId(t, s))
      && (forall i :: 0 <= i < |hs| ==> Row(t', scope, hs[i]) == Row(t, scope, hs[i]) && RootAt(t', scope, hs[i], Row(t, scope, hs[i])))
  {
    var t', scope := AfterSave(t, s), s.root.scope;
    SaveEffect(t, s);
    SaveParents(t, s);
    RootIdFacts(t', scope, s.root.rootHash);
    forall i | 0 <= i < |hs|
      ensures Row(t', scope, hs[i]) == Row(t, scope, hs[i]) && RootAt(t', scope, hs[i], Row(t, scope, hs[i]))
    {
      RowKept(t, t', scope, hs[i], Row(t, scope, hs[i]));
    }
  }

  lemma SaveLink(t: Tables, s: Save, hs: seq<string>)
    requires Chain(t, s.root.scope, hs) && NamesLatest(t, s)
    ensures ParentOf(AfterSave(t, s), SavedId(t, s)) == if hs == [] then None else Some(Row(t, s.root.scope, hs[|hs| - 1]))
  {
    SaveParents(t, s);
    if hs == [] {
      assert forall id :: !SnapshotIn(t, s.root.scope, id);
      RootIdFacts(t, s.root.scope, s.root.rootHash);
    } else {
      var last := Row(t, s.root.scope, hs[|hs| - 1]);
      assert SnapshotIn(t, s.root.scope, last);
      LatestIsOne(t, s.root.scope, s.root.parent.value, last);
    }
  }

  lemma OldLinks(t: Tables, s: Save, hs: seq<string>, i: nat)
    requires Chain(t, s.root.scope, hs) && i < |hs| && LastAt(hs, i) && hs[i] != s.root.rootHash
    ensures Linked(AfterSave(t, s), s.root.scope, hs, i)
  {
    SaveRows(t, s, hs);
    SaveParents(t, s);
    assert Linked(t, s.root.scope, hs, i);
  }

  /** One more save extends the chain. */
  lemma ChainStep(t: Tables, s: Save, hs: seq<string>)
    requires Chain(t, s.root.scope, hs) && NamesLatest(t, s)
    ensures Chain(AfterSave(t, s), s.root.scope, hs + [s.root.rootHash])
  {
    var t', scope, all := AfterSave(t, s), s.root.scope, hs + [s.root.rootHash];
    SaveRows(t, s, hs);
    SaveEffect(t, s);
    ActiveIsLatest(t', s, SavedId(t, s), SavedId(t, s));
    forall id | SnapshotIn(t', scope, id)
      ensures t'.snapshots[id].rootHash in all
    {
      SaveParents(t, s);
      if id != SavedId(t, s) {
        assert SnapshotIn(t, scope, id);
      }
    }
    forall i | 0 <= i < |all| && LastAt(all, i)
      ensures Linked(t', scope, all, i)
    {
      if i < |hs| {
        assert all[|hs|] != all[i];
        assert LastAt(hs, i) by {
          assert forall j :: i < j < |hs| ==> all[j] == hs[j];
        }
        OldLinks(t, s, hs, i);
      } else {
        SaveLink(t, s, hs);
      }
    }
  }

  lemma ChainElsewhere(t: Tables, t': Tables, scope: Scope, hs: seq<string>)
    requires Chain(t, scope, hs) && Inv(t') && SameScope(t, t', scope)
    ensures Chain(t', scope, hs)
  {
    forall i | 0 <= i < |hs|
      ensures Row(t', scope, hs[i]) == Row(t, scope, hs[i]) && RootAt(t', scope, hs[i], Row(t, scope, hs[i]))
    {
      RowKept(t, t', scope, hs[i], Row(t, scope, hs[i]));
    }
    forall i | 0 <= i < |hs| && LastAt(hs, i)
      ensures Linked(t', scope, hs, i)
    {
      assert Linked(t, scope, hs, i);
    }
    if hs != [] {
      var id := Row(t, scope, hs[|hs| - 1]);
      forall other | SnapshotIn(t', scope, other) && other != id
        ensures ListedBefore(t', id, other)
      {
        assert SnapshotIn(t, scope, other) && ListedBefore(t, id, other);
      }
    }
  }

  // ---- runs ----

  /** The root hashes committed in the scope, in order. */
  function HashesOf(attempts: seq<Attempt>, scope: Scope): seq<string>
  {
    if attempts == [] then []
    else
      var front, last := HashesOf(attempts[..|attempts| - 1], scope), attempts[|attempts| - 1];
      if last.committed && last.save.root.scope == scope then front + [last.save.root.rootHash] else front
  }

  /** Every save committed in the scope names the latest snapshot. */
  ghost predicate Chained(attempts: seq<Attempt>, scope: Scope)
  {
    attempts == [] ||
    var front, last := attempts[..|attempts| - 1], attempts[|attempts| - 1];
    && Chained(front, scope)
    && (last.committed && last.save.root.scope == scope ==> NamesLatest(AfterAttempts(EMPTY, front), last.save))
  }

  lemma {:induction false} RunsAreChains(attempts: seq<Attempt>, scope: Scope)
    requires Chained(attempts, scope)
    ensures Chain(AfterAttempts(EMPTY, attempts), scope, HashesOf(attempts, scope))
  {
    if attempts != [] {
      var front, last := attempts[..|attempts| - 1], attempts[|attempts| - 1];
      RunsAreChains(front, scope);
      if last.committed {
        var t := AfterAttempts(EMPTY, front);
        if last.save.root.scope == scope {
          ChainStep(t, last.save, HashesOf(front, scope));
        } else {
          SaveEffect(t, last.save);
          ChainElsewhere(t, AfterSave(t, last.save), scope, HashesOf(front, scope));
        }
      }
    }
  }

  /** Over every run of saves, with failed ones and other scopes in between: the scope's parent links are acyclic
      if and only if no root hash was committed twice in it. */
  lemma {:induction false} LinksAcyclicIff(attempts: seq<Attempt>, scope: Scope)
    requires Chained(attempts, scope)
    ensures Acyclic(AfterAttempts(EMPTY, attempts), scope) <==> Distinct(HashesOf(attempts, scope))
  {
    RunsAreChains(attempts, scope);
    ChainAcyclicIff(AfterAttempts(EMPTY, attempts), scope, HashesOf(attempts, scope));
  }

  /** One save keeps the links acyclic if and only if the scope has no row with its root hash yet. */
  lemma SaveKeepsAcyclicIff(t: Tables, s: Save, hs: seq<string>)
    requires Chain(t, s.root.scope, hs) && NamesLatest(t, s) && Acyclic(t, s.root.scope)
    ensures Acyclic(AfterSave(t, s), s.root.scope) <==> !exists id :: RootAt(t, s.root.scope, s.root.rootHash, id)
  {
    var scope, hash := s.root.scope, s.root.rootHash;
    ChainStep(t, s, hs);
    ChainAcyclicIff(t, scope, hs);
    ChainAcyclicIff(AfterSave(t, s), scope, hs + [hash]);
    DistinctSnoc(hs, hash);
    if hash in hs {
      var i :| 0 <= i < |hs| && hs[i] == hash;
      assert RootAt(t, scope, hash, Row(t, scope, hs[i]));
    }
  }

  lemma DistinctSnoc(hs: seq<string>, h: string)
    ensures Distinct(hs + [h]) <==> Distinct(hs) && h !in hs
  {
    var all := hs + [h];
    assert forall i :: 0 <= i < |hs| ==> all[i] == hs[i];
    assert all[|hs|] == h;
    if Distinct(all) {
      forall i, j | 0 <= i < j < |hs|
        ensures hs[i] != hs[j]
      {
        assert all[i] != all[j];
      }
      forall i | 0 <= i < |hs|
        ensures hs[i] != h
      {
        assert all[i] != all[|hs|];
      }
    }
  }

  /** The smallest cyclic run: one root hash, another, and the first again. */
  lemma {:induction false} ReturnIsCyclic(attempts: seq<Attempt>, scope: Scope, a: string, b: string)
    requires Chained(attempts, scope) && HashesOf(attempts, scope) == [a, b, a]
    ensures !Acyclic(AfterAttempts(EMPTY, attempts), scope)
  {
    LinksAcyclicIff(attempts, scope);
    assert [a, b, a][0] == [a, b, a][2];
  }
}
