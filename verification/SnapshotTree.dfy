/** Trees against the entries they were built from: nothing is lost, hashing keeps the shape,
    and a tree saved as rows and read back is the same tree (internal/indexsync/snapshot/builder.go,
    internal/jobs/river/sync_worker.go). */
module SnapshotTree {
  import opened Sorting
  import opened StringOrder
  import opened DisjointMaps
  import opened Paths
  import opened MerkleHash
  import opened NodeTree

  // ---- the entries below a node ----

  function EntriesBelow(t: Tree): EntryMap
    decreases t, 1
  {
    MergeMaps(EachEntries(t.children))
  }

  function EachEntries(ts: seq<Tree>): (r: seq<EntryMap>)
    ensures |r| == |ts|
    decreases ts, 0
  {
    seq(|ts|, i requires 0 <= i < |ts| => EntriesBelow(ts[i])[ts[i].entry.path := ts[i].entry])
  }

  ghost predicate PathsIncrease(ts: seq<Tree>)
  {
    forall i, j :: 0 <= i < j < |ts| ==>
      LexLe(ts[i].entry.path, ts[j].entry.path) && ts[i].entry.path != ts[j].entry.path
  }

  /** Children in path order, with normal paths and parent paths that match, all the way down. */
  ghost predicate Tidy(t: Tree)
  {
    && PathsIncrease(t.children)
    && forall c :: c in t.children ==>
         && Normal(c.entry.path)
         && IsChildPath(t.entry.path, c.entry.path)
         && c.entry.parentPath == t.entry.path
         && Tidy(c)
  }

  lemma {:induction false} BelowUnder(t: Tree, c: Tree, q: string)
    requires Tidy(t) && c in t.children && (q in EntriesBelow(c) || q == c.entry.path)
    ensures Under(q, c.entry.path)
    ensures q in EntriesBelow(c) ==> q != c.entry.path
    decreases c
  {
    if q in EntriesBelow(c) {
      var i := Owner(EachEntries(c.children), q);
      var d := c.children[i];
      assert d in c.children;
      BelowUnder(c, d, q);
      UnderChild(c.entry.path, d.entry.path, q);
    }
  }

  lemma {:induction false} EntriesDisjoint(t: Tree)
    requires Tidy(t)
    ensures Disjoint(EachEntries(t.children))
  {
    var ts := t.children;
    forall i, j, q | 0 <= i < j < |ts| && q in EachEntries(ts)[i]
      ensures q !in EachEntries(ts)[j]
    {
      assert ts[i] in ts && ts[j] in ts;
      if q in EachEntries(ts)[j] {
        BelowUnder(t, ts[i], q);
        BelowUnder(t, ts[j], q);
        SiblingsDisjoint(t.entry.path, ts[i].entry.path, ts[j].entry.path, q);
      }
    }
  }

  lemma {:induction false} EntriesOk(t: Tree)
    requires Tidy(t)
    ensures MapOk(EntriesBelow(t))
    decreases t
  {
    var m := EntriesBelow(t);
    EntriesDisjoint(t);
    forall q | q in m
      ensures Normal(q) && m[q].path == q
    {
      var i := Owner(EachEntries(t.children), q);
      Owned(EachEntries(t.children), i, q);
      assert t.children[i] in t.children;
      EntriesOk(t.children[i]);
    }
  }

  // ---- rebuilding a tree from its entries ----

  ghost predicate AgreeBelow(m: EntryMap, n: EntryMap, p: string)
  {
    forall q :: Under(q, p) && q != p ==> (q in m <==> q in n) && (q in m ==> m[q] == n[q])
  }

  lemma SameKids(m: EntryMap, n: EntryMap, p: string)
    requires MapOk(m) && MapOk(n) && p != "" && AgreeBelow(m, n, p)
    ensures KidPaths(m, p) == KidPaths(n, p)
  {
    KidsAreDeeper(m, p);
    KidsAreDeeper(n, p);
    forall q | q in Kids(m, p) || q in Kids(n, p)
      ensures Under(q, p) && q != p
    {
      UnderChild(p, q, q);
    }
    assert Kids(m, p) == Kids(n, p);
  }

  lemma AgreeDeeper(m: EntryMap, n: EntryMap, p: string, k: string)
    requires p != "" && AgreeBelow(m, n, p) && IsChildPath(p, k)
    ensures AgreeBelow(m, n, k)
  {
    forall q | Under(q, k) && q != k
      ensures Under(q, p) && q != p
    {
      UnderChild(p, k, q);
    }
  }

  lemma KidAgrees(m: EntryMap, n: EntryMap, p: string, k: string)
    requires MapOk(m) && MapOk(n) && p != "" && AgreeBelow(m, n, p) && k in KidPaths(m, p)
    ensures k in m && k in n && m[k] == n[k] && m[k].path == k != ""
    ensures AgreeBelow(m, n, k) && Deeper(m, k) < Deeper(m, p)
  {
    UnderChild(p, k, k);
    AgreeDeeper(m, n, p, k);
  }

  lemma {:induction false} SameTrees(m: EntryMap, n: EntryMap, e: Entry)
    requires MapOk(m) && MapOk(n) && KidPaths(m, e.path) == KidPaths(n, e.path)
    requires forall k :: k in KidPaths(m, e.path) ==> TreeAt(m, m[k]) == TreeAt(n, n[k])
    ensures TreeAt(m, e) == TreeAt(n, e)
  {
    var ks, a, b := KidPaths(m, e.path), TreeAt(m, e), TreeAt(n, e);
    forall i | 0 <= i < |ks|
      ensures a.children[i] == b.children[i]
    {
      ChildAt(m, e, i);
      ChildAt(n, e, i);
      assert ks[i] in ks;
    }
    SameParts(a, b);
  }

  lemma {:induction false} ChildAt(m: EntryMap, e: Entry, i: nat)
    requires MapOk(m) && i < |KidPaths(m, e.path)|
    ensures
      var k := KidPaths(m, e.path)[i];
      k in m && |TreeAt(m, e).children| == |KidPaths(m, e.path)| && TreeAt(m, e).children[i] == TreeAt(m, m[k])
  {
    assert KidPaths(m, e.path)[i] in KidPaths(m, e.path);
  }

  lemma {:induction false} SameParts(a: Tree, b: Tree)
    requires a.entry == b.entry && |a.children| == |b.children| && forall i :: 0 <= i < |a.children| ==> a.children[i] == b.children[i]
    ensures a == b
  {
    assert a.children == b.children;
  }

  /** The tree below e depends only on the entries below e. */
  lemma {:induction false} TreeAtLocal(m: EntryMap, n: EntryMap, e: Entry)
    requires MapOk(m) && MapOk(n) && e.path != "" && AgreeBelow(m, n, e.path)
    ensures TreeAt(m, e) == TreeAt(n, e)
    decreases Deeper(m, e.path)
  {
    SameKids(m, n, e.path);
    forall k | k in KidPaths(m, e.path)
      ensures TreeAt(m, m[k]) == TreeAt(n, n[k])
    {
      KidAgrees(m, n, e.path, k);
      TreeAtLocal(m, n, m[k]);
    }
    SameTrees(m, n, e);
  }

  ghost function PathsOf(ts: seq<Tree>): (ps: seq<string>)
    ensures |ps| == |ts|
    ensures forall i :: 0 <= i < |ts| ==> ps[i] == ts[i].entry.path
  {
    seq(|ts|, i requires 0 <= i < |ts| => ts[i].entry.path)
  }

  /** The kids of a tidy node among its entries are its children, in order. */
  lemma {:induction false} KidsAreChildren(t: Tree)
    requires Tidy(t) && MapOk(EntriesBelow(t))
    ensures KidPaths(EntriesBelow(t), t.entry.path) == PathsOf(t.children)
    ensures forall i :: 0 <= i < |t.children| ==>
      t.children[i].entry.path in EntriesBelow(t) && EntriesBelow(t)[t.children[i].entry.path] == t.children[i].entry
  {
    var m, ts, es := EntriesBelow(t), t.children, EachEntries(t.children);
    var ks, ps := KidPaths(m, t.entry.path), PathsOf(ts);
    EntriesDisjoint(t);
    forall i | 0 <= i < |ts|
      ensures ts[i].entry.path in m && m[ts[i].entry.path] == ts[i].entry && ts[i].entry.path in ks
    {
      assert ts[i] in ts;
      Owned(es, i, ts[i].entry.path);
      ChildHasParent(t.entry.path, ts[i].entry.path);
    }
    forall q | q in ks
      ensures q in ps
    {
      var i := Owner(es, q);
      assert ts[i] in ts;
      BelowUnder(t, ts[i], q);
      SiblingsDisjoint(t.entry.path, q, ts[i].entry.path, q);
      assert ps[i] == q;
    }
    PathsStrict(ts);
    StrictUnique(LexLe, ks, ps);
  }

  lemma PathsStrict(ts: seq<Tree>)
    requires PathsIncrease(ts)
    ensures Strict(LexLe, PathsOf(ts))
  {
    var ps := PathsOf(ts);
    forall i, j | 0 <= i < j < |ps|
      ensures LexLe(ps[i], ps[j]) && !LexLe(ps[j], ps[i])
    {
      PathOrderTransitive(ps[i], ps[j], ps[i]);
    }
  }

  /** Below a child, the node's entries are the child's entries. */
  lemma {:induction false} ChildEntries(t: Tree, i: nat)
    requires Tidy(t) && i < |t.children|
    ensures AgreeBelow(EntriesBelow(t), EntriesBelow(t.children[i]), t.children[i].entry.path)
  {
    var m, c := EntriesBelow(t), t.children[i];
    forall q | Under(q, c.entry.path) && q != c.entry.path
      ensures (q in m <==> q in EntriesBelow(c)) && (q in m ==> m[q] == EntriesBelow(c)[q])
    {
      EntriesDisjoint(t);
      if q in m {
        InThatChild(t, i, q);
      }
      if q in EntriesBelow(c) {
        Owned(EachEntries(t.children), i, q);
      }
    }
  }

  lemma {:induction false} InThatChild(t: Tree, i: nat, q: string)
    requires Tidy(t) && i < |t.children| && q in EntriesBelow(t)
    requires Under(q, t.children[i].entry.path) && q != t.children[i].entry.path
    ensures q in EntriesBelow(t.children[i])
  {
    var j := Owner(EachEntries(t.children), q);
    var c, d := t.children[i], t.children[j];
    assert c in t.children && d in t.children;
    BelowUnder(t, d, q);
    SiblingsDisjoint(t.entry.path, c.entry.path, d.entry.path, q);
    assert i == j;
  }

  /** A tidy tree is the tree of its own entries. */
  lemma {:induction false} TreeAtRebuilds(t: Tree)
    requires Tidy(t)
    ensures MapOk(EntriesBelow(t)) && TreeAt(EntriesBelow(t), t.entry) == t
    decreases t
  {
    var m := EntriesBelow(t);
    EntriesOk(t);
    KidsAreChildren(t);
    forall i | 0 <= i < |t.children|
      ensures TreeAt(m, t.children[i].entry) == t.children[i]
    {
      var c := t.children[i];
      assert c in t.children;
      TreeAtRebuilds(c);
      ChildEntries(t, i);
      TreeAtLocal(m, EntriesBelow(c), c.entry);
    }
    TreeAtIs(m, t.entry, t.children);
  }

  lemma {:induction false} TreeAtIs(m: EntryMap, e: Entry, ts: seq<Tree>)
    requires MapOk(m) && KidPaths(m, e.path) == PathsOf(ts)
    requires forall i :: 0 <= i < |ts| ==> ts[i].entry.path in m && m[ts[i].entry.path] == ts[i].entry
    requires forall i :: 0 <= i < |ts| ==> TreeAt(m, ts[i].entry) == ts[i]
    ensures TreeAt(m, e) == Tree(e, ts)
  {
    var ks, kids := KidPaths(m, e.path), TreeAt(m, e).children;
    assert |kids| == |ks| == |ts|;
    forall i | 0 <= i < |ts|
      ensures kids[i] == ts[i]
    {
      assert ks[i] == ts[i].entry.path;
      assert kids[i] == TreeAt(m, m[ks[i]]);
    }
    assert kids == ts;
  }
}
