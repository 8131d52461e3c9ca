/** Building a snapshot end to end (internal/indexsync/snapshot/builder.go, BuildSnapshot after the walk):
    entries become a tree, the tree is hashed, and no entry is lost on the way. */
module SnapshotBuild {
  import opened Outcomes
  import opened GoStrings
  import opened StringOrder
  import opened DisjointMaps
  import opened Paths
  import opened MerkleHash
  import opened FlatDiff
  import opened MerkleDiff
  import opened NodeTree
  import opened SnapshotTree

  // ---- the tree of a map of entries holds exactly that map ----

  ghost predicate ParentsRecorded(m: EntryMap)
  {
    forall q :: q in m ==> m[q].parentPath == ParentPath(q)
  }

  ghost predicate ParentsIn(m: EntryMap)
  {
    forall q :: q in m ==> ParentPath(q) == "" || ParentPath(q) in m
  }

  lemma {:induction false} TreeAtTidy(m: EntryMap, e: Entry)
    requires MapOk(m) && ParentsRecorded(m)
    ensures Tidy(TreeAt(m, e))
    decreases Deeper(m, e.path)
  {
    var ks, kids := KidPaths(m, e.path), TreeAt(m, e).children;
    forall i | 0 <= i < |kids|
      ensures Tidy(kids[i]) && kids[i].entry == m[ks[i]] && ks[i] in ks
    {
      assert ks[i] in ks;
      TreeAtTidy(m, m[ks[i]]);
    }
    forall i, j | 0 <= i < j < |kids|
      ensures LexLe(kids[i].entry.path, kids[j].entry.path) && kids[i].entry.path != kids[j].entry.path
    {
      LexTotal(ks[i], ks[i]);
    }
  }

  lemma {:induction false} BuiltFromMap(m: EntryMap, e: Entry, q: string)
    requires MapOk(m) && ParentsRecorded(m) && q in EntriesBelow(TreeAt(m, e))
    ensures q in m && EntriesBelow(TreeAt(m, e))[q] == m[q]
    decreases Deeper(m, e.path)
  {
    var t, ks := TreeAt(m, e), KidPaths(m, e.path);
    TreeAtTidy(m, e);
    EntriesDisjoint(t);
    var i := Owner(EachEntries(t.children), q);
    Owned(EachEntries(t.children), i, q);
    assert ks[i] in ks && t.children[i] == TreeAt(m, m[ks[i]]);
    if q != ks[i] {
      BuiltFromMap(m, m[ks[i]], q);
    }
  }

  /** The parent of a path strictly below p is p or lies strictly below p. */
  lemma ParentStaysBelow(q: string, p: string)
    requires Normal(q) && p != "" && Under(q, p) && q != p
    ensures ParentPath(q) == p || (Under(ParentPath(q), p) && ParentPath(q) != p)
  {
    NormalIsChild(q);
    BaseHasNoSlash(q);
    var k := LastIndex(q, '/');
    assert q[|p|] == '/';
    assert |p| <= k;
    assert q[..|p|] == p && ParentPath(q) == q[..k];
    if |p| < k {
      assert q[..k][..|p|] == p && q[..k][|p|] == '/';
    }
  }

  /** Some direct child of p lies above or at q. */
  lemma {:induction false} AncestorKid(m: EntryMap, p: string, q: string) returns (k: string)
    requires MapOk(m) && ParentsIn(m) && q in m && (p == "" || (Under(q, p) && q != p))
    ensures k in Kids(m, p) && Under(q, k)
    decreases |q|
  {
    var r := ParentPath(q);
    NormalIsChild(q);
    if r == p {
      k := q;
    } else {
      if p != "" {
        ParentStaysBelow(q, p);
      }
      k := AncestorKid(m, p, r);
      UnderTransitive(q, r, k);
    }
  }

  lemma UnderTransitive(q: string, r: string, k: string)
    requires r != "" && IsChildPath(r, q) && Under(r, k)
    ensures Under(q, k)
  {
    assert q[..|r|] == r && q[|r|] == '/';
    if r != k {
      assert q[..|k|] == r[..|k|] == k && q[|k|] == r[|k|];
    }
  }

  lemma {:induction false} Reaches(m: EntryMap, e: Entry, q: string)
    requires MapOk(m) && ParentsRecorded(m) && ParentsIn(m) && q in m
    requires e.path == "" || (Under(q, e.path) && q != e.path)
    ensures q in EntriesBelow(TreeAt(m, e))
    decreases Deeper(m, e.path)
  {
    var t, ks := TreeAt(m, e), KidPaths(m, e.path);
    var k := AncestorKid(m, e.path, q);
    assert k in ks;
    var i :| 0 <= i < |ks| && ks[i] == k;
    assert t.children[i] == TreeAt(m, m[k]);
    if q != k {
      Reaches(m, m[k], q);
    }
    TreeAtTidy(m, e);
    EntriesDisjoint(t);
    Owned(EachEntries(t.children), i, q);
  }

  /** No entry is lost, none is invented, and each keeps its record. */
  lemma {:induction false} TreeHoldsEntries(m: EntryMap)
    requires MapOk(m) && ParentsRecorded(m) && ParentsIn(m)
    ensures EntriesBelow(TreeAt(m, ROOT_ENTRY)) == m
  {
    var n := EntriesBelow(TreeAt(m, ROOT_ENTRY));
    forall q | q in n
      ensures q in m && n[q] == m[q]
    {
      BuiltFromMap(m, ROOT_ENTRY, q);
    }
    forall q | q in m
      ensures q in n
    {
      Reaches(m, ROOT_ENTRY, q);
    }
  }

  // ---- entries listed in preorder, as the code walks a tree ----

  /** The entries below a node in walking order (OrderedPaths, and collect in BuildSnapshot). */
  function Preorder(t: Tree): seq<Entry>
    decreases t, 1
  {
    Flatten(EachPreorder(t.children))
  }

  function EachPreorder(ts: seq<Tree>): (r: seq<seq<Entry>>)
    ensures |r| == |ts|
    decreases ts, 0
  {
    seq(|ts|, i requires 0 <= i < |ts| => [ts[i].entry] + Preorder(ts[i]))
  }

  /** s lists the entries of m, each path once. */
  ghost predicate Listing(s: seq<Entry>, m: EntryMap)
  {
    && (forall i :: 0 <= i < |s| ==> s[i].path in m && m[s[i].path] == s[i])
    && (forall q :: q in m ==> exists i :: 0 <= i < |s| && s[i].path == q)
    && (forall i, j :: 0 <= i < j < |s| ==> s[i].path != s[j].path)
  }

  lemma ListingConcat(s: seq<Entry>, m: EntryMap, t: seq<Entry>, n: EntryMap)
    requires Listing(s, m) && Listing(t, n) && m.Keys !! n.Keys
    ensures Listing(s + t, m + n)
  {
    var all := s + t;
    forall q | q in m + n
      ensures exists i :: 0 <= i < |all| && all[i].path == q
    {
      if q in n {
        var i :| 0 <= i < |t| && t[i].path == q;
        assert all[|s| + i] == t[i];
      } else {
        var i :| 0 <= i < |s| && s[i].path == q;
        assert all[i] == s[i];
      }
    }
  }

  lemma ListingCons(e: Entry, s: seq<Entry>, m: EntryMap)
    requires Listing(s, m) && e.path !in m
    ensures Listing([e] + s, m[e.path := e])
  {
    assert Listing([e], map[e.path := e]) by { assert [e][0].path == e.path; }
    ListingConcat([e], map[e.path := e], s, m);
    assert map[e.path := e] + m == m[e.path := e];
  }

  lemma {:induction false} ListingFlatten(ss: seq<seq<Entry>>, ms: seq<EntryMap>)
    requires |ss| == |ms| && Disjoint(ms) && forall i :: 0 <= i < |ss| ==> Listing(ss[i], ms[i])
    ensures Listing(Flatten(ss), MergeMaps(ms))
  {
    if ss != [] {
      var n := |ss| - 1;
      FrontIsDisjoint(ms);
      ListingFlatten(ss[..n], ms[..n]);
      ListingConcat(Flatten(ss[..n]), MergeMaps(ms[..n]), ss[n], ms[n]);
    }
  }

  /** The walk of a tidy tree visits every entry exactly once. */
  lemma {:induction false} PreorderLists(t: Tree)
    requires Tidy(t)
    ensures Listing(Preorder(t), EntriesBelow(t))
    decreases t
  {
    var ts := t.children;
    forall i | 0 <= i < |ts|
      ensures Listing(EachPreorder(ts)[i], EachEntries(ts)[i])
    {
      assert ts[i] in ts;
      PreorderLists(ts[i]);
      OwnNotBelow(t, ts[i]);
      ListingCons(ts[i].entry, Preorder(ts[i]), EntriesBelow(ts[i]));
    }
    EntriesDisjoint(t);
    ListingFlatten(EachPreorder(ts), EachEntries(ts));
  }

  lemma {:induction false} OwnNotBelow(t: Tree, c: Tree)
    requires Tidy(t) && c in t.children
    ensures c.entry.path !in EntriesBelow(c)
  {
    if c.entry.path in EntriesBelow(c) {
      BelowUnder(t, c, c.entry.path);
    }
  }

  // ---- kinds ----

  predicate KnownType(nodeType: string)
  {
    nodeType == NODE_FILE || nodeType == NODE_DIR
  }

  /** Entries are files or directories, and only directories have entries below them. */
  ghost predicate KindsOk(m: EntryMap)
  {
    forall q :: q in m ==> KnownType(m[q].nodeType) && (ParentPath(q) in m ==> m[ParentPath(q)].nodeType == NODE_DIR)
  }

  lemma {:induction false} TreeAtWf(m: EntryMap, e: Entry)
    requires MapOk(m) && KindsOk(m) && KnownType(e.nodeType)
    requires e.nodeType == NODE_DIR || (e.path in m && m[e.path] == e)
    ensures WfTree(TreeAt(m, e))
    decreases Deeper(m, e.path)
  {
    var ks, kids := KidPaths(m, e.path), TreeAt(m, e).children;
    forall i | 0 <= i < |kids|
      ensures WfTree(kids[i]) && kids[i].entry.path == ks[i] && IsChildPath(e.path, ks[i]) && e.nodeType == NODE_DIR
    {
      assert ks[i] in ks;
      TreeAtWf(m, m[ks[i]]);
    }
    forall i, j | 0 <= i < j < |kids|
      ensures kids[i].entry.path != kids[j].entry.path
    {
      LexTotal(ks[i], ks[i]);
    }
    if kids == [] && e.nodeType == NODE_FILE {
      assert Normal(e.path);
    }
  }

  // ---- hashing keeps the shape ----

  lemma {:induction false} ShapeKeepsTidy(a: Tree, b: Tree)
    requires SameShape(a, b) && Tidy(a)
    ensures Tidy(b)
    decreases a
  {
    forall i | 0 <= i < |b.children|
      ensures SameInput(a.children[i].entry, b.children[i].entry) && Tidy(b.children[i]) && a.children[i] in a.children
    {
      assert a.children[i] in a.children && SameShape(a.children[i], b.children[i]);
      ShapeKeepsTidy(a.children[i], b.children[i]);
    }
  }

  lemma {:induction false} ShapeKeepsWf(a: Tree, b: Tree)
    requires SameShape(a, b) && WfTree(a)
    ensures WfTree(b)
    decreases a
  {
    forall i | 0 <= i < |b.children|
      ensures SameInput(a.children[i].entry, b.children[i].entry) && WfTree(b.children[i])
    {
      assert SameShape(a.children[i], b.children[i]);
      ShapeKeepsWf(a.children[i], b.children[i]);
    }
  }

  lemma {:induction false} TidyNormalDirs(t: Tree)
    requires Tidy(t) && (t.entry.path == "" || Normal(t.entry.path))
    ensures NormalDirs(t)
    decreases t
  {
    forall c | c in t.children
      ensures NormalDirs(c)
    {
      TidyNormalDirs(c);
    }
  }

  // ---- hashing succeeds and records the contents on disk ----

  /** Every file of the tree is on disk. */
  ghost predicate OnDisk(t: Tree, disk: Disk)
  {
    forall p :: p in Files(t) ==> p in disk
  }

  lemma NormalBase(p: string)
    requires Normal(p)
    ensures TrimSpace(PathBase(p)) != "" && TrimSpace(p) != ""
  {
    NormalIsChild(p);
    TrimSpaceFixed(p);
    TrimSpaceEmpty(PathBase(p));
    assert PathBase(p)[|PathBase(p)| - 1] == p[|p| - 1];
  }

  lemma DigestNotBlank(s: string)
    requires IsHex64(s)
    ensures TrimSpace(s) != ""
  {
    TrimSpaceEmpty(s);
    assert !IsSpace(s[0]);
  }

  lemma {:induction false} ChildrenPass(cs: seq<ChildHash>)
    requires forall i :: 0 <= i < |cs| ==> TrimSpace(cs[i].name) != "" && TrimSpace(cs[i].nodeHash) != ""
    ensures CheckChildren(cs) == Ok(true)
  {
    if cs != [] {
      ChildrenPass(cs[1..]);
    }
  }

  lemma {:induction false} HashSucceeds(H: string -> string, disk: Disk, t: Tree, parentHash: string)
    requires IsDigest(H) && Tidy(t) && WfTree(t) && OnDisk(t, disk)
    requires t.entry.path == "" || Normal(t.entry.path)
    ensures HashTree(H, disk, t, parentHash).Ok?
    decreases t
  {
    if t.entry.nodeType == NODE_FILE {
      NormalBase(t.entry.path);
      assert t.entry.path in Files(t);
    } else {
      var rs := HashEach(H, disk, t.children);
      forall i | 0 <= i < |t.children|
        ensures rs[i].Ok? && Named(rs[i].value)
      {
        ChildOnDisk(t, i, disk);
        HashSucceeds(H, disk, t.children[i], "");
        HashedChildNamed(H, disk, t, i);
      }
      DirHashSucceeds(H, disk, t, parentHash, rs);
    }
  }

  lemma {:induction false} DirHashSucceeds(H: string -> string, disk: Disk, t: Tree, parentHash: string, rs: seq<Result<Tree>>)
    requires t.entry.nodeType == NODE_DIR && (t.entry.path == "" || Normal(t.entry.path))
    requires rs == HashEach(H, disk, t.children) && forall i :: 0 <= i < |rs| ==> rs[i].Ok? && Named(rs[i].value)
    ensures HashTree(H, disk, t, parentHash).Ok?
  {
    CollectOk(rs);
    var kids := Collect(rs).value;
    ChildrenPass(ChildHashes(kids));
    DirectoryPathKept(t.entry.path);
    assert DirectoryHash(H, t.entry.path, ChildHashes(kids)).Ok?;
  }

  predicate Named(t: Tree)
  {
    TrimSpace(PathBase(t.entry.path)) != "" && TrimSpace(t.entry.nodeHash) != ""
  }

  lemma {:induction false} ChildOnDisk(t: Tree, i: nat, disk: Disk)
    requires WfTree(t) && t.entry.nodeType == NODE_DIR && OnDisk(t, disk) && i < |t.children|
    ensures OnDisk(t.children[i], disk)
  {
    KidsUnder(t.entry.path, t.children);
    forall p | p in Files(t.children[i])
      ensures p in disk
    {
      Owned(EachFiles(t.children), i, p);
    }
  }

  lemma {:induction false} HashedChildNamed(H: string -> string, disk: Disk, t: Tree, i: nat)
    requires IsDigest(H) && Tidy(t) && i < |t.children| && HashTree(H, disk, t.children[i], "").Ok?
    ensures Named(HashTree(H, disk, t.children[i], "").value)
  {
    var c := t.children[i];
    assert c in t.children;
    TidyNormalDirs(c);
    HashTreeIsHashed(H, disk, c, "");
    NormalBase(c.entry.path);
    DigestNotBlank(HashTree(H, disk, c, "").value.entry.nodeHash);
  }

  /** The hashed tree's files are the tree's files, each with the digest of its contents. */
  lemma {:induction false} HashedFiles(H: string -> string, disk: Disk, t: Tree, parentHash: string)
    requires WfTree(t) && HashTree(H, disk, t, parentHash).Ok?
    ensures Files(HashTree(H, disk, t, parentHash).value).Keys == Files(t).Keys
    ensures RecordsDisk(H, disk, Files(HashTree(H, disk, t, parentHash).value))
    decreases t
  {
    if t.entry.nodeType == NODE_DIR {
      var rs := HashEach(H, disk, t.children);
      CollectOk(rs);
      var kids := Collect(rs).value;
      var r := HashTree(H, disk, t, parentHash).value;
      assert r.children == Adopt(kids, r.entry.nodeHash);
      AdoptedFiles(kids, r.entry.nodeHash);
      forall i | 0 <= i < |kids|
        ensures EachFiles(kids)[i].Keys == EachFiles(t.children)[i].Keys && RecordsDisk(H, disk, EachFiles(kids)[i])
      {
        assert rs[i] == HashTree(H, disk, t.children[i], "") && rs[i].Ok? && kids[i] == rs[i].value;
        HashedFiles(H, disk, t.children[i], "");
      }
      SameKeysMerged(EachFiles(kids), EachFiles(t.children));
      RecordsMerged(H, disk, EachFiles(kids));
    }
  }

  lemma {:induction false} AdoptedFiles(ts: seq<Tree>, hash: string)
    ensures EachFiles(Adopt(ts, hash)) == EachFiles(ts)
  {
    forall i | 0 <= i < |ts|
      ensures Files(Adopt(ts, hash)[i]) == Files(ts[i])
    {
    }
  }

  ghost predicate RecordsDisk(H: string -> string, disk: Disk, files: FileMap)
  {
    forall p :: p in files ==> p in disk && files[p].contentHash == H(disk[p])
  }

  lemma {:induction false} RecordsMerged(H: string -> string, disk: Disk, ms: seq<FileMap>)
    requires forall i :: 0 <= i < |ms| ==> RecordsDisk(H, disk, ms[i])
    ensures RecordsDisk(H, disk, MergeMaps(ms))
  {
    if ms != [] {
      RecordsMerged(H, disk, ms[..|ms| - 1]);
    }
  }

  // ---- the files among the entries are the files of the tree ----

  lemma {:induction false} FilesAreEntries(t: Tree, p: string)
    requires Tidy(t) && WfTree(t) && t.entry.nodeType == NODE_DIR
    ensures p in Files(t) <==> p in EntriesBelow(t) && EntriesBelow(t)[p].nodeType == NODE_FILE
    decreases t
  {
    KidsUnder(t.entry.path, t.children);
    EntriesDisjoint(t);
    if p in Files(t) {
      var i := Owner(EachFiles(t.children), p);
      FileIsEntry(t, i, p);
      Owned(EachEntries(t.children), i, p);
    }
    if p in EntriesBelow(t) && EntriesBelow(t)[p].nodeType == NODE_FILE {
      var i := Owner(EachEntries(t.children), p);
      Owned(EachEntries(t.children), i, p);
      EntryIsFile(t, i, p);
      Owned(EachFiles(t.children), i, p);
    }
  }

  lemma {:induction false} FileIsEntry(t: Tree, i: nat, p: string)
    requires Tidy(t) && WfTree(t) && t.entry.nodeType == NODE_DIR && i < |t.children| && p in Files(t.children[i])
    ensures p in EachEntries(t.children)[i] && EachEntries(t.children)[i][p].nodeType == NODE_FILE
    decreases t, 0
  {
    var c := t.children[i];
    assert c in t.children && WfTree(c);
    if c.entry.nodeType == NODE_DIR {
      FilesAreEntries(c, p);
      FilesUnder(c);
    } else {
      assert p == c.entry.path;
    }
  }

  lemma {:induction false} EntryIsFile(t: Tree, i: nat, p: string)
    requires Tidy(t) && WfTree(t) && t.entry.nodeType == NODE_DIR && i < |t.children|
    requires p in EachEntries(t.children)[i] && EachEntries(t.children)[i][p].nodeType == NODE_FILE
    ensures p in Files(t.children[i])
    decreases t, 0
  {
    var c := t.children[i];
    assert c in t.children && WfTree(c);
    if c.entry.nodeType == NODE_DIR {
      FilesAreEntries(c, p);
    } else {
      assert EachEntries(c.children) == [];
      assert p == c.entry.path;
    }
  }

  // ---- BuildSnapshot ----

  /** BuildSnapshot after the walk: build the tree, hash it, report the root's digest. */
  function SnapshotOf(H: string -> string, entries: seq<Entry>, disk: Disk): Result<Snapshot>
  {
    var tree :- BuildTree(entries);
    var hashed :- HashTree(H, disk, tree, "");
    Ok(Snapshot(hashed, hashed.entry.nodeHash))
  }

  /** What a walk delivers: distinct normal paths, parents included, only directories above other entries,
      and the contents of every listed file. */
  ghost predicate WalkOk(entries: seq<Entry>, disk: Disk)
  {
    && Clean(entries) && ParentsPresent(entries)
    && KindsOk(MapOf(entries))
    && (forall p :: p in disk <==> p in MapOf(entries) && MapOf(entries)[p].nodeType == NODE_FILE)
  }

  /** The snapshot of a walk exists, is well formed and hashed, and records exactly the files on disk. */
  lemma SnapshotBuilt(H: string -> string, entries: seq<Entry>, disk: Disk)
    requires IsDigest(H) && WalkOk(entries, disk)
    ensures SnapshotOf(H, entries, disk).Ok?
    ensures SnapshotOk(H, SnapshotOf(H, entries, disk).value)
    ensures Tidy(SnapshotOf(H, entries, disk).value.root)
    ensures SnapshotOf(H, entries, disk).value.root.entry
         == ROOT_ENTRY.(nodeHash := SnapshotOf(H, entries, disk).value.rootHash)
    ensures Files(SnapshotOf(H, entries, disk).value.root).Keys == disk.Keys
    ensures RecordsDisk(H, disk, Files(SnapshotOf(H, entries, disk).value.root))
  {
    TreeOfWalk(entries, disk);
    var t := TreeAt(MapOf(entries), ROOT_ENTRY);
    TidyNormalDirs(t);
    HashSucceeds(H, disk, t, "");
    var r := HashTree(H, disk, t, "").value;
    assert SnapshotOf(H, entries, disk) == Ok(Snapshot(r, r.entry.nodeHash));
    HashedWalk(H, disk, t);
    HashedFiles(H, disk, t, "");
  }

  /** The tree of a walk: canonical, tidy, well formed, with the files on disk as its files. */
  lemma {:induction false} TreeOfWalk(entries: seq<Entry>, disk: Disk)
    requires WalkOk(entries, disk)
    ensures MapOk(MapOf(entries)) && BuildTree(entries) == Ok(TreeAt(MapOf(entries), ROOT_ENTRY))
    ensures Tidy(TreeAt(MapOf(entries), ROOT_ENTRY)) && WfTree(TreeAt(MapOf(entries), ROOT_ENTRY))
    ensures Files(TreeAt(MapOf(entries), ROOT_ENTRY)).Keys == disk.Keys
  {
    var m := MapOf(entries);
    BuildIsCanonical(entries);
    MapOfRecords(entries);
    var t := TreeAt(m, ROOT_ENTRY);
    TreeAtTidy(m, ROOT_ENTRY);
    TreeAtWf(m, ROOT_ENTRY);
    TreeHoldsEntries(m);
    forall p
      ensures p in Files(t) <==> p in disk
    {
      FilesAreEntries(t, p);
    }
  }

  lemma {:induction false} HashedWalk(H: string -> string, disk: Disk, t: Tree)
    requires IsDigest(H) && Tidy(t) && WfTree(t) && NormalDirs(t) && t.entry == ROOT_ENTRY
    requires HashTree(H, disk, t, "").Ok?
    ensures var r := HashTree(H, disk, t, "").value;
      SnapshotOk(H, Snapshot(r, r.entry.nodeHash)) && Tidy(r) && r.entry == ROOT_ENTRY.(nodeHash := r.entry.nodeHash)
  {
    var r := HashTree(H, disk, t, "").value;
    HashTreeIsHashed(H, disk, t, "");
    ShapeKeepsTidy(t, r);
    ShapeKeepsWf(t, r);
    RootEntryAfter(H, disk, t);
  }

  lemma {:induction false} RootEntryAfter(H: string -> string, disk: Disk, t: Tree)
    requires t.entry == ROOT_ENTRY && HashTree(H, disk, t, "").Ok?
    ensures HashTree(H, disk, t, "").value.entry == ROOT_ENTRY.(nodeHash := HashTree(H, disk, t, "").value.entry.nodeHash)
  {
  }

  lemma {:induction false} MapOfRecords(entries: seq<Entry>)
    requires Clean(entries)
    ensures MapOk(MapOf(entries)) && ParentsRecorded(MapOf(entries))
    ensures ParentsPresent(entries) ==> ParentsIn(MapOf(entries))
  {
    MapOfFacts(entries);
    forall q | q in MapOf(entries)
      ensures MapOf(entries)[q].parentPath == ParentPath(q)
      ensures ParentsPresent(entries) ==> ParentPath(q) == "" || ParentPath(q) in MapOf(entries)
    {
      var i :| 0 <= i < |entries| && entries[i].path == q;
      assert MapOf(entries)[entries[i].path] == Fixed(entries[i]);
    }
  }
}
