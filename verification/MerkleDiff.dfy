/** The pruned recursive difference of two hashed trees (internal/indexsync/diff/merkle_diff.go)
    and its agreement with the flat difference of their file maps. */
module MerkleDiff {
  import opened Outcomes
  import opened Sorting
  import opened StringOrder
  import opened Paths
  import opened MerkleHash
  import opened FlatDiff
  import opened DisjointMaps

  // ---- what the code computes, as values ----

  function InfoOf(e: Entry): FileInfo
  {
    FileInfo(e.nodeHash, e.contentHash)
  }

  /** The record collectSubtree appends for a file. */
  function FileChange(e: Entry, op: DeltaOp): Result<FileDelta>
  {
    match op
    case Add => Ok(Added(e.path, InfoOf(e)))
    case Delete => Ok(Deleted(e.path, InfoOf(e)))
    case Modify => Err("collect subtree: unsupported op")
  }

  function SubtreeChanges(t: Tree, op: DeltaOp): Result<seq<FileDelta>>
    decreases t, 1
  {
    if t.entry.nodeType == NODE_DIR then
      var changes :- Collect(EachSubtree(t.children, op));
      Ok(Flatten(changes))
    else if t.entry.nodeType == NODE_FILE then
      var change :- FileChange(t.entry, op);
      Ok([change])
    else Err("collect subtree: unsupported node type")
  }

  function EachSubtree(ts: seq<Tree>, op: DeltaOp): (r: seq<Result<seq<FileDelta>>>)
    ensures |r| == |ts|
    decreases ts, 0
  {
    seq(|ts|, i requires 0 <= i < |ts| => SubtreeChanges(ts[i], op))
  }

  /** childrenByPath: of two children with one path the later one wins. */
  function ByPath(ts: seq<Tree>): (m: map<string, Tree>)
    ensures forall k :: k in m ==> m[k] in ts && m[k].entry.path == k
    ensures forall t :: t in ts ==> t.entry.path in m
  {
    if ts == [] then map[]
    else ByPath(ts[..|ts| - 1])[ts[|ts| - 1].entry.path := ts[|ts| - 1]]
  }

  function Lookup(m: map<string, Tree>, k: string): Option<Tree>
  {
    if k in m then Some(m[k]) else None
  }

  function OneSided(p: Option<Tree>, c: Option<Tree>): Result<seq<FileDelta>>
    requires p.None? || c.None?
  {
    if p.Some? then SubtreeChanges(p.value, Delete)
    else if c.Some? then SubtreeChanges(c.value, Add)
    else Ok([])
  }

  ghost function KeysOf(prev: Tree, cur: Tree): seq<string>
  {
    SortedKeys(ByPath(prev.children).Keys + ByPath(cur.children).Keys)
  }

  /** DiffNodeRecursive on two present nodes. */
  ghost function BothChanges(prev: Tree, cur: Tree): Result<seq<FileDelta>>
    decreases prev, 1, 0
  {
    if prev.entry.nodeType != cur.entry.nodeType then
      var removed :- SubtreeChanges(prev, Delete);
      var added :- SubtreeChanges(cur, Add);
      Ok(removed + added)
    else if prev.entry.nodeHash != "" && prev.entry.nodeHash == cur.entry.nodeHash then Ok([])
    else if prev.entry.nodeType == NODE_FILE then
      Ok([Modified(cur.entry.path, InfoOf(prev.entry), InfoOf(cur.entry))])
    else if prev.entry.nodeType == NODE_DIR then KeyedChanges(prev, cur, KeysOf(prev, cur))
    else Err("diff node recursive: unsupported node type")
  }

  /** diffChildren's loop over the sorted keys. */
  ghost function KeyedChanges(prev: Tree, cur: Tree, keys: seq<string>): Result<seq<FileDelta>>
    decreases prev, 0, 2
  {
    var changes :- Collect(EachKey(prev, cur, keys));
    Ok(Flatten(changes))
  }

  ghost function EachKey(prev: Tree, cur: Tree, keys: seq<string>): (r: seq<Result<seq<FileDelta>>>)
    ensures |r| == |keys|
    decreases prev, 0, 1
  {
    seq(|keys|, i requires 0 <= i < |keys| => KeyChanges(prev, cur, keys[i]))
  }

  ghost function KeyChanges(prev: Tree, cur: Tree, key: string): Result<seq<FileDelta>>
    decreases prev, 0, 0
  {
    var p, c := Lookup(ByPath(prev.children), key), Lookup(ByPath(cur.children), key);
    if p.Some? && c.Some? then BothChanges(p.value, c.value) else OneSided(p, c)
  }

  ghost function NodeChanges(p: Option<Tree>, c: Option<Tree>): Result<seq<FileDelta>>
  {
    if p.Some? && c.Some? then BothChanges(p.value, c.value) else OneSided(p, c)
  }

  lemma {:induction false} KeyIsNode(prev: Tree, cur: Tree, key: string)
    ensures KeyChanges(prev, cur, key)
         == NodeChanges(Lookup(ByPath(prev.children), key), Lookup(ByPath(cur.children), key))
  {
    var p, c := Lookup(ByPath(prev.children), key), Lookup(ByPath(cur.children), key);
    if p.Some? && c.Some? {
      assert KeyChanges(prev, cur, key) == BothChanges(p.value, c.value);
    } else {
      assert KeyChanges(prev, cur, key) == OneSided(p, c);
    }
  }

  /** snapshot.Snapshot, as far as the difference reads it. */
  datatype Snapshot = Snapshot(root: Tree, rootHash: string)

  function RootHashOf(s: Option<Snapshot>): string
  {
    if s.Some? then s.value.rootHash else ""
  }

  function RootOf(s: Option<Snapshot>): Option<Tree>
  {
    if s.Some? then Some(s.value.root) else None
  }

  /** The changes DiffSnapshots reports. */
  ghost function SnapshotChanges(prev: Option<Snapshot>, cur: Option<Snapshot>): Result<seq<FileDelta>>
  {
    if prev.Some? && cur.Some? && prev.value.rootHash == cur.value.rootHash then Ok([])
    else
      var changes :- NodeChanges(RootOf(prev), RootOf(cur));
      Ok(Sort(DeltaLe, changes))
  }

  // ---- well-formed trees and their file maps ----

  /** Files are leaves; children have distinct paths directly below their directory. */
  ghost predicate WfTree(t: Tree)
    decreases t, 1
  {
    if t.entry.nodeType == NODE_FILE then t.children == [] && t.entry.path != ""
    else t.entry.nodeType == NODE_DIR && WfKids(t.entry.path, t.children)
  }

  ghost predicate WfKids(parent: string, ts: seq<Tree>)
    decreases ts, 0
  {
    && (forall i :: 0 <= i < |ts| ==> IsChildPath(parent, ts[i].entry.path) && WfTree(ts[i]))
    && (forall i, j :: 0 <= i < j < |ts| ==> ts[i].entry.path != ts[j].entry.path)
  }

  /** All files of the tree, by path. */
  function Files(t: Tree): FileMap
    decreases t, 1
  {
    if t.entry.nodeType == NODE_FILE then map[t.entry.path := InfoOf(t.entry)] else MergeMaps(EachFiles(t.children))
  }

  function EachFiles(ts: seq<Tree>): (r: seq<FileMap>)
    ensures |r| == |ts|
    decreases ts, 0
  {
    seq(|ts|, i requires 0 <= i < |ts| => Files(ts[i]))
  }

  function FilesOf(s: Option<Snapshot>): FileMap
  {
    if s.Some? then Files(s.value.root) else map[]
  }

  lemma {:induction false} FilesUnder(t: Tree)
    requires WfTree(t) && t.entry.path != ""
    ensures forall p :: p in Files(t) ==> Under(p, t.entry.path)
    ensures t.entry.nodeType == NODE_DIR ==> t.entry.path !in Files(t)
    decreases t, 1
  {
    if t.entry.nodeType == NODE_DIR {
      KidsUnder(t.entry.path, t.children);
      forall p | p in Files(t)
        ensures Under(p, t.entry.path) && p != t.entry.path
      {
        var i := Owner(EachFiles(t.children), p);
        UnderChild(t.entry.path, t.children[i].entry.path, p);
      }
    }
  }

  /** Each sibling's files lie below it, so the siblings' file maps are disjoint. */
  lemma {:induction false} KidsUnder(parent: string, ts: seq<Tree>)
    requires WfKids(parent, ts)
    ensures forall i, p :: 0 <= i < |ts| && p in EachFiles(ts)[i] ==> Under(p, ts[i].entry.path)
    ensures Disjoint(EachFiles(ts))
    decreases ts, 0
  {
    forall i, p | 0 <= i < |ts| && p in EachFiles(ts)[i]
      ensures Under(p, ts[i].entry.path)
    {
      FilesUnder(ts[i]);
    }
    forall i, j, p | 0 <= i < j < |ts| && p in EachFiles(ts)[i]
      ensures p !in EachFiles(ts)[j]
    {
      NotBoth(parent, ts, i, j, p);
    }
  }

  lemma {:induction false} NotBoth(parent: string, ts: seq<Tree>, i: nat, j: nat, p: string)
    requires WfKids(parent, ts) && i < j < |ts|
    requires Under(p, ts[i].entry.path)
    ensures !Under(p, ts[j].entry.path)
  {
    if Under(p, ts[j].entry.path) {
      SiblingsDisjoint(parent, ts[i].entry.path, ts[j].entry.path, p);
    }
  }

  /** Below a child path, the siblings' file map is that child's file map. */
  lemma {:induction false} GetUnder(parent: string, ts: seq<Tree>, k: string, p: string)
    requires WfKids(parent, ts) && IsChildPath(parent, k) && Under(p, k)
    ensures Get(MergeMaps(EachFiles(ts)), p) == if k in ByPath(ts) then Get(Files(ByPath(ts)[k]), p) else None
  {
    var ms := EachFiles(ts);
    KidsUnder(parent, ts);
    if p in MergeMaps(ms) {
      var i := Owner(ms, p);
      SiblingsDisjoint(parent, ts[i].entry.path, k, p);
      ByPathAt(parent, ts, i);
      Owned(ms, i, p);
    } else if k in ByPath(ts) && p in Files(ByPath(ts)[k]) {
      var i :| 0 <= i < |ts| && ts[i] == ByPath(ts)[k];
      Owned(ms, i, p);
    }
  }

  lemma {:induction false} ByPathAt(parent: string, ts: seq<Tree>, i: nat)
    requires WfKids(parent, ts) && i < |ts|
    ensures ts[i].entry.path in ByPath(ts) && ByPath(ts)[ts[i].entry.path] == ts[i]
  {
    var t := ByPath(ts)[ts[i].entry.path];
    var j :| 0 <= j < |ts| && ts[j] == t;
    assert ts[j].entry.path == ts[i].entry.path;
  }

  // ---- one-sided subtrees ----

  /** collectSubtree lists exactly the files of the subtree. */
  lemma {:induction false} SubtreeExact(t: Tree, op: DeltaOp)
    requires WfTree(t) && op != Modify
    ensures SubtreeChanges(t, op).Ok?
    ensures OneSidedExact(op, SubtreeChanges(t, op).value, Files(t))
    decreases t
  {
    if t.entry.nodeType == NODE_DIR {
      var ts := t.children;
      var rs := EachSubtree(ts, op);
      forall i | 0 <= i < |ts|
        ensures rs[i].Ok? && OneSidedExact(op, rs[i].value, EachFiles(ts)[i])
      {
        SubtreeExact(ts[i], op);
      }
      CollectOk(rs);
      KidsUnder(t.entry.path, ts);
      FlattenExact(op, Collect(rs).value, EachFiles(ts));
    }
  }

  // ---- pruning ----

  /** Equal cores of hashed trees carry equal digests and the same file map. */
  lemma {:induction false} CoreFixesFiles(H: string -> string, a: Tree, b: Tree)
    requires Hashed(H, a) && Hashed(H, b) && CoreOf(a) == CoreOf(b)
    ensures a.entry.nodeType == b.entry.nodeType && a.entry.nodeHash == b.entry.nodeHash
    ensures Files(a) == Files(b)
    decreases a
  {
    if a.entry.nodeType != NODE_FILE {
      var x, y := a.children, b.children;
      assert CoresOf(x) == CoresOf(y);
      forall i | 0 <= i < |x|
        ensures Files(x[i]) == Files(y[i]) && ChildHashOf(x[i]) == ChildHashOf(y[i])
      {
        assert x[i] in x && y[i] in y && CoresOf(x)[i] == CoresOf(y)[i];
        CoreFixesFiles(H, x[i], y[i]);
        CoreFixesChild(x[i], y[i]);
      }
      assert EachFiles(x) == EachFiles(y);
      assert ChildHashes(x) == ChildHashes(y);
    }
  }

  /** A hashed node, or a directory restored without its own digest over hashed children. */
  ghost predicate NodeOk(H: string -> string, t: Tree)
  {
    || Hashed(H, t)
    || (t.entry.nodeType == NODE_DIR && t.entry.nodeHash == "" && forall c :: c in t.children ==> Hashed(H, c))
  }

  /** Skipping a subtree with an equal digest loses no change. */
  lemma {:induction false} PruningIsExact(H: string -> string, prev: Tree, cur: Tree)
    requires IsDigest(H) && NodeOk(H, prev) && NodeOk(H, cur)
    requires NoCollision(H, Preimages(prev) + Preimages(cur))
    requires prev.entry.nodeHash != "" && prev.entry.nodeHash == cur.entry.nodeHash
    ensures Exact([], Files(prev), Files(cur))
  {
    EqualHashEqualTree(H, prev, cur);
    CoreFixesFiles(H, prev, cur);
  }

  // ---- two-sided recursion ----

  ghost predicate Comparable(H: string -> string, prev: Tree, cur: Tree)
  {
    && WfTree(prev) && WfTree(cur) && NodeOk(H, prev) && NodeOk(H, cur)
    && prev.entry.path == cur.entry.path
    && NoCollision(H, Preimages(prev) + Preimages(cur))
  }

  ghost predicate Covered(p: string, keys: seq<string>)
  {
    exists k :: k in keys && Under(p, k)
  }

  /** s lists exactly the changes at or below the given keys, each path once. */
  ghost predicate ExactOn(s: seq<FileDelta>, fa: FileMap, fb: FileMap, keys: seq<string>)
  {
    && (forall d :: d in s ==> ChangeAt(fa, fb, d.path) == Some(d) && Covered(d.path, keys))
    && (forall p :: Covered(p, keys) && ChangeAt(fa, fb, p).Some? ==> ChangeAt(fa, fb, p).value in s)
    && (forall i, j :: 0 <= i < j < |s| ==> s[i].path != s[j].path)
  }

  lemma {:induction false} BothExact(H: string -> string, prev: Tree, cur: Tree)
    requires IsDigest(H) && Comparable(H, prev, cur)
    requires prev.entry.path != "" || prev.entry.nodeType == cur.entry.nodeType
    ensures BothChanges(prev, cur).Ok?
    ensures Exact(BothChanges(prev, cur).value, Files(prev), Files(cur))
    decreases prev, 1, 0
  {
    if prev.entry.nodeType != cur.entry.nodeType {
      SubtreeExact(prev, Delete);
      SubtreeExact(cur, Add);
      FilesUnder(prev);
      FilesUnder(cur);
      ExactConcat(SubtreeChanges(prev, Delete).value, Files(prev), SubtreeChanges(cur, Add).value, Files(cur));
    } else if prev.entry.nodeHash != "" && prev.entry.nodeHash == cur.entry.nodeHash {
      PruningIsExact(H, prev, cur);
    } else if prev.entry.nodeType == NODE_DIR {
      SortedKeysStrict(ByPath(prev.children).Keys + ByPath(cur.children).Keys);
      DirExact(H, prev, cur, KeysOf(prev, cur));
    }
  }

  lemma {:induction false} DirExact(H: string -> string, prev: Tree, cur: Tree, keys: seq<string>)
    requires IsDigest(H) && Comparable(H, prev, cur)
    requires prev.entry.nodeType == NODE_DIR && cur.entry.nodeType == NODE_DIR
    requires Strict(LexLe, keys)
    requires forall k :: k in keys <==> k in ByPath(prev.children) || k in ByPath(cur.children)
    ensures KeyedChanges(prev, cur, keys).Ok?
    ensures Exact(KeyedChanges(prev, cur, keys).value, Files(prev), Files(cur))
    decreases prev, 0, 2
  {
    KeysAreChildren(prev, cur, keys);
    StrictDistinct(keys);
    var rs := EachKey(prev, cur, keys);
    forall i | 0 <= i < |keys|
      ensures rs[i].Ok? && ExactOn(rs[i].value, Files(prev), Files(cur), [keys[i]])
    {
      KeyExact(H, prev, cur, keys[i]);
    }
    CollectOk(rs);
    KeyedExact(prev.entry.path, Collect(rs).value, Files(prev), Files(cur), keys);
    AllCovered(prev, cur, keys);
    ExactEverywhere(KeyedChanges(prev, cur, keys).value, Files(prev), Files(cur), keys);
  }

  lemma ExactEverywhere(s: seq<FileDelta>, fa: FileMap, fb: FileMap, keys: seq<string>)
    requires ExactOn(s, fa, fb, keys)
    requires forall p :: p in fa || p in fb ==> Covered(p, keys)
    ensures Exact(s, fa, fb)
  {
  }

  lemma StrictDistinct(keys: seq<string>)
    requires Strict(LexLe, keys)
    ensures forall i, j :: 0 <= i < j < |keys| ==> keys[i] != keys[j]
  {
  }

  lemma {:induction false} KeysAreChildren(prev: Tree, cur: Tree, keys: seq<string>)
    requires WfTree(prev) && WfTree(cur) && prev.entry.path == cur.entry.path
    requires prev.entry.nodeType == NODE_DIR && cur.entry.nodeType == NODE_DIR
    requires forall k :: k in keys ==> k in ByPath(prev.children) || k in ByPath(cur.children)
    ensures forall k :: k in keys ==> IsChildPath(prev.entry.path, k)
  {
  }

  /** Every file of either tree lies at or below some key. */
  lemma {:induction false} AllCovered(prev: Tree, cur: Tree, keys: seq<string>)
    requires WfTree(prev) && WfTree(cur)
    requires prev.entry.nodeType == NODE_DIR && cur.entry.nodeType == NODE_DIR
    requires forall k :: k in keys <==> k in ByPath(prev.children) || k in ByPath(cur.children)
    ensures forall p :: p in Files(prev) || p in Files(cur) ==> Covered(p, keys)
  {
    forall p | p in Files(prev) || p in Files(cur)
      ensures Covered(p, keys)
    {
      if p in Files(prev) {
        KidsUnder(prev.entry.path, prev.children);
        var i := Owner(EachFiles(prev.children), p);
        assert prev.children[i] in prev.children && prev.children[i].entry.path in keys;
      } else {
        KidsUnder(cur.entry.path, cur.children);
        var i := Owner(EachFiles(cur.children), p);
        assert cur.children[i] in cur.children && cur.children[i].entry.path in keys;
      }
    }
  }

  /** The changes listed for one key are exact at and below it. */
  ghost predicate KeyOk(prev: Tree, cur: Tree, key: string)
  {
    KeyChanges(prev, cur, key).Ok? && ExactOn(KeyChanges(prev, cur, key).value, Files(prev), Files(cur), [key])
  }

  /** Exact lists for distinct siblings, joined, are exact for all of them. */
  lemma {:induction false} KeyedExact(parent: string, ss: seq<seq<FileDelta>>, fa: FileMap, fb: FileMap, keys: seq<string>)
    requires |ss| == |keys|
    requires forall i, j :: 0 <= i < j < |keys| ==> keys[i] != keys[j]
    requires forall i :: 0 <= i < |keys| ==> IsChildPath(parent, keys[i]) && ExactOn(ss[i], fa, fb, [keys[i]])
    ensures ExactOn(Flatten(ss), fa, fb, keys)
    decreases |keys|
  {
    if keys != [] {
      var n := |keys| - 1;
      KeyedExact(parent, ss[..n], fa, fb, keys[..n]);
      JoinKeys(parent, Flatten(ss[..n]), ss[n], fa, fb, keys, n);
    }
  }

  /** Changes below one more sibling extend the list. */
  lemma JoinKeys(parent: string, s: seq<FileDelta>, t: seq<FileDelta>, fa: FileMap, fb: FileMap, keys: seq<string>, n: nat)
    requires n + 1 == |keys| && keys[n] !in keys[..n]
    requires forall k :: k in keys ==> IsChildPath(parent, k)
    requires ExactOn(s, fa, fb, keys[..n]) && ExactOn(t, fa, fb, [keys[n]])
    ensures ExactOn(s + t, fa, fb, keys)
  {
    forall p
      ensures Covered(p, keys) <==> Covered(p, keys[..n]) || Covered(p, [keys[n]])
    {
      assert forall k :: k in keys <==> k in keys[..n] || k in [keys[n]];
    }
    forall i, j | 0 <= i < j < |s + t|
      ensures (s + t)[i].path != (s + t)[j].path
    {
      if i < |s| <= j {
        var p := s[i].path;
        assert s[i] in s && t[j - |s|] in t;
        var k :| k in keys[..n] && Under(p, k);
        if p == t[j - |s|].path {
          SiblingsDisjoint(parent, k, keys[n], p);
        }
      }
    }
  }

  lemma {:induction false} KeyExact(H: string -> string, prev: Tree, cur: Tree, key: string)
    requires IsDigest(H) && Comparable(H, prev, cur)
    requires prev.entry.nodeType == NODE_DIR && cur.entry.nodeType == NODE_DIR
    requires IsChildPath(prev.entry.path, key)
    ensures KeyOk(prev, cur, key)
    decreases prev, 0, 1
  {
    KeyChildExact(H, prev, cur, key);
    LocalizeExact(prev, cur, key, KeyChanges(prev, cur, key).value);
  }

  /** The files of the child at a key; none if there is no such child. */
  ghost function ChildFiles(dir: Tree, key: string): FileMap
  {
    if key in ByPath(dir.children) then Files(ByPath(dir.children)[key]) else map[]
  }

  lemma {:induction false} KeyChildExact(H: string -> string, prev: Tree, cur: Tree, key: string)
    requires IsDigest(H) && Comparable(H, prev, cur)
    requires prev.entry.nodeType == NODE_DIR && cur.entry.nodeType == NODE_DIR
    requires IsChildPath(prev.entry.path, key)
    ensures KeyChanges(prev, cur, key).Ok?
    ensures Exact(KeyChanges(prev, cur, key).value, ChildFiles(prev, key), ChildFiles(cur, key))
    decreases prev, 0, 0
  {
    var p, c := Lookup(ByPath(prev.children), key), Lookup(ByPath(cur.children), key);
    if p.Some? && c.Some? {
      ChildrenComparable(H, prev, cur, key);
      BothExact(H, p.value, c.value);
      assert KeyChanges(prev, cur, key) == BothChanges(p.value, c.value);
    } else {
      if p.Some? { ChildOk(H, prev, p.value, key); }
      if c.Some? { ChildOk(H, cur, c.value, key); }
      OneSidedIsExact(p, c);
      assert KeyChanges(prev, cur, key) == OneSided(p, c);
    }
  }

  function OptionalFiles(t: Option<Tree>): FileMap
  {
    if t.Some? then Files(t.value) else map[]
  }

  lemma OneSidedIsExact(p: Option<Tree>, c: Option<Tree>)
    requires p.None? || c.None?
    requires (p.Some? ==> WfTree(p.value)) && (c.Some? ==> WfTree(c.value))
    ensures OneSided(p, c).Ok?
    ensures Exact(OneSided(p, c).value, OptionalFiles(p), OptionalFiles(c))
  {
    if p.Some? {
      SubtreeExact(p.value, Delete);
    } else if c.Some? {
      SubtreeExact(c.value, Add);
    }
  }

  lemma ChildrenComparable(H: string -> string, prev: Tree, cur: Tree, key: string)
    requires Comparable(H, prev, cur)
    requires prev.entry.nodeType == NODE_DIR && cur.entry.nodeType == NODE_DIR
    requires key in ByPath(prev.children) && key in ByPath(cur.children)
    ensures Comparable(H, ByPath(prev.children)[key], ByPath(cur.children)[key])
    ensures ByPath(prev.children)[key] in prev.children && key != ""
  {
    var p, c := ByPath(prev.children)[key], ByPath(cur.children)[key];
    ChildOk(H, prev, p, key);
    ChildOk(H, cur, c, key);
    PreimagesOfChild(prev, p);
    PreimagesOfChild(cur, c);
    NoCollisionPart(H, Preimages(prev) + Preimages(cur), Preimages(p) + Preimages(c));
  }

  lemma {:induction false} ChildOk(H: string -> string, dir: Tree, child: Tree, key: string)
    requires WfTree(dir) && NodeOk(H, dir) && dir.entry.nodeType == NODE_DIR
    requires key in ByPath(dir.children) && child == ByPath(dir.children)[key]
    ensures WfTree(child) && Hashed(H, child) && child.entry.path == key && child in dir.children && key != ""
  {
  }

  lemma {:induction false} PreimagesOfChild(dir: Tree, child: Tree)
    requires dir.entry.nodeType == NODE_DIR && child in dir.children
    ensures Preimages(child) <= Preimages(dir)
  {
  }

  /** An exact list for one child is exact below that child for the whole directory. */
  lemma {:induction false} LocalizeExact(prev: Tree, cur: Tree, key: string, s: seq<FileDelta>)
    requires WfTree(prev) && WfTree(cur) && prev.entry.path == cur.entry.path
    requires prev.entry.nodeType == NODE_DIR && cur.entry.nodeType == NODE_DIR
    requires IsChildPath(prev.entry.path, key)
    requires Exact(s, ChildFiles(prev, key), ChildFiles(cur, key))
    ensures ExactOn(s, Files(prev), Files(cur), [key])
  {
    KeyFilesUnder(prev, key);
    KeyFilesUnder(cur, key);
    forall p | Under(p, key)
      ensures Get(Files(prev), p) == Get(ChildFiles(prev, key), p)
      ensures Get(Files(cur), p) == Get(ChildFiles(cur, key), p)
    {
      GetUnder(prev.entry.path, prev.children, key, p);
      GetUnder(cur.entry.path, cur.children, key, p);
    }
    ExactBelow(s, Files(prev), Files(cur), ChildFiles(prev, key), ChildFiles(cur, key), key);
  }

  lemma ExactBelow(s: seq<FileDelta>, fa: FileMap, fb: FileMap, fp: FileMap, fc: FileMap, key: string)
    requires Exact(s, fp, fc)
    requires forall p :: p in fp || p in fc ==> Under(p, key)
    requires forall p :: Under(p, key) ==> Get(fa, p) == Get(fp, p) && Get(fb, p) == Get(fc, p)
    ensures ExactOn(s, fa, fb, [key])
  {
    assert forall p :: Covered(p, [key]) ==> Under(p, key);
    forall d | d in s
      ensures ChangeAt(fa, fb, d.path) == Some(d) && Covered(d.path, [key])
    {
      assert ChangeAt(fp, fc, d.path) == Some(d);
      assert key in [key] && Under(d.path, key);
    }
    forall p | Covered(p, [key]) && ChangeAt(fa, fb, p).Some?
      ensures ChangeAt(fa, fb, p).value in s
    {
      assert ChangeAt(fa, fb, p) == ChangeAt(fp, fc, p);
    }
  }

  lemma {:induction false} KeyFilesUnder(dir: Tree, key: string)
    requires WfTree(dir) && dir.entry.nodeType == NODE_DIR
    ensures forall p :: p in ChildFiles(dir, key) ==> Under(p, key)
  {
    if key in ByPath(dir.children) {
      FilesUnder(ByPath(dir.children)[key]);
    }
  }

  // ---- snapshots ----

  /** A snapshot built in memory, or restored with a root that carries no digest of its own. */
  ghost predicate SnapshotOk(H: string -> string, s: Snapshot)
  {
    && WfTree(s.root) && s.root.entry.nodeType == NODE_DIR && s.root.entry.path == ""
    && (forall c :: c in s.root.children ==> Hashed(H, c))
    && s.rootHash == H(DirPreimageOf("", s.root.children))
    && (s.root.entry.nodeHash == "" || Hashed(H, s.root))
  }

  ghost predicate SnapshotsOk(H: string -> string, prev: Option<Snapshot>, cur: Option<Snapshot>)
  {
    && (prev.Some? ==> SnapshotOk(H, prev.value))
    && (cur.Some? ==> SnapshotOk(H, cur.value))
    && NoCollision(H, SnapshotPreimages(prev) + SnapshotPreimages(cur))
  }

  ghost function SnapshotPreimages(s: Option<Snapshot>): set<string>
  {
    if s.Some? then Preimages(s.value.root) else {}
  }

  /** The pruned difference of two snapshots is the flat difference of their file maps. */
  lemma DiffIsFlat(H: string -> string, prev: Option<Snapshot>, cur: Option<Snapshot>)
    requires IsDigest(H) && SnapshotsOk(H, prev, cur)
    ensures SnapshotChanges(prev, cur) == Ok(Flat(FilesOf(prev), FilesOf(cur)))
  {
    NodesExact(H, prev, cur);
    if prev.Some? && cur.Some? && prev.value.rootHash == cur.value.rootHash {
      EqualRootsNoChange(H, prev.value, cur.value);
    } else {
      SortedExactIsFlat(NodeChanges(RootOf(prev), RootOf(cur)).value, FilesOf(prev), FilesOf(cur));
    }
  }

  lemma NodesExact(H: string -> string, prev: Option<Snapshot>, cur: Option<Snapshot>)
    requires IsDigest(H) && SnapshotsOk(H, prev, cur)
    ensures NodeChanges(RootOf(prev), RootOf(cur)).Ok?
    ensures Exact(NodeChanges(RootOf(prev), RootOf(cur)).value, FilesOf(prev), FilesOf(cur))
  {
    if prev.Some? && cur.Some? {
      BothExact(H, prev.value.root, cur.value.root);
    } else {
      OneSidedIsExact(RootOf(prev), RootOf(cur));
    }
  }

  lemma EqualRootsNoChange(H: string -> string, prev: Snapshot, cur: Snapshot)
    requires IsDigest(H) && SnapshotsOk(H, Some(prev), Some(cur))
    requires prev.rootHash == cur.rootHash
    ensures Flat(Files(prev.root), Files(cur.root)) == []
    ensures CoresOf(prev.root.children) == CoresOf(cur.root.children)
  {
    assert DirPreimageOf("", prev.root.children) == DirPreimageOf("", cur.root.children);
    NoCollisionPart(H, Preimages(prev.root) + Preimages(cur.root),
                    PreimagesAll(prev.root.children) + PreimagesAll(cur.root.children));
    EqualPreimageEqualChildren(H, "", prev.root.children, "", cur.root.children);
    forall i | 0 <= i < |prev.root.children|
      ensures Files(prev.root.children[i]) == Files(cur.root.children[i])
    {
      assert CoresOf(prev.root.children)[i] == CoresOf(cur.root.children)[i];
      CoreFixesFiles(H, prev.root.children[i], cur.root.children[i]);
    }
    assert EachFiles(prev.root.children) == EachFiles(cur.root.children);
    NothingChanged(Files(prev.root));
  }

  lemma NothingChanged(f: FileMap)
    ensures Flat(f, f) == []
  {
    assert Exact([], f, f);
    SortedExactIsFlat([], f, f);
  }

  /** Patching the old file map with the reported changes gives the new one. */
  lemma PatchGivesCurrent(H: string -> string, prev: Option<Snapshot>, cur: Option<Snapshot>)
    requires IsDigest(H) && SnapshotsOk(H, prev, cur)
    ensures SnapshotChanges(prev, cur).Ok?
    ensures Patch(FilesOf(prev), SnapshotChanges(prev, cur).value) == FilesOf(cur)
  {
    DiffIsFlat(H, prev, cur);
    FlatIsExact(FilesOf(prev), FilesOf(cur));
    if prev.Some? && cur.Some? {
      FileHashesDecide(H, prev.value.root, cur.value.root);
    }
    PatchExact(Flat(FilesOf(prev), FilesOf(cur)), FilesOf(prev), FilesOf(cur));
  }

  /** Every file record in a tree is the digest of one of the tree's preimages. */
  lemma {:induction false} FilePreimageIn(H: string -> string, t: Tree, p: string)
    requires NodeOk(H, t) && WfTree(t) && p in Files(t)
    ensures exists size :: FileRecord(H, p, Files(t)[p], size) && FilePreimage(p, Files(t)[p].contentHash, size) in Preimages(t)
    decreases t
  {
    if t.entry.nodeType == NODE_FILE {
      assert FileRecord(H, p, Files(t)[p], t.entry.sizeBytes);
    } else {
      KidsUnder(t.entry.path, t.children);
      var i := Owner(EachFiles(t.children), p);
      Owned(EachFiles(t.children), i, p);
      assert t.children[i] in t.children;
      FilePreimageIn(H, t.children[i], p);
      PreimagesOfChild(t, t.children[i]);
    }
  }

  ghost predicate FileRecord(H: string -> string, p: string, info: FileInfo, size: Option<int>)
  {
    IsHex64(info.contentHash) && info.nodeHash == H(FilePreimage(p, info.contentHash, size))
  }

  lemma {:induction false} FileHashesDecide(H: string -> string, a: Tree, b: Tree)
    requires NodeOk(H, a) && NodeOk(H, b) && WfTree(a) && WfTree(b)
    requires NoCollision(H, Preimages(a) + Preimages(b))
    ensures HashesDecide(Files(a), Files(b))
  {
    forall p | p in Files(a) && p in Files(b) && Files(a)[p].nodeHash == Files(b)[p].nodeHash
      ensures Files(a)[p] == Files(b)[p]
    {
      FilePreimageIn(H, a, p);
      FilePreimageIn(H, b, p);
      var x, y := Files(a)[p], Files(b)[p];
      var m :| FileRecord(H, p, x, m) && FilePreimage(p, x.contentHash, m) in Preimages(a);
      var n :| FileRecord(H, p, y, n) && FilePreimage(p, y.contentHash, n) in Preimages(b);
      FilePreimageInjective(p, x.contentHash, m, p, y.contentHash, n);
    }
  }

  /** Whether the previous root carries its digest does not matter: the root hashes are compared first. */
  lemma RestoredRootSameChanges(prev: Snapshot, cur: Option<Snapshot>)
    requires prev.root.entry.nodeType == NODE_DIR && prev.root.entry.nodeHash == prev.rootHash
    requires cur.Some? ==> cur.value.root.entry.nodeType == NODE_DIR && cur.value.root.entry.nodeHash == cur.value.rootHash
    ensures SnapshotChanges(Some(Unstamped(prev)), cur) == SnapshotChanges(Some(prev), cur)
  {
    var r := Unstamped(prev).root;
    assert r.children == prev.root.children;
    if cur.Some? && prev.rootHash != cur.value.rootHash {
      SameKeyedChanges(prev.root, r, cur.value.root, KeysOf(r, cur.value.root));
    }
  }

  function Unstamped(s: Snapshot): Snapshot
  {
    s.(root := s.root.(entry := s.root.entry.(nodeHash := "")))
  }

  lemma {:induction false} SameKeyedChanges(a: Tree, b: Tree, cur: Tree, keys: seq<string>)
    requires a.children == b.children
    ensures KeyedChanges(a, cur, keys) == KeyedChanges(b, cur, keys)
  {
    forall i | 0 <= i < |keys|
      ensures KeyChanges(a, cur, keys[i]) == KeyChanges(b, cur, keys[i])
    {
    }
    assert EachKey(a, cur, keys) == EachKey(b, cur, keys);
  }
}
