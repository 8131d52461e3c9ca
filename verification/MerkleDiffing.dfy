/** The difference as the code runs it (internal/indexsync/diff/merkle_diff.go and delta.go):
    one delta set is appended to throughout the recursion and sorted at the end. */
module MerkleDiffing {
  import opened Outcomes
  import opened Sorting
  import opened StringOrder
  import opened MerkleHash
  import opened FlatDiff
  import opened MerkleDiff

  class SyncDeltaSet {
    var previousRootHash: string
    var currentRootHash: string
    var changes: seq<FileDelta>

    constructor ()
      ensures previousRootHash == "" && currentRootHash == "" && changes == []
    {
      previousRootHash, currentRootHash, changes := "", "", [];
    }

    method AddChange(change: FileDelta)
      modifies this`changes
      ensures changes == old(changes) + [change]
    {
      changes := changes + [change];
    }

    method SortChanges()
      modifies this`changes
      ensures changes == Sort(DeltaLe, old(changes))
      ensures Ordered(DeltaLe, changes) && multiset(changes) == multiset(old(changes))
    {
      DeltaPreorder();
      SortOrdered(DeltaLe, changes);
      SortPermutes(DeltaLe, changes);
      changes := Sort(DeltaLe, changes);
    }
  }

  /** A run that appends the given changes, or stops with their error. */
  ghost predicate Appends(err: Option<string>, before: seq<FileDelta>, after: seq<FileDelta>, r: Result<seq<FileDelta>>)
  {
    match r
    case Ok(s) => err == None && after == before + s
    case Err(e) => err == Some(e)
  }

  method CollectSubtree(node: Tree, op: DeltaOp, delta: SyncDeltaSet) returns (err: Option<string>)
    modifies delta`changes
    ensures Appends(err, old(delta.changes), delta.changes, SubtreeChanges(node, op))
    decreases node
  {
    if node.entry.nodeType == NODE_DIR {
      ghost var rs := EachSubtree(node.children, op);
      for i := 0 to |node.children|
        invariant AppendedUpTo(rs, i, old(delta.changes), delta.changes)
      {
        ghost var mid := delta.changes;
        var e := CollectSubtree(node.children[i], op, delta);
        AppendsNext(rs, i, old(delta.changes), mid, delta.changes, e);
        if e.Some? {
          return e;
        }
      }
      AppendsAll(rs, old(delta.changes), delta.changes);
      return None;
    }
    if node.entry.nodeType == NODE_FILE {
      var change := FileChange(node.entry, op);
      if change.Err? {
        return Some(change.error);
      }
      delta.AddChange(change.value);
      return None;
    }
    return Some("collect subtree: unsupported node type");
  }

  /** The first k results are fine and their changes are appended. */
  ghost predicate AppendedUpTo(rs: seq<Result<seq<FileDelta>>>, k: nat, before: seq<FileDelta>, after: seq<FileDelta>)
  {
    k <= |rs| && Collect(rs[..k]).Ok? && after == before + Flatten(Collect(rs[..k]).value)
  }

  /** One step of the loop over the results: it ends with their first error or appends the next. */
  lemma {:induction false} AppendsNext(rs: seq<Result<seq<FileDelta>>>, k: nat, before: seq<FileDelta>, mid: seq<FileDelta>,
                                       after: seq<FileDelta>, err: Option<string>)
    requires k < |rs| && AppendedUpTo(rs, k, before, mid) && Appends(err, mid, after, rs[k])
    ensures err.Some? ==> Collect(rs) == Err(err.value)
    ensures err.None? ==> AppendedUpTo(rs, k + 1, before, after)
  {
    CollectStep(rs, k);
    if err.None? {
      FlattenSnoc(Collect(rs[..k]).value, rs[k].value);
    }
  }

  lemma {:induction false} AppendsAll(rs: seq<Result<seq<FileDelta>>>, before: seq<FileDelta>, after: seq<FileDelta>)
    requires AppendedUpTo(rs, |rs|, before, after)
    ensures Collect(rs).Ok? && after == before + Flatten(Collect(rs).value)
  {
    assert rs[..|rs|] == rs;
  }

  method ChildrenByPath(children: seq<Tree>) returns (indexed: map<string, Tree>)
    ensures indexed == ByPath(children)
  {
    indexed := map[];
    for i := 0 to |children|
      invariant indexed == ByPath(children[..i])
    {
      assert children[..i + 1][..i] == children[..i];
      indexed := indexed[children[i].entry.path := children[i]];
    }
    assert children[..|children|] == children;
  }

  ghost predicate Lists(keys: seq<string>, all: set<string>)
  {
    && (forall k :: k in keys <==> k in all)
    && forall i, j :: 0 <= i < j < |keys| ==> keys[i] != keys[j]
  }

  /** Ranging over a map's keys, in whatever order they come, collecting those not seen before. */
  method AppendUnseen(range: set<string>, seen: set<string>, keys: seq<string>) returns (seen': set<string>, keys': seq<string>)
    requires Lists(keys, seen)
    ensures seen' == seen + range && Lists(keys', seen')
  {
    var todo := range;
    seen', keys' := seen, keys;
    while todo != {}
      invariant todo <= range && seen' == seen + (range - todo)
      invariant Lists(keys', seen')
      decreases |todo|
    {
      var path :| path in todo;
      todo := todo - {path};
      if path !in seen' {
        seen' := seen' + {path};
        keys' := keys' + [path];
      }
    }
  }

  function TreeOrLeaf(t: Option<Tree>): Tree
  {
    if t.Some? then t.value else Tree(Entry("", "", "", "", "", "", None, None), [])
  }

  method DiffNodeRecursive(previous: Option<Tree>, current: Option<Tree>, delta: SyncDeltaSet) returns (err: Option<string>)
    modifies delta`changes
    ensures Appends(err, old(delta.changes), delta.changes, NodeChanges(previous, current))
    decreases previous.Some?, TreeOrLeaf(previous), 2
  {
    if previous.None? && current.None? {
      return None;
    }
    if previous.None? {
      err := CollectSubtree(current.value, Add, delta);
      return;
    }
    if current.None? {
      err := CollectSubtree(previous.value, Delete, delta);
      return;
    }
    var prev, cur := previous.value, current.value;
    if prev.entry.nodeType != cur.entry.nodeType {
      err := CollectSubtree(prev, Delete, delta);
      if err.Some? {
        return;
      }
      err := CollectSubtree(cur, Add, delta);
      return;
    }
    if prev.entry.nodeHash != "" && prev.entry.nodeHash == cur.entry.nodeHash {
      return None;
    }
    if prev.entry.nodeType == NODE_FILE {
      delta.AddChange(Modified(cur.entry.path, InfoOf(prev.entry), InfoOf(cur.entry)));
      return None;
    }
    if prev.entry.nodeType == NODE_DIR {
      err := DiffChildren(prev, cur, delta);
      return;
    }
    return Some("diff node recursive: unsupported node type");
  }

  /** The first part of diffChildren: the paths of the children of both directories, sorted. */
  method SortedChildPaths(previousChildren: map<string, Tree>, currentChildren: map<string, Tree>) returns (keys: seq<string>)
    ensures keys == SortedKeys(previousChildren.Keys + currentChildren.Keys)
  {
    var seen;
    seen, keys := AppendUnseen(previousChildren.Keys, {}, []);
    seen, keys := AppendUnseen(currentChildren.Keys, seen, keys);
    SortListing(keys, previousChildren.Keys + currentChildren.Keys);
    keys := Sort(LexLe, keys);
  }

  /** The step of diffChildren for one path. */
  method DiffKey(previous: Tree, current: Tree, previousChildren: map<string, Tree>, currentChildren: map<string, Tree>, key: string,
                 delta: SyncDeltaSet) returns (err: Option<string>)
    requires previousChildren == ByPath(previous.children) && currentChildren == ByPath(current.children)
    modifies delta`changes
    ensures Appends(err, old(delta.changes), delta.changes, KeyChanges(previous, current, key))
    decreases true, previous, 0
  {
    KeyIsNode(previous, current, key);
    err := DiffNodeRecursive(Lookup(previousChildren, key), Lookup(currentChildren, key), delta);
  }

  method DiffChildren(previous: Tree, current: Tree, delta: SyncDeltaSet) returns (err: Option<string>)
    modifies delta`changes
    ensures Appends(err, old(delta.changes), delta.changes, KeyedChanges(previous, current, KeysOf(previous, current)))
    decreases true, previous, 1
  {
    var previousChildren := ChildrenByPath(previous.children);
    var currentChildren := ChildrenByPath(current.children);
    var keys := SortedChildPaths(previousChildren, currentChildren);
    ghost var rs := EachKey(previous, current, keys);
    ghost var before := delta.changes;
    for i := 0 to |keys|
      invariant AppendedUpTo(rs, i, before, delta.changes)
    {
      ghost var mid := delta.changes;
      var e := DiffKey(previous, current, previousChildren, currentChildren, keys[i], delta);
      AppendsNext(rs, i, before, mid, delta.changes, e);
      if e.Some? {
        return e;
      }
    }
    AppendsAll(rs, before, delta.changes);
    return None;
  }

  method DiffSnapshots(previous: Option<Snapshot>, current: Option<Snapshot>)
    returns (delta: SyncDeltaSet, err: Option<string>)
    ensures fresh(delta)
    ensures SnapshotChanges(previous, current).Ok? ==>
      && err == None && delta.changes == SnapshotChanges(previous, current).value
      && delta.previousRootHash == RootHashOf(previous) && delta.currentRootHash == RootHashOf(current)
    ensures SnapshotChanges(previous, current).Err? ==>
      err == Some(SnapshotChanges(previous, current).error) && delta.changes == []
  {
    delta := new SyncDeltaSet();
    delta.previousRootHash := RootHashOf(previous);
    delta.currentRootHash := RootHashOf(current);
    if previous.Some? && current.Some? && previous.value.rootHash == current.value.rootHash {
      return delta, None;
    }
    err := DiffNodeRecursive(RootOf(previous), RootOf(current), delta);
    if err.Some? {
      delta := new SyncDeltaSet();
      return;
    }
    assert [] + NodeChanges(RootOf(previous), RootOf(current)).value == NodeChanges(RootOf(previous), RootOf(current)).value;
    delta.SortChanges();
  }
}
