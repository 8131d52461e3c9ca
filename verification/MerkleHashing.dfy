/** Hashing in place (internal/indexsync/snapshot/hash.go, HashNodeTree and assignHashes):
    nodes are objects whose entries are overwritten while the shape of the tree stays fixed. */
module MerkleHashing {
  import opened Outcomes
  import opened GoStrings
  import opened MerkleHash

  class Node {
    var entry: Entry
    const children: seq<Node>
    ghost const footprint: set<Node>

    /** The children are disjoint trees inside this node's footprint. */
    ghost predicate Nested()
    {
      && this in footprint
      && (forall i :: 0 <= i < |children| ==>
            && children[i] in children[i].footprint
            && children[i].footprint <= footprint - {this})
      && (forall i, j :: 0 <= i < j < |children| ==> children[i].footprint !! children[j].footprint)
    }

    /** The entries reachable from this node form the tree t. */
    ghost predicate Represents(t: Tree)
      reads footprint
      decreases t
    {
      && Nested()
      && entry == t.entry
      && |children| == |t.children|
      && forall i :: 0 <= i < |children| ==> children[i].Represents(t.children[i])
    }

    constructor (entry: Entry, children: seq<Node>, ghost kids: seq<Tree>)
      requires |children| == |kids|
      requires forall i :: 0 <= i < |children| ==> children[i].Represents(kids[i])
      requires forall i, j :: 0 <= i < j < |children| ==> children[i].footprint !! children[j].footprint
      ensures Represents(Tree(entry, kids))
    {
      this.entry := entry;
      this.children := children;
      this.footprint := {this} + set i, n | 0 <= i < |children| && n in children[i].footprint :: n;
    }

    /** assignHashes: hashes the children left to right, then the node, then stamps the final parent hashes. */
    method AssignHashes(H: string -> string, disk: Disk, parentHash: string, ghost before: Tree)
      returns (r: Result<string>)
      requires Represents(before)
      modifies footprint
      ensures r == NodeHashOf(HashTree(H, disk, before, parentHash))
      ensures r.Ok? ==> Represents(HashTree(H, disk, before, parentHash).value)
      decreases before, 1
    {
      entry := entry.(parentHash := parentHash);
      if entry.nodeType == NODE_FILE {
        if TrimSpace(entry.path) == "" {
          return Err("hash file node: path is required");
        }
        if entry.path !in disk {
          return Err("read file");
        }
        var contentHash := H(disk[entry.path]);
        entry := entry.(contentHash := contentHash, nodeHash := H(FilePreimage(entry.path, contentHash, entry.sizeBytes)));
        return Ok(entry.nodeHash);
      }
      if entry.nodeType != NODE_DIR {
        return Err("hash node tree: unsupported node type");
      }
      r := HashDirectory(H, disk, before.(entry := entry));
    }

    /** The directory case of assignHashes, once the parent hash is written. */
    method HashDirectory(H: string -> string, disk: Disk, ghost before: Tree) returns (r: Result<string>)
      requires Represents(before) && before.entry.nodeType == NODE_DIR
      modifies footprint
      ensures r == NodeHashOf(HashTree(H, disk, before, before.entry.parentHash))
      ensures r.Ok? ==> Represents(HashTree(H, disk, before, before.entry.parentHash).value)
      decreases before.children, 1
    {
      var childHashes, hashed, now := HashChildren(H, disk, before.children);
      if childHashes.Err? {
        return Err(childHashes.error);
      }
      var nodeHash := HashDirectoryNode(H, entry.path, childHashes.value);
      if nodeHash.Err? {
        return Err(nodeHash.error);
      }
      Seal(nodeHash.value, hashed, now);
      DirectoryHashed(H, disk, before, hashed, nodeHash.value);
      return nodeHash;
    }

    /** The first loop of assignHashes over the children. */
    method HashChildren(H: string -> string, disk: Disk, ghost kids: seq<Tree>)
      returns (r: Result<seq<ChildHash>>, ghost hashed: seq<Tree>, ghost now: seq<Tree>)
      requires Hold(kids)
      modifies footprint - {this}
      ensures r.Err? ==> HashAll(H, disk, kids) == Err(r.error)
      ensures r.Ok? ==> HashAll(H, disk, kids) == Ok(hashed) && r.value == ChildHashes(hashed)
      ensures r.Ok? ==> Hold(now) && AllButParent(now, hashed)
      decreases kids, 0
    {
      ghost var results := HashEach(H, disk, kids);
      var childHashes: seq<ChildHash> := [];
      hashed, now := [], kids;
      for i := 0 to |children|
        invariant HashedUpTo(i, kids, results, now, hashed, childHashes)
      {
        var child: Result<ChildHash>;
        child, hashed, now := HashChildAt(H, disk, i, kids, results, now, hashed, childHashes);
        if child.Err? {
          return Err(child.error), hashed, now;
        }
        childHashes := childHashes + [child.value];
      }
      assert results[..|children|] == results;
      r := Ok(childHashes);
    }

    /** The loop invariant: the first k children are hashed, the others still represent the given trees. */
    ghost predicate HashedUpTo(k: nat, kids: seq<Tree>, results: seq<Result<Tree>>,
                               now: seq<Tree>, hashed: seq<Tree>, childHashes: seq<ChildHash>)
      reads footprint
    {
      && |kids| == |results| == |children|
      && Hold(now)
      && Progress(results, k, hashed, childHashes)
      && (forall j :: 0 <= j < k ==> SameButParent(now[j], hashed[j]))
      && forall j :: k <= j < |kids| ==> now[j] == kids[j]
    }

    /** The children represent these trees. */
    ghost predicate Hold(ts: seq<Tree>)
      reads footprint
    {
      Nested() && |children| == |ts| && forall j :: 0 <= j < |children| ==> children[j].Represents(ts[j])
    }

    /** The step of that loop for one child leaves the other children alone. */
    method HashChildAt(H: string -> string, disk: Disk, i: nat, ghost kids: seq<Tree>, ghost results: seq<Result<Tree>>,
                       ghost now: seq<Tree>, ghost hashed: seq<Tree>, ghost childHashes: seq<ChildHash>)
      returns (r: Result<ChildHash>, ghost hashed': seq<Tree>, ghost now': seq<Tree>)
      requires i < |children| && HashedUpTo(i, kids, results, now, hashed, childHashes)
      requires results[i] == HashTree(H, disk, kids[i], "")
      modifies footprint - {this}
      ensures r.Err? ==> Collect(results) == Err(r.error)
      ensures r.Ok? ==> HashedUpTo(i + 1, kids, results, now', hashed', childHashes + [r.value])
      decreases kids[i], 3
    {
      ghost var tree, childNow;
      r, tree, childNow := children[i].HashAsChild(H, disk, entry.nodeHash, now[i]);
      forall j | 0 <= j < |children| && j != i
        ensures children[j].Represents(now[j])
      {
        assert children[j].footprint !! children[i].footprint && old(children[j].Represents(now[j]));
      }
      ProgressStep(results, i, hashed, childHashes);
      hashed', now' := hashed + [tree], now[i := childNow];
      if r.Ok? {
        HashedNext(i, kids, results, now, childNow, hashed', childHashes + [r.value]);
      }
    }

    /** With child i hashed as well, one more child is done. */
    lemma {:induction false} HashedNext(i: nat, kids: seq<Tree>, results: seq<Result<Tree>>, now: seq<Tree>, childNow: Tree,
                                        hashed: seq<Tree>, childHashes: seq<ChildHash>)
      requires i < |kids| == |results| == |children| == |now| && Nested()
      requires children[i].Represents(childNow) && forall j :: 0 <= j < |children| && j != i ==> children[j].Represents(now[j])
      requires Progress(results, i + 1, hashed, childHashes) && SameButParent(childNow, hashed[i])
      requires (forall j :: 0 <= j < i ==> SameButParent(now[j], hashed[j])) && forall j :: i < j < |kids| ==> now[j] == kids[j]
      ensures HashedUpTo(i + 1, kids, results, now[i := childNow], hashed, childHashes)
    {
    }

    /** Hash the child, give it the node hash its parent has so far. */
    method HashAsChild(H: string -> string, disk: Disk, staleHash: string, ghost before: Tree)
      returns (r: Result<ChildHash>, ghost tree: Tree, ghost now: Tree)
      requires Represents(before)
      modifies footprint
      ensures r.Err? ==> HashTree(H, disk, before, "") == Err(r.error)
      ensures r.Ok? ==> HashTree(H, disk, before, "") == Ok(tree) && r.value == ChildHashOf(tree)
      ensures r.Ok? ==> Represents(now) && SameButParent(now, tree)
      decreases before, 2
    {
      var childHash := AssignHashes(H, disk, "", before);
      if childHash.Err? {
        return Err(childHash.error), before, before;
      }
      tree := HashTree(H, disk, before, "").value;
      now := WithParentHash(tree, staleHash);
      entry := entry.(parentHash := staleHash);
      r := Ok(ChildHash(Paths.PathBase(entry.path), entry.nodeType, childHash.value));
    }

    /** The node's own hash, then the final parent hash of its children. */
    method Seal(nodeHash: string, ghost hashed: seq<Tree>, ghost now: seq<Tree>)
      requires Hold(now) && AllButParent(now, hashed)
      modifies footprint
      ensures Represents(Tree(old(entry).(nodeHash := nodeHash), Adopt(hashed, nodeHash)))
    {
      entry := entry.(nodeHash := nodeHash);
      StampChildren(nodeHash, hashed, now);
    }

    /** The second loop of assignHashes over the children. */
    method StampChildren(nodeHash: string, ghost hashed: seq<Tree>, ghost now: seq<Tree>)
      requires Hold(now) && AllButParent(now, hashed)
      modifies footprint - {this}
      ensures Hold(Adopt(hashed, nodeHash))
    {
      for i := 0 to |children|
        invariant forall j :: 0 <= j < i ==> children[j].Represents(WithParentHash(hashed[j], nodeHash))
        invariant forall j :: i <= j < |children| ==> children[j].Represents(now[j])
      {
        children[i].entry := children[i].entry.(parentHash := nodeHash);
      }
    }

    /** HashNodeTree: a root without a type is a directory. */
    method HashNodeTree(H: string -> string, disk: Disk, ghost before: Tree) returns (r: Result<string>)
      requires Represents(before)
      modifies footprint
      ensures r == NodeHashOf(HashTree(H, disk, Rooted(before), ""))
      ensures r.Ok? ==> Represents(HashTree(H, disk, Rooted(before), "").value)
    {
      if entry.nodeType == "" {
        entry := entry.(nodeType := NODE_DIR);
      }
      r := AssignHashes(H, disk, "", Rooted(before));
    }
  }

  lemma {:induction false} DirectoryHashed(H: string -> string, disk: Disk, t: Tree, kids: seq<Tree>, node: string)
    requires t.entry.nodeType == NODE_DIR && HashAll(H, disk, t.children) == Ok(kids)
    requires DirectoryHash(H, t.entry.path, ChildHashes(kids)) == Ok(node)
    ensures HashTree(H, disk, t, t.entry.parentHash) == Ok(Tree(t.entry.(nodeHash := node), Adopt(kids, node)))
  {
  }

  predicate SameButParent(a: Tree, b: Tree)
  {
    WithParentHash(a, "") == WithParentHash(b, "")
  }

  predicate AllButParent(a: seq<Tree>, b: seq<Tree>)
  {
    |a| == |b| && forall j :: 0 <= j < |a| ==> SameButParent(a[j], b[j])
  }

  /** The first k children are hashed, and the lines for the directory preimage are collected. */
  ghost predicate Progress(results: seq<Result<Tree>>, k: nat, hashed: seq<Tree>, childHashes: seq<ChildHash>)
  {
    k <= |results| && |hashed| == k && Collect(results[..k]) == Ok(hashed) && childHashes == ChildHashes(hashed)
  }

  lemma {:induction false} ProgressStep(results: seq<Result<Tree>>, k: nat, hashed: seq<Tree>, childHashes: seq<ChildHash>)
    requires k < |results| && Progress(results, k, hashed, childHashes)
    ensures results[k].Err? ==> Collect(results) == Err(results[k].error)
    ensures results[k].Ok? ==>
      Progress(results, k + 1, hashed + [results[k].value], childHashes + [ChildHashOf(results[k].value)])
  {
    CollectStep(results, k);
    if results[k].Ok? {
      ChildHashesSnoc(hashed, results[k].value);
    }
  }

  function Rooted(t: Tree): Tree
  {
    if t.entry.nodeType == "" then t.(entry := t.entry.(nodeType := NODE_DIR)) else t
  }

  function NodeHashOf(r: Result<Tree>): Result<string>
  {
    if r.Ok? then Ok(r.value.entry.nodeHash) else Err(r.error)
  }
}
