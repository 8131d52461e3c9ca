/** Building a node tree from a flat list of entries (internal/indexsync/snapshot/builder.go, BuildNodeTree). */
module NodeTree {
  import opened Outcomes
  import opened Sorting
  import opened StringOrder
  import opened Paths
  import opened MerkleHash

  const ROOT_ENTRY: Entry := Entry("", "", NODE_DIR, "", "", "", None, None)

  /** Directories sort before other kinds of entries with the same path. */
  function TypeRank(nodeType: string): int
  {
    if nodeType == NODE_DIR then 0 else 1
  }

  /** sortEntries' order: depth, then path, then kind. */
  predicate EntryLe(a: Entry, b: Entry)
  {
    if PathDepth(a.path) != PathDepth(b.path) then PathDepth(a.path) < PathDepth(b.path)
    else if a.path != b.path then LexLe(a.path, b.path)
    else TypeRank(a.nodeType) <= TypeRank(b.nodeType)
  }

  /** sortTree's order: path, then kind. */
  predicate TreeLe(a: Tree, b: Tree)
  {
    if a.entry.path != b.entry.path then LexLe(a.entry.path, b.entry.path)
    else TypeRank(a.entry.nodeType) <= TypeRank(b.entry.nodeType)
  }

  lemma EntryPreorder()
    ensures TotalPreorder(EntryLe)
  {
    forall a, b
      ensures EntryLe(a, b) || EntryLe(b, a)
    {
      LexTotal(a.path, b.path);
    }
    forall a, b, c | EntryLe(a, b) && EntryLe(b, c)
      ensures EntryLe(a, c)
    {
      PathOrderTransitive(a.path, b.path, c.path);
    }
  }

  lemma TreePreorder()
    ensures TotalPreorder(TreeLe)
  {
    forall a, b
      ensures TreeLe(a, b) || TreeLe(b, a)
    {
      LexTotal(a.entry.path, b.entry.path);
    }
    forall a, b, c | TreeLe(a, b) && TreeLe(b, c)
      ensures TreeLe(a, c)
    {
      PathOrderTransitive(a.entry.path, b.entry.path, c.entry.path);
    }
  }

  lemma {:induction false} PathOrderTransitive(a: string, b: string, c: string)
    ensures LexLe(a, b) && LexLe(b, c) ==> LexLe(a, c)
    ensures LexLe(a, b) && LexLe(b, a) ==> a == b
  {
    if LexLe(a, b) && LexLe(b, c) {
      LexTransitive(a, b, c);
    }
    if LexLe(a, b) && LexLe(b, a) {
      LexAntisymmetric(a, b);
    }
  }

  // ---- the pointers the code builds: nodes by number, and a map from paths to numbers ----

  datatype ArenaNode = ArenaNode(entry: Entry, children: seq<nat>)
  datatype Arena = Arena(nodes: seq<ArenaNode>, byPath: map<string, nat>)

  /** Children are created after their parent, and every recorded number is a node. */
  ghost predicate Sound(a: Arena)
  {
    && a.nodes != []
    && (forall p :: p in a.byPath ==> a.byPath[p] < |a.nodes|)
    && (forall j, c :: 0 <= j < |a.nodes| && c in a.nodes[j].children ==> j < c < |a.nodes|)
  }

  function RootArena(): (a: Arena)
    ensures Sound(a)
  {
    Arena([ArenaNode(ROOT_ENTRY, [])], map["" := 0])
  }

  /** The entry as the tree stores it: the parent path is recomputed. */
  function Fixed(e: Entry): Entry
  {
    e.(parentPath := ParentPath(e.path))
  }

  /** One step of the loop: normalise the path, find the parent node, append the new node to it. */
  function Attach(a: Arena, e: Entry): (r: Result<Arena>)
    requires Sound(a)
    ensures r.Ok? ==> Sound(r.value)
  {
    var path := NormalizeSnapshotPath(e.path);
    if path.Err? then Err("build node tree: " + path.error)
    else
      var entry := Fixed(e.(path := path.value));
      if entry.parentPath !in a.byPath then Err("build node tree: missing parent")
      else
        var id, parent := |a.nodes|, a.byPath[entry.parentPath];
        var grown := a.nodes[parent := a.nodes[parent].(children := a.nodes[parent].children + [id])];
        Ok(Arena(grown + [ArenaNode(entry, [])], a.byPath[entry.path := id]))
  }

  function AttachAll(es: seq<Entry>): (r: Result<Arena>)
    ensures r.Ok? ==> Sound(r.value)
  {
    if es == [] then Ok(RootArena())
    else
      var front :- AttachAll(es[..|es| - 1]);
      Attach(front, es[|es| - 1])
  }

  /** The tree below a node, every list of children sorted (sortTree). */
  function Grow(nodes: seq<ArenaNode>, id: nat): Tree
    requires id < |nodes|
    requires forall j, c :: 0 <= j < |nodes| && c in nodes[j].children ==> j < c < |nodes|
    decreases |nodes| - id
  {
    var cs := nodes[id].children;
    Tree(nodes[id].entry, Sort(TreeLe, seq(|cs|, i requires 0 <= i < |cs| => assert cs[i] in cs; Grow(nodes, cs[i]))))
  }

  function BuildTree(entries: seq<Entry>): Result<Tree>
  {
    var arena :- AttachAll(Sort(EntryLe, entries));
    Ok(Grow(arena.nodes, 0))
  }

  /** The loop over the entries that remain. */
  function AttachFrom(a: Arena, es: seq<Entry>): (r: Result<Arena>)
    requires Sound(a)
    ensures r.Ok? ==> Sound(r.value)
    decreases |es|
  {
    if es == [] then Ok(a)
    else
      var grown :- Attach(a, es[0]);
      AttachFrom(grown, es[1..])
  }

  method BuildNodeTree(entries: seq<Entry>) returns (r: Result<Tree>)
    ensures r == BuildTree(entries)
  {
    var sorted := Sort(EntryLe, entries);
    var arena := RootArena();
    AttachesAll(sorted);
    assert sorted[0..] == sorted;
    for i := 0 to |sorted|
      invariant Sound(arena) && AttachFrom(arena, sorted[i..]) == AttachAll(sorted)
    {
      var grown := Attach(arena, sorted[i]);
      if grown.Err? {
        return Err(grown.error);
      }
      assert sorted[i..][1..] == sorted[i + 1..];
      arena := grown.value;
    }
    return Ok(Grow(arena.nodes, 0));
  }

  lemma {:induction false} AttachSnoc(front: seq<Entry>, e: Entry)
    requires AttachAll(front).Ok?
    ensures AttachAll(front + [e]) == Attach(AttachAll(front).value, e)
  {
    var all := front + [e];
    assert all[..|all| - 1] == front && all[|all| - 1] == e;
  }

  lemma {:induction false} AttachesAll(es: seq<Entry>)
    ensures AttachFrom(RootArena(), es) == AttachAll(es)
  {
    AttachFromStart([], es);
    assert [] + es == es;
  }

  /** Attaching the entries one after another is attaching them all. */
  lemma {:induction false} AttachFromStart(front: seq<Entry>, es: seq<Entry>)
    requires AttachAll(front).Ok?
    ensures AttachAll(front + es) == AttachFrom(AttachAll(front).value, es)
    decreases |es|
  {
    if es == [] {
      assert front + es == front;
    } else {
      var next := front + [es[0]];
      assert front + es == next + es[1..];
      AttachSnoc(front, es[0]);
      if AttachAll(next).Ok? {
        AttachFromStart(next, es[1..]);
      } else {
        assert (front + es)[..|next|] == next;
        AttachStops(front + es, |next|);
      }
    }
  }

  lemma {:induction false} AttachStops(es: seq<Entry>, k: nat)
    requires k <= |es| && AttachAll(es[..k]).Err?
    ensures AttachAll(es) == AttachAll(es[..k])
    decreases |es|
  {
    if k < |es| {
      assert es[..|es| - 1][..k] == es[..k];
      AttachStops(es[..|es| - 1], k);
    } else {
      assert es[..k] == es;
    }
  }

  // ---- the tree of a set of entries ----

  type EntryMap = map<string, Entry>

  ghost predicate MapOk(m: EntryMap)
  {
    forall q :: q in m ==> Normal(q) && m[q].path == q
  }

  ghost function Kids(m: EntryMap, p: string): set<string>
  {
    set q | q in m && ParentPath(q) == p
  }

  ghost function Deeper(m: EntryMap, p: string): set<string>
  {
    set q | q in m && PathDepth(q) > PathDepth(p)
  }

  lemma KidsAreDeeper(m: EntryMap, p: string)
    requires MapOk(m)
    ensures forall q :: q in Kids(m, p) ==> q in m && IsChildPath(p, q) && Deeper(m, q) < Deeper(m, p)
  {
    forall q | q in Kids(m, p)
      ensures q in m && IsChildPath(p, q) && Deeper(m, q) < Deeper(m, p)
    {
      NormalIsChild(q);
      ChildDepth(p, q);
      assert q in Deeper(m, p) && q !in Deeper(m, q);
    }
  }

  ghost function KidPaths(m: EntryMap, p: string): (ks: seq<string>)
    requires MapOk(m)
    ensures Strict(LexLe, ks)
    ensures forall q :: q in ks <==> q in Kids(m, p)
    ensures forall q :: q in ks ==> q in m && IsChildPath(p, q) && Deeper(m, q) < Deeper(m, p)
  {
    SortedKeysStrict(Kids(m, p));
    KidsAreDeeper(m, p);
    SortedKeys(Kids(m, p))
  }

  /** The tree below e: its children are the entries whose parent path is e's path, in path order. */
  ghost function TreeAt(m: EntryMap, e: Entry): Tree
    requires MapOk(m)
    decreases Deeper(m, e.path)
  {
    var ks := KidPaths(m, e.path);
    Tree(e, seq(|ks|, i requires 0 <= i < |ks| => assert ks[i] in ks; TreeAt(m, m[ks[i]])))
  }

  /** Distinct normal paths: what a walk of the file system delivers. */
  ghost predicate Clean(es: seq<Entry>)
  {
    && (forall i :: 0 <= i < |es| ==> Normal(es[i].path))
    && (forall i, j :: 0 <= i < j < |es| ==> es[i].path != es[j].path)
  }

  ghost function MapOf(es: seq<Entry>): EntryMap
  {
    if es == [] then map[] else MapOf(es[..|es| - 1])[es[|es| - 1].path := Fixed(es[|es| - 1])]
  }

  lemma {:induction false} MapOfAt(es: seq<Entry>, i: nat)
    requires Clean(es) && i < |es|
    ensures es[i].path in MapOf(es) && MapOf(es)[es[i].path] == Fixed(es[i])
  {
    if i < |es| - 1 {
      MapOfAt(es[..|es| - 1], i);
    }
  }

  lemma {:induction false} MapOfFrom(es: seq<Entry>, p: string)
    requires p in MapOf(es)
    ensures HasPath(es, p)
  {
    var n := |es| - 1;
    if p == es[n].path {
    } else {
      MapOfFrom(es[..n], p);
      var i :| 0 <= i < n && es[..n][i].path == p;
      assert es[i].path == p;
    }
  }

  lemma {:induction false} MapOfFacts(es: seq<Entry>)
    requires Clean(es)
    ensures MapOk(MapOf(es))
    ensures forall p :: p in MapOf(es) <==> HasPath(es, p)
    ensures forall i :: 0 <= i < |es| ==> es[i].path in MapOf(es) && MapOf(es)[es[i].path] == Fixed(es[i])
  {
    forall i | 0 <= i < |es|
      ensures es[i].path in MapOf(es) && MapOf(es)[es[i].path] == Fixed(es[i])
    {
      MapOfAt(es, i);
    }
    forall p | p in MapOf(es)
      ensures HasPath(es, p)
    {
      MapOfFrom(es, p);
    }
  }

  ghost predicate HasPath(es: seq<Entry>, p: string)
  {
    exists i :: 0 <= i < |es| && es[i].path == p
  }

  /** Every entry's parent is the root or an entry. */
  ghost predicate ParentsPresent(es: seq<Entry>)
  {
    forall i :: 0 <= i < |es| ==> ParentPath(es[i].path) == "" || HasPath(es, ParentPath(es[i].path))
  }

  // ---- the arena after attaching clean entries ----

  /** The numbers, in order of creation, of the nodes whose parent path is p. */
  ghost function ChildIds(es: seq<Entry>, p: string): seq<nat>
  {
    if es == [] then []
    else
      var n := |es|;
      ChildIds(es[..n - 1], p) + if ParentPath(es[n - 1].path) == p then [n] else []
  }

  /** Increasing numbers of children of p. */
  ghost predicate ChildList(es: seq<Entry>, p: string, ids: seq<nat>)
  {
    && (forall x :: 0 <= x < |ids| ==> ChildOf(es, p, ids[x]))
    && forall x, y :: 0 <= x < y < |ids| ==> ids[x] < ids[y]
  }

  lemma ChildListSnoc(es: seq<Entry>, e: Entry, p: string, ids: seq<nat>)
    requires ChildList(es, p, ids)
    ensures ChildList(es + [e], p, ids)
    ensures ParentPath(e.path) == p ==> ChildList(es + [e], p, ids + [|es| + 1])
  {
    forall x | 0 <= x < |ids|
      ensures ChildOf(es + [e], p, ids[x]) && ids[x] <= |es|
    {
      assert ChildOf(es, p, ids[x]) && (es + [e])[ids[x] - 1] == es[ids[x] - 1];
    }
  }

  lemma {:induction false} ChildIdsList(es: seq<Entry>, p: string)
    ensures ChildList(es, p, ChildIds(es, p))
  {
    if es != [] {
      var front, last := es[..|es| - 1], es[|es| - 1];
      ChildIdsList(front, p);
      ChildListSnoc(front, last, p, ChildIds(front, p));
      assert es == front + [last];
    }
  }

  lemma {:induction false} ChildIdsFacts(es: seq<Entry>, p: string)
    ensures forall x :: 0 <= x < |ChildIds(es, p)| ==> ChildOf(es, p, ChildIds(es, p)[x])
    ensures forall x, y :: 0 <= x < y < |ChildIds(es, p)| ==> ChildIds(es, p)[x] < ChildIds(es, p)[y]
  {
    ChildIdsList(es, p);
  }

  predicate ChildOf(es: seq<Entry>, p: string, id: nat)
  {
    1 <= id <= |es| && ParentPath(es[id - 1].path) == p
  }

  lemma {:induction false} ChildIdsComplete(es: seq<Entry>, p: string, i: nat)
    requires i < |es| && ParentPath(es[i].path) == p
    ensures i + 1 in ChildIds(es, p)
    decreases |es|
  {
    if i < |es| - 1 {
      ChildIdsComplete(es[..|es| - 1], p, i);
    }
  }

  ghost predicate Built(a: Arena, es: seq<Entry>)
  {
    && Sound(a)
    && |a.nodes| == |es| + 1
    && a.nodes[0].entry == ROOT_ENTRY
    && (forall j :: 1 <= j < |a.nodes| ==> a.nodes[j].entry == Fixed(es[j - 1]))
    && BuiltPaths(a.byPath, es)
    && BuiltChildren(a.nodes, es)
  }

  ghost predicate BuiltChildren(nodes: seq<ArenaNode>, es: seq<Entry>)
  {
    forall j :: 0 <= j < |nodes| ==> nodes[j].children == ChildIds(es, nodes[j].entry.path)
  }

  ghost predicate BuiltPaths(byPath: map<string, nat>, es: seq<Entry>)
  {
    && "" in byPath && byPath[""] == 0
    && (forall i :: 0 <= i < |es| ==> es[i].path in byPath && byPath[es[i].path] == i + 1)
    && (forall i :: 0 <= i < |es| ==> ParentPath(es[i].path) in byPath)
    && (forall p :: p in byPath ==> p == "" || HasPath(es, p))
  }

  lemma HasPathSnoc(es: seq<Entry>, e: Entry, p: string)
    ensures HasPath(es + [e], p) <==> HasPath(es, p) || e.path == p
  {
    var all := es + [e];
    assert all[|es|] == e;
    if HasPath(es, p) {
      var i :| 0 <= i < |es| && es[i].path == p;
      assert all[i].path == p;
    }
    if HasPath(all, p) && e.path != p {
      var i :| 0 <= i < |all| && all[i].path == p;
      assert es[i].path == p;
    }
  }

  lemma BuiltPathsStep(byPath: map<string, nat>, es: seq<Entry>, e: Entry)
    requires Clean(es + [e]) && BuiltPaths(byPath, es) && ParentPath(e.path) in byPath
    ensures BuiltPaths(byPath[e.path := |es| + 1], es + [e])
  {
    var all, after := es + [e], byPath[e.path := |es| + 1];
    assert all[|es|] == e;
    forall i | 0 <= i < |all|
      ensures all[i].path in after && after[all[i].path] == i + 1 && ParentPath(all[i].path) in after
    {
      if i < |es| {
        assert all[i] == es[i];
      }
    }
    forall p | p in after
      ensures p == "" || HasPath(all, p)
    {
      HasPathSnoc(es, e, p);
    }
  }

  /** Numbers of nodes and paths correspond. */
  lemma NodeOfPath(a: Arena, es: seq<Entry>, p: string, j: nat)
    requires Built(a, es) && p in a.byPath && j < |a.nodes|
    ensures a.nodes[j].entry.path == p <==> j == a.byPath[p]
  {
    if j > 0 {
      assert a.nodes[j].entry == Fixed(es[j - 1]);
      assert a.byPath[es[j - 1].path] == j;
    }
    if p != "" {
      var i :| 0 <= i < |es| && es[i].path == p;
      assert a.nodes[i + 1].entry == Fixed(es[i]);
    }
  }

  lemma {:induction false} ChildIdsStep(es: seq<Entry>, e: Entry, p: string)
    ensures ChildIds(es + [e], p) == ChildIds(es, p) + if ParentPath(e.path) == p then [|es| + 1] else []
  {
    assert (es + [e])[..|es|] == es;
  }

  /** A path with children among the attached nodes is itself attached. */
  lemma {:induction false} ParentsAttached(byPath: map<string, nat>, es: seq<Entry>, p: string)
    requires BuiltPaths(byPath, es)
    ensures ChildIds(es, p) != [] ==> p in byPath
  {
    ChildIdsFacts(es, p);
    var ids := ChildIds(es, p);
    if ids != [] {
      assert ChildOf(es, p, ids[0]);
    }
  }

  lemma NewPath(byPath: map<string, nat>, es: seq<Entry>, e: Entry)
    requires Clean(es + [e]) && BuiltPaths(byPath, es)
    ensures e.path !in byPath && ParentPath(e.path) != e.path && Normal(e.path)
  {
    var all := es + [e];
    assert all[|es|] == e;
    forall i | 0 <= i < |es|
      ensures es[i].path != e.path
    {
      assert all[i] == es[i];
    }
    NormalIsChild(e.path);
  }

  /** What attaching a clean entry does. */
  lemma AttachShape(a: Arena, e: Entry)
    requires Sound(a) && Normal(e.path)
    ensures ParentPath(e.path) !in a.byPath ==> Attach(a, e) == Err("build node tree: missing parent")
    ensures ParentPath(e.path) in a.byPath ==>
      Attach(a, e) == Ok(Arena(
        AddChild(a.nodes, a.byPath[ParentPath(e.path)]) + [ArenaNode(Fixed(e), [])],
        a.byPath[e.path := |a.nodes|]))
  {
    NormalIsFixed(e.path);
    assert e.(path := e.path) == e;
  }

  function AddChild(nodes: seq<ArenaNode>, parent: nat): (r: seq<ArenaNode>)
    requires parent < |nodes|
    ensures |r| == |nodes|
  {
    nodes[parent := nodes[parent].(children := nodes[parent].children + [|nodes|])]
  }

  lemma AttachBuilds(a: Arena, es: seq<Entry>, e: Entry)
    requires Clean(es + [e]) && Built(a, es)
    ensures Attach(a, e).Ok? <==> ParentPath(e.path) in a.byPath
    ensures Attach(a, e).Ok? ==> Built(Attach(a, e).value, es + [e])
    ensures Attach(a, e).Err? ==> Attach(a, e).error == "build node tree: missing parent"
  {
    NewPath(a.byPath, es, e);
    AttachShape(a, e);
    if ParentPath(e.path) in a.byPath {
      BuiltPathsStep(a.byPath, es, e);
      var nodes := AddChild(a.nodes, a.byPath[ParentPath(e.path)]);
      BuiltChildrenStep(a, es, e, nodes);
      assert forall j :: 0 <= j < |nodes| ==> nodes[j].entry == a.nodes[j].entry;
      Assemble(nodes, Attach(a, e).value, es, e);
    }
  }

  lemma {:induction false} Assemble(nodes: seq<ArenaNode>, b: Arena, es: seq<Entry>, e: Entry)
    requires |nodes| == |es| + 1 && nodes[0].entry == ROOT_ENTRY
    requires forall j :: 1 <= j < |nodes| ==> nodes[j].entry == Fixed(es[j - 1])
    requires BuiltChildren(nodes, es + [e]) && ChildIds(es + [e], e.path) == []
    requires b.nodes == nodes + [ArenaNode(Fixed(e), [])] && BuiltPaths(b.byPath, es + [e]) && Sound(b)
    ensures Built(b, es + [e])
  {
    var all := es + [e];
    forall j | 1 <= j < |b.nodes|
      ensures b.nodes[j].entry == Fixed(all[j - 1])
    {
      if j < |nodes| {
        assert all[j - 1] == es[j - 1] && b.nodes[j] == nodes[j];
      }
    }
    BuiltChildrenSnoc(nodes, all, Fixed(e));
  }

  lemma {:induction false} BuiltChildrenSnoc(nodes: seq<ArenaNode>, es: seq<Entry>, e: Entry)
    requires BuiltChildren(nodes, es) && ChildIds(es, e.path) == []
    ensures BuiltChildren(nodes + [ArenaNode(e, [])], es)
  {
  }

  lemma {:induction false} BuiltChildrenStep(a: Arena, es: seq<Entry>, e: Entry, nodes: seq<ArenaNode>)
    requires Clean(es + [e]) && Built(a, es) && ParentPath(e.path) in a.byPath && e.path !in a.byPath
    requires ParentPath(e.path) != e.path
    requires nodes == AddChild(a.nodes, a.byPath[ParentPath(e.path)])
    ensures BuiltChildren(nodes, es + [e]) && ChildIds(es + [e], e.path) == []
  {
    forall j | 0 <= j < |nodes|
      ensures nodes[j].entry == a.nodes[j].entry && nodes[j].children == ChildIds(es + [e], nodes[j].entry.path)
    {
      ChildIdsStep(es, e, a.nodes[j].entry.path);
      NodeOfPath(a, es, ParentPath(e.path), j);
    }
    ParentsAttached(a.byPath, es, e.path);
    ChildIdsStep(es, e, e.path);
  }

  /** In an order where parents come first, attaching succeeds exactly when every parent is there. */
  ghost predicate ParentsFirst(es: seq<Entry>)
  {
    forall i, k :: 0 <= i < |es| && 0 <= k < |es| && es[k].path == ParentPath(es[i].path) ==> k < i
  }

  lemma {:induction false} AttachAllBuilds(es: seq<Entry>)
    requires Clean(es) && ParentsFirst(es)
    ensures AttachAll(es).Ok? <==> ParentsPresent(es)
    ensures AttachAll(es).Ok? ==> Built(AttachAll(es).value, es)
    ensures AttachAll(es).Err? ==> AttachAll(es).error == "build node tree: missing parent"
  {
    if es != [] {
      var n := |es| - 1;
      var front, e := es[..n], es[n];
      assert front + [e] == es;
      AttachAllBuilds(front);
      PresentSnoc(es);
      if AttachAll(front).Ok? {
        var a := AttachAll(front).value;
        AttachBuilds(a, front, e);
        InByPath(a, front, ParentPath(e.path));
      }
    }
  }

  lemma InByPath(a: Arena, es: seq<Entry>, p: string)
    requires Built(a, es)
    ensures p in a.byPath <==> p == "" || HasPath(es, p)
  {
    if HasPath(es, p) {
      var i :| 0 <= i < |es| && es[i].path == p;
    }
  }

  lemma PresentSnoc(es: seq<Entry>)
    requires es != [] && Clean(es) && ParentsFirst(es)
    ensures ParentsPresent(es) <==>
      ParentsPresent(es[..|es| - 1]) &&
      (ParentPath(es[|es| - 1].path) == "" || HasPath(es[..|es| - 1], ParentPath(es[|es| - 1].path)))
  {
    var n := |es| - 1;
    var front := es[..n];
    forall i | 0 <= i < |es|
      ensures HasPath(es, ParentPath(es[i].path)) <==> HasPath(front, ParentPath(es[i].path))
    {
      var p := ParentPath(es[i].path);
      assert front + [es[n]] == es;
      HasPathSnoc(front, es[n], p);
      assert es[n].path != p;
    }
    assert forall i :: 0 <= i < n ==> front[i] == es[i];
  }

  /** sortEntries puts every parent before its children. */
  lemma {:induction false} SortedParentsFirst(entries: seq<Entry>)
    requires Clean(entries)
    ensures Clean(Sort(EntryLe, entries)) && ParentsFirst(Sort(EntryLe, entries))
  {
    var es := Sort(EntryLe, entries);
    EntryPreorder();
    SortOrdered(EntryLe, entries);
    SortPermutes(EntryLe, entries);
    CleanSorted(entries);
    forall i, k | 0 <= i < |es| && 0 <= k < |es| && es[k].path == ParentPath(es[i].path)
      ensures k < i
    {
      NormalIsChild(es[i].path);
      ChildDepth(ParentPath(es[i].path), es[i].path);
      assert i < k ==> EntryLe(es[i], es[k]);
    }
  }

  lemma {:induction false} CleanSorted(entries: seq<Entry>)
    requires Clean(entries)
    ensures Clean(Sort(EntryLe, entries))
  {
    var es := Sort(EntryLe, entries);
    SortPermutes(EntryLe, entries);
    forall i | 0 <= i < |es|
      ensures Normal(es[i].path)
    {
      assert es[i] in entries;
    }
    forall i, j | 0 <= i < j < |es|
      ensures es[i].path != es[j].path
    {
      assert es[i] in es && es[j] in es && es[i] in entries && es[j] in entries;
      var x :| 0 <= x < |entries| && entries[x] == es[i];
      var y :| 0 <= y < |entries| && entries[y] == es[j];
      if es[i].path == es[j].path {
        assert x == y;
        RepeatedElement(es, i, j);
        RepeatedOnce(entries, x);
      }
    }
  }

  lemma RepeatedElement(es: seq<Entry>, i: nat, j: nat)
    requires i < j < |es| && es[i] == es[j]
    ensures multiset(es)[es[i]] >= 2
  {
    assert es == es[..i] + [es[i]] + es[i + 1..j] + [es[j]] + es[j + 1..];
  }

  lemma RepeatedOnce(es: seq<Entry>, x: nat)
    requires Clean(es) && x < |es|
    ensures multiset(es)[es[x]] == 1
  {
    assert es == es[..x] + [es[x]] + es[x + 1..];
    assert es[x] !in es[..x] && es[x] !in es[x + 1..];
  }

  // ---- what the arena grows into ----

  lemma {:induction false} GrowIsTreeAt(a: Arena, es: seq<Entry>, m: EntryMap, j: nat)
    requires Clean(es) && Built(a, es) && m == MapOf(es) && MapOk(m) && j < |a.nodes|
    ensures Grow(a.nodes, j) == TreeAt(m, a.nodes[j].entry)
    decreases |a.nodes| - j
  {
    MapOfFacts(es);
    var e := a.nodes[j].entry;
    var cs := a.nodes[j].children;
    ChildIdsFacts(es, e.path);
    var grown := seq(|cs|, i requires 0 <= i < |cs| => assert cs[i] in cs; Grow(a.nodes, cs[i]));
    var kids := TreeAt(m, e).children;
    forall i | 0 <= i < |cs|
      ensures grown[i] == TreeAt(m, Fixed(es[cs[i] - 1])) && grown[i].entry.path == es[cs[i] - 1].path
    {
      assert cs[i] in cs;
      GrowIsTreeAt(a, es, m, cs[i]);
    }
    SameKids(es, m, e, cs, grown);
    GrownDistinct(es, e.path, cs, grown);
    KidsStrict(m, e);
    TreePreorder();
    SortStrict(TreeLe, grown);
    SortPermutes(TreeLe, grown);
    StrictUnique(TreeLe, Sort(TreeLe, grown), kids);
  }

  lemma {:induction false} GrownDistinct(es: seq<Entry>, p: string, cs: seq<nat>, grown: seq<Tree>)
    requires Clean(es) && cs == ChildIds(es, p) && |grown| == |cs|
    requires forall i :: 0 <= i < |cs| ==> ChildOf(es, p, cs[i]) && grown[i].entry.path == es[cs[i] - 1].path
    ensures DistinctKeys(TreeLe, grown)
  {
    forall i, j | 0 <= i < j < |grown|
      ensures !(TreeLe(grown[i], grown[j]) && TreeLe(grown[j], grown[i]))
    {
      ChildIdsFacts(es, p);
      assert cs[i] < cs[j];
      PathOrderTransitive(grown[i].entry.path, grown[j].entry.path, grown[i].entry.path);
    }
  }

  lemma {:induction false} KidsStrict(m: EntryMap, e: Entry)
    requires MapOk(m)
    ensures Strict(TreeLe, TreeAt(m, e).children)
  {
    var ks, kids := KidPaths(m, e.path), TreeAt(m, e).children;
    forall i, j | 0 <= i < j < |kids|
      ensures TreeLe(kids[i], kids[j]) && !TreeLe(kids[j], kids[i])
    {
      assert ks[i] in ks && ks[j] in ks;
      assert kids[i].entry.path == ks[i] && kids[j].entry.path == ks[j];
      LexTotal(ks[i], ks[i]);
    }
  }

  lemma SameKids(es: seq<Entry>, m: EntryMap, e: Entry, cs: seq<nat>, grown: seq<Tree>)
    requires Clean(es) && m == MapOf(es) && MapOk(m)
    requires cs == ChildIds(es, e.path) && |grown| == |cs|
    requires forall i :: 0 <= i < |cs| ==> ChildOf(es, e.path, cs[i]) && grown[i] == TreeAt(m, Fixed(es[cs[i] - 1]))
    ensures forall t :: t in grown <==> t in TreeAt(m, e).children
  {
    MapOfFacts(es);
    var ks, kids := KidPaths(m, e.path), TreeAt(m, e).children;
    forall i | 0 <= i < |grown|
      ensures grown[i] in kids
    {
      var q := es[cs[i] - 1].path;
      assert q in m && q in Kids(m, e.path) && q in ks;
      var x :| 0 <= x < |ks| && ks[x] == q;
      assert kids[x] == TreeAt(m, m[q]);
    }
    forall x | 0 <= x < |kids|
      ensures kids[x] in grown
    {
      assert ks[x] in ks && ks[x] in Kids(m, e.path);
      var i :| 0 <= i < |es| && es[i].path == ks[x];
      ChildIdsComplete(es, e.path, i);
      var y :| 0 <= y < |cs| && cs[y] == i + 1;
      assert grown[y] == TreeAt(m, m[ks[x]]) == kids[x];
    }
  }

  /** Building succeeds exactly when every parent is present, and then gives the tree of the set of entries. */
  lemma {:induction false} BuildIsCanonical(entries: seq<Entry>)
    requires Clean(entries)
    ensures MapOk(MapOf(entries))
    ensures BuildTree(entries) ==
      if ParentsPresent(entries) then Ok(TreeAt(MapOf(entries), ROOT_ENTRY)) else Err("build node tree: missing parent")
  {
    var es := Sort(EntryLe, entries);
    SortedParentsFirst(entries);
    SortPermutes(EntryLe, entries);
    AttachAllBuilds(es);
    MapOfFacts(entries);
    MapOfFacts(es);
    SameEntries(entries, es);
    if AttachAll(es).Ok? {
      GrowIsTreeAt(AttachAll(es).value, es, MapOf(es), 0);
    }
  }

  lemma {:induction false} SamePath(a: seq<Entry>, b: seq<Entry>, p: string)
    requires Clean(a) && Clean(b) && forall e :: e in a <==> e in b
    requires HasPath(a, p)
    ensures HasPath(b, p) && p in MapOf(a) && p in MapOf(b) && MapOf(b)[p] == MapOf(a)[p]
  {
    MapOfFacts(a);
    MapOfFacts(b);
    var i :| 0 <= i < |a| && a[i].path == p;
    assert a[i] in b;
    var j :| 0 <= j < |b| && b[j] == a[i];
    assert MapOf(a)[a[i].path] == Fixed(a[i]) && MapOf(b)[b[j].path] == Fixed(b[j]);
  }

  lemma SameParents(a: seq<Entry>, b: seq<Entry>)
    requires Clean(a) && Clean(b) && (forall e :: e in a <==> e in b) && ParentsPresent(a)
    ensures ParentsPresent(b)
  {
    forall i | 0 <= i < |b|
      ensures ParentPath(b[i].path) == "" || HasPath(b, ParentPath(b[i].path))
    {
      assert b[i] in a;
      var j :| 0 <= j < |a| && a[j] == b[i];
      if ParentPath(a[j].path) != "" {
        SamePath(a, b, ParentPath(a[j].path));
      }
    }
  }

  lemma {:induction false} SubMap(a: seq<Entry>, b: seq<Entry>)
    requires Clean(a) && Clean(b) && forall e :: e in a <==> e in b
    ensures forall p :: p in MapOf(a) ==> p in MapOf(b) && MapOf(b)[p] == MapOf(a)[p]
  {
    MapOfFacts(a);
    MapOfFacts(b);
    forall p | p in MapOf(a)
      ensures p in MapOf(b) && MapOf(b)[p] == MapOf(a)[p]
    {
      SamePath(a, b, p);
    }
  }

  lemma SameMap(m: EntryMap, n: EntryMap)
    requires forall p :: p in m ==> p in n && n[p] == m[p]
    requires forall p :: p in n ==> p in m
    ensures m == n
  {
  }

  /** Lists with the same clean entries have the same map and the same parents. */
  lemma {:induction false} SameEntries(a: seq<Entry>, b: seq<Entry>)
    requires Clean(a) && Clean(b) && forall e :: e in a <==> e in b
    ensures MapOf(a) == MapOf(b) && (ParentsPresent(a) <==> ParentsPresent(b))
  {
    SubMap(a, b);
    SubMap(b, a);
    SameMap(MapOf(a), MapOf(b));
    if ParentsPresent(a) {
      SameParents(a, b);
    }
    if ParentsPresent(b) {
      SameParents(b, a);
    }
  }

  /** The order in which entries are listed does not matter. */
  lemma BuildIgnoresOrder(a: seq<Entry>, b: seq<Entry>)
    requires Clean(a) && Clean(b) && multiset(a) == multiset(b)
    ensures BuildTree(a) == BuildTree(b)
  {
    forall e
      ensures e in a <==> e in b
    {
      assert e in multiset(a) <==> e in multiset(b);
    }
    BuildIsCanonical(a);
    BuildIsCanonical(b);
    SameEntries(a, b);
  }
}
