/** Walking a directory tree delivers what the synchronisation assumes, so its results hold for directory trees. */
module RepositoryWalk {
  import opened Outcomes
  import opened GoStrings
  import opened Sorting
  import opened StringOrder
  import opened Paths
  import opened MerkleHash
  import opened NodeTree
  import opened SnapshotBuild
  import opened ChunkIndex
  import opened IndexFacts
  import opened Worlds
  import opened SyncRuns
  import opened Discovery
  import DeltaApply

  // ---- the contents of the accepted files ----

  function Contents(prefix: string, nodes: seq<FsNode>): Disk
    decreases nodes
  {
    if nodes == [] then map[] else Contents(prefix, nodes[1..]) + NodeContents(prefix, nodes[0])
  }

  function NodeContents(prefix: string, n: FsNode): Disk
    decreases n
  {
    var path := ChildPath(prefix, n.name);
    match n
    case FsDir(name, children) => if SkipDir(name) then map[] else Contents(path, children)
    case FsFile(_, regular, content, _, _) => if ShouldIndexPath(path) && regular then map[path := content] else map[]
  }

  lemma {:induction false} ContentsAreFiles(prefix: string, nodes: seq<FsNode>, p: string)
    ensures p in Contents(prefix, nodes) <==> p in FilePaths(SnapshotWalk(prefix, nodes))
    decreases nodes
  {
    if nodes != [] {
      ContentsAreFiles(prefix, nodes[1..], p);
      NodeContentsAreFiles(prefix, nodes[0], p);
      FilePathsConcat(WalkNode(prefix, nodes[0]), SnapshotWalk(prefix, nodes[1..]));
    }
  }

  lemma {:induction false} NodeContentsAreFiles(prefix: string, n: FsNode, p: string)
    ensures p in NodeContents(prefix, n) <==> p in FilePaths(WalkNode(prefix, n))
    decreases n
  {
    var path := ChildPath(prefix, n.name);
    match n {
      case FsDir(name, children) =>
        if !SkipDir(name) {
          ContentsAreFiles(path, children, p);
          DirFiles(path, SnapshotWalk(path, children));
        }
      case FsFile(_, regular, _, size, mtime) =>
        if ShouldIndexPath(path) && regular {
          OneFile(FileEntry(path, size, mtime));
        }
    }
  }

  lemma {:induction false} InFilePaths(es: seq<Entry>, p: string)
    ensures p in FilePaths(es) <==> exists i :: 0 <= i < |es| && es[i].path == p && es[i].nodeType == NODE_FILE
  {
    if es != [] {
      InFilePaths(es[1..], p);
      assert forall i :: 1 <= i < |es| ==> es[i] == es[1..][i - 1];
    }
  }

  // ---- the entries of a walk ----

  lemma ChildIs(prefix: string, name: string)
    requires !Contains(name, '/') && name != ""
    ensures PathBase(ChildPath(prefix, name)) == name && IsChildPath(prefix, ChildPath(prefix, name))
  {
    var path := ChildPath(prefix, name);
    var k := LastIndex(path, '/');
    if prefix == "" {
      assert path == name;
    } else {
      assert path[|prefix|] == '/';
      assert forall i :: |prefix| < i < |path| ==> path[i] == name[i - |prefix| - 1];
    }
  }

  /** A well-formed entry at or below the path. */
  predicate EntryBelow(e: Entry, path: string)
  {
    Under(e.path, path) && e.parentPath == ParentPath(e.path) && KnownType(e.nodeType) && e.contentHash == ""
  }

  /** Its directory is the prefix or one of the entries. */
  ghost predicate Rooted(e: Entry, prefix: string, es: seq<Entry>)
  {
    ParentPath(e.path) == prefix || exists i :: 0 <= i < |es| && es[i] == DirEntry(ParentPath(e.path))
  }

  lemma RootedConcat(e: Entry, prefix: string, a: seq<Entry>, b: seq<Entry>)
    requires Rooted(e, prefix, a) || Rooted(e, prefix, b)
    ensures Rooted(e, prefix, a + b)
  {
    if ParentPath(e.path) != prefix {
      if Rooted(e, prefix, a) {
        var i :| 0 <= i < |a| && a[i] == DirEntry(ParentPath(e.path));
        assert (a + b)[i] == a[i];
      } else {
        var i :| 0 <= i < |b| && b[i] == DirEntry(ParentPath(e.path));
        assert (a + b)[|a| + i] == b[i];
      }
    }
  }

  /** The node has a plain name, a normal path and well-named children. */
  ghost predicate GoodNode(prefix: string, n: FsNode)
  {
    && !Contains(n.name, '/') && PlainPart(n.name) && Normal(ChildPath(prefix, n.name))
    && (n.FsDir? ==> WellNamed(ChildPath(prefix, n.name), n.children))
  }

  lemma {:induction false} FirstIsGood(prefix: string, nodes: seq<FsNode>)
    requires WellNamed(prefix, nodes) && nodes != []
    ensures GoodNode(prefix, nodes[0]) && WellNamed(prefix, nodes[1..])
    ensures forall i :: 1 <= i < |nodes| ==> nodes[i].name != nodes[0].name
  {
  }

  /** The entry lies at or below the node. */
  ghost predicate At(prefix: string, n: FsNode, e: Entry)
  {
    GoodNode(prefix, n) && EntryBelow(e, ChildPath(prefix, n.name)) && Normal(e.path)
  }

  lemma {:induction false} NodeEntry(prefix: string, n: FsNode, e: Entry)
    requires GoodNode(prefix, n) && e in WalkNode(prefix, n)
    ensures At(prefix, n, e)
    decreases n
  {
    var path := ChildPath(prefix, n.name);
    if n.FsDir? && e != DirEntry(path) {
      var child := WalkEntry(path, n.children, e);
      StrictlyBelow(path, child, e);
    }
  }

  lemma StrictlyBelow(path: string, n: FsNode, e: Entry)
    requires path != "" && At(path, n, e)
    ensures Under(e.path, path) && e.path != path
  {
    ChildIs(path, n.name);
    UnderChild(path, ChildPath(path, n.name), e.path);
  }

  lemma {:induction false} WalkEntry(prefix: string, nodes: seq<FsNode>, e: Entry) returns (n: FsNode)
    requires WellNamed(prefix, nodes) && e in SnapshotWalk(prefix, nodes)
    ensures n in nodes && At(prefix, n, e)
    decreases nodes
  {
    FirstIsGood(prefix, nodes);
    if e in WalkNode(prefix, nodes[0]) {
      n := nodes[0];
      NodeEntry(prefix, n, e);
    } else {
      assert e in SnapshotWalk(prefix, nodes[1..]);
      n := WalkEntry(prefix, nodes[1..], e);
    }
  }

  lemma {:induction false} NodeRooted(prefix: string, n: FsNode, e: Entry)
    requires GoodNode(prefix, n) && e in WalkNode(prefix, n)
    ensures Rooted(e, prefix, WalkNode(prefix, n))
    decreases n
  {
    var path := ChildPath(prefix, n.name);
    ChildIs(prefix, n.name);
    ChildHasParent(prefix, path);
    if n.FsDir? && e != DirEntry(path) {
      WalkRooted(path, n.children, e);
      if ParentPath(e.path) == path {
        assert WalkNode(prefix, n)[0] == DirEntry(path);
      } else {
        RootedConcat(e, path, [DirEntry(path)], SnapshotWalk(path, n.children));
      }
    }
  }

  lemma {:induction false} WalkRooted(prefix: string, nodes: seq<FsNode>, e: Entry)
    requires WellNamed(prefix, nodes) && e in SnapshotWalk(prefix, nodes)
    ensures Rooted(e, prefix, SnapshotWalk(prefix, nodes))
    decreases nodes
  {
    FirstIsGood(prefix, nodes);
    if e in WalkNode(prefix, nodes[0]) {
      NodeRooted(prefix, nodes[0], e);
    } else {
      WalkRooted(prefix, nodes[1..], e);
    }
    RootedConcat(e, prefix, WalkNode(prefix, nodes[0]), SnapshotWalk(prefix, nodes[1..]));
  }

  // ---- no path twice ----

  ghost predicate DistinctPaths(es: seq<Entry>)
  {
    forall i, j :: 0 <= i < j < |es| ==> es[i].path != es[j].path
  }

  lemma DistinctConcat(a: seq<Entry>, b: seq<Entry>)
    requires DistinctPaths(a) && DistinctPaths(b) && forall x, y :: x in a && y in b ==> x.path != y.path
    ensures DistinctPaths(a + b)
  {
    var all := a + b;
    forall i, j | 0 <= i < j < |all|
      ensures all[i].path != all[j].path
    {
      if i < |a| <= j {
        assert all[i] in a && all[j] in b;
      }
    }
  }

  lemma {:induction false} SiblingPaths(prefix: string, nodes: seq<FsNode>, x: Entry, y: Entry)
    requires WellNamed(prefix, nodes) && nodes != [] && x in WalkNode(prefix, nodes[0]) && y in SnapshotWalk(prefix, nodes[1..])
    ensures x.path != y.path
  {
    FirstIsGood(prefix, nodes);
    NodeEntry(prefix, nodes[0], x);
    var n := WalkEntry(prefix, nodes[1..], y);
    var k :| 0 <= k < |nodes[1..]| && nodes[1..][k] == n;
    assert nodes[k + 1] == n;
    DifferentSiblings(prefix, nodes[0], n, x, y);
  }

  lemma DifferentSiblings(prefix: string, m: FsNode, n: FsNode, x: Entry, y: Entry)
    requires At(prefix, m, x) && At(prefix, n, y) && m.name != n.name
    ensures x.path != y.path
  {
    ChildIs(prefix, m.name);
    ChildIs(prefix, n.name);
    if x.path == y.path {
      SiblingsDisjoint(prefix, ChildPath(prefix, m.name), ChildPath(prefix, n.name), x.path);
    }
  }

  lemma {:induction false} NodeDistinct(prefix: string, n: FsNode)
    requires GoodNode(prefix, n)
    ensures DistinctPaths(WalkNode(prefix, n))
    decreases n
  {
    if n.FsDir? && !SkipDir(n.name) {
      var path := ChildPath(prefix, n.name);
      WalkDistinct(path, n.children);
      forall y | y in SnapshotWalk(path, n.children)
        ensures y.path != path
      {
        var child := WalkEntry(path, n.children, y);
        StrictlyBelow(path, child, y);
      }
      DistinctConcat([DirEntry(path)], SnapshotWalk(path, n.children));
    }
  }

  lemma {:induction false} WalkDistinct(prefix: string, nodes: seq<FsNode>)
    requires WellNamed(prefix, nodes)
    ensures DistinctPaths(SnapshotWalk(prefix, nodes))
    decreases nodes
  {
    if nodes != [] {
      FirstIsGood(prefix, nodes);
      NodeDistinct(prefix, nodes[0]);
      WalkDistinct(prefix, nodes[1..]);
      forall x, y | x in WalkNode(prefix, nodes[0]) && y in SnapshotWalk(prefix, nodes[1..])
        ensures x.path != y.path
      {
        SiblingPaths(prefix, nodes, x, y);
      }
      DistinctConcat(WalkNode(prefix, nodes[0]), SnapshotWalk(prefix, nodes[1..]));
    }
  }

  // ---- a directory tree is a state of the repository ----

  function WorldOf(root: seq<FsNode>): World
  {
    World(SnapshotWalk("", root), Contents("", root))
  }

  lemma {:induction false} WalkIsClean(root: seq<FsNode>)
    requires WellNamed("", root)
    ensures Clean(SnapshotWalk("", root)) && ParentsPresent(SnapshotWalk("", root))
    ensures forall i :: 0 <= i < |SnapshotWalk("", root)| ==>
      EntryKind(SnapshotWalk("", root)[i], SnapshotWalk("", root))
  {
    var es := SnapshotWalk("", root);
    WalkDistinct("", root);
    forall i | 0 <= i < |es|
      ensures Normal(es[i].path) && EntryKind(es[i], es)
      ensures ParentPath(es[i].path) == "" || HasPath(es, ParentPath(es[i].path))
    {
      var n := WalkEntry("", root, es[i]);
      WalkRooted("", root, es[i]);
    }
  }

  /** Known types, and only directories above other entries. */
  ghost predicate EntryKind(e: Entry, es: seq<Entry>)
  {
    KnownType(e.nodeType) && e.contentHash == "" && Rooted(e, "", es)
  }

  lemma {:induction false} WalkKinds(es: seq<Entry>)
    requires Clean(es) && forall i :: 0 <= i < |es| ==> EntryKind(es[i], es)
    ensures KindsOk(MapOf(es))
  {
    var m := MapOf(es);
    MapOfFacts(es);
    forall q | q in m
      ensures KnownType(m[q].nodeType) && (ParentPath(q) in m ==> m[ParentPath(q)].nodeType == NODE_DIR)
    {
      var i :| 0 <= i < |es| && es[i].path == q;
      assert EntryKind(es[i], es) && m[es[i].path] == Fixed(es[i]);
      if ParentPath(q) in m && ParentPath(q) != "" {
        var j :| 0 <= j < |es| && es[j] == DirEntry(ParentPath(q));
        assert m[es[j].path] == Fixed(es[j]);
      }
    }
  }

  lemma {:induction false} WalkDisk(root: seq<FsNode>, p: string)
    requires Clean(SnapshotWalk("", root))
    ensures p in Contents("", root) <==>
      p in MapOf(SnapshotWalk("", root)) && MapOf(SnapshotWalk("", root))[p].nodeType == NODE_FILE
  {
    var es := SnapshotWalk("", root);
    MapOfFacts(es);
    ContentsAreFiles("", root, p);
    InFilePaths(es, p);
    if p in MapOf(es) {
      var i :| 0 <= i < |es| && es[i].path == p;
      assert MapOf(es)[es[i].path] == Fixed(es[i]);
      assert forall j :: 0 <= j < |es| && es[j].path == p ==> j == i;
    }
  }

  /** Every walk of a directory tree delivers a well-formed state. */
  lemma {:induction false} WalkIsWorld(root: seq<FsNode>)
    requires WellNamed("", root)
    ensures WorldOk(WorldOf(root))
  {
    var es := SnapshotWalk("", root);
    WalkIsClean(root);
    WalkKinds(es);
    forall p
      ensures p in Contents("", root) <==> p in MapOf(es) && MapOf(es)[p].nodeType == NODE_FILE
    {
      WalkDisk(root, p);
    }
  }

  lemma {:induction false} FilePathsDistinct(es: seq<Entry>)
    requires DistinctPaths(es)
    ensures forall i, j :: 0 <= i < j < |FilePaths(es)| ==> FilePaths(es)[i] != FilePaths(es)[j]
  {
    if es != [] {
      var rest := FilePaths(es[1..]);
      FilePathsDistinct(es[1..]);
      if es[0].nodeType == NODE_FILE {
        InFilePaths(es[1..], es[0].path);
        var tail := es[1..];
        assert forall i :: 0 <= i < |tail| ==> tail[i].path != es[0].path;
        assert forall i :: 0 <= i < |rest| ==> rest[i] in rest;
      }
    }
  }

  /** The discovered files of a rebuild are exactly the files of the snapshot, in order. */
  lemma {:induction false} DiscoveredAreSnapshotFiles(root: seq<FsNode>)
    requires WellNamed("", root)
    ensures Sort(LexLe, Accepted(AllFiles("", root))) == SortedKeys(Contents("", root).Keys)
  {
    var es := SnapshotWalk("", root);
    WalkIsFilter("", root);
    WalksAgree("", root);
    WalkDistinct("", root);
    FilePathsDistinct(es);
    forall p
      ensures p in FilePaths(es) <==> p in Contents("", root).Keys
    {
      ContentsAreFiles("", root, p);
    }
    SortListing(FilePaths(es), Contents("", root).Keys);
  }

  function WorldsOf(roots: seq<seq<FsNode>>): (ws: seq<World>)
    ensures |ws| == |roots|
  {
    seq(|roots|, i requires 0 <= i < |roots| => WorldOf(roots[i]))
  }

  /** What RunFullRebuild stores for a directory tree. */
  function RebuiltFrom(c: Setting, root: seq<FsNode>, embedder: Embedder): Result<seq<ChunkRecord>>
  {
    DeltaApply.Rebuild(c.H, c.scope, Sort(LexLe, Accepted(AllFiles("", root))), Contents("", root), embedder)
  }

  /** For every sequence of directory trees: walking, hashing, saving, reloading, diffing and applying each delta
      leaves what RunFullRebuild stores for the last tree exactly when no file is blank that was filled earlier in its life. */
  lemma DirectoriesConverge(c: Setting, roots: seq<seq<FsNode>>, embedder: Embedder, hashed: set<string>)
    requires roots != [] && forall i :: 0 <= i < |roots| ==> WellNamed("", roots[i])
    requires SettingOk(c, embedder, hashed)
    requires forall i :: 0 <= i < |roots| ==> HashedIn(c, WorldOf(roots[i]), hashed)
    ensures
      IndexAfter(c, WorldsOf(roots), embedder) == RebuiltFrom(c, roots[|roots| - 1], embedder)
      <==> !exists p :: Stale(DisksOf(WorldsOf(roots)), p)
  {
    TreesAreReady(c, roots, hashed);
    DiscoveredAreSnapshotFiles(roots[|roots| - 1]);
    RunEqualsRebuild(c, WorldsOf(roots), embedder, hashed);
  }

  lemma {:induction false} TreesAreReady(c: Setting, roots: seq<seq<FsNode>>, hashed: set<string>)
    requires forall i :: 0 <= i < |roots| ==> WellNamed("", roots[i])
    requires forall i :: 0 <= i < |roots| ==> HashedIn(c, WorldOf(roots[i]), hashed)
    ensures AllReady(c, WorldsOf(roots), hashed)
  {
    var worlds := WorldsOf(roots);
    forall i | 0 <= i < |worlds|
      ensures Ready(c, worlds[i], hashed)
    {
      WalkIsWorld(roots[i]);
    }
    EachReady(c, worlds, hashed);
  }

  // ---- the smallest run that does not end like a rebuild ----

  /** A repository with one file. */
  function Single(name: string, content: string): seq<FsNode>
  {
    [FsFile(name, true, content, |content|, 0)]
  }

  /** Its file is filled, then blank. */
  function Emptied(name: string, filled: string, blank: string): seq<seq<FsNode>>
  {
    [Single(name, filled), Single(name, blank)]
  }

  lemma {:induction false} SingleContents(name: string, content: string)
    requires ShouldIndexPath(name)
    ensures Contents("", Single(name, content)) == map[name := content]
  {
    var nodes := Single(name, content);
    assert nodes[1..] == [] && ChildPath("", name) == name;
    assert Contents("", nodes) == Contents("", nodes[1..]) + NodeContents("", nodes[0]);
  }

  /** One file, filled and then emptied in place: the index keeps its rows and is not what a rebuild would store. */
  lemma {:induction false} EmptiedFile(c: Setting, name: string, filled: string, blank: string, embedder: Embedder, hashed: set<string>)
    requires ShouldIndexPath(name) && !Blank(filled) && Blank(blank) && SettingOk(c, embedder, hashed)
    requires forall root :: root in Emptied(name, filled, blank) ==> WellNamed("", root) && HashedIn(c, WorldOf(root), hashed)
    ensures IndexAfter(c, WorldsOf(Emptied(name, filled, blank)), embedder) != RebuiltFrom(c, Single(name, blank), embedder)
  {
    EmptiedIsStale(name, filled, blank);
    StaleTrees(c, Emptied(name, filled, blank), embedder, hashed, name);
  }

  /** Trees that leave a stale file. */
  lemma {:induction false} StaleTrees(c: Setting, roots: seq<seq<FsNode>>, embedder: Embedder, hashed: set<string>, p: string)
    requires roots != [] && forall i :: 0 <= i < |roots| ==> WellNamed("", roots[i])
    requires SettingOk(c, embedder, hashed)
    requires forall i :: 0 <= i < |roots| ==> HashedIn(c, WorldOf(roots[i]), hashed)
    requires Stale(DisksOf(WorldsOf(roots)), p)
    ensures
      IndexAfter(c, WorldsOf(roots), embedder) != RebuiltFrom(c, roots[|roots| - 1], embedder)
  {
    DirectoriesConverge(c, roots, embedder, hashed);
    assert exists q :: Stale(DisksOf(WorldsOf(roots)), q);
  }

  lemma EmptiedIsStale(name: string, filled: string, blank: string)
    requires ShouldIndexPath(name) && !Blank(filled) && Blank(blank)
    ensures Stale(DisksOf(WorldsOf(Emptied(name, filled, blank))), name)
  {
    SingleContents(name, filled);
    SingleContents(name, blank);
    DisksOfTwo(Single(name, filled), Single(name, blank));
    assert FilledSince([map[name := filled], map[name := blank]], name, 0);
  }

  lemma {:induction false} DisksOfTwo(a: seq<FsNode>, b: seq<FsNode>)
    ensures DisksOf(WorldsOf([a, b])) == [Contents("", a), Contents("", b)]
  {
    var v, w := WorldOf(a), WorldOf(b);
    assert WorldsOf([a, b]) == [v, w];
    assert [v, w][..1] == [v] && [v][..0] == [];
    assert DisksOf([v]) == [v.disk];
  }

  lemma {:induction false} NoteIsNormal()
    ensures Normal("a.md") && !Contains("a.md", '/') && PlainPart("a.md")
  {
    TrimSpaceFixed("a.md");
    assert Split("a.md", '/') == ["a.md"];
  }

  lemma {:induction false} NoteExtension()
    ensures IndexableExtension("a.md")
  {
    assert "a.md"[..3] == "a.m" && "a.m"[..2] == "a." && "a."[..1] == "a";
    assert Ext("a.") == "." && Ext("a.m") == ".m" && Ext("a.md") == ".md";
    assert ToLower(".md") == ".md";
  }

  /** Such a file: a.md is indexed. */
  lemma {:induction false} NoteIsIndexed(content: string)
    ensures ShouldIndexPath("a.md") && WellNamed("", Single("a.md", content))
  {
    NoteIsNormal();
    NoteExtension();
    assert ChildPath("", "a.md") == "a.md";
    FileAccepted("", "a.md");
    assert !HasPrefix("a.md", ".");
    assert Single("a.md", content)[1..] == [];
  }
}
