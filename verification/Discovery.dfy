/** The two walks over a repository: DiscoverIndexableFiles (internal/indexing/file_discovery.go) and the walk of
    BuildSnapshot (internal/indexsync/snapshot/builder.go), against the flat filter ShouldIndexPath
    (internal/indexsync/snapshot/filter.go). */
module Discovery {
  import opened Outcomes
  import opened GoStrings
  import opened Sorting
  import opened StringOrder
  import opened Paths
  import opened MerkleHash

  const EXTENSIONS: set<string> := {".go", ".json", ".md", ".toml", ".txt", ".yaml", ".yml"}
  const SKIPPED: set<string> := {".git", "bin", "binaries", "build", "dist", "node_modules", "vendor"}

  /** A directory entry. A regular file is one that, links resolved, is regular and inside the root. */
  datatype FsNode =
    | FsFile(name: string, regular: bool, content: string, size: int, mtime: int)
    | FsDir(name: string, children: seq<FsNode>)

  // ---- the filters ----

  /** shouldSkipDir and shouldSkipDiscoveryDir */
  predicate SkipDir(name: string)
  {
    HasPrefix(name, ".") || ToLower(name) in SKIPPED
  }

  /** filepath.Ext: the last element from its last dot on. */
  function Ext(path: string): string
  {
    if path == "" || path[|path| - 1] == '/' then ""
    else if path[|path| - 1] == '.' then "."
    else
      var e := Ext(path[..|path| - 1]);
      if e == "" then "" else e + [path[|path| - 1]]
  }

  predicate IndexableExtension(path: string)
  {
    ToLower(Ext(path)) in EXTENSIONS
  }

  predicate ShouldIndexPath(relPath: string)
  {
    var normalized := NormalizeSnapshotPath(relPath);
    normalized.Ok? && PartsIndexable(Split(normalized.value, '/')) && IndexableExtension(normalized.value)
  }

  predicate PartsIndexable(parts: seq<string>)
  {
    forall i :: 0 <= i < |parts| ==>
      parts[i] != "" && !HasPrefix(parts[i], ".") && (i < |parts| - 1 ==> ToLower(parts[i]) !in SKIPPED)
  }

  // ---- the walks ----

  /** DiscoverIndexableFiles before sorting: skipped directories are not entered. */
  function Discover(prefix: string, nodes: seq<FsNode>): seq<string>
    decreases nodes
  {
    if nodes == [] then [] else DiscoverNode(prefix, nodes[0]) + Discover(prefix, nodes[1..])
  }

  function DiscoverNode(prefix: string, n: FsNode): seq<string>
    decreases n
  {
    var path := ChildPath(prefix, n.name);
    match n
    case FsDir(name, children) => if SkipDir(name) then [] else Discover(path, children)
    case FsFile(name, regular, _, _, _) => if HasPrefix(name, ".") || !IndexableExtension(path) || !regular then [] else [path]
  }

  function DirEntry(path: string): Entry
  {
    Entry(path, ParentPath(path), NODE_DIR, "", "", "", None, None)
  }

  function FileEntry(path: string, size: int, mtime: int): Entry
  {
    Entry(path, ParentPath(path), NODE_FILE, "", "", "", Some(size), Some(mtime))
  }

  /** The walk of BuildSnapshot: the entries of the directories entered and of the files accepted. */
  function SnapshotWalk(prefix: string, nodes: seq<FsNode>): seq<Entry>
    decreases nodes
  {
    if nodes == [] then [] else WalkNode(prefix, nodes[0]) + SnapshotWalk(prefix, nodes[1..])
  }

  function WalkNode(prefix: string, n: FsNode): seq<Entry>
    decreases n
  {
    var path := ChildPath(prefix, n.name);
    match n
    case FsDir(name, children) => if SkipDir(name) then [] else [DirEntry(path)] + SnapshotWalk(path, children)
    case FsFile(_, regular, _, size, mtime) => if ShouldIndexPath(path) && regular then [FileEntry(path, size, mtime)] else []
  }

  // ---- the flat view ----

  datatype Found = Found(path: string, regular: bool)

  /** Every file of the tree, whatever its directories are called. */
  function AllFiles(prefix: string, nodes: seq<FsNode>): seq<Found>
    decreases nodes
  {
    if nodes == [] then []
    else
      var path := ChildPath(prefix, nodes[0].name);
      (match nodes[0]
       case FsDir(_, children) => AllFiles(path, children)
       case FsFile(_, regular, _, _, _) => [Found(path, regular)])
      + AllFiles(prefix, nodes[1..])
  }

  /** The paths the flat filter accepts. */
  function Accepted(files: seq<Found>): seq<string>
  {
    if files == [] then [] else AcceptedOne(files[0]) + Accepted(files[1..])
  }

  function AcceptedOne(f: Found): seq<string>
  {
    if ShouldIndexPath(f.path) && f.regular then [f.path] else []
  }

  lemma Assoc<T>(a: seq<T>, b: seq<T>, c: seq<T>)
    ensures a + b + c == a + (b + c)
  {
  }

  /** Every path of the tree is normal and siblings have different names. */
  ghost predicate WellNamed(prefix: string, nodes: seq<FsNode>)
    decreases nodes
  {
    nodes == [] ||
    var name, path := nodes[0].name, ChildPath(prefix, nodes[0].name);
    && PlainPart(name) && !Contains(name, '/') && Normal(path)
    && (nodes[0].FsDir? ==> WellNamed(path, nodes[0].children))
    && (forall i :: 1 <= i < |nodes| ==> nodes[i].name != name)
    && WellNamed(prefix, nodes[1..])
  }

  /** No directory on the way is skipped. */
  ghost predicate OpenDir(prefix: string)
  {
    prefix == "" || forall i :: 0 <= i < |Split(prefix, '/')| ==> !SkipDir(Split(prefix, '/')[i])
  }

  lemma {:induction false} PartsOfChild(prefix: string, name: string)
    requires !Contains(name, '/')
    ensures Split(ChildPath(prefix, name), '/') == (if prefix == "" then [] else Split(prefix, '/')) + [name]
  {
    if prefix == "" {
      assert Split(name, '/') == [name];
    } else {
      SplitSnoc(prefix, name, '/');
      assert prefix + ['/'] + name == prefix + "/" + name;
    }
  }

  lemma ChildDirOpen(prefix: string, name: string)
    requires !Contains(name, '/') && name != ""
    ensures OpenDir(ChildPath(prefix, name)) <==> OpenDir(prefix) && !SkipDir(name)
  {
    PartsOfChild(prefix, name);
    var parts := Split(ChildPath(prefix, name), '/');
    assert parts[|parts| - 1] == name;
    if prefix != "" {
      assert forall i :: 0 <= i < |Split(prefix, '/')| ==> parts[i] == Split(prefix, '/')[i];
    }
  }

  /** The flat filter on one file. */
  lemma FileAccepted(prefix: string, name: string)
    requires Normal(ChildPath(prefix, name)) && !Contains(name, '/') && PlainPart(name)
    ensures ShouldIndexPath(ChildPath(prefix, name))
       <==> OpenDir(prefix) && !HasPrefix(name, ".") && IndexableExtension(ChildPath(prefix, name))
  {
    var path := ChildPath(prefix, name);
    NormalIsFixed(path);
    PartsOfChild(prefix, name);
    var dirs := if prefix == "" then [] else Split(prefix, '/');
    assert forall i :: 0 <= i < |dirs| ==> dirs[i] == Split(path, '/')[i];
    PartsAccepted(dirs, name);
  }

  lemma PartsAccepted(dirs: seq<string>, name: string)
    requires PlainPart(name) && forall i :: 0 <= i < |dirs| ==> PlainPart(dirs[i])
    ensures PartsIndexable(dirs + [name]) <==> (forall i :: 0 <= i < |dirs| ==> !SkipDir(dirs[i])) && !HasPrefix(name, ".")
  {
    var parts := dirs + [name];
    assert parts[|dirs|] == name;
    assert forall i :: 0 <= i < |dirs| ==> parts[i] == dirs[i];
  }

  lemma {:induction false} AcceptedConcat(a: seq<Found>, b: seq<Found>)
    ensures Accepted(a + b) == Accepted(a) + Accepted(b)
  {
    if a == [] {
      assert a + b == b;
    } else {
      assert (a + b)[1..] == a[1..] + b;
      AcceptedConcat(a[1..], b);
      Assoc(AcceptedOne(a[0]), Accepted(a[1..]), Accepted(b));
    }
  }

  /** What a node contributes to each view. */
  lemma NodeAccepted(prefix: string, n: FsNode)
    requires Normal(ChildPath(prefix, n.name)) && !Contains(n.name, '/') && PlainPart(n.name) && n.FsFile?
    ensures Accepted([Found(ChildPath(prefix, n.name), n.regular)]) ==
      if OpenDir(prefix) && !HasPrefix(n.name, ".") && IndexableExtension(ChildPath(prefix, n.name)) && n.regular
      then [ChildPath(prefix, n.name)] else []
  {
    FileAccepted(prefix, n.name);
    var f := Found(ChildPath(prefix, n.name), n.regular);
    assert [f][1..] == [] && Accepted([f]) == AcceptedOne(f);
  }

  /** The pruned walk reaches exactly the files the flat filter accepts, in the same order. */
  lemma {:induction false} WalkIsFilter(prefix: string, nodes: seq<FsNode>)
    requires WellNamed(prefix, nodes)
    ensures Accepted(AllFiles(prefix, nodes)) == if OpenDir(prefix) then Discover(prefix, nodes) else []
    decreases nodes
  {
    if nodes != [] {
      var n, path := nodes[0], ChildPath(prefix, nodes[0].name);
      WalkIsFilter(prefix, nodes[1..]);
      match n {
        case FsDir(_, children) =>
          WalkIsFilter(path, children);
          ChildDirOpen(prefix, n.name);
          AcceptedConcat(AllFiles(path, children), AllFiles(prefix, nodes[1..]));
        case FsFile(_, regular, _, _, _) =>
          NodeAccepted(prefix, n);
          AcceptedConcat([Found(path, regular)], AllFiles(prefix, nodes[1..]));
      }
    }
  }

  function FilePaths(entries: seq<Entry>): seq<string>
  {
    if entries == [] then []
    else (if entries[0].nodeType == NODE_FILE then [entries[0].path] else []) + FilePaths(entries[1..])
  }

  lemma {:induction false} FilePathsConcat(a: seq<Entry>, b: seq<Entry>)
    ensures FilePaths(a + b) == FilePaths(a) + FilePaths(b)
  {
    if a == [] {
      assert a + b == b;
    } else {
      assert (a + b)[1..] == a[1..] + b;
      FilePathsConcat(a[1..], b);
    }
  }

  lemma {:induction false} DirFiles(path: string, below: seq<Entry>)
    ensures FilePaths([DirEntry(path)] + below) == FilePaths(below)
  {
    assert ([DirEntry(path)] + below)[1..] == below;
  }

  lemma OneFile(e: Entry)
    requires e.nodeType == NODE_FILE
    ensures FilePaths([e]) == [e.path]
  {
    assert FilePaths([e][1..]) == [];
  }

  /** Both walks see the same files, so a full rebuild and a snapshot cover the same file set. */
  lemma {:induction false} WalksAgree(prefix: string, nodes: seq<FsNode>)
    requires WellNamed(prefix, nodes) && OpenDir(prefix)
    ensures FilePaths(SnapshotWalk(prefix, nodes)) == Discover(prefix, nodes)
    decreases nodes
  {
    if nodes != [] {
      var n, path := nodes[0], ChildPath(prefix, nodes[0].name);
      var rest := SnapshotWalk(prefix, nodes[1..]);
      WalksAgree(prefix, nodes[1..]);
      match n {
        case FsDir(name, children) =>
          ChildDirOpen(prefix, name);
          if !SkipDir(name) {
            WalksAgree(path, children);
            DirFiles(path, SnapshotWalk(path, children));
          }
        case FsFile(name, regular, _, size, mtime) =>
          FileAccepted(prefix, name);
          if ShouldIndexPath(path) && regular {
            OneFile(FileEntry(path, size, mtime));
          }
      }
      FilePathsConcat(WalkNode(prefix, n), rest);
    }
  }

  // ---- the walks as they run ----

  /** The callback of DiscoverIndexableFiles, appending to files. */
  method VisitFile(prefix: string, n: FsNode, files: seq<string>) returns (all: seq<string>)
    ensures all == files + DiscoverNode(prefix, n)
    decreases n
  {
    all := files;
    var path := ChildPath(prefix, n.name);
    match n {
      case FsDir(name, children) =>
        if !SkipDir(name) {
          all := VisitFiles(path, children, files);
        }
      case FsFile(name, regular, _, _, _) =>
        if !HasPrefix(name, ".") && IndexableExtension(path) && regular {
          all := files + [path];
        }
    }
  }

  method VisitFiles(prefix: string, nodes: seq<FsNode>, files: seq<string>) returns (all: seq<string>)
    ensures all == files + Discover(prefix, nodes)
    decreases nodes
  {
    if nodes == [] {
      return files;
    }
    var first := VisitFile(prefix, nodes[0], files);
    all := VisitFiles(prefix, nodes[1..], first);
    Assoc(files, DiscoverNode(prefix, nodes[0]), Discover(prefix, nodes[1..]));
  }

  /** The discovered files: what the flat filter accepts, sorted. */
  method DiscoverIndexableFiles(root: seq<FsNode>) returns (files: seq<string>)
    requires WellNamed("", root)
    ensures files == Sort(LexLe, Accepted(AllFiles("", root)))
    ensures Ordered(LexLe, files)
  {
    var found := VisitFiles("", root, []);
    assert found == Discover("", root);
    WalkIsFilter("", root);
    LexPreorder();
    SortOrdered(LexLe, found);
    files := Sort(LexLe, found);
  }

  /** The callback of BuildSnapshot, appending to entries. */
  method VisitEntry(prefix: string, n: FsNode, entries: seq<Entry>) returns (all: seq<Entry>)
    ensures all == entries + WalkNode(prefix, n)
    decreases n
  {
    all := entries;
    var path := ChildPath(prefix, n.name);
    match n {
      case FsDir(name, children) =>
        if !SkipDir(name) {
          all := VisitEntries(path, children, entries + [DirEntry(path)]);
          Assoc(entries, [DirEntry(path)], SnapshotWalk(path, children));
        }
      case FsFile(_, regular, _, size, mtime) =>
        if ShouldIndexPath(path) && regular {
          all := entries + [FileEntry(path, size, mtime)];
        }
    }
  }

  method VisitEntries(prefix: string, nodes: seq<FsNode>, entries: seq<Entry>) returns (all: seq<Entry>)
    ensures all == entries + SnapshotWalk(prefix, nodes)
    decreases nodes
  {
    if nodes == [] {
      return entries;
    }
    var first := VisitEntry(prefix, nodes[0], entries);
    all := VisitEntries(prefix, nodes[1..], first);
    Assoc(entries, WalkNode(prefix, nodes[0]), SnapshotWalk(prefix, nodes[1..]));
  }
}
