/** The Merkle node hashes of a snapshot (internal/indexsync/snapshot/hash.go).
    SHA-256 in hexadecimal is a parameter H: the results assume only that it yields
    64 hexadecimal characters and that the preimages at hand do not collide. */
module MerkleHash {
  import opened Outcomes
  import opened GoStrings
  import opened Decimal
  import opened Paths

  const NODE_FILE: string := "file"
  const NODE_DIR: string := "dir"

  datatype Entry = Entry(
    path: string,
    parentPath: string,
    nodeType: string,
    nodeHash: string,
    parentHash: string,
    contentHash: string,
    sizeBytes: Option<int>,
    mtimeNS: Option<int>)

  /** A snapshot node with its children, read as a value. */
  datatype Tree = Tree(entry: Entry, children: seq<Tree>)

  /** snapshot.DirectoryChildHash */
  datatype ChildHash = ChildHash(name: string, nodeType: string, nodeHash: string)

  /** The regular files below the repository root, by relative path. */
  type Disk = map<string, string>

  // ---- the digest ----

  predicate HexChar(c: char)
  {
    '0' <= c <= '9' || 'a' <= c <= 'f'
  }

  predicate IsHex64(s: string)
  {
    |s| == 64 && forall i :: 0 <= i < |s| ==> HexChar(s[i])
  }

  ghost predicate IsDigest(H: string -> string)
  {
    forall s :: IsHex64(H(s))
  }

  ghost predicate NoCollision(H: string -> string, preimages: set<string>)
  {
    forall a, b :: a in preimages && b in preimages && H(a) == H(b) ==> a == b
  }

  // ---- preimages ----

  function SizeText(size: Option<int>): string
  {
    if size.Some? then Itoa(size.value) else ""
  }

  function FilePreimage(path: string, contentHash: string, size: Option<int>): string
  {
    Join(["path=" + path, "type=" + NODE_FILE, "content=" + contentHash, "size=" + SizeText(size)], '\n')
  }

  function ChildLine(child: ChildHash): string
  {
    "child=" + child.name + "|" + child.nodeType + "|" + child.nodeHash
  }

  function DirParts(path: string, children: seq<ChildHash>): seq<string>
  {
    if children == [] then ["path=" + path, "type=" + NODE_DIR]
    else DirParts(path, children[..|children| - 1]) + [ChildLine(children[|children| - 1])]
  }

  function DirPreimage(path: string, children: seq<ChildHash>): string
  {
    Join(DirParts(path, children), '\n')
  }

  // ---- hashing a directory node ----

  /** hash.normalizeDirectoryHashPath: the root directory has the empty path. */
  function NormalizeDirectoryPath(relPath: string): Result<string>
  {
    if TrimSpace(relPath) == "" then Ok("") else NormalizeSnapshotPath(relPath)
  }

  function CheckChildren(children: seq<ChildHash>): Result<bool>
  {
    if children == [] then Ok(true)
    else if TrimSpace(children[0].name) == "" then Err("child name is required")
    else if TrimSpace(children[0].nodeHash) == "" then Err("child hash is required")
    else CheckChildren(children[1..])
  }

  function DirectoryHash(H: string -> string, relPath: string, children: seq<ChildHash>): Result<string>
  {
    var path :- NormalizeDirectoryPath(relPath);
    var _ :- CheckChildren(children);
    Ok(H(DirPreimage(path, children)))
  }

  /** hash.HashDirectoryNode: the parts are appended one by one and hashed joined by newlines. */
  method HashDirectoryNode(H: string -> string, relPath: string, children: seq<ChildHash>)
    returns (r: Result<string>)
    ensures r == DirectoryHash(H, relPath, children)
  {
    var normalized := NormalizeDirectoryPath(relPath);
    if normalized.Err? {
      return Err(normalized.error);
    }
    var parts := ["path=" + normalized.value, "type=" + NODE_DIR];
    for i := 0 to |children|
      invariant parts == DirParts(normalized.value, children[..i])
      invariant CheckChildren(children) == CheckChildren(children[i..])
    {
      var child := children[i];
      if TrimSpace(child.name) == "" {
        return Err("child name is required");
      }
      if TrimSpace(child.nodeHash) == "" {
        return Err("child hash is required");
      }
      assert children[..i + 1][..i] == children[..i];
      parts := parts + [ChildLine(child)];
    }
    assert children[..|children|] == children;
    return Ok(H(Join(parts, '\n')));
  }

  // ---- hashing a whole tree ----

  function ChildHashOf(t: Tree): ChildHash
  {
    ChildHash(PathBase(t.entry.path), t.entry.nodeType, t.entry.nodeHash)
  }

  function ChildHashes(ts: seq<Tree>): (r: seq<ChildHash>)
    ensures |r| == |ts|
  {
    seq(|ts|, i requires 0 <= i < |ts| => ChildHashOf(ts[i]))
  }

  lemma ChildHashesSnoc(ts: seq<Tree>, t: Tree)
    ensures ChildHashes(ts + [t]) == ChildHashes(ts) + [ChildHashOf(t)]
  {
  }

  function WithParentHash(t: Tree, hash: string): Tree
  {
    t.(entry := t.entry.(parentHash := hash))
  }

  function Adopt(ts: seq<Tree>, hash: string): (r: seq<Tree>)
    ensures |r| == |ts|
  {
    seq(|ts|, i requires 0 <= i < |ts| => WithParentHash(ts[i], hash))
  }

  /** hash.assignHashes as a value: the tree with content, node and parent hashes filled in. */
  function HashTree(H: string -> string, disk: Disk, t: Tree, parentHash: string): Result<Tree>
    decreases t, 1
  {
    var e := t.entry.(parentHash := parentHash);
    if e.nodeType == NODE_FILE then
      if TrimSpace(e.path) == "" then Err("hash file node: path is required")
      else if e.path !in disk then Err("read file")
      else
        var content := H(disk[e.path]);
        var node := H(FilePreimage(e.path, content, e.sizeBytes));
        Ok(Tree(e.(contentHash := content, nodeHash := node), t.children))
    else if e.nodeType == NODE_DIR then
      var kids :- HashAll(H, disk, t.children);
      var node :- DirectoryHash(H, e.path, ChildHashes(kids));
      Ok(Tree(e.(nodeHash := node), Adopt(kids, node)))
    else Err("hash node tree: unsupported node type")
  }

  function HashEach(H: string -> string, disk: Disk, ts: seq<Tree>): (r: seq<Result<Tree>>)
    ensures |r| == |ts|
    decreases ts, 0
  {
    seq(|ts|, i requires 0 <= i < |ts| => HashTree(H, disk, ts[i], ""))
  }

  function HashAll(H: string -> string, disk: Disk, ts: seq<Tree>): Result<seq<Tree>>
    decreases ts, 1
  {
    Collect(HashEach(H, disk, ts))
  }

  // ---- what a hashed tree is ----

  function FilePreimageOf(e: Entry): string
  {
    FilePreimage(e.path, e.contentHash, e.sizeBytes)
  }

  function DirPreimageOf(path: string, children: seq<Tree>): string
  {
    DirPreimage(path, ChildHashes(children))
  }

  /** Every node carries the digest of its own preimage, and every child its parent's digest. */
  ghost predicate Hashed(H: string -> string, t: Tree)
  {
    if t.entry.nodeType == NODE_FILE then
      IsHex64(t.entry.contentHash) && t.entry.nodeHash == H(FilePreimageOf(t.entry))
    else
      && t.entry.nodeType == NODE_DIR
      && t.entry.nodeHash == H(DirPreimageOf(t.entry.path, t.children))
      && forall c :: c in t.children ==> Hashed(H, c) && c.entry.parentHash == t.entry.nodeHash
  }

  /** The preimages whose digests are stored in the tree. */
  ghost function Preimages(t: Tree): set<string>
  {
    if t.entry.nodeType == NODE_FILE then {FilePreimageOf(t.entry)}
    else {DirPreimageOf(t.entry.path, t.children)} + PreimagesAll(t.children)
  }

  ghost function PreimagesAll(ts: seq<Tree>): set<string>
  {
    set c, s | c in ts && s in Preimages(c) :: s
  }

  /** Every directory path is empty or normal. */
  ghost predicate NormalDirs(t: Tree)
  {
    && (t.entry.nodeType == NODE_DIR ==> t.entry.path == "" || Normal(t.entry.path))
    && forall c :: c in t.children ==> NormalDirs(c)
  }

  /** What the hashes speak about: paths, kinds, content hashes and sizes. */
  datatype Core =
    | FileCore(path: string, contentHash: string, size: Option<int>)
    | DirCore(path: string, kids: seq<Core>)

  function CoreOf(t: Tree): Core
    decreases t, 1
  {
    if t.entry.nodeType == NODE_FILE then
      FileCore(t.entry.path, t.entry.contentHash, t.entry.sizeBytes)
    else DirCore(t.entry.path, CoresOf(t.children))
  }

  function CoresOf(ts: seq<Tree>): (r: seq<Core>)
    ensures |r| == |ts|
    ensures forall i :: 0 <= i < |ts| ==> r[i] == CoreOf(ts[i])
    decreases ts, 0
  {
    if ts == [] then []
    else CoresOf(ts[..|ts| - 1]) + [CoreOf(ts[|ts| - 1])]
  }

  // ---- decoding preimages from the right ----

  lemma CancelRight(x: string, u: string, y: string, v: string)
    requires x + u == y + v && |u| == |v|
    ensures x == y && u == v
  {
    assert x == (x + u)[..|x|] && y == (y + v)[..|y|];
    assert u == (x + u)[|x|..] && v == (y + v)[|y|..];
  }

  function FileHead(path: string, contentHash: string): string
  {
    ("path=" + path + "\n" + ("type=" + NODE_FILE)) + "\n" + ("content=" + contentHash)
  }

  lemma FilePreimageFlat(path: string, contentHash: string, size: Option<int>)
    ensures FilePreimage(path, contentHash, size) == FileHead(path, contentHash) + "\n" + ("size=" + SizeText(size))
  {
    var a, b, c, d := "path=" + path, "type=" + NODE_FILE, "content=" + contentHash, "size=" + SizeText(size);
    JoinFour(a, b, c, d);
  }

  lemma JoinFour(a: string, b: string, c: string, d: string)
    ensures Join([a, b, c, d], '\n') == ((a + "\n" + b) + "\n" + c) + "\n" + d
  {
    assert [a, b, c, d][..3] == [a, b, c] && [a, b, c][..2] == [a, b] && [a, b][..1] == [a];
    assert Join([a, b], '\n') == a + "\n" + b;
    assert Join([a, b, c], '\n') == (a + "\n" + b) + "\n" + c;
  }

  lemma DirPreimageEmpty(path: string)
    ensures DirPreimage(path, []) == "path=" + path + "\ntype=dir"
  {
    var a, b := "path=" + path, "type=" + NODE_DIR;
    JoinSnoc([a], b, '\n');
    assert [a] + [b] == [a, b];
  }

  lemma DirPreimageSnoc(path: string, children: seq<ChildHash>)
    requires children != []
    ensures DirPreimage(path, children)
         == DirPreimage(path, children[..|children| - 1]) + "\n" + ChildLine(children[|children| - 1])
  {
    JoinSnoc(DirParts(path, children[..|children| - 1]), ChildLine(children[|children| - 1]), '\n');
  }

  /** The decimal text at the end of a file preimage stops at the last equals sign. */
  lemma SizeTextAtEnd(x: string, y: string, a: Option<int>, b: Option<int>)
    requires x + ("size=" + SizeText(a)) == y + ("size=" + SizeText(b))
    ensures x == y && a == b
  {
    var s, ta, tb := x + ("size=" + SizeText(a)), SizeText(a), SizeText(b);
    assert s[|x| + 4] == '=' && s[|y| + 4] == '=';
    assert forall i :: |x| + 4 < i < |s| ==> s[i] == ta[i - |x| - 5];
    assert forall i :: |y| + 4 < i < |s| ==> s[i] == tb[i - |y| - 5];
    assert |x| == |y|;
    CancelRight(x, "size=" + ta, y, "size=" + tb);
    assert ta == ("size=" + ta)[5..] && tb == ("size=" + tb)[5..];
    if a.Some? && b.Some? {
      ItoaInjective(a.value, b.value);
    }
  }

  /** A file preimage determines the path, the content hash and the size. */
  lemma FilePreimageInjective(p: string, c: string, a: Option<int>, q: string, d: string, b: Option<int>)
    requires |c| == |d|
    requires FilePreimage(p, c, a) == FilePreimage(q, d, b)
    ensures p == q && c == d && a == b
  {
    FilePreimageFlat(p, c, a);
    FilePreimageFlat(q, d, b);
    SizeTextAtEnd(FileHead(p, c) + "\n", FileHead(q, d) + "\n", a, b);
    CancelRight(FileHead(p, c), "\n", FileHead(q, d), "\n");
    var x, y := "path=" + p + "\n" + ("type=" + NODE_FILE) + "\n", "path=" + q + "\n" + ("type=" + NODE_FILE) + "\n";
    CancelRight(x, "content=" + c, y, "content=" + d);
    assert c == ("content=" + c)[8..] && d == ("content=" + d)[8..];
    CancelRight(x[..|x| - 1], "\n", y[..|y| - 1], "\n");
    CancelRight("path=" + p + "\n", "type=" + NODE_FILE, "path=" + q + "\n", "type=" + NODE_FILE);
    CancelRight("path=" + p, "\n", "path=" + q, "\n");
    assert p == ("path=" + p)[5..] && q == ("path=" + q)[5..];
  }

  /** A file preimage is never a directory preimage: it ends in neither `dir` nor a digest after a bar. */
  lemma FileIsNotDir(p: string, c: string, a: Option<int>, q: string, kids: seq<ChildHash>)
    requires forall i :: 0 <= i < |kids| ==> IsHex64(kids[i].nodeHash)
    ensures FilePreimage(p, c, a) != DirPreimage(q, kids)
  {
    FilePreimageFlat(p, c, a);
    var s, t := FilePreimage(p, c, a), SizeText(a);
    assert s[|s| - |t| - 1] == '=';
    assert forall i :: |s| - |t| <= i < |s| ==> s[i] == t[i - (|s| - |t|)];
    if kids == [] {
      DirPreimageEmpty(q);
      var d := DirPreimage(q, kids);
      assert d[|d| - 1] == 'r';
    } else {
      DirPreimageSnoc(q, kids);
      var d, h := DirPreimage(q, kids), kids[|kids| - 1].nodeHash;
      assert d[|d| - 65] == '|';
      assert forall i :: |d| - 64 <= i < |d| ==> d[i] == h[i - (|d| - 64)];
      assert forall i :: |d| - 64 <= i < |d| ==> HexChar(d[i]);
    }
  }

  /** Equal directory preimages have both no child or both a last child with the same digest. */
  lemma DirPreimageLast(p: string, a: seq<ChildHash>, q: string, b: seq<ChildHash>)
    requires forall i :: 0 <= i < |a| ==> IsHex64(a[i].nodeHash)
    requires forall i :: 0 <= i < |b| ==> IsHex64(b[i].nodeHash)
    requires DirPreimage(p, a) == DirPreimage(q, b)
    ensures a == [] <==> b == []
    ensures a == [] ==> p == q
    ensures a != [] && b != [] ==> a[|a| - 1].nodeHash == b[|b| - 1].nodeHash
  {
    LastChar(p, a);
    LastChar(q, b);
    if a == [] {
      DirPreimageEmpty(p);
      DirPreimageEmpty(q);
      assert p == ("path=" + p + "\ntype=dir")[5..5 + |p|];
      assert q == ("path=" + q + "\ntype=dir")[5..5 + |q|];
    }
  }

  lemma LastChar(p: string, a: seq<ChildHash>)
    requires forall i :: 0 <= i < |a| ==> IsHex64(a[i].nodeHash)
    ensures |DirPreimage(p, a)| > 64 || a == []
    ensures |DirPreimage(p, a)| > 0
    ensures HexChar(DirPreimage(p, a)[|DirPreimage(p, a)| - 1]) <==> a != []
    ensures a != [] ==> DirPreimage(p, a)[|DirPreimage(p, a)| - 64..] == a[|a| - 1].nodeHash
  {
    if a == [] {
      DirPreimageEmpty(p);
      assert DirPreimage(p, a)[|DirPreimage(p, a)| - 1] == 'r';
    } else {
      DirPreimageSnoc(p, a);
      var s, h := DirPreimage(p, a), a[|a| - 1].nodeHash;
      assert s[|s| - 64..] == h;
      assert s[|s| - 1] == h[63];
    }
  }

  // ---- equal digests, equal trees ----

  /** Without collisions, trees with equal node hashes agree on every path, kind, content hash and size. */
  lemma {:induction false} EqualHashEqualTree(H: string -> string, a: Tree, b: Tree)
    requires IsDigest(H) && Hashed(H, a) && Hashed(H, b)
    requires NoCollision(H, Preimages(a) + Preimages(b))
    requires a.entry.nodeHash == b.entry.nodeHash
    ensures a.entry.nodeType == b.entry.nodeType
    ensures CoreOf(a) == CoreOf(b)
    decreases a, 1
  {
    if a.entry.nodeType == NODE_FILE && b.entry.nodeType == NODE_FILE {
      FilePreimageInjective(a.entry.path, a.entry.contentHash, a.entry.sizeBytes,
                            b.entry.path, b.entry.contentHash, b.entry.sizeBytes);
    } else if a.entry.nodeType == NODE_FILE {
      ChildDigests(H, b.children);
      FileIsNotDir(a.entry.path, a.entry.contentHash, a.entry.sizeBytes, b.entry.path, ChildHashes(b.children));
    } else if b.entry.nodeType == NODE_FILE {
      ChildDigests(H, a.children);
      FileIsNotDir(b.entry.path, b.entry.contentHash, b.entry.sizeBytes, a.entry.path, ChildHashes(a.children));
    } else {
      EqualPreimageEqualChildren(H, a.entry.path, a.children, b.entry.path, b.children);
    }
  }

  lemma ChildDigests(H: string -> string, ts: seq<Tree>)
    requires IsDigest(H)
    requires forall c :: c in ts ==> Hashed(H, c)
    ensures forall i :: 0 <= i < |ts| ==> IsHex64(ChildHashes(ts)[i].nodeHash)
  {
    forall i | 0 <= i < |ts|
      ensures IsHex64(ChildHashes(ts)[i].nodeHash)
    {
      assert Hashed(H, ts[i]);
    }
  }

  lemma NoCollisionPart(H: string -> string, all: set<string>, part: set<string>)
    requires NoCollision(H, all) && part <= all
    ensures NoCollision(H, part)
  {
  }

  lemma {:induction false} CoreFixesChild(x: Tree, y: Tree)
    requires CoreOf(x) == CoreOf(y)
    requires x.entry.nodeType == y.entry.nodeType && x.entry.nodeHash == y.entry.nodeHash
    ensures ChildHashOf(x) == ChildHashOf(y)
  {
  }

  lemma {:induction false} PreimagesOfPart(ts: seq<Tree>)
    requires ts != []
    ensures Preimages(ts[|ts| - 1]) <= PreimagesAll(ts)
    ensures PreimagesAll(ts[..|ts| - 1]) <= PreimagesAll(ts)
  {
  }

  /** Dropping the same last line from equal preimages leaves equal preimages. */
  lemma DropLastChild(p: string, a: seq<Tree>, q: string, b: seq<Tree>)
    requires a != [] && b != []
    requires ChildHashOf(a[|a| - 1]) == ChildHashOf(b[|b| - 1])
    requires DirPreimageOf(p, a) == DirPreimageOf(q, b)
    ensures DirPreimageOf(p, a[..|a| - 1]) == DirPreimageOf(q, b[..|b| - 1])
  {
    DirPreimageSnoc(p, ChildHashes(a));
    DirPreimageSnoc(q, ChildHashes(b));
    assert ChildHashes(a)[..|a| - 1] == ChildHashes(a[..|a| - 1]);
    assert ChildHashes(b)[..|b| - 1] == ChildHashes(b[..|b| - 1]);
    var line := ChildLine(ChildHashOf(a[|a| - 1]));
    CancelRight(DirPreimageOf(p, a[..|a| - 1]) + "\n", line, DirPreimageOf(q, b[..|b| - 1]) + "\n", line);
    CancelRight(DirPreimageOf(p, a[..|a| - 1]), "\n", DirPreimageOf(q, b[..|b| - 1]), "\n");
  }

  /** The right-to-left decoding: the last digest names the last child, whose own path fixes its line. */
  lemma {:induction false} EqualPreimageEqualChildren(
      H: string -> string, p: string, a: seq<Tree>, q: string, b: seq<Tree>)
    requires IsDigest(H)
    requires forall c :: c in a ==> Hashed(H, c)
    requires forall c :: c in b ==> Hashed(H, c)
    requires NoCollision(H, PreimagesAll(a) + PreimagesAll(b))
    requires DirPreimageOf(p, a) == DirPreimageOf(q, b)
    ensures p == q && CoresOf(a) == CoresOf(b)
    decreases a, 0
  {
    ChildDigests(H, a);
    ChildDigests(H, b);
    DirPreimageLast(p, ChildHashes(a), q, ChildHashes(b));
    if a != [] {
      var x, y := a[|a| - 1], b[|b| - 1];
      var a', b' := a[..|a| - 1], b[..|b| - 1];
      PreimagesOfPart(a);
      PreimagesOfPart(b);
      NoCollisionPart(H, PreimagesAll(a) + PreimagesAll(b), Preimages(x) + Preimages(y));
      NoCollisionPart(H, PreimagesAll(a) + PreimagesAll(b), PreimagesAll(a') + PreimagesAll(b'));
      assert x in a && y in b;
      EqualHashEqualTree(H, x, y);
      CoreFixesChild(x, y);
      DropLastChild(p, a, q, b);
      EqualPreimageEqualChildren(H, p, a', q, b');
    }
  }

  // ---- hashing fills in a hashed tree ----

  /** The fields that hashing never touches; only files get a content hash. */
  predicate SameInput(a: Entry, b: Entry)
  {
    && a.(nodeHash := "", parentHash := "", contentHash := "") == b.(nodeHash := "", parentHash := "", contentHash := "")
    && (a.nodeType != NODE_FILE ==> a.contentHash == b.contentHash)
  }

  ghost predicate SameShape(a: Tree, b: Tree)
    decreases a
  {
    && SameInput(a.entry, b.entry)
    && |a.children| == |b.children|
    && forall i :: 0 <= i < |a.children| ==> SameShape(a.children[i], b.children[i])
  }

  lemma {:induction false} SameShapeReflexive(t: Tree)
    ensures SameShape(t, t)
    decreases t
  {
    forall i | 0 <= i < |t.children|
      ensures SameShape(t.children[i], t.children[i])
    {
      SameShapeReflexive(t.children[i]);
    }
  }

  lemma {:induction false} ParentHashIsNotHashed(H: string -> string, t: Tree, hash: string)
    requires Hashed(H, t)
    ensures Hashed(H, WithParentHash(t, hash))
  {
  }

  /** Hashing keeps the tree's shape and inputs and leaves every digest and every parent hash final. */
  lemma {:induction false} HashTreeIsHashed(H: string -> string, disk: Disk, t: Tree, parentHash: string)
    requires IsDigest(H) && NormalDirs(t) && HashTree(H, disk, t, parentHash).Ok?
    ensures Hashed(H, HashTree(H, disk, t, parentHash).value)
    ensures SameShape(t, HashTree(H, disk, t, parentHash).value)
    ensures HashTree(H, disk, t, parentHash).value.entry.parentHash == parentHash
    decreases t, 1
  {
    if t.entry.nodeType == NODE_FILE {
      SameShapeReflexive(t);
    } else {
      HashAllIsHashed(H, disk, t.children);
      DirectoryPathKept(t.entry.path);
      var kids := HashAll(H, disk, t.children).value;
      var node := H(DirPreimageOf(t.entry.path, kids));
      AdoptedAreHashed(H, t.children, kids, node);
      var r := Tree(t.entry.(parentHash := parentHash, nodeHash := node), Adopt(kids, node));
      assert HashTree(H, disk, t, parentHash) == Ok(r);
    }
  }

  /** Stamping the parent digest on the children changes neither their digests nor the preimage they enter. */
  lemma AdoptedAreHashed(H: string -> string, ts: seq<Tree>, kids: seq<Tree>, node: string)
    requires |ts| == |kids|
    requires forall i :: 0 <= i < |ts| ==> Hashed(H, kids[i]) && SameShape(ts[i], kids[i])
    ensures ChildHashes(Adopt(kids, node)) == ChildHashes(kids)
    ensures forall c :: c in Adopt(kids, node) ==> Hashed(H, c) && c.entry.parentHash == node
    ensures forall i :: 0 <= i < |ts| ==> SameShape(ts[i], Adopt(kids, node)[i])
  {
    forall i | 0 <= i < |kids|
      ensures Hashed(H, Adopt(kids, node)[i]) && SameShape(ts[i], Adopt(kids, node)[i])
    {
      ParentHashIsNotHashed(H, kids[i], node);
      assert SameShape(ts[i], kids[i]);
    }
  }

  lemma DirectoryPathKept(path: string)
    requires path == "" || Normal(path)
    ensures NormalizeDirectoryPath(path) == Ok(path)
  {
    if path != "" {
      NormalIsFixed(path);
    }
  }

  lemma {:induction false} HashAllIsHashed(H: string -> string, disk: Disk, ts: seq<Tree>)
    requires IsDigest(H) && (forall c :: c in ts ==> NormalDirs(c)) && HashAll(H, disk, ts).Ok?
    ensures |HashAll(H, disk, ts).value| == |ts|
    ensures forall i :: 0 <= i < |ts| ==>
      Hashed(H, HashAll(H, disk, ts).value[i]) && SameShape(ts[i], HashAll(H, disk, ts).value[i])
    decreases ts, 0
  {
    CollectOk(HashEach(H, disk, ts));
    forall i | 0 <= i < |ts|
      ensures Hashed(H, HashAll(H, disk, ts).value[i]) && SameShape(ts[i], HashAll(H, disk, ts).value[i])
    {
      assert HashEach(H, disk, ts)[i] == HashTree(H, disk, ts[i], "");
      HashTreeIsHashed(H, disk, ts[i], "");
    }
  }
}
