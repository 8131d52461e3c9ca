/** The texts that are hashed, written out, and what they determine
    (internal/indexsync/snapshot/hash.go, internal/indexing/records.go). */
module PreimageTexts {
  import opened Outcomes
  import opened GoStrings
  import opened Decimal
  import opened Paths
  import opened MerkleHash
  import opened ChunkIndex

  // ---- decimal numbers ----

  /** The digits of a number: no sign, no leading zero, and place values that add up to it. */
  lemma {:induction false} DigitsAre(n: nat)
    ensures NatValue(NatDigits(n)) == n && (|NatDigits(n)| > 1 ==> NatDigits(n)[0] != '0')
    ensures n > 0 ==> NatDigits(n)[0] != '0'
  {
    NatRoundTrip(n);
    if n >= 10 {
      DigitsAre(n / 10);
    }
  }

  // ---- file preimages ----

  /** The four lines of a file node. */
  lemma FilePreimageText(path: string, contentHash: string, size: Option<int>)
    ensures FilePreimage(path, contentHash, size) ==
      "path=" + path + "\ntype=file\ncontent=" + contentHash + "\nsize=" + (if size.Some? then Itoa(size.value) else "")
  {
    FilePreimageFlat(path, contentHash, size);
    var kind := "type=" + NODE_FILE;
    FileWords(kind);
    Regroup("path=" + path, "\n", kind, "content=", contentHash, "size=", SizeText(size));
  }

  lemma FileWords(kind: string)
    requires kind == "type=" + NODE_FILE
    ensures "\n" + kind + "\n" + "content=" == "\ntype=file\ncontent=" && "\n" + "size=" == "\nsize="
  {
  }

  lemma Regroup(a: string, n: string, b: string, c: string, d: string, e: string, f: string)
    ensures ((a + n + b) + n + (c + d)) + n + (e + f) == a + (n + b + n + c) + d + (n + e) + f
  {
  }

  // ---- directory preimages ----

  /** The lines below the head of a directory node: name, type and digest of each child. */
  function ChildTexts(children: seq<ChildHash>): string
  {
    if children == [] then ""
    else
      var c := children[|children| - 1];
      ChildTexts(children[..|children| - 1]) + "\nchild=" + c.name + "|" + c.nodeType + "|" + c.nodeHash
  }

  /** The two lines of a directory node, followed by its children. */
  lemma {:induction false} DirPreimageText(path: string, children: seq<ChildHash>)
    ensures DirPreimage(path, children) == "path=" + path + "\ntype=dir" + ChildTexts(children)
  {
    if children == [] {
      DirPreimageEmpty(path);
    } else {
      var front, c := children[..|children| - 1], children[|children| - 1];
      DirPreimageText(path, front);
      DirPreimageSnoc(path, children);
      LineAfter("path=" + path, "\ntype=dir", ChildTexts(front), "\n", "child=", c.name, "|", c.nodeType, c.nodeHash);
      assert "\n" + "child=" == "\nchild=";
    }
  }

  lemma LineAfter(head: string, kind: string, texts: string, n: string, word: string, a: string, bar: string, b: string, c: string)
    ensures (head + kind + texts) + n + (word + a + bar + b + bar + c) == head + kind + (texts + (n + word) + a + bar + b + bar + c)
  {
  }

  /** Of files and directories with digests, a child's line determines its name, its type and its digest. */
  lemma ChildLineInjective(a: ChildHash, b: ChildHash)
    requires IsHex64(a.nodeHash) && IsHex64(b.nodeHash) && ChildLine(a) == ChildLine(b)
    requires a.nodeType in {"file", "dir"} && b.nodeType in {"file", "dir"}
    ensures a == b
  {
    var x, y := "child=" + a.name + "|" + a.nodeType, "child=" + b.name + "|" + b.nodeType;
    assert ChildLine(a) == x + ("|" + a.nodeHash) && ChildLine(b) == y + ("|" + b.nodeHash);
    CancelRight(x, "|" + a.nodeHash, y, "|" + b.nodeHash);
    assert a.nodeHash == ("|" + a.nodeHash)[1..] && b.nodeHash == ("|" + b.nodeHash)[1..];
    assert x[|x| - 1] == a.nodeType[|a.nodeType| - 1] && y[|y| - 1] == b.nodeType[|b.nodeType| - 1];
    assert x == ("child=" + a.name) + ("|" + a.nodeType) && y == ("child=" + b.name) + ("|" + b.nodeType);
    CancelRight("child=" + a.name, "|" + a.nodeType, "child=" + b.name, "|" + b.nodeType);
    assert a.name == ("child=" + a.name)[6..] && b.name == ("child=" + b.name)[6..];
  }

  /** A directory is hashed if and only if its path is blank or can be normalised and every child has a name and a
      digest; then its digest is that of its text. */
  lemma {:induction false} DirectoryHashIs(H: string -> string, relPath: string, children: seq<ChildHash>)
    ensures DirectoryHash(H, relPath, children).Ok? <==>
      && (Blank(relPath) || NormalizeSnapshotPath(relPath).Ok?)
      && forall i :: 0 <= i < |children| ==> !Blank(children[i].name) && !Blank(children[i].nodeHash)
    ensures DirectoryHash(H, relPath, children).Ok? ==>
      var path := if Blank(relPath) then "" else NormalizeSnapshotPath(relPath).value;
      DirectoryHash(H, relPath, children).value == H("path=" + path + "\ntype=dir" + ChildTexts(children))
  {
    TrimSpaceEmpty(relPath);
    ChildrenChecked(children);
    if DirectoryHash(H, relPath, children).Ok? {
      DirPreimageText(NormalizeDirectoryPath(relPath).value, children);
    }
  }

  lemma {:induction false} ChildrenChecked(children: seq<ChildHash>)
    ensures CheckChildren(children).Ok? <==>
      forall i :: 0 <= i < |children| ==> !Blank(children[i].name) && !Blank(children[i].nodeHash)
    decreases |children|
  {
    if children != [] {
      TrimSpaceEmpty(children[0].name);
      TrimSpaceEmpty(children[0].nodeHash);
      ChildrenChecked(children[1..]);
      assert forall i :: 0 < i < |children| ==> children[i] == children[1..][i - 1];
    }
  }

  // ---- chunk preimages ----

  /** Path, number and content of a chunk. */
  lemma ChunkPreimageText(relPath: string, index: int, content: string)
    ensures ChunkPreimage(relPath, index, content) == relPath + "\n" + Itoa(index) + "\n" + content
  {
  }

  /** For paths without newlines the text of a chunk determines its path, its number and its content. */
  lemma ChunkPreimageInjective(p: string, i: int, x: string, q: string, j: int, y: string)
    requires !Contains(p, '\n') && !Contains(q, '\n') && ChunkPreimage(p, i, x) == ChunkPreimage(q, j, y)
    ensures p == q && i == j && x == y
  {
    TwoBreaks(p, Itoa(i), x, q, Itoa(j), y);
    ItoaInjective(i, j);
  }

  lemma TwoBreaks(p: string, u: string, x: string, q: string, v: string, y: string)
    requires !Contains(p, '\n') && !Contains(q, '\n') && !Contains(u, '\n') && !Contains(v, '\n')
    requires p + "\n" + u + "\n" + x == q + "\n" + v + "\n" + y
    ensures p == q && u == v && x == y
  {
    Tail(p, u, x);
    Tail(q, v, y);
    FirstBreak(p, u + ("\n" + x), q, v + ("\n" + y));
    FirstBreak(u, x, v, y);
  }

  lemma Tail(p: string, u: string, x: string)
    ensures p + "\n" + u + "\n" + x == p + ("\n" + (u + ("\n" + x)))
  {
  }

  /** Up to the first newline. */
  lemma FirstBreak(p: string, u: string, q: string, v: string)
    requires !Contains(p, '\n') && !Contains(q, '\n') && p + ("\n" + u) == q + ("\n" + v)
    ensures p == q && u == v
  {
    var s := p + ("\n" + u);
    assert s[|p|] == '\n' && s[|q|] == '\n';
    assert forall k :: 0 <= k < |p| ==> s[k] == p[k];
    assert forall k :: 0 <= k < |q| ==> s[k] == q[k];
    assert |p| == |q|;
    assert p == s[..|p|] && q == s[..|q|] && u == s[|p| + 1..] && v == s[|q| + 1..];
  }
}
