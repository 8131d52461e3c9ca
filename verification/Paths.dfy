/** Slash-separated relative paths: normalisation and the parent, base and depth of a path. */
module Paths {
  import opened Outcomes
  import opened GoStrings

  /** A path component that filepath.Clean keeps and the normalisers accept. */
  predicate PlainPart(part: string)
  {
    part != "" && part != "." && part != ".."
  }

  /** The component loop of filepath.Clean on a relative path. */
  function CleanParts(parts: seq<string>, kept: seq<string>): seq<string>
    decreases |parts|
  {
    if parts == [] then kept
    else if parts[0] == "" || parts[0] == "." then CleanParts(parts[1..], kept)
    else if parts[0] == ".." && kept != [] && kept[|kept| - 1] != ".." then
      CleanParts(parts[1..], kept[..|kept| - 1])
    else CleanParts(parts[1..], kept + [parts[0]])
  }

  /** What both normalisers do once the white space is trimmed. */
  function NormalizeTrimmed(trimmed: string): Result<string>
  {
    if trimmed == "" then Err("rel_path is required")
    else if trimmed[0] == '/' then Err("rel_path must be relative")
    else
      var parts := CleanParts(Split(trimmed, '/'), []);
      if parts == [] then Err("rel_path is required")
      else if ".." in parts then Err("rel_path escapes repo root")
      else Ok(Join(parts, '/'))
  }

  function ForwardSlashes(s: string): string
  {
    seq(|s|, i requires 0 <= i < |s| => if s[i] == '\\' then '/' else s[i])
  }

  /** snapshot.normalizeSnapshotPath */
  function NormalizeSnapshotPath(relPath: string): Result<string>
  {
    NormalizeTrimmed(ForwardSlashes(TrimSpace(relPath)))
  }

  /** indexing.normalizeRelativePath */
  function NormalizeRelativePath(relPath: string): Result<string>
  {
    NormalizeTrimmed(TrimSpace(relPath))
  }

  /** Trimmed, clean, relative and without backslashes. */
  ghost predicate Normal(p: string)
  {
    && p != ""
    && TrimSpace(p) == p
    && !Contains(p, '\\')
    && forall i :: 0 <= i < |Split(p, '/')| ==> PlainPart(Split(p, '/')[i])
  }

  lemma {:induction false} CleanPlainParts(parts: seq<string>, kept: seq<string>)
    requires forall i :: 0 <= i < |parts| ==> PlainPart(parts[i])
    ensures CleanParts(parts, kept) == kept + parts
    decreases |parts|
  {
    if parts != [] {
      CleanPlainParts(parts[1..], kept + [parts[0]]);
      assert kept + [parts[0]] + parts[1..] == kept + parts;
    }
  }

  /** Both normalisers leave a normal path alone. */
  lemma NormalIsFixed(p: string)
    requires Normal(p)
    ensures NormalizeSnapshotPath(p) == Ok(p)
    ensures NormalizeRelativePath(p) == Ok(p)
  {
    var parts := Split(p, '/');
    CleanPlainParts(parts, []);
    assert [] + parts == parts;
    JoinSplit(p, '/');
    LeadingSlash(p);
    assert ForwardSlashes(p) == p;
  }

  lemma {:induction false} LeadingSlash(p: string)
    requires p != ""
    ensures p[0] == '/' ==> Split(p, '/')[0] == ""
    decreases |p|
  {
    var k := LastIndex(p, '/');
    if k > 0 {
      LeadingSlash(p[..k]);
    } else {
      assert p[..0] == "";
    }
  }

  /** builder.parentPath, on a cleaned path. */
  function ParentPath(p: string): string
  {
    var k := LastIndex(p, '/');
    if k < 0 then "" else p[..k]
  }

  /** hash.pathBase: the part after the last slash. */
  function PathBase(p: string): string
  {
    p[LastIndex(p, '/') + 1..]
  }

  /** The number of slashes in a string. */
  function Slashes(s: string): nat
  {
    if s == [] then 0 else Slashes(s[..|s| - 1]) + (if s[|s| - 1] == '/' then 1 else 0)
  }

  /** builder.pathDepth */
  function PathDepth(p: string): nat
  {
    if p == "" then 0 else Slashes(p) + 1
  }

  function ChildPath(parent: string, name: string): string
  {
    if parent == "" then name else parent + "/" + name
  }

  /** q names an entry directly inside the directory parent. */
  predicate IsChildPath(parent: string, q: string)
  {
    PathBase(q) != "" && q == ChildPath(parent, PathBase(q))
  }

  /** p is the node at k or lies below it. */
  predicate Under(p: string, k: string)
  {
    p == k || (|p| > |k| && p[..|k|] == k && p[|k|] == '/')
  }

  lemma BaseHasNoSlash(p: string)
    ensures forall i :: 0 <= i < |PathBase(p)| ==> PathBase(p)[i] != '/'
  {
  }

  lemma ChildHasParent(parent: string, q: string)
    requires IsChildPath(parent, q)
    ensures ParentPath(q) == parent
  {
    BaseHasNoSlash(q);
    var k := LastIndex(q, '/');
    if parent != "" {
      assert q[|parent|] == '/';
      assert forall i :: |parent| < i < |q| ==> q[i] == PathBase(q)[i - |parent| - 1];
      assert k == |parent|;
    }
  }

  /** Two siblings above the same path are the same sibling. */
  lemma SiblingsDisjoint(parent: string, a: string, b: string, p: string)
    requires IsChildPath(parent, a) && IsChildPath(parent, b)
    requires Under(p, a) && Under(p, b)
    ensures a == b
  {
    NoSlashPast(parent, a, b);
    NoSlashPast(parent, b, a);
    assert p[..|a|] == a && p[..|b|] == b;
  }

  lemma NoSlashPast(parent: string, a: string, b: string)
    requires IsChildPath(parent, a) && IsChildPath(parent, b)
    ensures |a| < |b| ==> b[|a|] != '/'
  {
    BaseHasNoSlash(b);
    var start := |b| - |PathBase(b)|;
    assert forall i :: start <= i < |b| ==> b[i] == PathBase(b)[i - start];
  }

  lemma UnderChild(parent: string, q: string, p: string)
    requires parent != "" && IsChildPath(parent, q) && Under(p, q)
    ensures Under(p, parent) && p != parent
  {
    assert q[..|parent|] == parent && q[|parent|] == '/';
    assert p[..|q|] == q;
    assert p[..|parent|] == q[..|parent|];
    assert p[|parent|] == q[|parent|];
  }

  lemma {:induction false} SlashesConcat(a: string, b: string)
    ensures Slashes(a + b) == Slashes(a) + Slashes(b)
  {
    if b == [] {
      assert a + b == a;
    } else {
      assert (a + b)[..|a + b| - 1] == a + b[..|b| - 1];
      SlashesConcat(a, b[..|b| - 1]);
    }
  }

  lemma {:induction false} NoSlashes(s: string)
    requires forall i :: 0 <= i < |s| ==> s[i] != '/'
    ensures Slashes(s) == 0
  {
    if s != [] {
      NoSlashes(s[..|s| - 1]);
    }
  }

  /** A child sits exactly one level below its parent. */
  lemma ChildDepth(parent: string, q: string)
    requires IsChildPath(parent, q)
    ensures PathDepth(q) == PathDepth(parent) + 1
  {
    BaseHasNoSlash(q);
    NoSlashes(PathBase(q));
    if parent != "" {
      SlashesConcat(parent + "/", PathBase(q));
      SlashesConcat(parent, "/");
      assert Slashes("/") == 1 by { assert "/"[..0] == ""; }
    }
  }

  /** Every normal path is a child of its parent path. */
  lemma NormalIsChild(p: string)
    requires Normal(p)
    ensures IsChildPath(ParentPath(p), p)
  {
    var k := LastIndex(p, '/');
    var parts := Split(p, '/');
    if k < 0 {
      assert p[0..] == p;
    } else {
      assert parts[|parts| - 1] == p[k + 1..];
      assert p == p[..k] + "/" + p[k + 1..];
      LeadingSlash(p);
    }
  }
}
