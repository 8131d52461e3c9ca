/** What the path normalisers leave alone, and when normalising twice changes a path again
    (internal/indexsync/snapshot/filter.go, normalizeSnapshotPath; internal/indexing/records.go, normalizeRelativePath). */
module PathFacts {
  import opened Outcomes
  import opened GoStrings
  import opened Paths

  /** The components that are left after cleaning. */
  function KeptParts(trimmed: string): seq<string>
  {
    CleanParts(Split(trimmed, '/'), [])
  }

  // ---- cleaning never lengthens ----

  /** The length of the parts, each with one separator. */
  function Weight(parts: seq<string>): nat
  {
    if parts == [] then 0 else Weight(parts[..|parts| - 1]) + |parts[|parts| - 1]| + 1
  }

  lemma {:induction false} WeightConcat(a: seq<string>, b: seq<string>)
    ensures Weight(a + b) == Weight(a) + Weight(b)
    decreases |b|
  {
    if b == [] {
      assert a + b == a;
    } else {
      assert (a + b)[..|a + b| - 1] == a + b[..|b| - 1];
      WeightConcat(a, b[..|b| - 1]);
    }
  }

  lemma WeightOne(part: string)
    ensures Weight([part]) == |part| + 1
  {
    assert Weight([part][..0]) == 0;
  }

  lemma {:induction false} JoinWeight(parts: seq<string>)
    requires parts != []
    ensures |Join(parts, '/')| + 1 == Weight(parts)
  {
    if |parts| == 1 {
      WeightOne(parts[0]);
      assert parts == [parts[0]];
    } else {
      JoinWeight(parts[..|parts| - 1]);
    }
  }

  lemma {:induction false} CleanWeight(parts: seq<string>, kept: seq<string>)
    ensures Weight(CleanParts(parts, kept)) <= Weight(parts) + Weight(kept)
    decreases |parts|
  {
    if parts != [] {
      var head, rest := parts[0], parts[1..];
      assert parts == [head] + rest;
      WeightConcat([head], rest);
      WeightOne(head);
      WeightConcat(kept, [head]);
      if head == "" || head == "." {
        CleanWeight(rest, kept);
      } else if head == ".." && kept != [] && kept[|kept| - 1] != ".." {
        CleanWeight(rest, kept[..|kept| - 1]);
      } else {
        CleanWeight(rest, kept + [head]);
      }
    }
  }

  lemma NormalizedIsShorter(trimmed: string)
    requires NormalizeTrimmed(trimmed).Ok?
    ensures |NormalizeTrimmed(trimmed).value| <= |trimmed|
  {
    JoinSplit(trimmed, '/');
    JoinWeight(Split(trimmed, '/'));
    CleanWeight(Split(trimmed, '/'), []);
    JoinWeight(KeptParts(trimmed));
  }

  // ---- what is kept ----

  lemma {:induction false} CleanKeeps(parts: seq<string>, kept: seq<string>, x: string)
    requires x in CleanParts(parts, kept)
    ensures x in kept || (x in parts && x != "" && x != ".")
    decreases |parts|
  {
    if parts != [] {
      if parts[0] == "" || parts[0] == "." {
        CleanKeeps(parts[1..], kept, x);
      } else if parts[0] == ".." && kept != [] && kept[|kept| - 1] != ".." {
        CleanKeeps(parts[1..], kept[..|kept| - 1], x);
      } else {
        CleanKeeps(parts[1..], kept + [parts[0]], x);
      }
    }
  }

  /** Every byte is a slash or a byte of t. */
  predicate Over(s: string, t: string)
  {
    forall i :: 0 <= i < |s| ==> s[i] == '/' || Contains(t, s[i])
  }

  lemma {:induction false} SplitOver(s: string, x: string)
    requires x in Split(s, '/')
    ensures Over(x, s)
    decreases |s|
  {
    var k := LastIndex(s, '/');
    if k >= 0 {
      if x == s[k + 1..] {
        assert forall i :: 0 <= i < |x| ==> s[k + 1 + i] == x[i];
      } else {
        SplitOver(s[..k], x);
        OverPrefix(x, s, k);
      }
    }
  }

  lemma OverPrefix(x: string, s: string, k: nat)
    requires k <= |s| && Over(x, s[..k])
    ensures Over(x, s)
  {
    forall i | 0 <= i < |x| && x[i] != '/'
      ensures Contains(s, x[i])
    {
      var j :| 0 <= j < k && s[..k][j] == x[i];
      assert s[j] == x[i];
    }
  }

  lemma {:induction false} JoinOver(parts: seq<string>, t: string)
    requires forall x :: x in parts ==> Over(x, t)
    ensures Over(Join(parts, '/'), t)
  {
    if |parts| > 1 {
      JoinOver(parts[..|parts| - 1], t);
      assert parts[|parts| - 1] in parts;
    } else if |parts| == 1 {
      assert parts[0] in parts;
    }
  }

  /** A normalised path: its components are the kept ones, all plain, and it has no byte of its own. */
  lemma NormalizedShape(trimmed: string)
    requires NormalizeTrimmed(trimmed).Ok?
    ensures
      var y, kept := NormalizeTrimmed(trimmed).value, KeptParts(trimmed);
      && y != "" && kept != [] && Split(y, '/') == kept && Over(y, trimmed)
      && forall i :: 0 <= i < |kept| ==> PlainPart(kept[i])
  {
    var parts, kept := Split(trimmed, '/'), KeptParts(trimmed);
    JoinSplit(trimmed, '/');
    forall x | x in kept
      ensures PlainPart(x) && !Contains(x, '/') && Over(x, trimmed)
    {
      CleanKeeps(parts, [], x);
      var i :| 0 <= i < |parts| && parts[i] == x;
      SplitOver(trimmed, x);
    }
    forall i | 0 <= i < |kept|
      ensures PlainPart(kept[i]) && !Contains(kept[i], '/')
    {
      assert kept[i] in kept;
    }
    SplitJoin(kept, '/');
    JoinOver(kept, trimmed);
    JoinEnds(kept);
  }

  /** A join of parts that are not empty starts like the first and ends like the last. */
  lemma {:induction false} JoinEnds(parts: seq<string>)
    requires parts != [] && forall i :: 0 <= i < |parts| ==> parts[i] != ""
    ensures
      var s, last := Join(parts, '/'), parts[|parts| - 1];
      s != "" && s[0] == parts[0][0] && s[|s| - 1] == last[|last| - 1]
  {
    if |parts| > 1 {
      JoinEnds(parts[..|parts| - 1]);
    }
  }

  // ---- fixed points ----

  /** A path is left alone by normalizeSnapshotPath if and only if it is normal. */
  lemma FixedIffNormal(p: string)
    ensures NormalizeSnapshotPath(p) == Ok(p) <==> Normal(p)
  {
    if Normal(p) {
      NormalIsFixed(p);
    }
    if NormalizeSnapshotPath(p) == Ok(p) {
      var t := ForwardSlashes(TrimSpace(p));
      NormalizedIsShorter(t);
      NormalizedShape(t);
      TrimSpaceFixed(p);
      assert t == ForwardSlashes(p);
      NoBackslash(p, p);
    }
  }

  lemma NoBackslash(s: string, t: string)
    requires Over(s, ForwardSlashes(t))
    ensures !Contains(s, '\\')
  {
    forall i | 0 <= i < |s|
      ensures s[i] != '\\'
    {
      if s[i] != '/' {
        var j :| 0 <= j < |ForwardSlashes(t)| && ForwardSlashes(t)[j] == s[i];
      }
    }
  }

  // ---- normalising twice ----

  /** The first and the last kept component do not begin or end in white space. */
  predicate CleanEnds(parts: seq<string>)
    requires parts != [] && forall i :: 0 <= i < |parts| ==> PlainPart(parts[i])
  {
    var first, last := parts[0], parts[|parts| - 1];
    assert PlainPart(first) && PlainPart(last);
    !IsSpace(first[0]) && !IsSpace(last[|last| - 1])
  }

  /** Normalising again changes nothing if and only if the kept components have clean ends. Both normalisers trim
      before they clean, so white space that cleaning exposes stays. */
  lemma SnapshotPathTwice(x: string)
    requires NormalizeSnapshotPath(x).Ok?
    ensures
      var kept := KeptParts(ForwardSlashes(TrimSpace(x)));
      && kept != [] && (forall i :: 0 <= i < |kept| ==> PlainPart(kept[i]))
      && (NormalizeSnapshotPath(NormalizeSnapshotPath(x).value) == NormalizeSnapshotPath(x) <==> CleanEnds(kept))
  {
    var t, y := ForwardSlashes(TrimSpace(x)), NormalizeSnapshotPath(x).value;
    NormalizedShape(t);
    NoBackslash(y, TrimSpace(x));
    JoinEnds(KeptParts(t));
    TrimSpaceFixed(y);
    FixedIffNormal(y);
  }

  lemma RelativePathTwice(x: string)
    requires NormalizeRelativePath(x).Ok?
    ensures
      var kept := KeptParts(TrimSpace(x));
      && kept != [] && (forall i :: 0 <= i < |kept| ==> PlainPart(kept[i]))
      && (NormalizeRelativePath(NormalizeRelativePath(x).value) == NormalizeRelativePath(x) <==> CleanEnds(kept))
  {
    var t, y := TrimSpace(x), NormalizeRelativePath(x).value;
    NormalizedShape(t);
    JoinEnds(KeptParts(t));
    TrimSpaceFixed(y);
    RelativeFixed(y);
  }

  /** A path with plain components is left alone by normalizeRelativePath if and only if it is trimmed. */
  lemma {:induction false} RelativeFixed(y: string)
    requires y != "" && forall i :: 0 <= i < |Split(y, '/')| ==> PlainPart(Split(y, '/')[i])
    ensures NormalizeRelativePath(y) == Ok(y) <==> TrimSpace(y) == y
  {
    TrimSpaceFixed(y);
    if TrimSpace(y) == y {
      CleanPlainParts(Split(y, '/'), []);
      assert [] + Split(y, '/') == Split(y, '/');
      JoinSplit(y, '/');
      LeadingSlash(y);
      assert ".." !in KeptParts(y);
    } else if NormalizeRelativePath(y).Ok? {
      NormalizedIsShorter(TrimSpace(y));
    }
  }

  lemma OnePart(part: string)
    requires PlainPart(part) && !Contains(part, '/')
    ensures KeptParts(part) == [part] && NormalizeTrimmed(part) == Ok(part)
  {
    assert Split(part, '/') == [part];
    assert [part][1..] == [] && [] + [part] == [part];
    assert CleanParts([], [part]) == [part];
    assert part[0] != '/';
  }

  lemma DotThenPart(part: string)
    requires PlainPart(part) && !Contains(part, '/')
    ensures NormalizeTrimmed("./" + part) == Ok(part)
  {
    var s := "./" + part;
    assert s == "." + ['/'] + part;
    SplitSnoc(".", part, '/');
    assert Split(".", '/') == ["."];
    assert [".", part][1..] == [part];
    assert KeptParts(s) == CleanParts([part], []);
    OnePart(part);
    assert s[0] == '.';
  }

  lemma NoBackslashes(s: string)
    requires !Contains(s, '\\')
    ensures ForwardSlashes(s) == s
  {
  }

  /** A component that begins in white space, after a dot: cleaning exposes the white space and leaves it. */
  lemma DotThenSpace(part: string)
    requires PlainPart(part) && !Contains(part, '/') && !Contains(part, '\\') && !IsSpace(part[|part| - 1])
    ensures NormalizeSnapshotPath("./" + part) == Ok(part) && NormalizeRelativePath("./" + part) == Ok(part)
  {
    var s := "./" + part;
    assert s[0] == '.' && s[|s| - 1] == part[|part| - 1];
    TrimSpaceFixed(s);
    NoBackslashes(s);
    DotThenPart(part);
  }

  lemma TrimsToPart(s: string, part: string)
    requires PlainPart(part) && !Contains(part, '/') && !Contains(part, '\\') && TrimSpace(s) == part
    ensures NormalizeSnapshotPath(s) == Ok(part) && NormalizeRelativePath(s) == Ok(part)
  {
    NoBackslashes(part);
    OnePart(part);
  }

  /** The smallest such path: normalising "./ a" twice gives two results. */
  lemma NotIdempotent()
    ensures NormalizeSnapshotPath("./" + " a") == Ok(" a") && NormalizeSnapshotPath(" a") == Ok("a")
    ensures NormalizeRelativePath("./" + " a") == Ok(" a") && NormalizeRelativePath(" a") == Ok("a")
  {
    DotThenSpace(" a");
    TrimsToA();
    TrimsToPart(" a", "a");
  }

  lemma TrimsToA()
    ensures TrimSpace(" a") == "a"
  {
    assert " a"[1..] == "a" && TrimLeft("a") == "a" && TrimRight("a") == "a";
  }
}
