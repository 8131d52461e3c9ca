/** The rules by which paths are cleaned and normalised, and the characters that count as white space or are folded
    (internal/indexsync/snapshot/filter.go, internal/indexing/records.go). */
module PathRules {
  import opened GoStrings
  import opened Paths
  import opened PathFacts

  // ---- characters ----

  /** White space is blank, tab, newline, carriage return, vertical tab and form feed. */
  lemma SpacesAre(c: char)
    ensures IsSpace(c) <==> c in {' ', '\t', '\n', '\r', 11 as char, 12 as char}
  {
  }

  /** Folding maps the 26 capitals to the letters at their places and leaves everything else. */
  lemma FoldIs(s: string, i: nat)
    requires i < |s|
    ensures |ToLower(s)| == |s|
    ensures 'A' <= s[i] <= 'Z' ==> 'a' <= ToLower(s)[i] <= 'z' && ToLower(s)[i] - 'a' == s[i] - 'A'
    ensures !('A' <= s[i] <= 'Z') ==> ToLower(s)[i] == s[i]
  {
  }

  // ---- cleaning ----

  /** Empty components and dots are dropped. */
  lemma {:induction false} DotsDrop(a: seq<string>, x: string, b: seq<string>, kept: seq<string>)
    requires x == "" || x == "."
    ensures CleanParts(a + [x] + b, kept) == CleanParts(a + b, kept)
    decreases |a|
  {
    if a == [] {
      assert (a + [x] + b)[1..] == b && a + b == b;
    } else {
      assert (a + [x] + b)[1..] == a[1..] + [x] + b && (a + b)[1..] == a[1..] + b;
      DotsDrop(a[1..], x, b, NextKept(a[0], kept));
      OneComponent(a + [x] + b, kept);
      OneComponent(a + b, kept);
    }
  }

  /** What is kept after one component. */
  function NextKept(part: string, kept: seq<string>): seq<string>
  {
    if part == "" || part == "." then kept
    else if part == ".." && kept != [] && kept[|kept| - 1] != ".." then kept[..|kept| - 1]
    else kept + [part]
  }

  lemma {:induction false} OneComponent(parts: seq<string>, kept: seq<string>)
    requires parts != []
    ensures CleanParts(parts, kept) == CleanParts(parts[1..], NextKept(parts[0], kept))
  {
  }

  /** A component followed by two dots is dropped with them. */
  lemma {:induction false} ParentCancels(a: seq<string>, x: string, b: seq<string>, kept: seq<string>)
    requires PlainPart(x)
    ensures CleanParts(a + [x, ".."] + b, kept) == CleanParts(a + b, kept)
    decreases |a|
  {
    if a == [] {
      assert a + [x, ".."] + b == [x, ".."] + b && a + b == b;
      FirstPairDrops(x, b, kept);
    } else {
      ParentCancels(a[1..], x, b, NextKept(a[0], kept));
      FirstComponent(a, [x, ".."] + b, kept);
      FirstComponent(a, b, kept);
      assert a + ([x, ".."] + b) == a + [x, ".."] + b && a[1..] + ([x, ".."] + b) == a[1..] + [x, ".."] + b;
    }
  }

  lemma {:induction false} FirstComponent(a: seq<string>, b: seq<string>, kept: seq<string>)
    requires a != []
    ensures CleanParts(a + b, kept) == CleanParts(a[1..] + b, NextKept(a[0], kept))
  {
    assert (a + b)[1..] == a[1..] + b;
    OneComponent(a + b, kept);
  }

  lemma {:induction false} FirstPairDrops(x: string, b: seq<string>, kept: seq<string>)
    requires PlainPart(x)
    ensures CleanParts([x, ".."] + b, kept) == CleanParts(b, kept)
  {
    var all := [x, ".."] + b;
    assert all[1..] == [".."] + b && all[1..][1..] == b;
    OneComponent(all, kept);
    OneComponent(all[1..], kept + [x]);
    assert (kept + [x])[..|kept|] == kept;
  }

  /** Pairs of dots that nothing precedes stay, and so do the components after them. */
  lemma {:induction false} CleanStays(ups: nat, plain: seq<string>, kept: seq<string>)
    requires forall i :: 0 <= i < |plain| ==> PlainPart(plain[i])
    requires forall i :: 0 <= i < |kept| ==> kept[i] == ".."
    ensures CleanParts(seq(ups, _ => "..") + plain, kept) == kept + seq(ups, _ => "..") + plain
    decreases ups
  {
    var dots := seq(ups, _ => "..");
    if ups == 0 {
      assert dots + plain == plain && kept + dots + plain == kept + plain;
      CleanPlainParts(plain, kept);
    } else {
      var rest := seq(ups - 1, _ => "..");
      assert dots == [".."] + rest && (dots + plain)[1..] == rest + plain;
      OneComponent(dots + plain, kept);
      CleanStays(ups - 1, plain, kept + [".."]);
      assert kept + [".."] + rest + plain == kept + dots + plain;
    }
  }

  // ---- normalising ----

  /** A path is refused if and only if it is blank, absolute, names the root itself, or leaves it; otherwise its cleaned
      components are joined. */
  lemma NormalizedIff(relPath: string)
    ensures
      var t := TrimSpace(relPath);
      NormalizeRelativePath(relPath).Ok? <==> t != "" && t[0] != '/' && KeptParts(t) != [] && ".." !in KeptParts(t)
    ensures NormalizeRelativePath(relPath).Ok? ==>
      NormalizeRelativePath(relPath).value == Join(KeptParts(TrimSpace(relPath)), '/')
    ensures KeptParts(TrimSpace(relPath)) == CleanParts(Split(TrimSpace(relPath), '/'), [])
  {
  }

  /** Every backslash is a slash. */
  predicate Slashed(s: string, y: string)
  {
    |y| == |s| && forall i :: 0 <= i < |s| ==> y[i] == if s[i] == '\\' then '/' else s[i]
  }

  /** The snapshot's normaliser is the index's after every backslash has become a slash. */
  lemma SnapshotPathIs(relPath: string, slashed: string)
    requires Slashed(relPath, slashed)
    ensures NormalizeSnapshotPath(relPath) == NormalizeRelativePath(slashed)
  {
    LeftSlashed(relPath, slashed);
    RightSlashed(TrimLeft(relPath), TrimLeft(slashed));
    assert ForwardSlashes(TrimSpace(relPath)) == TrimSpace(slashed);
  }

  lemma {:induction false} LeftSlashed(s: string, y: string)
    requires Slashed(s, y)
    ensures Slashed(TrimLeft(s), TrimLeft(y))
  {
    if s != [] {
      assert IsSpace(s[0]) <==> IsSpace(y[0]);
      if IsSpace(s[0]) {
        LeftSlashed(s[1..], y[1..]);
      }
    }
  }

  lemma {:induction false} RightSlashed(s: string, y: string)
    requires Slashed(s, y)
    ensures Slashed(TrimRight(s), TrimRight(y))
  {
    if s != [] {
      var n := |s| - 1;
      assert IsSpace(s[n]) <==> IsSpace(y[n]);
      if IsSpace(s[n]) {
        RightSlashed(s[..n], y[..n]);
      }
    }
  }
}
