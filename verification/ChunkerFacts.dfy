/** What the windows of the chunker guarantee: progress, coverage, limits and blankness. */
module ChunkerFacts {
  import opened GoStrings
  import opened Chunker

  // ---- progress ----

  /** A window and its successor. */
  ghost predicate Follows(lines: seq<string>, p: ChunkPolicy, w: Window, v: Window)
    requires p.Ok()
  {
    w.start < w.end < |lines| && Stops(lines, p, w.start, w.end) && v.start == NextStart(p, w) && Stops(lines, p, v.start, v.end)
  }

  lemma {:induction false} WindowsFollow(lines: seq<string>, p: ChunkPolicy, s: nat)
    requires p.Ok() && s < |lines|
    ensures var ws := WindowsFrom(lines, p, s);
      && |ws| > 0 && ws[0] == Window(s, EndOf(lines, p, s))
      && ws[|ws| - 1].end == |lines|
      && (forall i :: 0 <= i < |ws| ==> Stops(lines, p, ws[i].start, ws[i].end))
      && (forall i :: 0 <= i < |ws| - 1 ==> Follows(lines, p, ws[i], ws[i + 1]))
    decreases |lines| - s
  {
    var w := Window(s, EndOf(lines, p, s));
    if w.end < |lines| {
      WindowsFollow(lines, p, NextStart(p, w));
      var rest := WindowsFrom(lines, p, NextStart(p, w));
      var ws := WindowsFrom(lines, p, s);
      assert ws == [w] + rest;
      forall i | 0 <= i < |ws| - 1
        ensures Follows(lines, p, ws[i], ws[i + 1])
      {
        if i > 0 {
          assert ws[i] == rest[i - 1] && ws[i + 1] == rest[i];
        }
      }
    }
  }

  /** Starts increase, ends never decrease, and a window that reaches no new line is exactly the overlap. */
  lemma StepAdvances(lines: seq<string>, p: ChunkPolicy, w: Window, v: Window)
    requires p.Ok() && Follows(lines, p, w, v)
    ensures w.start < v.start <= w.end <= v.end
    ensures v.end == w.end ==> v.end - v.start == p.overlapLines && NextStart(p, v) == v.end
  {
    if v.start < w.end && v.end < w.end {
      FitsInside(lines, p, w.start, w.end, v.start, v.end + 1);
    }
  }

  /** Two consecutive steps cannot both fail to reach a new line. */
  lemma NoTwoStalls(lines: seq<string>, p: ChunkPolicy, u: Window, v: Window, w: Window)
    requires p.Ok() && Follows(lines, p, u, v) && Follows(lines, p, v, w)
    ensures u.end < w.end
  {
    StepAdvances(lines, p, u, v);
    StepAdvances(lines, p, v, w);
  }

  /** Over the whole document: starts strictly increase, ends never decrease, every second step gains a line,
      and there is at most one window per line. */
  lemma {:induction false} ChunkingProgresses(lines: seq<string>, p: ChunkPolicy)
    requires p.Ok()
    ensures var ws := WindowsFrom(lines, p, 0);
      && (forall i, j :: 0 <= i < j < |ws| ==> ws[i].start < ws[j].start && ws[i].end <= ws[j].end)
      && (forall i, j :: 0 <= i < j - 1 && j < |ws| ==> ws[i].end < ws[j].end)
      && |ws| <= |lines|
  {
    if lines != [] {
      SomeLinesProgress(lines, p);
    }
  }

  lemma {:induction false} SomeLinesProgress(lines: seq<string>, p: ChunkPolicy)
    requires p.Ok() && |lines| > 0
    ensures var ws := WindowsFrom(lines, p, 0);
      && (forall i, j :: 0 <= i < j < |ws| ==> ws[i].start < ws[j].start && ws[i].end <= ws[j].end)
      && (forall i, j :: 0 <= i < j - 1 && j < |ws| ==> ws[i].end < ws[j].end)
      && |ws| <= |lines|
  {
    var ws := WindowsFrom(lines, p, 0);
    WindowsFollow(lines, p, 0);
    forall i, j | 0 <= i < j < |ws|
      ensures ws[i].start < ws[j].start && ws[i].end <= ws[j].end
    {
      Climb(lines, p, ws, i, j);
    }
    forall i, j | 0 <= i < j - 1 && j < |ws|
      ensures ws[i].end < ws[j].end
    {
      assert Follows(lines, p, ws[i], ws[i + 1]) && Follows(lines, p, ws[i + 1], ws[i + 2]);
      NoTwoStalls(lines, p, ws[i], ws[i + 1], ws[i + 2]);
      if i + 2 < j {
        Climb(lines, p, ws, i + 2, j);
      }
    }
    StartsCount(ws, |ws| - 1);
    assert Stops(lines, p, ws[|ws| - 1].start, ws[|ws| - 1].end);
  }

  lemma {:induction false} Climb(lines: seq<string>, p: ChunkPolicy, ws: seq<Window>, i: nat, j: nat)
    requires p.Ok() && i < j < |ws| && forall k :: 0 <= k < |ws| - 1 ==> Follows(lines, p, ws[k], ws[k + 1])
    ensures ws[i].start < ws[j].start && ws[i].end <= ws[j].end
    decreases j
  {
    assert Follows(lines, p, ws[j - 1], ws[j - 1 + 1]);
    StepAdvances(lines, p, ws[j - 1], ws[j]);
    if i < j - 1 {
      Climb(lines, p, ws, i, j - 1);
    }
  }

  lemma {:induction false} StartsCount(ws: seq<Window>, k: nat)
    requires k < |ws| && forall i, j :: 0 <= i < j < |ws| ==> ws[i].start < ws[j].start
    ensures ws[k].start >= k
  {
    if k > 0 {
      StartsCount(ws, k - 1);
    }
  }

  // ---- coverage ----

  /** The windows' texts with the lines already covered left out. */
  function FreshText(lines: seq<string>, ws: seq<Window>, covered: nat): string
    requires covered <= |lines| && InRange(lines, ws)
    decreases |ws|
  {
    if ws == [] then ""
    else if ws[0].end <= covered then FreshText(lines, ws[1..], covered)
    else Concat(lines[covered..ws[0].end]) + FreshText(lines, ws[1..], ws[0].end)
  }

  lemma {:induction false} FreshCovers(lines: seq<string>, p: ChunkPolicy, s: nat, covered: nat)
    requires p.Ok() && s <= covered < |lines| && covered <= EndOf(lines, p, s)
    requires InRange(lines, WindowsFrom(lines, p, s))
    ensures FreshText(lines, WindowsFrom(lines, p, s), covered) == Concat(lines[covered..])
    decreases |lines| - s
  {
    var w := Window(s, EndOf(lines, p, s));
    var ws := WindowsFrom(lines, p, s);
    if w.end == |lines| {
      assert ws == [w] && ws[1..] == [];
      assert lines[covered..w.end] == lines[covered..];
    } else {
      var n := NextStart(p, w);
      var rest := WindowsFrom(lines, p, n);
      assert ws == [w] + rest && ws[1..] == rest;
      var v := Window(n, EndOf(lines, p, n));
      StepAdvances(lines, p, w, v);
      FreshCovers(lines, p, n, w.end);
      assert lines[covered..] == lines[covered..w.end] + lines[w.end..];
      ConcatAppend(lines[covered..w.end], lines[w.end..]);
      assert covered == w.end ==> lines[covered..w.end] == [];
    }
  }

  /** Without their overlaps the windows spell out the document, newlines normalised. */
  lemma {:induction false} WindowsCoverText(content: string, policy: ChunkPolicy)
    ensures var lines, p := LinesOf(UnixNewlines(content)), policy.WithDefaults();
      InRange(lines, WindowsFrom(lines, p, 0)) &&
      FreshText(lines, WindowsFrom(lines, p, 0), 0) == UnixNewlines(content)
  {
    var text := UnixNewlines(content);
    var lines, p := LinesOf(text), policy.WithDefaults();
    LinesJoin(text);
    WindowsInRange(lines, p, 0);
    if lines != [] {
      FreshCovers(lines, p, 0, 0);
      assert lines[0..] == lines;
    }
  }

  // ---- limits ----

  /** Every window obeys both limits unless it is one line, and stops early only when one more line breaks a limit. */
  lemma WindowLimits(lines: seq<string>, p: ChunkPolicy, i: nat)
    requires p.Ok() && i < |WindowsFrom(lines, p, 0)|
    ensures var w := WindowsFrom(lines, p, 0)[i];
      && w.start < w.end <= |lines|
      && (w.end - w.start > 1 ==> w.end - w.start <= p.maxLines && |Concat(lines[w.start..w.end])| <= p.maxChars)
      && (w.end < |lines| ==> w.end + 1 - w.start > p.maxLines || |Concat(lines[w.start..w.end + 1])| > p.maxChars)
  {
    WindowsFollow(lines, p, 0);
    var w := WindowsFrom(lines, p, 0)[i];
    assert Stops(lines, p, w.start, w.end);
    BytesAreLength(lines, w.start, w.end);
    if w.end < |lines| {
      BytesAreLength(lines, w.start, w.end + 1);
    }
  }

  lemma {:induction false} BytesAreLength(lines: seq<string>, s: nat, e: nat)
    requires s <= e <= |lines|
    ensures Bytes(lines, s, e) == |Concat(lines[s..e])|
    decreases e
  {
    if s < e {
      BytesAreLength(lines, s, e - 1);
      assert lines[s..e][..e - s - 1] == lines[s..e - 1];
    }
  }

  // ---- chunks ----

  /** Chunks are numbered from zero, and none of them is blank or untrimmed. */
  lemma ChunksAreClean(content: string, policy: ChunkPolicy, i: nat)
    requires i < |ChunkContents(content, policy)|
    ensures var c := Numbered(ChunkContents(content, policy))[i];
      c.index == i && c.content != "" && TrimSpace(c.content) == c.content
  {
    var lines, p := LinesOf(UnixNewlines(content)), policy.WithDefaults();
    WindowsInRange(lines, p, 0);
    ContentsClean(lines, WindowsFrom(lines, p, 0), i);
  }

  lemma {:induction false} ContentsClean(lines: seq<string>, ws: seq<Window>, i: nat)
    requires InRange(lines, ws) && i < |Contents(lines, ws)|
    ensures Contents(lines, ws)[i] != "" && TrimSpace(Contents(lines, ws)[i]) == Contents(lines, ws)[i]
    decreases |ws|
  {
    var n := |ws| - 1;
    if i < |Contents(lines, ws[..n])| {
      ContentsClean(lines, ws[..n], i);
    } else {
      TrimSpaceIdempotent(Concat(lines[ws[n].start..ws[n].end]));
    }
  }

  lemma BlankAppend(a: string, b: string)
    ensures Blank(a + b) <==> Blank(a) && Blank(b)
  {
    assert forall i :: 0 <= i < |a| ==> (a + b)[i] == a[i];
    if Blank(a + b) {
      forall i | 0 <= i < |b|
        ensures IsSpace(b[i])
      {
        assert (a + b)[|a| + i] == b[i];
      }
    }
  }

  lemma {:induction false} BlankConcat(lines: seq<string>)
    ensures Blank(Concat(lines)) <==> forall i :: 0 <= i < |lines| ==> Blank(lines[i])
  {
    if lines != [] {
      BlankConcat(lines[..|lines| - 1]);
      BlankAppend(Concat(lines[..|lines| - 1]), lines[|lines| - 1]);
      assert forall i :: 0 <= i < |lines| - 1 ==> lines[..|lines| - 1][i] == lines[i];
    }
  }

  lemma {:induction false} BlankNewlines(s: string)
    ensures Blank(UnixNewlines(s)) <==> Blank(s)
    decreases |s|
  {
    if |s| >= 2 {
      if s[0] == '\r' && s[1] == '\n' {
        BlankNewlines(s[2..]);
        BlankAppend(['\n'], UnixNewlines(s[2..]));
        BlankAppend(s[..2], s[2..]);
        assert s == s[..2] + s[2..];
      } else {
        BlankNewlines(s[1..]);
        BlankAppend([s[0]], UnixNewlines(s[1..]));
        BlankAppend([s[0]], s[1..]);
        assert s == [s[0]] + s[1..];
      }
    }
  }

  lemma {:induction false} NoContents(lines: seq<string>, ws: seq<Window>)
    requires InRange(lines, ws)
    ensures Contents(lines, ws) == [] ==>
      forall i, k :: 0 <= i < |ws| && ws[i].start <= k < ws[i].end ==> Blank(lines[k])
    decreases |ws|
  {
    if ws != [] && Contents(lines, ws) == [] {
      var n := |ws| - 1;
      NoContents(lines, ws[..n]);
      var part := lines[ws[n].start..ws[n].end];
      TrimSpaceEmpty(Concat(part));
      BlankConcat(part);
      forall i, k | 0 <= i < |ws| && ws[i].start <= k < ws[i].end
        ensures Blank(lines[k])
      {
        if i == n {
          assert lines[k] == part[k - ws[n].start];
        } else {
          assert ws[..n][i] == ws[i];
        }
      }
    }
  }

  /** Every line lies in some window. */
  lemma {:induction false} LineInWindow(lines: seq<string>, p: ChunkPolicy, s: nat, k: nat) returns (i: nat)
    requires p.Ok() && s <= k < |lines|
    ensures var ws := WindowsFrom(lines, p, s); i < |ws| && ws[i].start <= k < ws[i].end
    decreases |lines| - s
  {
    var w := Window(s, EndOf(lines, p, s));
    if k < w.end {
      i := 0;
    } else {
      var j := LineInWindow(lines, p, NextStart(p, w), k);
      i := j + 1;
    }
  }

  /** A document has no chunks exactly when it is blank. */
  lemma NoChunksIffBlank(content: string, policy: ChunkPolicy)
    ensures ChunkContents(content, policy) == [] <==> Blank(content)
  {
    var text, p := UnixNewlines(content), policy.WithDefaults();
    BlankNewlines(content);
    TrimSpaceEmpty(text);
    if TrimSpace(text) != "" && ChunkContents(content, policy) == [] {
      var lines := LinesOf(text);
      LinesJoin(text);
      WindowsInRange(lines, p, 0);
      NoContents(lines, WindowsFrom(lines, p, 0));
      forall k | 0 <= k < |lines|
        ensures Blank(lines[k])
      {
        var i := LineInWindow(lines, p, 0, k);
      }
      BlankConcat(lines);
    }
  }
}
