/** What the chunks of a document are, without the program's own intermediate steps: the normalised newlines, the lines,
    the limits, where each window starts, and the text of each chunk (internal/indexing/chunker.go). */
module ChunkTexts {
  import opened GoStrings
  import opened Chunker
  import opened ChunkerFacts

  // ---- newlines ----

  predicate HasCRLF(s: string)
  {
    exists i :: 0 <= i < |s| - 1 && s[i] == '\r' && s[i + 1] == '\n'
  }

  lemma LaterCRLF(s: string)
    requires s != ""
    ensures HasCRLF(s[1..]) ==> HasCRLF(s)
  {
    if i :| 0 <= i < |s[1..]| - 1 && s[1..][i] == '\r' && s[1..][i + 1] == '\n' {
      assert s[i + 1] == '\r' && s[i + 1 + 1] == '\n';
    }
  }

  /** A text without carriage return and newline stays as it is. */
  lemma {:induction false} NewlinesKept(s: string)
    requires !HasCRLF(s)
    ensures UnixNewlines(s) == s
    decreases |s|
  {
    if |s| >= 2 {
      assert s[0] != '\r' || s[1] != '\n';
      LaterCRLF(s);
      NewlinesKept(s[1..]);
    }
  }

  /** Every pair of carriage return and newline becomes a newline. */
  lemma {:induction false} NewlinesReplaced(a: string, b: string)
    ensures UnixNewlines(a + "\r\n" + b) == UnixNewlines(a) + "\n" + UnixNewlines(b)
    decreases |a|
  {
    var s := a + "\r\n" + b;
    if a == "" {
      assert s[2..] == b;
    } else if |a| >= 2 && a[0] == '\r' && a[1] == '\n' {
      assert s[2..] == a[2..] + "\r\n" + b;
      NewlinesReplaced(a[2..], b);
    } else {
      assert s[1..] == a[1..] + "\r\n" + b;
      assert s[1] == if |a| >= 2 then a[1] else '\r';
      NewlinesReplaced(a[1..], b);
      assert UnixNewlines(a) == [a[0]] + UnixNewlines(a[1..]) by {
        if |a| == 1 {
          assert a[1..] == "";
        }
      }
    }
  }

  // ---- lines ----

  /** Newlines only at the end. */
  predicate BreaksAtEnd(line: string)
  {
    forall i :: 0 <= i < |line| - 1 ==> line[i] != '\n'
  }

  predicate EndsInBreak(line: string)
  {
    line != "" && line[|line| - 1] == '\n'
  }

  /** The lines spell out the text, none is empty, newlines are only at their ends, and all but the last end in one. */
  lemma LinesAre(s: string)
    ensures
      var lines := LinesOf(s);
      && Concat(lines) == s
      && (forall i :: 0 <= i < |lines| ==> lines[i] != "" && BreaksAtEnd(lines[i]))
      && forall i :: 0 <= i < |lines| - 1 ==> EndsInBreak(lines[i])
  {
    LinesJoin(s);
    var all := SplitAfter(s, "");
    forall i | 0 <= i < |all|
      ensures BreaksAtEnd(all[i]) && (i < |all| - 1 ==> EndsInBreak(all[i]))
    {
      SplitLine(s, "", i);
    }
  }

  lemma {:induction false} SplitLine(s: string, line: string, i: nat)
    requires i < |SplitAfter(s, line)| && forall k :: 0 <= k < |line| ==> line[k] != '\n'
    ensures BreaksAtEnd(SplitAfter(s, line)[i]) && (i < |SplitAfter(s, line)| - 1 ==> EndsInBreak(SplitAfter(s, line)[i]))
    decreases |s|
  {
    if s != [] {
      if s[0] != '\n' {
        SplitLine(s[1..], line + [s[0]], i);
      } else if i > 0 {
        SplitLine(s[1..], "", i - 1);
      }
    }
  }

  // ---- limits ----

  /** Limits that are given are kept; missing ones are 1200 bytes and 40 lines; the overlap is at least 0 and shorter than
      the line limit. The default policy is 1200 bytes, 40 lines and an overlap of 5. */
  lemma LimitsAre(policy: ChunkPolicy)
    ensures
      var p := policy.WithDefaults();
      && (policy.maxChars > 0 ==> p.maxChars == policy.maxChars) && (policy.maxChars <= 0 ==> p.maxChars == 1200)
      && (policy.maxLines > 0 ==> p.maxLines == policy.maxLines) && (policy.maxLines <= 0 ==> p.maxLines == 40)
      && (0 <= policy.overlapLines < p.maxLines ==> p.overlapLines == policy.overlapLines)
      && (policy.overlapLines < 0 ==> p.overlapLines == 0)
      && (policy.overlapLines >= p.maxLines ==> p.overlapLines == p.maxLines - 1)
    ensures DEFAULT_POLICY == ChunkPolicy(1200, 40, 5)
  {
  }

  // ---- windows ----

  /** The first window starts at the first line, the last ends at the last line, and each next window starts the overlap's
      lines before the end of the one before, or at that end if this would not be later than its start. */
  lemma {:induction false} WindowStarts(lines: seq<string>, p: ChunkPolicy)
    requires p.Ok() && lines != []
    ensures
      var ws := WindowsFrom(lines, p, 0);
      && ws != [] && ws[0].start == 0 && ws[|ws| - 1].end == |lines|
      && forall i :: 0 <= i < |ws| - 1 ==>
           ws[i].end < |lines| &&
           ws[i + 1].start == if ws[i].end - p.overlapLines > ws[i].start then ws[i].end - p.overlapLines else ws[i].end
  {
    WindowsFollow(lines, p, 0);
    var ws := WindowsFrom(lines, p, 0);
    forall i | 0 <= i < |ws| - 1
      ensures ws[i].end < |lines| &&
        ws[i + 1].start == if ws[i].end - p.overlapLines > ws[i].start then ws[i].end - p.overlapLines else ws[i].end
    {
      assert Follows(lines, p, ws[i], ws[i + 1]);
    }
  }

  // ---- chunks ----

  /** The text of the lines of a window. */
  function Raw(lines: seq<string>, w: Window): string
    requires w.start < w.end <= |lines|
  {
    Concat(lines[w.start..w.end])
  }

  /** The windows that are not blank, in order. */
  function Filled(lines: seq<string>, ws: seq<Window>): seq<Window>
    requires InRange(lines, ws)
  {
    if ws == [] then []
    else Filled(lines, ws[..|ws| - 1]) + if Blank(Raw(lines, ws[|ws| - 1])) then [] else [ws[|ws| - 1]]
  }

  lemma {:induction false} FilledInRange(lines: seq<string>, ws: seq<Window>)
    requires InRange(lines, ws)
    ensures InRange(lines, Filled(lines, ws))
  {
    if ws != [] {
      FilledInRange(lines, ws[..|ws| - 1]);
    }
  }

  /** text is what is left of raw without the blanks around it. */
  ghost predicate StrippedOf(text: string, raw: string)
  {
    && text != "" && !IsSpace(text[0]) && !IsSpace(text[|text| - 1])
    && exists before, after :: Blank(before) && Blank(after) && raw == before + text + after
  }

  lemma TrimStrips(s: string)
    requires !Blank(s)
    ensures StrippedOf(TrimSpace(s), s)
  {
    TrimLeftShape(s);
    TrimRightShape(TrimLeft(s));
    TrimSpaceEmpty(s);
    var left, text := TrimLeft(s), TrimSpace(s);
    var before, after := s[..|s| - |left|], left[|text|..];
    assert Blank(before) && Blank(after);
    assert s == before + left && left == text + after;
    assert s == before + text + after;
  }

  lemma {:induction false} ContentsAre(lines: seq<string>, ws: seq<Window>)
    requires InRange(lines, ws) && InRange(lines, Filled(lines, ws))
    ensures
      var texts, filled := Contents(lines, ws), Filled(lines, ws);
      |texts| == |filled| && forall i :: 0 <= i < |texts| ==> StrippedOf(texts[i], Raw(lines, filled[i]))
  {
    if ws != [] {
      var front, w := ws[..|ws| - 1], ws[|ws| - 1];
      FilledInRange(lines, front);
      ContentsAre(lines, front);
      TrimSpaceEmpty(Raw(lines, w));
      if !Blank(Raw(lines, w)) {
        TrimStrips(Raw(lines, w));
      }
    }
  }

  /** The chunks of a document: one for each window of its lines that is not blank, in order and numbered from zero, with
      the window's text without the blanks around it. */
  lemma {:induction false} ChunksAre(content: string, policy: ChunkPolicy)
    ensures
      var lines, p := LinesOf(UnixNewlines(content)), policy.WithDefaults();
      && InRange(lines, WindowsFrom(lines, p, 0)) && InRange(lines, Filled(lines, WindowsFrom(lines, p, 0)))
      && var chunks, filled := Numbered(ChunkContents(content, policy)), Filled(lines, WindowsFrom(lines, p, 0));
      && |chunks| == |filled|
      && forall i :: 0 <= i < |chunks| ==> chunks[i].index == i && StrippedOf(chunks[i].content, Raw(lines, filled[i]))
  {
    var text, p := UnixNewlines(content), policy.WithDefaults();
    var lines := LinesOf(text);
    var ws := WindowsFrom(lines, p, 0);
    WindowsInRange(lines, p, 0);
    FilledInRange(lines, ws);
    ContentsAre(lines, ws);
    LinesJoin(text);
    TrimSpaceEmpty(text);
    if Blank(text) {
      BlankConcat(lines);
      NoneFilled(lines, ws);
    }
  }

  lemma {:induction false} NoneFilled(lines: seq<string>, ws: seq<Window>)
    requires InRange(lines, ws) && forall i :: 0 <= i < |lines| ==> Blank(lines[i])
    ensures Filled(lines, ws) == []
  {
    if ws != [] {
      NoneFilled(lines, ws[..|ws| - 1]);
      var w := ws[|ws| - 1];
      BlankConcat(lines[w.start..w.end]);
    }
  }
}
