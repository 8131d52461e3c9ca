/** Splitting a document into overlapping windows of lines (internal/indexing/chunker.go). */
module Chunker {
  import opened GoStrings

  const DEFAULT_MAX_CHARS: int := 1200
  const DEFAULT_MAX_LINES: int := 40
  const DEFAULT_OVERLAP_LINES: int := 5

  datatype ChunkPolicy = ChunkPolicy(maxChars: int, maxLines: int, overlapLines: int) {
    /** The limits are positive and the overlap is shorter than a window. */
    predicate Ok()
    {
      maxChars > 0 && maxLines > 0 && 0 <= overlapLines < maxLines
    }

    /** Missing limits get their defaults; the overlap is forced below the line limit. */
    function WithDefaults(): (p: ChunkPolicy)
      ensures p.Ok() && (Ok() ==> p == this)
    {
      var chars := if maxChars <= 0 then DEFAULT_MAX_CHARS else maxChars;
      var lines := if maxLines <= 0 then DEFAULT_MAX_LINES else maxLines;
      var overlap := if overlapLines < 0 then 0 else overlapLines;
      ChunkPolicy(chars, lines, if overlap >= lines then lines - 1 else overlap)
    }
  }

  const DEFAULT_POLICY: ChunkPolicy := ChunkPolicy(DEFAULT_MAX_CHARS, DEFAULT_MAX_LINES, DEFAULT_OVERLAP_LINES)

  datatype Chunk = Chunk(index: nat, content: string)

  // ---- text and lines ----

  /** strings.ReplaceAll(content, "\r\n", "\n") */
  function UnixNewlines(s: string): string
  {
    if |s| < 2 then s
    else if s[0] == '\r' && s[1] == '\n' then ['\n'] + UnixNewlines(s[2..])
    else [s[0]] + UnixNewlines(s[1..])
  }

  /** strings.SplitAfter(s, "\n"), given the part of the current line already read. */
  function SplitAfter(s: string, line: string): (lines: seq<string>)
    ensures |lines| > 0
  {
    if s == [] then [line]
    else if s[0] == '\n' then [line + ['\n']] + SplitAfter(s[1..], "")
    else SplitAfter(s[1..], line + [s[0]])
  }

  /** The lines of a text, newlines included, without the empty tail. */
  function LinesOf(s: string): seq<string>
  {
    var lines := SplitAfter(s, "");
    if lines[|lines| - 1] == "" then lines[..|lines| - 1] else lines
  }

  function Concat(lines: seq<string>): string
  {
    if lines == [] then "" else Concat(lines[..|lines| - 1]) + lines[|lines| - 1]
  }

  lemma {:induction false} ConcatAppend(a: seq<string>, b: seq<string>)
    ensures Concat(a + b) == Concat(a) + Concat(b)
  {
    if b == [] {
      assert a + b == a;
    } else {
      assert (a + b)[..|a + b| - 1] == a + b[..|b| - 1];
      ConcatAppend(a, b[..|b| - 1]);
    }
  }

  lemma ConcatOne(s: string)
    ensures Concat([s]) == s
  {
    assert [s][..0] == [];
  }

  lemma {:induction false} ConcatFirst(head: string, rest: seq<string>)
    ensures Concat([head] + rest) == head + Concat(rest)
  {
    ConcatAppend([head], rest);
    ConcatOne(head);
  }

  lemma {:induction false} SplitAfterJoins(s: string, line: string)
    ensures Concat(SplitAfter(s, line)) == line + s
    decreases |s|
  {
    if s == [] {
      assert [line][..0] == [];
    } else if s[0] == '\n' {
      SplitAfterJoins(s[1..], "");
      ConcatFirst(line + ['\n'], SplitAfter(s[1..], ""));
      assert line + ['\n'] + s[1..] == line + s;
    } else {
      SplitAfterJoins(s[1..], line + [s[0]]);
      assert line + [s[0]] + s[1..] == line + s;
    }
  }

  lemma {:induction false} SplitAfterFull(s: string, line: string, i: nat)
    requires i < |SplitAfter(s, line)| - 1
    ensures SplitAfter(s, line)[i] != ""
    decreases |s|
  {
    if s[0] == '\n' {
      if i > 0 {
        SplitAfterFull(s[1..], "", i - 1);
      }
    } else {
      SplitAfterFull(s[1..], line + [s[0]], i);
    }
  }

  /** The lines join back to the text, and none of them is empty. */
  lemma LinesJoin(s: string)
    ensures Concat(LinesOf(s)) == s
    ensures forall i :: 0 <= i < |LinesOf(s)| ==> LinesOf(s)[i] != ""
  {
    SplitAfterJoins(s, "");
    var lines := SplitAfter(s, "");
    forall i | 0 <= i < |lines| - 1
      ensures lines[i] != ""
    {
      SplitAfterFull(s, "", i);
    }
    assert Concat(lines) == Concat(lines[..|lines| - 1]) + lines[|lines| - 1];
    assert "" + s == s;
  }

  // ---- windows ----

  /** The window of lines start..end. */
  datatype Window = Window(start: nat, end: nat)

  /** The bytes of lines s..e. */
  function Bytes(lines: seq<string>, s: nat, e: nat): nat
    requires e <= |lines|
    decreases e
  {
    if e <= s then 0 else Bytes(lines, s, e - 1) + |lines[e - 1]|
  }

  /** A window obeys both limits, or is a single line. */
  predicate Fits(lines: seq<string>, p: ChunkPolicy, s: nat, e: nat)
    requires e <= |lines|
  {
    e == s + 1 || (e - s <= p.maxLines && Bytes(lines, s, e) <= p.maxChars)
  }

  /** e is where a window from s must stop: it fits, and one more line would break a limit. */
  predicate Stops(lines: seq<string>, p: ChunkPolicy, s: nat, e: nat)
  {
    s < e <= |lines| && Fits(lines, p, s, e) && (e < |lines| ==> !Fits(lines, p, s, e + 1))
  }

  function Extend(lines: seq<string>, p: ChunkPolicy, s: nat, e: nat): (end: nat)
    requires s < e <= |lines| && Fits(lines, p, s, e)
    ensures Stops(lines, p, s, end)
    decreases |lines| - e
  {
    if e < |lines| && Fits(lines, p, s, e + 1) then Extend(lines, p, s, e + 1) else e
  }

  function EndOf(lines: seq<string>, p: ChunkPolicy, s: nat): (end: nat)
    requires s < |lines|
    ensures Stops(lines, p, s, end)
  {
    Extend(lines, p, s, s + 1)
  }

  lemma {:induction false} BytesShorter(lines: seq<string>, s: nat, x: nat, e: nat)
    requires x <= e <= |lines|
    ensures Bytes(lines, s, x) <= Bytes(lines, s, e)
    decreases e
  {
    if x < e {
      BytesShorter(lines, s, x, e - 1);
    }
  }

  lemma {:induction false} BytesLater(lines: seq<string>, s: nat, s': nat, e: nat)
    requires s <= s' && e <= |lines|
    ensures Bytes(lines, s', e) <= Bytes(lines, s, e)
    decreases e
  {
    if s' < e {
      BytesLater(lines, s, s', e - 1);
    }
  }

  /** Shortening a window that fits, at either end, keeps it fitting. */
  lemma FitsInside(lines: seq<string>, p: ChunkPolicy, s: nat, e: nat, s': nat, e': nat)
    requires e <= |lines| && Fits(lines, p, s, e) && s <= s' < e' <= e
    ensures Fits(lines, p, s', e')
  {
    BytesLater(lines, s, s', e);
    BytesShorter(lines, s', e', e);
  }

  /** There is only one place to stop. */
  lemma StopsUnique(lines: seq<string>, p: ChunkPolicy, s: nat, e: nat)
    requires Stops(lines, p, s, e)
    ensures e == EndOf(lines, p, s)
  {
    var end := EndOf(lines, p, s);
    if e < end {
      FitsInside(lines, p, s, end, s, e + 1);
    } else if end < e {
      FitsInside(lines, p, s, e, s, end + 1);
    }
  }

  function NextStart(p: ChunkPolicy, w: Window): (s: nat)
    requires p.Ok() && w.start < w.end
    ensures w.start < s <= w.end
  {
    if w.end - p.overlapLines <= w.start then w.end else w.end - p.overlapLines
  }

  /** The windows from a start line to the end of the document. */
  function WindowsFrom(lines: seq<string>, p: ChunkPolicy, s: nat): seq<Window>
    requires p.Ok()
    decreases |lines| - s
  {
    if s >= |lines| then []
    else
      var w := Window(s, EndOf(lines, p, s));
      if w.end >= |lines| then [w] else [w] + WindowsFrom(lines, p, NextStart(p, w))
  }

  // ---- chunks ----

  function WindowText(lines: seq<string>, w: Window): string
    requires w.start <= w.end <= |lines|
  {
    TrimSpace(Concat(lines[w.start..w.end]))
  }

  ghost predicate InRange(lines: seq<string>, ws: seq<Window>)
  {
    forall i :: 0 <= i < |ws| ==> ws[i].start < ws[i].end <= |lines|
  }

  /** The trimmed contents of the windows that are not blank. */
  function Contents(lines: seq<string>, ws: seq<Window>): seq<string>
    requires InRange(lines, ws)
  {
    if ws == [] then []
    else
      var front := Contents(lines, ws[..|ws| - 1]);
      var text := WindowText(lines, ws[|ws| - 1]);
      if text == "" then front else front + [text]
  }

  function Numbered(contents: seq<string>): (chunks: seq<Chunk>)
    ensures |chunks| == |contents|
  {
    seq(|contents|, i requires 0 <= i < |contents| => Chunk(i, contents[i]))
  }

  lemma {:induction false} WindowsInRange(lines: seq<string>, p: ChunkPolicy, s: nat)
    requires p.Ok()
    ensures InRange(lines, WindowsFrom(lines, p, s))
    decreases |lines| - s
  {
    if s < |lines| {
      var w := Window(s, EndOf(lines, p, s));
      if w.end < |lines| {
        WindowsInRange(lines, p, NextStart(p, w));
      }
    }
  }

  /** The contents of the chunks of a document. */
  function ChunkContents(content: string, policy: ChunkPolicy): seq<string>
  {
    var p := policy.WithDefaults();
    var text := UnixNewlines(content);
    if TrimSpace(text) == "" then []
    else
      var lines := LinesOf(text);
      WindowsInRange(lines, p, 0);
      Contents(lines, WindowsFrom(lines, p, 0))
  }

  /** ChunkDocumentWithPolicy: the chunks are the windows' trimmed texts, numbered from zero. */
  method ChunkDocumentWithPolicy(content: string, policy: ChunkPolicy) returns (chunks: seq<Chunk>)
    ensures chunks == Numbered(ChunkContents(content, policy))
  {
    var p := policy.WithDefaults();
    var normalized := UnixNewlines(content);
    if TrimSpace(normalized) == "" {
      return [];
    }
    LinesJoin(normalized);
    WindowsInRange(LinesOf(normalized), p, 0);
    chunks := ChunkLines(LinesOf(normalized), p);
  }

  /** The outer loop over the lines of a document. */
  method ChunkLines(lines: seq<string>, p: ChunkPolicy) returns (chunks: seq<Chunk>)
    requires p.Ok() && InRange(lines, WindowsFrom(lines, p, 0))
    requires forall i :: 0 <= i < |lines| ==> lines[i] != ""
    ensures chunks == Numbered(Contents(lines, WindowsFrom(lines, p, 0)))
  {
    chunks := [];
    var start: nat := 0;
    ghost var done: seq<Window> := [];
    NothingChunked(lines, p);
    while start < |lines|
      invariant Chunked(lines, p, done, WindowsFrom(lines, p, start), chunks)
      decreases |lines| - start
    {
      var end := WindowEnd(lines, p, start);
      ghost var w := Window(start, end);
      ChunkedStep(lines, p, done, w, chunks);
      chunks := AppendChunk(lines, start, end, chunks);
      done := done + [w];
      if end >= |lines| {
        AllChunked(lines, p, done, chunks);
        return;
      }
      start := AdvanceStart(p, start, end);
    }
    AllChunked(lines, p, done, chunks);
  }

  /** Where the next window starts. */
  method AdvanceStart(p: ChunkPolicy, start: nat, end: nat) returns (next: nat)
    requires p.Ok() && start < end
    ensures next == NextStart(p, Window(start, end)) > start
  {
    var nextStart := end - p.overlapLines;
    if nextStart <= start {
      nextStart := end;
    }
    next := nextStart;
  }

  /** The windows done so far gave these chunks, and the others are to come. */
  ghost predicate Chunked(lines: seq<string>, p: ChunkPolicy, done: seq<Window>, todo: seq<Window>, chunks: seq<Chunk>)
    requires p.Ok()
  {
    && InRange(lines, done) && chunks == Numbered(Contents(lines, done))
    && done + todo == WindowsFrom(lines, p, 0)
  }

  lemma {:induction false} NothingChunked(lines: seq<string>, p: ChunkPolicy)
    requires p.Ok()
    ensures Chunked(lines, p, [], WindowsFrom(lines, p, 0), [])
  {
    assert [] + WindowsFrom(lines, p, 0) == WindowsFrom(lines, p, 0);
  }

  lemma {:induction false} AllChunked(lines: seq<string>, p: ChunkPolicy, done: seq<Window>, chunks: seq<Chunk>)
    requires p.Ok() && Chunked(lines, p, done, [], chunks)
    ensures InRange(lines, WindowsFrom(lines, p, 0)) && chunks == Numbered(Contents(lines, WindowsFrom(lines, p, 0)))
  {
    assert done + [] == done;
  }

  lemma {:induction false} ChunkedStep(lines: seq<string>, p: ChunkPolicy, done: seq<Window>, w: Window, chunks: seq<Chunk>)
    requires p.Ok() && Stops(lines, p, w.start, w.end) && Chunked(lines, p, done, WindowsFrom(lines, p, w.start), chunks)
    ensures Chunked(lines, p, done + [w], if w.end < |lines| then WindowsFrom(lines, p, NextStart(p, w)) else [],
                    WithText(chunks, WindowText(lines, w)))
  {
    WindowsStep(lines, p, done, w);
    ContentsSnoc(lines, done, w);
  }

  /** The text of a window becomes the next chunk unless it is blank. */
  method AppendChunk(lines: seq<string>, start: nat, end: nat, chunks: seq<Chunk>) returns (all: seq<Chunk>)
    requires start <= end <= |lines|
    ensures all == WithText(chunks, WindowText(lines, Window(start, end)))
  {
    var chunkContent := TrimSpace(Concat(lines[start..end]));
    if chunkContent == "" {
      return chunks;
    }
    return chunks + [Chunk(|chunks|, chunkContent)];
  }

  /** One turn of the outer loop finishes the window that starts here. */
  lemma {:induction false} WindowsStep(lines: seq<string>, p: ChunkPolicy, done: seq<Window>, w: Window)
    requires p.Ok() && Stops(lines, p, w.start, w.end)
    ensures w.end == |lines| ==> done + WindowsFrom(lines, p, w.start) == done + [w]
    ensures w.end < |lines| ==>
      done + WindowsFrom(lines, p, w.start) == (done + [w]) + WindowsFrom(lines, p, NextStart(p, w))
  {
    StopsUnique(lines, p, w.start, w.end);
    if w.end < |lines| {
      assert WindowsFrom(lines, p, w.start) == [w] + WindowsFrom(lines, p, NextStart(p, w));
    }
  }

  function WithText(chunks: seq<Chunk>, text: string): seq<Chunk>
  {
    if text == "" then chunks else chunks + [Chunk(|chunks|, text)]
  }

  lemma {:induction false} ContentsSnoc(lines: seq<string>, done: seq<Window>, w: Window)
    requires InRange(lines, done) && w.start < w.end <= |lines|
    ensures InRange(lines, done + [w])
    ensures Numbered(Contents(lines, done + [w])) == WithText(Numbered(Contents(lines, done)), WindowText(lines, w))
  {
    assert (done + [w])[..|done|] == done;
  }

  /** The inner loop: lines are added while they fit; a line that fills a limit ends the window at once. */
  method WindowEnd(lines: seq<string>, p: ChunkPolicy, start: nat) returns (end: nat)
    requires p.Ok() && start < |lines|
    requires forall i :: 0 <= i < |lines| ==> lines[i] != ""
    ensures Stops(lines, p, start, end)
  {
    end := start;
    var charCount := 0;
    while end < |lines|
      invariant start <= end <= |lines|
      invariant charCount == Bytes(lines, start, end)
      invariant end > start ==> Fits(lines, p, start, end) && charCount < p.maxChars && end - start < p.maxLines
    {
      var nextChars := charCount + |lines[end]|;
      var nextLineCount := end - start + 1;
      if end > start && (nextChars > p.maxChars || nextLineCount > p.maxLines) {
        break;
      }
      charCount := nextChars;
      end := end + 1;
      if charCount >= p.maxChars || nextLineCount >= p.maxLines {
        break;
      }
    }
    assert end > start;  // a window always takes its first line
  }
}
