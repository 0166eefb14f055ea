/**
 The log history pages: a file is read backwards in 32 KiB chunks until enough newlines are in hand,
 and one page of non-empty lines is cut from the end. The plain specification cuts the same page from
 the lines of the whole file.
 */
module TailPage {
  import opened Wrappers
  import opened LogTail

  /** 32 KiB. */
  const CHUNK: nat := 32768

  const USIZE: nat := 0x1_0000_0000_0000_0000

  datatype Page = Page(lines: seq<Line>, hasMore: bool)

  /** What opening and reading the file gives. `Shrunk` is a read that hits the end of the file early. */
  datatype Snapshot = Missing | Unreadable | Shrunk | Bytes(content: seq<Byte>)

  /** `Panicked` is the overflow of an addition in a build that checks for it. */
  datatype Outcome = Read(page: Page) | IoError | Panicked

  const NoPage := Page([], false)

  // ---------- the plain specification ----------

  /** All pieces between newlines; the last one may be unfinished. */
  function Split(s: seq<Byte>): (r: seq<Line>)
    ensures |r| > 0
  {
    Lines(s) + [Rest(s)]
  }

  const Empty: Line -> bool := (l: Line) => l == []

  function NonEmpty(s: seq<Byte>): seq<Line> {
    Kept(Split(s), Empty)
  }

  /** Saturating subtraction. */
  function Minus(a: nat, b: nat): (r: nat)
    ensures r <= a
  {
    if a >= b then a - b else 0
  }

  /** `limit` lines, ending `skip` lines before the end. */
  function PageOf(lines: seq<Line>, skip: nat, limit: nat): Page {
    var end := Minus(|lines|, skip);
    var start := Minus(end, limit);
    Page(lines[start..end], start > 0)
  }

  // ---------- the chunked reader ----------

  function Clamped(limit: nat): (r: nat)
    ensures 1 <= r <= 500
  {
    if limit < 1 then 1 else if limit > 500 then 500 else limit
  }

  /** `offset * limit` in saturating 64-bit arithmetic. */
  function Skip(limit: nat, offset: nat): (r: nat)
    ensures r < USIZE
  {
    Min(offset * limit, USIZE - 1)
  }

  /** How many newlines are enough: one more than the lines up to the end of the page, in 64-bit arithmetic. */
  function Wanted(limit: nat, offset: nat): nat {
    (Skip(Clamped(limit), offset) + Clamped(limit) + 1) % USIZE
  }

  /** That sum does not fit into 64 bits. */
  predicate Overflows(limit: nat, offset: nat) {
    Skip(Clamped(limit), offset) + Clamped(limit) + 1 >= USIZE
  }

  function Newlines(s: seq<Byte>): nat {
    if s == [] then 0 else Newlines(s[..|s| - 1]) + (if s[|s| - 1] == NEWLINE then 1 else 0)
  }

  /** Drops everything up to the first newline; nothing if there is none. */
  function AfterHalfLine(s: seq<Byte>): (r: seq<Byte>) {
    var i := FirstNewline(s);
    if i == |s| then s else s[i + 1..]
  }

  function FirstNewline(s: seq<Byte>): (i: nat)
    ensures i <= |s| && NEWLINE !in s[..i]
    ensures i < |s| ==> s[i] == NEWLINE
  {
    if s == [] || s[0] == NEWLINE then 0 else 1 + FirstNewline(s[1..])
  }

  function Widened(content: seq<Byte>, length: nat, raw: seq<Byte>): seq<Byte>
    requires length <= |content|
  {
    var from := Minus(length, CHUNK);
    var wider := content[from..length] + raw;
    if from > 0 then AfterHalfLine(wider) else wider
  }

  function Collected(content: seq<Byte>, length: nat, raw: seq<Byte>, collect: nat): seq<Byte>
    requires length <= |content|
  {
    if length == 0 then raw
    else
      var from := Minus(length, CHUNK);
      var wider := Widened(content, length, raw);
      if from == 0 || Newlines(wider) >= collect then wider else Collected(content, from, wider, collect)
  }

  /** The page the reader cuts out of one file snapshot. */
  function ReadPage(content: seq<Byte>, limit: nat, offset: nat): Page {
    var n, skip := Clamped(limit), Skip(Clamped(limit), offset);
    PageOf(NonEmpty(Collected(content, |content|, [], Wanted(limit, offset))), skip, n)
  }

  method CollectTail(content: seq<Byte>, collect: nat) returns (raw: seq<Byte>)
    ensures raw == Collected(content, |content|, [], collect)
  {
    hide Newlines, AfterHalfLine;
    var length := |content|;
    raw := [];
    while length > 0
      invariant 0 <= length <= |content|
      invariant Collected(content, |content|, [], collect) == Collected(content, length, raw, collect)
    {
      var from := Minus(length, CHUNK);
      ghost var narrower := raw;
      raw := content[from..length] + raw;
      if from > 0 {
        raw := AfterHalfLine(raw);
      }
      assert raw == Widened(content, length, narrower);
      if from == 0 || Newlines(raw) >= collect {
        return;
      }
      length := from;
    }
  }

  /** Reading panics exactly if overflow is checked and the sum overflows, once the file has been opened. */
  method ReadTailOnce(file: Snapshot, requested: nat, offset: nat, overflowChecks: bool) returns (r: Outcome)
    ensures r == match file
                 case Missing => Read(NoPage)
                 case Unreadable => IoError
                 case Shrunk => if overflowChecks && Overflows(requested, offset) then Panicked else IoError
                 case Bytes(content) =>
                   if overflowChecks && Overflows(requested, offset) then Panicked
                   else Read(ReadPage(content, requested, offset))
  {
    if file.Missing? { return Read(NoPage); }
    if file.Unreadable? { return IoError; }
    hide NonEmpty, Collected, Clamped, Skip, Minus, Wanted;
    var limit := Clamped(requested);
    var skip := Skip(limit, offset);
    if overflowChecks && skip + limit + 1 >= USIZE { return Panicked; }
    if file.Shrunk? { return IoError; }
    var raw := CollectTail(file.content, Wanted(requested, offset));
    var lines := NonEmpty(raw);
    var end := Minus(|lines|, skip);
    var start := Minus(end, limit);
    r := Read(Page(lines[start..end], start > 0));
  }

  /** A file that shrinks under the reader is read once more, and then treated as gone. */
  method ReadTail(first: Snapshot, second: Snapshot, limit: nat, offset: nat, overflowChecks: bool)
    returns (r: Outcome)
    ensures r == Panicked <==> overflowChecks && Overflows(limit, offset) && (first.Shrunk? || first.Bytes?)
    ensures r == IoError <==> first.Unreadable?
    ensures r != Panicked ==>
              && (first.Bytes? ==> r == Read(ReadPage(first.content, limit, offset)))
              && (first.Shrunk? && second.Bytes? ==> r == Read(ReadPage(second.content, limit, offset)))
              && (first.Missing? || (first.Shrunk? && !second.Bytes?) ==> r == Read(NoPage))
  {
    r := ReadTailOnce(first, limit, offset, overflowChecks);
    if r.IoError? && first.Shrunk? {
      r := ReadTailOnce(second, limit, offset, overflowChecks);
      if r.IoError? {
        r := Read(NoPage);
      }
    }
  }

  /** Only offsets that lead past the start of any file overflow. */
  lemma OverflowsExactly(limit: nat, offset: nat)
    ensures Overflows(limit, offset) <==> Before(limit, offset) + Clamped(limit) + 1 >= USIZE
  {
  }

  /** A limit of 0 asks for one line, and nobody gets more than 500. */
  lemma ClampedExactly(limit: nat)
    ensures Clamped(limit) == if limit == 0 then 1 else if limit <= 500 then limit else 500
  {
  }

  // ---------- what a page should be ----------

  /** The page by the simple reading: all lines of the file, no chunks, no saturation. */
  function WholePage(content: seq<Byte>, limit: nat, offset: nat): Page {
    PageOf(NonEmpty(content), Before(limit, offset), Clamped(limit))
  }

  /** The lines on the `offset` newer pages. */
  function Before(limit: nat, offset: nat): nat {
    offset * Clamped(limit)
  }

  lemma BeforeNext(limit: nat, offset: nat)
    ensures Before(limit, 0) == 0
    ensures Before(limit, offset + 1) == Before(limit, offset) + Clamped(limit)
  {
  }

  /** The pages `k - 1` to 0, oldest first. */
  function Pages(content: seq<Byte>, limit: nat, k: nat): seq<Line> {
    if k == 0 then [] else WholePage(content, limit, k - 1).lines + Pages(content, limit, k - 1)
  }

  lemma NextPage(lines: seq<Line>, skip: nat, n: nat)
    requires n > 0
    ensures PageOf(lines, skip, n).lines + lines[Minus(|lines|, skip)..] == lines[Minus(|lines|, skip + n)..]
    ensures PageOf(lines, skip, n).hasMore <==> PageOf(lines, skip + n, n).lines != []
  {
  }

  /** Turning pages loses nothing and repeats nothing. */
  lemma {:induction false} PagesAreTheTail(content: seq<Byte>, limit: nat, k: nat)
    ensures var lines := NonEmpty(content);
            Pages(content, limit, k) == lines[Minus(|lines|, Before(limit, k))..]
  {
    var lines := NonEmpty(content);
    BeforeNext(limit, k);
    if k > 0 {
      PagesAreTheTail(content, limit, k - 1);
      BeforeNext(limit, k - 1);
      hide NonEmpty, Clamped, PageOf, Before;
      NextPage(lines, Before(limit, k - 1), Clamped(limit));
    }
  }

  /** `hasMore` says exactly whether the next older page has lines. */
  lemma HasMoreExact(content: seq<Byte>, limit: nat, k: nat)
    ensures WholePage(content, limit, k).hasMore <==> WholePage(content, limit, k + 1).lines != []
  {
    BeforeNext(limit, k);
    hide NonEmpty, Clamped, PageOf, Before;
    NextPage(NonEmpty(content), Before(limit, k), Clamped(limit));
  }

  // ---------- cutting a file at a newline ----------

  predicate EndsLine(s: seq<Byte>) {
    s != [] && s[|s| - 1] == NEWLINE
  }

  lemma LinesAfter(head: seq<Byte>, tail: seq<Byte>)
    requires EndsLine(head)
    ensures Lines(head + tail) == Lines(head) + Lines(tail) && Rest(head + tail) == Rest(tail)
  {
    assert Rest(head) == [] && [] + tail == tail;
    hide *;
    SplitAppend(head, tail);
  }

  lemma SplitAfter(head: seq<Byte>, tail: seq<Byte>)
    requires EndsLine(head)
    ensures Split(head + tail) == Lines(head) + Split(tail)
  {
    hide Lines, Rest, EndsLine;
    LinesAfter(head, tail);
  }

  lemma NonEmptyAfter(head: seq<Byte>, tail: seq<Byte>)
    requires EndsLine(head)
    ensures NonEmpty(head + tail) == Kept(Lines(head), Empty) + NonEmpty(tail)
  {
    hide Lines, Split, EndsLine, Kept;
    SplitAfter(head, tail);
    KeptAppend(Lines(head), Split(tail), Empty);
  }

  lemma {:induction false} NewlinesAreLines(s: seq<Byte>)
    ensures Newlines(s) == |Lines(s)|
  {
    if s != [] { NewlinesAreLines(s[..|s| - 1]); }
  }

  lemma {:induction false} KeptAll(lines: seq<Line>)
    requires [] !in lines
    ensures Kept(lines, Empty) == lines
  {
    if lines != [] {
      KeptAll(lines[1..]);
      assert [lines[0]] + lines[1..] == lines;
    }
  }

  lemma {:induction false} LinesBound(s: seq<Byte>)
    ensures |Lines(s)| <= |s|
  {
    if s != [] { LinesBound(s[..|s| - 1]); }
  }

  lemma {:induction false} KeptBound(lines: seq<Line>)
    ensures |Kept(lines, Empty)| <= |lines|
  {
    if lines != [] { KeptBound(lines[1..]); }
  }

  // ---------- one chunk ----------

  /** Saturation never shows: a skip that saturates is past the start of any file. */
  lemma WholeIsSaturated(content: seq<Byte>, limit: nat, offset: nat)
    requires |content| < USIZE - 1
    ensures WholePage(content, limit, offset) ==
        PageOf(NonEmpty(content), Skip(Clamped(limit), offset), Clamped(limit))
  {
    hide Lines, Rest, Kept;
    LinesBound(content);
    KeptBound(Split(content));
  }

  /** Files of at most one chunk: every page is the page of the whole file. */
  lemma OneChunk(content: seq<Byte>, limit: nat, offset: nat)
    requires |content| <= CHUNK
    ensures ReadPage(content, limit, offset) == WholePage(content, limit, offset)
  {
    WholeIsSaturated(content, limit, offset);
    assert content[0..|content|] + [] == content;
  }

  lemma CutChunk(content: seq<Byte>, from: nat) returns (half: seq<Byte>, tail: seq<Byte>)
    requires from <= |content| && NEWLINE in content[from..]
    ensures content == content[..from] + (half + [NEWLINE] + tail) && NEWLINE !in half
    ensures AfterHalfLine(content[from..]) == tail
  {
    var chunk := content[from..];
    var i := FirstNewline(chunk);
    assert chunk[..|chunk|] == chunk;
    half, tail := chunk[..i], chunk[i + 1..];
  }

  lemma LastChunk(content: seq<Byte>)
    requires |content| > CHUNK
    ensures Widened(content, |content|, []) == AfterHalfLine(content[|content| - CHUNK..])
  {
    hide AfterHalfLine;
    var from := |content| - CHUNK;
    assert Minus(|content|, CHUNK) == from;
    assert content[from..|content|] == content[from..];
    assert content[from..] + [] == content[from..];
  }

  /** The lines the last chunk gives when it holds a newline: the file's lines without some of the oldest. */
  lemma LastChunkIsTail(content: seq<Byte>) returns (head: seq<Byte>, kept: seq<Byte>)
    requires |content| > CHUNK && NEWLINE in content[|content| - CHUNK..]
    ensures kept == Widened(content, |content|, [])
    ensures content == head + kept && EndsLine(head)
    ensures NonEmpty(content) == Kept(Lines(head), Empty) + NonEmpty(kept)
  {
    hide Lines, Rest, Kept, NonEmpty, Widened, AfterHalfLine;
    var from := |content| - CHUNK;
    var half, tail := CutChunk(content, from);
    LastChunk(content);
    head, kept := content[..from] + half + [NEWLINE], tail;
    assert head + kept == content[..from] + (half + [NEWLINE] + tail);
    NonEmptyAfter(head, kept);
  }

  lemma PageOfTail(older: seq<Line>, lines: seq<Line>, skip: nat, n: nat)
    requires n > 0
    ensures PageOf(older + lines, skip, n) == PageOf(lines, skip, n) <==>
            (older == [] || |older + lines| <= skip || |lines| > skip + n)
  {
    var p, q := PageOf(older + lines, skip, n), PageOf(lines, skip, n);
    if |lines| >= skip + n {
      SliceOfTail(older, lines, |lines| - skip - n, |lines| - skip);
    } else if older != [] && |older + lines| > skip {
      assert |p.lines| > |q.lines| || p.hasMore != q.hasMore;
    }
  }

  lemma SliceOfTail(older: seq<Line>, lines: seq<Line>, i: nat, j: nat)
    requires i <= j <= |lines|
    ensures (older + lines)[|older| + i..|older| + j] == lines[i..j]
  {
    forall k | 0 <= k < j - i ensures (older + lines)[|older| + i..|older| + j][k] == lines[i..j][k] {
      assert (older + lines)[|older| + i + k] == lines[i + k];
    }
  }

  lemma StopsInLastChunk(content: seq<Byte>, limit: nat, offset: nat)
    requires CHUNK < |content| < USIZE - 1
    requires Before(limit, offset) + Clamped(limit) + 1 <= Newlines(Widened(content, |content|, []))
    ensures NEWLINE in content[|content| - CHUNK..]
    ensures ReadPage(content, limit, offset)
            == PageOf(NonEmpty(Widened(content, |content|, [])), Before(limit, offset), Clamped(limit))
  {
    var raw := Widened(content, |content|, []);
    LastChunk(content);
    NewlinesAreLines(raw);
    LinesBound(raw);
    var chunk := content[|content| - CHUNK..];
    if NEWLINE !in chunk {
      assert FirstNewline(chunk) == |chunk|;
      NoLine(chunk);
    }
    hide NonEmpty, Newlines, Widened, Clamped, PageOf, AfterHalfLine, Lines;
  }

  /**
   * When the last chunk alone satisfies the reader, the page is right exactly under the stated
   * condition on line counts.
   */
  lemma LastChunkExact(content: seq<Byte>, limit: nat, offset: nat)
    requires CHUNK < |content| < USIZE - 1
    requires Before(limit, offset) + Clamped(limit) + 1 <= Newlines(Widened(content, |content|, []))
    ensures var skip, n := Before(limit, offset), Clamped(limit);
            var all, kept := |NonEmpty(content)|, |NonEmpty(Widened(content, |content|, []))|;
            ReadPage(content, limit, offset) == WholePage(content, limit, offset) <==>
                (kept == all || all <= skip || kept > skip + n)
  {
    hide NonEmpty, Newlines, Widened, Clamped, PageOf, Kept, Before, ReadPage, Lines, EndsLine;
    StopsInLastChunk(content, limit, offset);
    var head, kept := LastChunkIsTail(content);
    PageOfTail(Kept(Lines(head), Empty), NonEmpty(kept), Before(limit, offset), Clamped(limit));
  }

  lemma NothingBlank(s: seq<Byte>)
    requires [] !in Lines(s)
    ensures |NonEmpty(s)| >= Newlines(s)
  {
    NewlinesAreLines(s);
    hide Lines, Rest, Newlines;
    KeptAll(Lines(s));
    KeptAppend(Lines(s), [Rest(s)], Empty);
  }

  /** Without blank lines, a last chunk with enough complete lines always gives the right page. */
  lemma EnoughLinesInLastChunk(content: seq<Byte>, limit: nat, offset: nat)
    requires CHUNK < |content| < USIZE - 1 && [] !in Lines(content)
    requires Before(limit, offset) + Clamped(limit) + 1 <= Newlines(Widened(content, |content|, []))
    ensures ReadPage(content, limit, offset) == WholePage(content, limit, offset)
  {
    hide NonEmpty, Newlines, Widened, Clamped, PageOf, Kept, Before, ReadPage, Lines, EndsLine, WholePage;
    StopsInLastChunk(content, limit, offset);
    var head, kept := LastChunkIsTail(content);
    LinesAfter(head, kept);
    NothingBlank(kept);
    LastChunkExact(content, limit, offset);
  }

  // ---------- two chunks ----------

  lemma SplitByte(s: seq<Byte>, b: Byte)
    ensures b == NEWLINE ==> Split(s + [b]) == Split(s) + [[]]
    ensures b != NEWLINE ==> Split(s + [b]) == Split(s)[..|Split(s)| - 1] + [Split(s)[|Split(s)| - 1] + [b]]
  {
    assert (s + [b])[..|s|] == s;
  }

  /** An unfinished line in front of `s` only makes its first piece longer. */
  lemma {:induction false} PrefixFirstPiece(r: seq<Byte>, s: seq<Byte>)
    requires NEWLINE !in r
    ensures Split(r + s) == [r + Split(s)[0]] + Split(s)[1..]
  {
    if s == [] {
      assert r + s == r && r + [] == r;
      NoLine(r);
    } else {
      var init, b := s[..|s| - 1], s[|s| - 1];
      assert s == init + [b] && r + s == (r + init) + [b];
      PrefixFirstPiece(r, init);
      SplitByte(init, b);
      SplitByte(r + init, b);
      hide Split;
      if b != NEWLINE && |Split(init)| == 1 {
        assert r + (Split(init)[0] + [b]) == (r + Split(init)[0]) + [b];
      }
    }
  }

  lemma SplitOfJoin(head: seq<Byte>, tail: seq<Byte>)
    ensures Split(head + tail) == Lines(head) + Split(Rest(head) + tail)
  {
    hide Lines, Rest;
    SplitAppend(head, tail);
  }

  /**
   * Dropping `half` and its newline from between `head` and `tail` merges two lines into one that the
   * file does not hold, and leaves all others alone.
   */
  lemma DroppedHalfLineMerges(head: seq<Byte>, half: seq<Byte>, tail: seq<Byte>)
    requires NEWLINE !in half
    ensures Split(head + (half + [NEWLINE] + tail)) == Lines(head) + [Rest(head) + half] + Split(tail)
    ensures Split(head + tail) == Lines(head) + [Rest(head) + Split(tail)[0]] + Split(tail)[1..]
  {
    hide *;
    GluedSplit(head, tail);
    var r, line := Rest(head), Rest(head) + half;
    RestHasNoNewline(head);
    OneLineSplit(line, tail);
    SplitOfJoin(head, half + [NEWLINE] + tail);
    Regroup(r, half, tail);
    Assoc(Lines(head), [line], Split(tail));
  }

  lemma Regroup(r: seq<Byte>, half: seq<Byte>, tail: seq<Byte>)
    ensures r + (half + [NEWLINE] + tail) == r + half + [NEWLINE] + tail
  {
  }

  lemma Assoc(a: seq<Line>, b: seq<Line>, c: seq<Line>)
    ensures a + (b + c) == a + b + c
  {
  }

  lemma GluedSplit(head: seq<Byte>, tail: seq<Byte>)
    ensures Split(head + tail) == Lines(head) + [Rest(head) + Split(tail)[0]] + Split(tail)[1..]
  {
    hide *;
    RestHasNoNewline(head);
    SplitOfJoin(head, tail);
    PrefixFirstPiece(Rest(head), tail);
    Assoc(Lines(head), [Rest(head) + Split(tail)[0]], Split(tail)[1..]);
  }

  lemma OneLineSplit(line: Line, tail: seq<Byte>)
    requires NEWLINE !in line
    ensures Split(line + [NEWLINE] + tail) == [line] + Split(tail)
  {
    hide Lines, Rest;
    FirstLine(line, tail);
  }

  /**
   * Every further chunk, whatever has been collected from the ones after it: its unfinished last line is
   * glued to the first line collected so far, and its own first piece is dropped unless it starts the file.
   */
  lemma EachChunkMerges(content: seq<Byte>, length: nat, raw: seq<Byte>)
    requires 0 < length <= |content|
    ensures var chunk := content[Minus(length, CHUNK)..length];
            var pieces := Lines(chunk) + [Rest(chunk) + Split(raw)[0]] + Split(raw)[1..];
            Split(Widened(content, length, raw)) == if length > CHUNK && |pieces| > 1 then pieces[1..] else pieces
  {
    var from := Minus(length, CHUNK);
    var chunk := content[from..length];
    GluedSplit(chunk, raw);
    hide Lines, Rest, Split;
    if from > 0 { DropFirstPiece(chunk + raw); }
  }

  lemma DropFirstPiece(s: seq<Byte>)
    ensures Split(AfterHalfLine(s)) == if |Split(s)| > 1 then Split(s)[1..] else Split(s)
  {
    var i := FirstNewline(s);
    if i < |s| {
      var half, tail := s[..i], s[i + 1..];
      assert s == half + [NEWLINE] + tail;
      hide Lines, Rest, Split;
      OneLineSplit(half, tail);
    } else {
      assert s[..i] == s;
      NoLine(s);
    }
  }

  /**
   * A page that needs a second chunk, which reaches the start of the file: the line over the chunk
   * boundary is cut, its head is glued to the next line, and everything else is as in the file.
   */
  lemma SecondChunkMerges(content: seq<Byte>, limit: nat, offset: nat)
      returns (head: seq<Byte>, half: seq<Byte>, tail: seq<Byte>)
    requires CHUNK < |content| <= 2 * CHUNK && NEWLINE in content[|content| - CHUNK..]
    requires Newlines(Widened(content, |content|, [])) < Wanted(limit, offset)
    ensures content == head + (half + [NEWLINE] + tail) && |head| == |content| - CHUNK && NEWLINE !in half
    ensures ReadPage(content, limit, offset) ==
        PageOf(NonEmpty(head + tail), Skip(Clamped(limit), offset), Clamped(limit))
    ensures Split(content) == Lines(head) + [Rest(head) + half] + Split(tail)
    ensures Split(head + tail) == Lines(head) + [Rest(head) + Split(tail)[0]] + Split(tail)[1..]
  {
    var from := |content| - CHUNK;
    half, tail := CutChunk(content, from);
    LastChunk(content);
    head := content[..from];
    SecondChunk(content, tail, Wanted(limit, offset));
    hide Lines, Rest, Split, NonEmpty, Newlines, AfterHalfLine, Widened, PageOf, Collected, Clamped, Skip;
    DroppedHalfLineMerges(head, half, tail);
  }

  lemma SecondChunk(content: seq<Byte>, tail: seq<Byte>, collect: nat)
    requires CHUNK < |content| <= 2 * CHUNK && tail == Widened(content, |content|, []) && Newlines(tail) < collect
    ensures Collected(content, |content|, [], collect) == content[..|content| - CHUNK] + tail
  {
    hide Newlines, AfterHalfLine;
    var from := |content| - CHUNK;
    assert content[0..from] == content[..from];
    assert Collected(content, from, tail, collect) == content[..from] + tail;
  }

  /** "ab", newline and 32766 bytes "c", asked for five lines: the page is "acc...c", which is no line of the file. */
  lemma MergedLineExample()
    ensures var rest := seq(CHUNK - 2, _ => 99 as Byte);
            var content := [97, 98, NEWLINE] + rest;
            && WholePage(content, 5, 0) == Page([[97, 98], rest], false)
            && ReadPage(content, 5, 0) == Page([[97] + rest], false)
  {
    var rest := seq(CHUNK - 2, _ => 99 as Byte);
    var content: seq<Byte> := [97, 98, NEWLINE] + rest;
    assert content == [97, 98] + [NEWLINE] + rest;
    TwoPieces([97, 98], rest);
    OnePiece([97] + rest);
    hide Lines, Rest, NonEmpty, Collected, Kept, Wanted;
    assert Wanted(5, 0) == 6 by { WantedFive(); }
    MergedExample(rest, content);
  }

  lemma WantedFive()
    ensures Wanted(5, 0) == 6
  {
  }

  lemma MergedExample(rest: seq<Byte>, content: seq<Byte>)
    requires content == [97, 98, NEWLINE] + rest && |rest| == CHUNK - 2 && NEWLINE !in rest
    ensures Collected(content, |content|, [], 6) == [97] + rest
  {
    NewlinesAreLines(rest);
    NoLine(rest);
    HalfLine([98], rest);
    hide Lines, Rest, Newlines, AfterHalfLine, Collected, Widened;
    assert content[1..] == [98] + [NEWLINE] + rest;
    LastChunk(content);
    SecondChunk(content, rest, 6);
    assert content[..1] == [97];
  }

  lemma HalfLine(half: seq<Byte>, tail: seq<Byte>)
    requires NEWLINE !in half
    ensures AfterHalfLine(half + [NEWLINE] + tail) == tail
  {
    var s := half + [NEWLINE] + tail;
    var i := FirstNewline(s);
    assert forall k :: 0 <= k < i ==> s[..i][k] == s[k];
    assert forall k :: 0 <= k < |half| ==> s[k] == half[k];
    assert s[|half|] == NEWLINE;
  }

  lemma OnePiece(s: seq<Byte>)
    requires NEWLINE !in s && s != []
    ensures NonEmpty(s) == [s]
  {
    NoLine(s);
    assert [] + [s] == [s];
    KeptAll([s]);
  }

  lemma TwoPieces(line: Line, last: seq<Byte>)
    requires NEWLINE !in line && NEWLINE !in last && line != [] && last != []
    ensures NonEmpty(line + [NEWLINE] + last) == [line, last]
  {
    OneLineSplit(line, last);
    NoLine(last);
    assert Split(last) == [last];
    KeptAll([line, last]);
    hide Lines, Rest, Kept;
    assert [line] + [last] == [line, last];
  }
}
