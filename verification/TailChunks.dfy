/**
 Log history pages that reach back over any number of chunks: what the reader has collected, and
 exactly when its lines and its page are those of the file. Everything is on the pieces between
 newlines, of which dropping a half line takes away the first.
 */
module TailChunks {
  import opened Wrappers
  import opened LogTail
  import opened TailPage

  // ---------- the reader on pieces ----------

  /** A chunk in front of pieces: its unfinished last line runs into the first of them. */
  function Glued(chunk: seq<Byte>, pieces: seq<Line>): (r: seq<Line>)
    requires pieces != []
    ensures |r| == |Lines(chunk)| + |pieces|
  {
    Lines(chunk) + [Rest(chunk) + pieces[0]] + pieces[1..]
  }

  /** Dropping up to the first newline, if there is one. */
  function WithoutFirst(pieces: seq<Line>): (r: seq<Line>)
    requires pieces != []
    ensures r != []
  {
    if |pieces| > 1 then pieces[1..] else pieces
  }

  function Chunk(content: seq<Byte>, length: nat): seq<Byte>
    requires length <= |content|
  {
    content[Minus(length, CHUNK)..length]
  }

  /** The pieces in hand before the half line of the oldest chunk is dropped, and where that chunk begins. */
  function Gathered(content: seq<Byte>, length: nat, pieces: seq<Line>, collect: nat): (r: (seq<Line>, nat))
    requires 0 < length <= |content| && pieces != []
    ensures r.0 != [] && r.1 < |content|
  {
    var from, wider := Minus(length, CHUNK), Glued(Chunk(content, length), pieces);
    if from == 0 || |WithoutFirst(wider)| > collect then (wider, from)
    else Gathered(content, from, WithoutFirst(wider), collect)
  }

  /** The half line dropped behind `chunk` was empty and made no two lines one, or there was none. */
  predicate Harmless(chunk: seq<Byte>, pieces: seq<Line>)
    requires pieces != []
  {
    |pieces| == 1 || (pieces[0] == [] && (Rest(chunk) == [] || pieces[1] == []))
  }

  /** So at every chunk boundary that the reader crosses. */
  predicate AllHarmless(content: seq<Byte>, length: nat, pieces: seq<Line>, collect: nat)
    requires 0 < length <= |content| && pieces != []
  {
    var from, wider := Minus(length, CHUNK), Glued(Chunk(content, length), pieces);
    || from == 0
    || |WithoutFirst(wider)| > collect
    || (Harmless(Chunk(content, from), wider) && AllHarmless(content, from, WithoutFirst(wider), collect))
  }

  /** For any number of chunks the reader's bytes are the pieces gathered chunk by chunk. */
  lemma {:induction false} CollectedPieces(content: seq<Byte>, length: nat, raw: seq<Byte>, collect: nat)
    requires 0 < length <= |content|
    ensures var (wider, from) := Gathered(content, length, Split(raw), collect);
            Split(Collected(content, length, raw, collect)) == if from == 0 then wider else WithoutFirst(wider)
    decreases length
  {
    hide Lines, Rest, Split, Widened;
    var from, next := Minus(length, CHUNK), Widened(content, length, raw);
    EachChunkMerges(content, length, raw);
    NewlinesAreLines(next);
    assert |Split(next)| == Newlines(next) + 1 by { PiecesAreNewlines(next); }
    if from > 0 && |Split(next)| <= collect {
      CollectedPieces(content, from, next, collect);
    }
  }

  lemma PiecesAreNewlines(s: seq<Byte>)
    ensures |Split(s)| == Newlines(s) + 1
  {
    NewlinesAreLines(s);
  }

  // ---------- how much is in pieces ----------

  /** The bytes in all pieces. */
  function Size(pieces: seq<Line>): nat {
    if pieces == [] then 0 else |pieces[0]| + Size(pieces[1..])
  }

  lemma {:induction false} SizeAppend(a: seq<Line>, b: seq<Line>)
    ensures Size(a + b) == Size(a) + Size(b)
  {
    if a == [] {
      assert a + b == b;
    } else {
      assert (a + b)[1..] == a[1..] + b;
      SizeAppend(a[1..], b);
    }
  }

  lemma {:induction false} SizeOfKept(pieces: seq<Line>)
    ensures Size(Kept(pieces, Empty)) == Size(pieces)
  {
    if pieces != [] { SizeOfKept(pieces[1..]); }
  }

  lemma GluedMeasures(chunk: seq<Byte>, pieces: seq<Line>)
    requires pieces != []
    ensures Size(Glued(chunk, pieces)) == Size(Lines(chunk)) + |Rest(chunk)| + Size(pieces)
    ensures var rest := if Rest(chunk) + pieces[0] == [] then [] else [Rest(chunk) + pieces[0]];
            Kept(Glued(chunk, pieces), Empty) == Kept(Lines(chunk), Empty) + rest + Kept(pieces[1..], Empty)
  {
    var glue := Rest(chunk) + pieces[0];
    hide Lines, Rest;
    SizeAppend(Lines(chunk) + [glue], pieces[1..]);
    SizeAppend(Lines(chunk), [glue]);
    KeptAppend(Lines(chunk) + [glue], pieces[1..], Empty);
    KeptAppend(Lines(chunk), [glue], Empty);
    assert [glue][1..] == [];
  }

  // ---------- what the reader has against what the file has ----------

  predicate Same(p: seq<Line>, q: seq<Line>) {
    Kept(p, Empty) == Kept(q, Empty)
  }

  /** Bytes are missing, or no bytes but a line. */
  predicate Lost(p: seq<Line>, q: seq<Line>) {
    Size(p) < Size(q) || (Size(p) == Size(q) && |Kept(p, Empty)| < |Kept(q, Empty)|)
  }

  lemma LostIsNotSame(p: seq<Line>, q: seq<Line>)
    ensures !(Lost(p, q) && Same(p, q))
  {
    SizeOfKept(p);
    SizeOfKept(q);
  }

  /** The reader's pieces `p` and the file's `q` begin alike, and a single piece is not empty. */
  predicate Comparable(p: seq<Line>, q: seq<Line>) {
    && p != [] && q != []
    && (p[0] == [] <==> q[0] == [])
    && (|p| == 1 ==> p[0] != [])
  }

  lemma KeptFirst(p: seq<Line>)
    requires p != []
    ensures Kept(p, Empty) == (if p[0] == [] then [] else [p[0]]) + Kept(p[1..], Empty)
    ensures Size(p) == |p[0]| + Size(p[1..])
  {
  }

  /** A chunk put in front of pieces that are those of the file keeps them so exactly at a harmless boundary. */
  lemma GlueExactly(chunk: seq<Byte>, p: seq<Line>, q: seq<Line>)
    requires Comparable(p, q) && Same(p, q)
    ensures if Harmless(chunk, p) then Same(Glued(chunk, WithoutFirst(p)), Glued(chunk, q))
            else Lost(Glued(chunk, WithoutFirst(p)), Glued(chunk, q))
  {
    var x := WithoutFirst(p);
    SizeOfKept(p);
    SizeOfKept(q);
    KeptFirst(p);
    KeptFirst(q);
    KeptFirst(x);
    GluedMeasures(chunk, x);
    GluedMeasures(chunk, q);
    hide Glued, Kept, Lines, Rest, Size;
    if |p| == 1 {
      assert Kept(p[1..], Empty) == [] by { NothingKept(p[1..]); }
      assert [p[0]] + [] == [q[0]] + Kept(q[1..], Empty);
      assert p[0] == q[0];
    } else if p[0] == [] {
      assert [] + Kept(x, Empty) == Kept(x, Empty) && [] + Kept(q[1..], Empty) == Kept(q[1..], Empty);
      assert Rest(chunk) + [] == Rest(chunk) && [] + x[0] == x[0];
      assert Kept(x, Empty) == Kept(q[1..], Empty);
      Shorter(Kept(Lines(chunk), Empty), Rest(chunk), x[0], Kept(x[1..], Empty));
    }
  }

  lemma NothingKept(pieces: seq<Line>)
    requires pieces == []
    ensures Kept(pieces, Empty) == []
  {
  }

  lemma Shorter(lines: seq<Line>, r: Line, first: Line, more: seq<Line>)
    ensures r == [] && first != [] ==> lines + [] + ([first] + more) == lines + [first] + more
    ensures lines + [r] + ([] + more) == lines + [r] + more
    ensures |lines + [r] + ([first] + more)| == |lines + [r + first] + more| + 1
  {
  }

  /** What is missing stays missing: the reader gets nothing that the file does not get. */
  lemma GlueLoses(chunk: seq<Byte>, p: seq<Line>, q: seq<Line>)
    requires Comparable(p, q) && Lost(p, q)
    ensures Lost(Glued(chunk, WithoutFirst(p)), Glued(chunk, q))
  {
    var x := WithoutFirst(p);
    KeptFirst(p);
    KeptFirst(q);
    KeptFirst(x);
    GluedMeasures(chunk, x);
    GluedMeasures(chunk, q);
    hide Glued, Kept, Lines, Rest, Size;
  }

  lemma GlueComparable(chunk: seq<Byte>, p: seq<Line>, q: seq<Line>)
    requires Comparable(p, q) && chunk != []
    ensures Comparable(Glued(chunk, WithoutFirst(p)), Glued(chunk, q))
    ensures Lines(chunk) != [] ==> Glued(chunk, WithoutFirst(p))[0] == Glued(chunk, q)[0]
  {
    if Lines(chunk) == [] {
      RestIsAll(chunk);
    }
  }

  lemma {:induction false} RestIsAll(s: seq<Byte>)
    requires Lines(s) == []
    ensures Rest(s) == s
  {
    if s != [] { RestIsAll(s[..|s| - 1]); }
  }

  // ---------- any number of chunks ----------

  /** From `p` against `q` on, the reader comes to `p'` against `q'`, losing something unless `harmless`. */
  predicate Leads(p: seq<Line>, q: seq<Line>, p': seq<Line>, q': seq<Line>, harmless: bool) {
    && (Same(p, q) ==> if harmless then Same(p', q') else Lost(p', q'))
    && (Lost(p, q) ==> Lost(p', q'))
  }

  lemma LeadsOn(p: seq<Line>, q: seq<Line>, p': seq<Line>, q': seq<Line>, p'': seq<Line>, q'': seq<Line>, h: bool,
      h': bool)
    requires Leads(p, q, p', q', h) && Leads(p', q', p'', q'', h')
    ensures Leads(p, q, p'', q'', h && h')
  {
    hide Same, Lost;
  }

  lemma GlueLeads(chunk: seq<Byte>, p: seq<Line>, q: seq<Line>)
    requires Comparable(p, q)
    ensures Leads(p, q, Glued(chunk, WithoutFirst(p)), Glued(chunk, q), Harmless(chunk, p))
  {
    hide Same, Lost, Glued, Harmless, WithoutFirst;
    if Same(p, q) { GlueExactly(chunk, p, q); }
    if Lost(p, q) { GlueLoses(chunk, p, q); }
  }

  /**
   * The reader holds `p` down to `length`, where the file has `q`; its losses from there on are
   * exactly the harmful boundaries.
   */
  lemma {:induction false} GatheredExactly(content: seq<Byte>, length: nat, p: seq<Line>, q: seq<Line>, collect: nat)
    requires 0 < length <= |content| && Comparable(p, q) && q == Split(content[length..])
    requires |WithoutFirst(p)| <= collect
    ensures var x := WithoutFirst(p);
            var (wider, from) := Gathered(content, length, x, collect);
            var all := Split(content[from..]);
            && Leads(p, q, wider, all, Harmless(Chunk(content, length), p) &&
                AllHarmless(content, length, x, collect))
            && (from > 0 ==> |wider| > 1 && |all| > 1 && wider[0] == all[0])
    decreases length
  {
    var from, chunk, x := Minus(length, CHUNK), Chunk(content, length), WithoutFirst(p);
    var p', q' := Glued(chunk, x), Glued(chunk, q);
    assert content[from..] == chunk + content[length..];
    GluedSplit(chunk, content[length..]);
    assert q' == Split(content[from..]);
    GlueLeads(chunk, p, q);
    GlueComparable(chunk, p, q);
    hide Lines, Rest, Kept, Size, Leads, Harmless, Comparable;
    if from > 0 && |WithoutFirst(p')| <= collect {
      GatheredExactly(content, from, p', q', collect);
      var (wider, f) := Gathered(content, from, WithoutFirst(p'), collect);
      LeadsOn(p, q, p', q', wider, Split(content[f..]), Harmless(chunk, p),
              Harmless(Chunk(content, from), p') && AllHarmless(content, from, WithoutFirst(p'), collect));
    }
  }

  /** The bytes of the file from the first line that begins in the chunk at `from`. */
  function FromLine(content: seq<Byte>, from: nat): seq<Byte>
    requires from <= |content|
  {
    if from == 0 then content else AfterHalfLine(content[from..])
  }

  /** Where the reader stops. */
  function Reach(content: seq<Byte>, collect: nat): nat
    requires content != []
  {
    Gathered(content, |content|, Split([]), collect).1
  }

  predicate NoLoss(content: seq<Byte>, collect: nat)
    requires content != []
  {
    AllHarmless(content, |content|, Split([]), collect)
  }

  lemma GatheredFromEnd(content: seq<Byte>, collect: nat)
    requires content != [] && collect >= 1
    ensures var (wider, from) := Gathered(content, |content|, Split([]), collect);
            var all := Split(content[from..]);
            && (Same(wider, all) <==> NoLoss(content, collect))
            && (from > 0 ==> |wider| > 1 && |all| > 1 && wider[0] == all[0])
  {
    var n := |content|;
    var from, chunk := Minus(n, CHUNK), Chunk(content, n);
    var first := Glued(chunk, Split([]));
    assert content[from..] == chunk && chunk + [] == chunk;
    GluedSplit(chunk, []);
    assert first == Split(chunk);
    if Lines(chunk) == [] { RestIsAll(chunk); }
    assert Comparable(first, first) && Same(first, first);
    hide Lines, Rest, Kept, Size, Harmless, Comparable, Split, Glued;
    if from > 0 && |WithoutFirst(first)| <= collect {
      GatheredExactly(content, from, first, first, collect);
      var (wider, f) := Gathered(content, from, WithoutFirst(first), collect);
      LostIsNotSame(wider, Split(content[f..]));
    }
  }

  /**
   * For any number of chunks: the lines collected are those of the file from where the reader stops
   * exactly when every half line dropped on the way was empty and made no two lines one.
   */
  lemma CollectedExactly(content: seq<Byte>, collect: nat)
    requires content != [] && collect >= 1
    ensures var from := Reach(content, collect);
            NonEmpty(Collected(content, |content|, [], collect)) == NonEmpty(FromLine(content, from)) <==>
                NoLoss(content, collect)
  {
    var (wider, from) := Gathered(content, |content|, Split([]), collect);
    hide NoLoss, Gathered, Collected, AllHarmless, Lines, Rest, Kept, Split, AfterHalfLine;
    GatheredFromEnd(content, collect);
    CollectedPieces(content, |content|, [], collect);
    var all := Split(content[from..]);
    if from == 0 {
      assert content[0..] == content;
    } else {
      DropFirstPiece(content[from..]);
      KeptFirst(wider);
      KeptFirst(all);
      SamePrefix(if wider[0] == [] then [] else [wider[0]], Kept(wider[1..], Empty), Kept(all[1..], Empty));
    }
  }

  /**
   * At one boundary: dropping `half` between `head` and `tail` is harmless exactly when it is empty
   * and merges nothing.
   */
  lemma MergeExactly(head: seq<Byte>, half: seq<Byte>, tail: seq<Byte>)
    requires NEWLINE !in half
    ensures NonEmpty(head + tail) == NonEmpty(head + (half + [NEWLINE] + tail)) <==>
            half == [] && (Rest(head) == [] || Split(tail)[0] == [])
  {
    var p := [half] + Split(tail);
    DroppedHalfLineMerges(head, half, tail);
    hide Lines, Rest, Kept, Split;
    assert WithoutFirst(p) == Split(tail);
    assert p[1..] == Split(tail);
    assert Glued(head, Split(tail)) == Split(head + tail);
    assert Glued(head, p) == Split(head + (half + [NEWLINE] + tail));
    assert Comparable(p, p) && Same(p, p);
    GlueExactly(head, p, p);
    LostIsNotSame(Glued(head, Split(tail)), Glued(head, p));
  }

  // ---------- pages ----------

  lemma FileIsOlderAndKept(content: seq<Byte>, from: nat) returns (older: seq<Line>)
    requires from < |content| && (from > 0 ==> |Split(content[from..])| > 1)
    ensures NonEmpty(content) == older + NonEmpty(FromLine(content, from))
  {
    older := [];
    if from > 0 {
      var rest := content[from..];
      if NEWLINE !in rest { NoLine(rest); }
      hide Lines, Rest, Kept, NonEmpty, AfterHalfLine, EndsLine, Split;
      var half, tail := CutChunk(content, from);
      var head := content[..from] + half + [NEWLINE];
      EndsInNewline(content[..from] + half);
      AssocBytes(content[..from], half, [NEWLINE], tail);
      NonEmptyAfter(head, tail);
      older := Kept(Lines(head), Empty);
    } else {
      assert [] + NonEmpty(content) == NonEmpty(content);
    }
  }

  lemma AssocBytes(a: seq<Byte>, b: seq<Byte>, c: seq<Byte>, d: seq<Byte>)
    ensures a + (b + c + d) == a + b + c + d
  {
  }

  lemma EndsInNewline(s: seq<Byte>)
    ensures EndsLine(s + [NEWLINE])
  {
  }

  /**
   * A page for whose sake no line was lost, over any number of chunks, is the page of the whole file
   * exactly under the condition on line counts that holds for one chunk.
   */
  lemma PageExactly(content: seq<Byte>, limit: nat, offset: nat)
    requires 0 < |content| < USIZE - 1 && Before(limit, offset) + Clamped(limit) + 1 < USIZE
    requires NoLoss(content, Wanted(limit, offset))
    ensures var skip, n := Before(limit, offset), Clamped(limit);
            var all, kept := |NonEmpty(content)|,
                |NonEmpty(Collected(content, |content|, [], Wanted(limit, offset)))|;
            ReadPage(content, limit, offset) == WholePage(content, limit, offset) <==>
                (kept == all || all <= skip || kept > skip + n)
  {
    var skip, n, collect := Before(limit, offset), Clamped(limit), Wanted(limit, offset);
    assert Skip(n, offset) == skip && collect == skip + n + 1;
    hide Before, Clamped, Wanted, Skip, Lines, Rest, Kept, NonEmpty, Collected, PageOf, NoLoss, Gathered, Split;
    GatheredFromEnd(content, collect);
    CollectedExactly(content, collect);
    var older := FileIsOlderAndKept(content, Reach(content, collect));
    PageOfTail(older, NonEmpty(Collected(content, |content|, [], collect)), skip, n);
  }

  /** The line `i` before the last `skip` and one. */
  function FromEnd(lines: seq<Line>, skip: nat, i: nat): Option<Line> {
    if skip + i < |lines| then Some(lines[|lines| - 1 - skip - i]) else None
  }

  predicate AgreeFromEnd(x: seq<Line>, y: seq<Line>, skip: nat, n: nat) {
    forall i: nat :: i < n ==> FromEnd(x, skip, i) == FromEnd(y, skip, i)
  }

  /**
   * Two files show the same page exactly when they agree, from their ends, on its lines and on whether
   * there are more.
   */
  lemma SamePageExactly(x: seq<Line>, y: seq<Line>, skip: nat, n: nat)
    requires n > 0
    ensures PageOf(x, skip, n) == PageOf(y, skip, n) <==>
            (|x| > skip + n <==> |y| > skip + n) && AgreeFromEnd(x, y, skip, n)
  {
    var a, b := PageOf(x, skip, n), PageOf(y, skip, n);
    forall i: nat | i < n
      ensures FromEnd(a.lines, 0, i) == FromEnd(x, skip, i) && FromEnd(b.lines, 0, i) == FromEnd(y, skip, i)
    {
    }
    if AgreeFromEnd(x, y, skip, n) {
      SameFromEnd(a.lines, b.lines, n);
    }
  }

  lemma SameFromEnd(a: seq<Line>, b: seq<Line>, n: nat)
    requires |a| <= n && |b| <= n && AgreeFromEnd(a, b, 0, n)
    ensures a == b
  {
    assert |a| < n ==> FromEnd(a, 0, |a|) == FromEnd(b, 0, |a|);
    assert |b| < n ==> FromEnd(a, 0, |b|) == FromEnd(b, 0, |b|);
    forall k | 0 <= k < |a| ensures a[k] == b[k] {
      assert FromEnd(a, 0, |a| - 1 - k) == FromEnd(b, 0, |a| - 1 - k);
    }
  }

  /** So for every read: its page is right exactly when what it collected agrees with the file on that page. */
  lemma AnyPageExactly(content: seq<Byte>, limit: nat, offset: nat)
    requires |content| < USIZE - 1 && Before(limit, offset) < USIZE
    ensures var skip, n := Before(limit, offset), Clamped(limit);
            var x, y := NonEmpty(Collected(content, |content|, [], Wanted(limit, offset))), NonEmpty(content);
            ReadPage(content, limit, offset) == WholePage(content, limit, offset) <==>
            (|x| > skip + n <==> |y| > skip + n) && AgreeFromEnd(x, y, skip, n)
  {
    var skip, n := Before(limit, offset), Clamped(limit);
    assert Skip(n, offset) == skip;
    hide Before, Clamped, Wanted, Skip, NonEmpty, Collected, PageOf;
    SamePageExactly(NonEmpty(Collected(content, |content|, [], Wanted(limit, offset))), NonEmpty(content), skip, n);
  }

  /** If the file has no more lines than one page holds, that page is right exactly when no line was lost. */
  lemma OnePageFileExactly(content: seq<Byte>, limit: nat)
    requires 0 < |content| < USIZE - 1 && |NonEmpty(content)| <= Clamped(limit)
    requires Reach(content, Wanted(limit, 0)) == 0
    ensures ReadPage(content, limit, 0) == WholePage(content, limit, 0) <==> NoLoss(content, Wanted(limit, 0))
  {
    var n, collect := Clamped(limit), Wanted(limit, 0);
    BeforeNext(limit, 0);
    WantedFirst(limit);
    hide Clamped, Wanted, Before, Lines, Rest, Kept, NonEmpty, Collected, NoLoss, Gathered, Split, Reach;
    CollectedExactly(content, collect);
    var x, y := NonEmpty(Collected(content, |content|, [], collect)), NonEmpty(content);
    assert PageOf(y, 0, n) == Page(y, false) by { assert y[0..|y|] == y; }
    assert PageOf(x, 0, n) == Page(y, false) <==> x == y by {
      if |x| <= n { assert x[0..|x|] == x; }
    }
  }

  lemma WantedFirst(limit: nat)
    ensures Skip(Clamped(limit), 0) == 0 && Wanted(limit, 0) == Clamped(limit) + 1
  {
  }
}
