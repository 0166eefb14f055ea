/**
 The live log follower: it polls a growing file in bounded batches, keeps the unfinished last line,
 and publishes complete non-blank lines with sequence numbers. The file is fixed within one poll.
 */
module LogTail {
  import opened Wrappers

  const NEWLINE: Byte := 10

  /** 64 KiB. */
  const READ_BATCH: nat := 65536

  /** 1 MiB. */
  const PENDING_MAX: nat := 1048576

  type Line = seq<Byte>

  /** A published line and its sequence number. */
  datatype Item = Item(number: nat, line: Line)

  /** The follower between two polls; `published` is what the bus has been given so far. */
  datatype State = State(pos: nat, pending: seq<Byte>, number: nat, lastByte: Option<Byte>, published: seq<Item>)

  function Fresh(pos: nat, published: seq<Item>): State {
    State(pos, [], 0, None, published)
  }

  // ---------- splitting a byte string into lines ----------

  /** The complete lines of `s`, without their newlines. */
  function Lines(s: seq<Byte>): seq<Line> {
    if s == [] then []
    else
      var init, last := s[..|s| - 1], s[|s| - 1];
      if last == NEWLINE then Lines(init) + [Rest(init)] else Lines(init)
  }

  /** What follows the last newline. */
  function Rest(s: seq<Byte>): seq<Byte> {
    if s == [] then []
    else
      var init, last := s[..|s| - 1], s[|s| - 1];
      if last == NEWLINE then [] else Rest(init) + [last]
  }

  function Kept(lines: seq<Line>, blank: Line -> bool): seq<Line> {
    if lines == [] then []
    else if blank(lines[0]) then Kept(lines[1..], blank)
    else [lines[0]] + Kept(lines[1..], blank)
  }

  /** Lines paired with the numbers after `n`. */
  function Numbered(lines: seq<Line>, n: nat): seq<Item> {
    seq(|lines|, (i: int) requires 0 <= i < |lines| => Item(n + 1 + i, lines[i]))
  }

  lemma OneMoreByte(s: seq<Byte>, b: Byte)
    ensures Lines(s + [b]) == if b == NEWLINE then Lines(s) + [Rest(s)] else Lines(s)
    ensures Rest(s + [b]) == if b == NEWLINE then [] else Rest(s) + [b]
  {
    assert (s + [b])[..|s|] == s;
  }

  /** Where a byte string is cut does not matter, as long as the unfinished line is carried over. */
  lemma {:induction false} SplitAppend(a: seq<Byte>, b: seq<Byte>)
    ensures Lines(a + b) == Lines(a) + Lines(Rest(a) + b)
    ensures Rest(a + b) == Rest(Rest(a) + b)
    decreases |b|
  {
    hide Lines, Rest;
    if b == [] {
      assert a + b == a && Rest(a) + b == Rest(a);
      RestHasNoNewline(a);
      NoLine(Rest(a));
    } else {
      var init, last := b[..|b| - 1], b[|b| - 1];
      SplitAppend(a, init);
      assert a + b == a + init + [last] && Rest(a) + b == Rest(a) + init + [last];
      OneMoreByte(a + init, last);
      OneMoreByte(Rest(a) + init, last);
    }
  }

  lemma {:induction false} RestHasNoNewline(s: seq<Byte>)
    ensures NEWLINE !in Rest(s)
  {
    if s != [] { RestHasNoNewline(s[..|s| - 1]); }
  }

  lemma {:induction false} NoLine(s: seq<Byte>)
    requires NEWLINE !in s
    ensures Lines(s) == [] && Rest(s) == s
  {
    if s != [] { NoLine(s[..|s| - 1]); }
  }

  lemma FirstLine(line: Line, rest: seq<Byte>)
    requires NEWLINE !in line
    ensures Lines(line + [NEWLINE] + rest) == [line] + Lines(rest)
    ensures Rest(line + [NEWLINE] + rest) == Rest(rest)
  {
    NoLine(line);
    var head := line + [NEWLINE];
    assert head[..|line|] == line && [] + rest == rest;
    SplitAppend(head, rest);
  }

  lemma {:induction false} KeptAppend(a: seq<Line>, b: seq<Line>, blank: Line -> bool)
    ensures Kept(a + b, blank) == Kept(a, blank) + Kept(b, blank)
  {
    if a == [] {
      assert a + b == b;
    } else {
      assert (a + b)[1..] == a[1..] + b;
      KeptAppend(a[1..], b, blank);
    }
  }

  lemma NumberedAppend(a: seq<Line>, b: seq<Line>, n: nat)
    ensures Numbered(a + b, n) == Numbered(a, n) + Numbered(b, n + |a|)
  {
  }

  // ---------- one poll ----------

  predicate Rewritten(s: State, content: seq<Byte>)
    requires s.pos <= |content|
  {
    s.lastByte.Some? && s.pos > 0 && content[s.pos - 1] != s.lastByte.value
  }

  function Min(a: nat, b: nat): nat {
    if a <= b then a else b
  }

  /** Publishes every complete line of `pending`. */
  function Published(s: State, pending: seq<Byte>, blank: Line -> bool): State {
    var kept := Kept(Lines(pending), blank);
    s.(pending := Rest(pending), number := s.number + |kept|, published := s.published + Numbered(kept, s.number))
  }

  /** The guard against endless lines: everything up to the last newline goes, or everything. */
  function Capped(pending: seq<Byte>): seq<Byte> {
    if |pending| <= PENDING_MAX then pending
    else if NEWLINE in pending then Rest(pending)
    else []
  }

  function Polled(s: State, content: seq<Byte>, blank: Line -> bool): State {
    if |content| < s.pos || Rewritten(s, content) then Fresh(0, s.published)
    else if |content| == s.pos then s
    else
      var end := Min(|content|, s.pos + READ_BATCH);
      Published(s.(pos := end, lastByte := Some(content[end - 1])), Capped(s.pending + content[s.pos..end]), blank)
  }

  function PolledAll(s: State, contents: seq<seq<Byte>>, blank: Line -> bool): State {
    if contents == [] then s
    else Polled(PolledAll(s, contents[..|contents| - 1], blank), contents[|contents| - 1], blank)
  }

  lemma NothingDone(number: nat, blank: Line -> bool)
    ensures Kept([], blank) == [] && Numbered(Kept([], blank), number) == []
  {
  }

  lemma NumberedOne(kept: seq<Line>, line: Line, number: nat)
    ensures Numbered(kept + [line], number) == Numbered(kept, number) + [Item(number + |kept| + 1, line)]
  {
  }

  lemma KeptOne(done: seq<Line>, line: Line, blank: Line -> bool)
    ensures Kept(done + [line], blank) == Kept(done, blank) + (if blank(line) then [] else [line])
  {
    KeptAppend(done, [line], blank);
    assert [line][1..] == [];
  }

  /** One more line done: it is published with the next number unless it is blank. */
  lemma LineDone(done: seq<Line>, line: Line, number: nat, blank: Line -> bool)
    ensures var kept, more := Kept(done, blank), Kept(done + [line], blank);
            if blank(line) then more == kept
            else
              && |more| == |kept| + 1
              && Numbered(more, number) == Numbered(kept, number) + [Item(number + |kept| + 1, line)]
  {
    hide Kept, Numbered;
    KeptOne(done, line, blank);
    var kept := Kept(done, blank);
    if blank(line) {
      assert kept + [] == kept;
    } else {
      NumberedOne(kept, line, number);
    }
  }

  class TailWatcher {
    const blank: Line -> bool
    var pos: nat
    var pending: seq<Byte>
    var number: nat
    var lastByte: Option<Byte>
    var bus: seq<Item>

    function Contents(): State
      reads this
    {
      State(pos, pending, number, lastByte, bus)
    }

    /** The first open follows the end of the file only. */
    constructor (blank: Line -> bool, length: nat)
      ensures this.blank == blank && Contents() == Fresh(length, [])
    {
      this.blank := blank;
      pos, pending, number, lastByte, bus := length, [], 0, None, [];
    }

    method Restart()
      modifies this
      ensures Contents() == Fresh(0, old(bus))
    {
      pending, number, lastByte, pos := [], 0, None, 0;
    }

    method Position(s: seq<Byte>) returns (i: nat)
      ensures i <= |s| && (i < |s| ==> s[i] == NEWLINE)
      ensures forall k :: 0 <= k < i ==> s[k] != NEWLINE
    {
      i := 0;
      while i < |s| && s[i] != NEWLINE
        invariant i <= |s| && forall k :: 0 <= k < i ==> s[k] != NEWLINE
      {
        i := i + 1;
      }
    }

    method LastPosition(s: seq<Byte>) returns (i: int)
      ensures -1 <= i < |s|
      ensures i >= 0 ==> s[i] == NEWLINE
      ensures forall k :: i < k < |s| ==> s[k] != NEWLINE
    {
      i := |s| - 1;
      while i >= 0 && s[i] != NEWLINE
        invariant -1 <= i < |s| && forall k :: i < k < |s| ==> s[k] != NEWLINE
      {
        i := i - 1;
      }
    }

    method CapPending()
      modifies this`pending
      ensures pending == Capped(old(pending))
    {
      if |pending| > PENDING_MAX {
        var keepFrom := LastPosition(pending);
        if keepFrom >= 0 {
          RestAfterLast(pending, keepFrom);
          pending := pending[keepFrom + 1..];
        } else {
          pending := [];
        }
      }
    }

    method PublishLines()
      modifies this`pending, this`number, this`bus
      ensures Contents() == Published(old(Contents()), old(pending), blank)
    {
      ghost var done: seq<Line> := [];
      NothingDone(number, blank);
      hide Lines, Rest, Kept, Numbered;
      assert done + Lines(pending) == Lines(pending);
      assert bus + Numbered(Kept(done, blank), number) == bus;
      var newline := Position(pending);
      while newline < |pending|
        invariant 0 <= newline <= |pending| && (newline < |pending| ==> pending[newline] == NEWLINE)
        invariant forall k :: 0 <= k < newline ==> pending[k] != NEWLINE
        invariant Lines(old(pending)) == done + Lines(pending) && Rest(old(pending)) == Rest(pending)
        invariant number == old(number) + |Kept(done, blank)|
        invariant bus == old(bus) + Numbered(Kept(done, blank), old(number))
        decreases |pending|
      {
        var line := pending[..newline];
        FirstLine(line, pending[newline + 1..]);
        assert pending == line + [NEWLINE] + pending[newline + 1..];
        LineDone(done, line, old(number), blank);
        pending := pending[newline + 1..];
        done := done + [line];
        assert Lines(old(pending)) == done + Lines(pending);
        if !blank(line) {
          number := number + 1;
          bus := bus + [Item(number, line)];
        }
        newline := Position(pending);
      }
      NoLine(pending);
      assert done + [] == done;
    }

    /** One turn of the inner loop on a file whose identity is unchanged. */
    method Poll(content: seq<Byte>)
      modifies this
      ensures Contents() == Polled(old(Contents()), content, blank)
    {
      hide Lines, Rest, Kept, Numbered, Capped;
      if |content| < pos {
        Restart();
        return;
      }
      if lastByte.Some? && pos > 0 && content[pos - 1] != lastByte.value {
        Restart();
        return;
      }
      if |content| == pos {
        return;
      }
      var end := if |content| <= pos + READ_BATCH then |content| else pos + READ_BATCH;
      var buf := content[pos..end];
      pos := end;
      lastByte := Some(buf[|buf| - 1]);
      pending := pending + buf;
      CapPending();
      PublishLines();
    }
  }

  lemma RestAfterLast(s: seq<Byte>, i: nat)
    requires i < |s| && s[i] == NEWLINE && forall k :: i < k < |s| ==> s[k] != NEWLINE
    ensures Rest(s) == s[i + 1..]
  {
    var head, tail := s[..i + 1], s[i + 1..];
    assert s == head + tail && [] + tail == tail;
    assert Rest(head) == [];
    hide Rest, Lines;
    SplitAppend(head, tail);
    NoLine(tail);
  }

  // ---------- streaming equals batch splitting ----------

  /** The bytes that one poll takes in. */
  function Batch(s: State, content: seq<Byte>): seq<Byte>
    requires s.pos <= |content|
  {
    content[s.pos..Min(|content|, s.pos + READ_BATCH)]
  }

  /** The bytes that one poll splits into lines, after the guard. */
  function Cut(s: State, content: seq<Byte>): seq<Byte>
    requires s.pos <= |content|
  {
    if |content| == s.pos then s.pending else Capped(s.pending + Batch(s, content))
  }

  /** Every unfinished line leaves room for the batch that follows it in the pending buffer. */
  ghost predicate LinesFit(content: seq<Byte>, start: nat) {
    forall q :: start <= q <= |content| ==>
      |Rest(content[start..q])| + Min(READ_BATCH, |content| - q) <= PENDING_MAX
  }

  ghost predicate AppendOnly(contents: seq<seq<Byte>>) {
    forall i :: 0 < i < |contents| ==> contents[i - 1] <= contents[i]
  }

  /** The state a follower has when it has read `content[start..pos]` and published its lines. */
  ghost predicate CaughtUpTo(s: State, start: nat, content: seq<Byte>, before: seq<Item>, blank: Line -> bool) {
    && start <= s.pos <= |content|
    && var kept := Kept(Lines(content[start..s.pos]), blank);
    && s.pending == Rest(content[start..s.pos])
    && s.number == |kept|
    && s.published == before + Numbered(kept, 0)
    && s.lastByte == (if s.pos > start then Some(content[s.pos - 1]) else None)
  }

  /** A poll that finds nothing amiss publishes the lines of what it splits. */
  lemma PollSplits(s: State, content: seq<Byte>, blank: Line -> bool)
    requires s.pos <= |content| && !Rewritten(s, content) && (|content| == s.pos ==> NEWLINE !in s.pending)
    ensures var end, kept := Min(|content|, s.pos + READ_BATCH), Kept(Lines(Cut(s, content)), blank);
            Polled(s, content, blank) == State(end, Rest(Cut(s, content)), s.number + |kept|,
                                               if |content| == s.pos then s.lastByte else Some(content[end - 1]),
                                               s.published + Numbered(kept, s.number))
  {
    hide Capped;
    if |content| == s.pos {
      NoLine(s.pending);
      NothingDone(s.number, blank);
    }
    hide Lines, Rest, Kept, Numbered;
  }

  lemma NumberedInjective(a: seq<Line>, b: seq<Line>)
    ensures Numbered(a, 0) == Numbered(b, 0) <==> a == b
  {
    if Numbered(a, 0) == Numbered(b, 0) {
      assert |a| == |Numbered(a, 0)| == |b|;
      forall i | 0 <= i < |a| ensures a[i] == b[i] {
        assert Numbered(a, 0)[i] == Numbered(b, 0)[i];
      }
    }
  }

  /**
   * Whatever became of the file, a poll that finds nothing amiss publishes exactly the lines of what it
   * splits, and the follower is right about the file exactly when these lines and the unfinished one
   * continue the lines of the bytes it had seen to those of the file.
   */
  lemma PollExactly(s: State, start: nat, seen: seq<Byte>, content: seq<Byte>, before: seq<Item>, blank: Line -> bool)
    requires CaughtUpTo(s, start, seen, before, blank) && s.pos <= |content| && !Rewritten(s, content)
    ensures Polled(s, content, blank).published
            == s.published + Numbered(Kept(Lines(Cut(s, content)), blank), s.number)
    ensures var told := content[start..Min(|content|, s.pos + READ_BATCH)];
            CaughtUpTo(Polled(s, content, blank), start, content, before, blank) <==>
            && Rest(Cut(s, content)) == Rest(told)
            && Kept(Lines(seen[start..s.pos]), blank) + Kept(Lines(Cut(s, content)), blank) ==
                Kept(Lines(told), blank)
  {
    RestHasNoNewline(seen[start..s.pos]);
    hide Lines, Rest, Kept, Numbered, Cut, Capped;
    var told := content[start..Min(|content|, s.pos + READ_BATCH)];
    var older, newer, all := Kept(Lines(seen[start..s.pos]), blank), Kept(Lines(Cut(s, content)), blank),
        Kept(Lines(told), blank);
    PollSplits(s, content, blank);
    hide Polled;
    NumberedAppend(older, newer, 0);
    NumberedInjective(older + newer, all);
    PublishedSame(before, older, newer, all);
  }

  lemma PublishedSame(before: seq<Item>, older: seq<Line>, newer: seq<Line>, all: seq<Line>)
    ensures before + Numbered(older, 0) + Numbered(newer, |older|) == before + Numbered(all, 0) <==>
        older + newer == all
  {
    hide Numbered;
    NumberedAppend(older, newer, 0);
    NumberedInjective(older + newer, all);
    var a, b := Numbered(older + newer, 0), Numbered(all, 0);
    assert before + Numbered(older, 0) + Numbered(newer, |older|) == before + a;
    assert (before + a)[|before|..] == a && (before + b)[|before|..] == b;
  }

  // ---------- a file that has only grown ----------

  /** The guard does not fire, or what it drops are complete blank lines. */
  predicate GuardHarmless(s: State, content: seq<Byte>, blank: Line -> bool) {
    |content| <= s.pos ||
    var all := s.pending + Batch(s, content);
    |all| <= PENDING_MAX || (NEWLINE in all && Kept(Lines(all), blank) == [])
  }

  /** The guard keeps the lines and the unfinished line of a buffer exactly when it is harmless to it. */
  lemma CappedExactly(all: seq<Byte>, blank: Line -> bool)
    ensures Rest(Capped(all)) == Rest(all) && Kept(Lines(Capped(all)), blank) == Kept(Lines(all), blank) <==>
            |all| <= PENDING_MAX || (NEWLINE in all && Kept(Lines(all), blank) == [])
  {
    RestHasNoNewline(all);
    NoLine(Rest(all));
    if NEWLINE !in all {
      NoLine(all);
    }
  }

  /**
   * One poll of a file that has only grown: no rewrite is seen, and the follower stays right exactly
   * when the guard is harmless.
   */
  lemma GuardExactly(s: State, start: nat, seen: seq<Byte>, content: seq<Byte>, before: seq<Item>,
      blank: Line -> bool)
    requires CaughtUpTo(s, start, seen, before, blank) && seen <= content
    ensures !Rewritten(s, content)
    ensures CaughtUpTo(Polled(s, content, blank), start, content, before, blank) <==> GuardHarmless(s, content, blank)
    ensures Polled(s, content, blank).pos == Min(|content|, s.pos + READ_BATCH)
  {
    var a, b := seen[start..s.pos], Batch(s, content);
    RestHasNoNewline(a);
    hide Lines, Rest, Kept, Numbered, Capped;
    assert content[start..s.pos] == a && content[start..Min(|content|, s.pos + READ_BATCH)] == a + b;
    PollExactly(s, start, seen, content, before, blank);
    PollSplits(s, content, blank);
    hide Polled, Rewritten;
    SplitAppend(a, b);
    KeptAppend(Lines(a), Lines(Rest(a) + b), blank);
    if |content| == s.pos {
      assert Rest(a) + b == Rest(a);
    } else {
      CappedExactly(Rest(a) + b, blank);
      SamePrefix(Kept(Lines(a), blank), Kept(Lines(Cut(s, content)), blank), Kept(Lines(Rest(a) + b), blank));
    }
  }

  lemma SamePrefix(a: seq<Line>, b: seq<Line>, c: seq<Line>)
    ensures a + b == a + c <==> b == c
  {
    assert (a + b)[|a|..] == b && (a + c)[|a|..] == c;
  }

  /** One poll of a file that has only grown and whose lines fit: exactly the next batch is taken in. */
  lemma PollAppends(s: State, start: nat, seen: seq<Byte>, content: seq<Byte>, before: seq<Item>, blank: Line -> bool)
    requires CaughtUpTo(s, start, seen, before, blank) && seen <= content && LinesFit(content, start)
    ensures !Rewritten(s, content)
    ensures CaughtUpTo(Polled(s, content, blank), start, content, before, blank)
    ensures Polled(s, content, blank).pos == Min(|content|, s.pos + READ_BATCH)
  {
    hide Lines, Rest, Kept, Numbered, Polled;
    GuardExactly(s, start, seen, content, before, blank);
    assert content[start..s.pos] == seen[start..s.pos];
  }

  /**
   * For every append-only history, from every starting offset: the follower is right after every poll,
   * whatever the length of the lines, exactly when no poll meets the guard in a harmful way.
   */
  lemma {:induction false} StreamingExactly(start: nat, contents: seq<seq<Byte>>, before: seq<Item>,
      blank: Line -> bool)
    requires AppendOnly(contents) && (contents != [] ==> start <= |contents[0]|)
    ensures RightThroughout(start, contents, before, blank) <==> HarmlessThroughout(start, contents, before, blank)
  {
    if contents != [] {
      var n := |contents|;
      var init, last := contents[..n - 1], contents[n - 1];
      var s := PolledAll(Fresh(start, before), init, blank);
      StreamingExactly(start, init, before, blank);
      if RightThroughout(start, init, before, blank) {
        if n == 1 {
          assert last[start..start] == [];
          GuardExactly(s, start, last, last, before, blank);
        } else {
          assert init[n - 2] <= last;
          GuardExactly(s, start, init[n - 2], last, before, blank);
        }
      }
    }
  }

  /** After each of the polls the published lines are exactly the complete non-blank ones of the bytes read. */
  ghost predicate RightThroughout(start: nat, contents: seq<seq<Byte>>, before: seq<Item>, blank: Line -> bool) {
    contents != [] ==>
      && RightThroughout(start, contents[..|contents| - 1], before, blank)
      && CaughtUpTo(PolledAll(Fresh(start, before), contents, blank), start, contents[|contents| - 1], before, blank)
  }

  ghost predicate HarmlessThroughout(start: nat, contents: seq<seq<Byte>>, before: seq<Item>, blank: Line -> bool) {
    contents != [] ==>
      && HarmlessThroughout(start, contents[..|contents| - 1], before, blank)
      && GuardHarmless(PolledAll(Fresh(start, before), contents[..|contents| - 1], blank), contents[|contents| - 1],
          blank)
  }

  /**
   * For every append-only history, from every starting offset and with any number of polls: the
   * published lines are exactly the complete non-blank lines of the bytes read, once each, in order,
   * numbered from 1.
   */
  lemma {:induction false} StreamingEqualsSplitting(start: nat, contents: seq<seq<Byte>>, before: seq<Item>,
      blank: Line -> bool)
    requires contents != [] && AppendOnly(contents) && start <= |contents[0]|
    requires LinesFit(contents[|contents| - 1], start)
    ensures CaughtUpTo(PolledAll(Fresh(start, before), contents, blank), start, contents[|contents| - 1], before,
        blank)
  {
    var n := |contents|;
    var init, last := contents[..n - 1], contents[n - 1];
    if n == 1 {
      assert init == [];
      assert last[start..start] == [];
      PollAppends(Fresh(start, before), start, last, last, before, blank);
    } else {
      var prev := contents[n - 2];
      assert prev <= last;
      assert init[n - 2] == prev;
      assert start <= |prev| by { Grows(contents, n - 2); }
      forall q | start <= q <= |prev| ensures |Rest(prev[start..q])| + Min(READ_BATCH, |prev| - q) <= PENDING_MAX {
        assert prev[start..q] == last[start..q];
      }
      StreamingEqualsSplitting(start, init, before, blank);
      PollAppends(PolledAll(Fresh(start, before), init, blank), start, prev, last, before, blank);
    }
  }

  lemma {:induction false} Grows(contents: seq<seq<Byte>>, i: nat)
    requires AppendOnly(contents) && i < |contents|
    ensures |contents[0]| <= |contents[i]|
  {
    if i > 0 {
      Grows(contents, i - 1);
      assert contents[i - 1] <= contents[i];
    }
  }

  function PolledTimes(s: State, content: seq<Byte>, blank: Line -> bool, k: nat): State {
    if k == 0 then s else Polled(PolledTimes(s, content, blank, k - 1), content, blank)
  }

  /** The bytes in `k` batches. */
  function Batches(k: nat): nat {
    if k == 0 then 0 else Batches(k - 1) + READ_BATCH
  }

  lemma {:induction false} BatchesProduct(k: nat)
    ensures Batches(k) == k * READ_BATCH
  {
    if k > 0 { BatchesProduct(k - 1); }
  }

  /** What the follower last read is still there. */
  predicate InStep(s: State, content: seq<Byte>) {
    s.pos <= |content| && !Rewritten(s, content)
  }

  /** Whatever is in it, a file that stops changing is read a batch at a time. */
  lemma {:induction false} Advances(s: State, content: seq<Byte>, blank: Line -> bool, k: nat)
    requires InStep(s, content)
    ensures InStep(PolledTimes(s, content, blank, k), content)
    ensures PolledTimes(s, content, blank, k).pos == Min(|content|, s.pos + Batches(k))
  {
    if k > 0 {
      Advances(s, content, blank, k - 1);
      AdvancesOnce(PolledTimes(s, content, blank, k - 1), content, blank);
      PolledOnceMore(s, content, blank, k);
      hide Polled, PolledTimes, Rewritten;
    }
  }

  lemma AdvancesOnce(s: State, content: seq<Byte>, blank: Line -> bool)
    requires InStep(s, content)
    ensures InStep(Polled(s, content, blank), content)
    ensures Polled(s, content, blank).pos == Min(|content|, s.pos + READ_BATCH)
  {
    hide Lines, Rest, Kept, Numbered, Capped;
  }

  /** If its lines fit, the follower is right after each of the polls. */
  lemma {:induction false} BatchByBatch(s: State, start: nat, content: seq<Byte>, before: seq<Item>,
      blank: Line -> bool, k: nat)
    requires CaughtUpTo(s, start, content, before, blank) && LinesFit(content, start)
    ensures CaughtUpTo(PolledTimes(s, content, blank, k), start, content, before, blank)
    ensures PolledTimes(s, content, blank, k).pos == Min(|content|, s.pos + Batches(k))
  {
    hide *;
    if k == 0 {
      NotPolledYet(s, start, content, before, blank);
    } else {
      BatchByBatch(s, start, content, before, blank, k - 1);
      OneMorePoll(s.pos, PolledTimes(s, content, blank, k - 1), start, content, before, blank, k);
      PolledOnceMore(s, content, blank, k);
    }
  }

  lemma NotPolledYet(s: State, start: nat, content: seq<Byte>, before: seq<Item>, blank: Line -> bool)
    requires CaughtUpTo(s, start, content, before, blank)
    ensures PolledTimes(s, content, blank, 0) == s && s.pos == Min(|content|, s.pos + Batches(0))
  {
  }

  lemma PolledOnceMore(s: State, content: seq<Byte>, blank: Line -> bool, k: nat)
    requires k > 0
    ensures PolledTimes(s, content, blank, k) == Polled(PolledTimes(s, content, blank, k - 1), content, blank)
  {
    hide Polled;
  }

  lemma OneMorePoll(pos: nat, prev: State, start: nat, content: seq<Byte>, before: seq<Item>, blank: Line -> bool,
      k: nat)
    requires k > 0 && CaughtUpTo(prev, start, content, before, blank) && LinesFit(content, start)
    requires prev.pos == Min(|content|, pos + Batches(k - 1))
    ensures CaughtUpTo(Polled(prev, content, blank), start, content, before, blank)
    ensures Polled(prev, content, blank).pos == Min(|content|, pos + Batches(k))
  {
    hide CaughtUpTo, LinesFit, Polled;
    PollAppends(prev, start, content, content, before, blank);
  }

  lemma MinReached(length: nat, pos: nat, more: nat)
    ensures Min(length, pos + more) == length <==> more >= length - pos
  {
  }

  /** Catching up takes exactly ceil((length - pos) / batch) polls, with lines of any length. */
  lemma CatchesUp(s: State, content: seq<Byte>, blank: Line -> bool, k: nat)
    requires InStep(s, content)
    ensures PolledTimes(s, content, blank, k).pos == |content| <==> k * READ_BATCH >= |content| - s.pos
  {
    assert s.pos <= |content|;
    hide *;
    Advances(s, content, blank, k);
    BatchesProduct(k);
    MinReached(|content|, s.pos, Batches(k));
  }

  /** Shrinking below the position starts a new epoch: byte 0, numbers from 1, nothing published twice. */
  lemma TruncationStartsOver(s: State, contents: seq<seq<Byte>>, blank: Line -> bool)
    requires |contents| >= 2 && AppendOnly(contents) && |contents[0]| < s.pos
    requires LinesFit(contents[|contents| - 1], 0)
    ensures CaughtUpTo(PolledAll(s, contents, blank), 0, contents[|contents| - 1], s.published, blank)
  {
    var rest := contents[1..];
    PolledPrefix(s, contents, blank, 1);
    assert contents[..1] == [contents[0]] && contents[..1][..0] == [];
    assert PolledAll(s, contents[..1], blank) == Fresh(0, s.published);
    forall i | 0 < i < |rest| ensures rest[i - 1] <= rest[i] {
      assert contents[i] <= contents[i + 1];
    }
    StreamingEqualsSplitting(0, rest, s.published, blank);
  }

  lemma {:induction false} PolledPrefix(s: State, contents: seq<seq<Byte>>, blank: Line -> bool, k: nat)
    requires k <= |contents|
    ensures PolledAll(s, contents, blank) == PolledAll(PolledAll(s, contents[..k], blank), contents[k..], blank)
    decreases |contents|
  {
    hide Polled;
    var n := |contents|;
    if k == n {
      assert contents[..k] == contents && contents[k..] == [];
    } else {
      PolledPrefix(s, contents[..n - 1], blank, k);
      assert contents[..n - 1][..k] == contents[..k];
      assert contents[k..][..|contents[k..]| - 1] == contents[..n - 1][k..];
    }
  }

  /**
   * The input that the guard loses: a line of 1 MiB and one byte. Its first 1 MiB are read in 16 polls;
   * one more byte empties the buffer, and the newline completes nothing.
   */
  lemma LongLineLost(text: seq<Byte>, blank: Line -> bool)
    requires |text| == PENDING_MAX + 1 && NEWLINE !in text && !blank(text) && blank([])
    ensures var s := PolledTimes(Fresh(0, []), text[..PENDING_MAX], blank, 16);
            && PolledAll(s, [text, text + [NEWLINE]], blank).published == []
            && Kept(Lines(text + [NEWLINE]), blank) == [text]
  {
    hide Polled, PolledTimes, PolledAll, Lines, Rest, Kept, Cut;
    var head, all := text[..PENDING_MAX], text + [NEWLINE];
    var s := PolledTimes(Fresh(0, []), head, blank, 16);
    HeadRead(head, blank);
    LongLinePolls(s, text, blank);
    assert text + [NEWLINE] + [] == all;
    TwoPolls(s, text, all, blank);
    OneLineBatch(text, 0, blank);
  }

  lemma HeadRead(head: seq<Byte>, blank: Line -> bool)
    requires |head| == PENDING_MAX && NEWLINE !in head
    ensures PolledTimes(Fresh(0, []), head, blank, 16) == State(PENDING_MAX, head, 0, Some(head[PENDING_MAX - 1]), [])
  {
    var s := PolledTimes(Fresh(0, []), head, blank, 16);
    assert head[0..0] == [] && head[0..PENDING_MAX] == head;
    NoLine(head);
    NothingDone(0, blank);
    EveryPrefixFits(head);
    hide LinesFit, PolledTimes, Polled, Rest, Lines, Numbered;
    BatchByBatch(Fresh(0, []), 0, head, [], blank, 16);
    BatchesProduct(16);
    assert s.published == [] + [];
  }

  lemma EveryPrefixFits(head: seq<Byte>)
    requires |head| <= PENDING_MAX && NEWLINE !in head
    ensures LinesFit(head, 0)
  {
    forall q | 0 <= q <= |head| ensures |Rest(head[0..q])| + Min(READ_BATCH, |head| - q) <= PENDING_MAX {
      NoLine(head[0..q]);
    }
  }

  lemma TwoPolls(s: State, a: seq<Byte>, b: seq<Byte>, blank: Line -> bool)
    ensures PolledAll(s, [a, b], blank) == Polled(Polled(s, a, blank), b, blank)
  {
    hide Polled;
    assert [a, b][..1] == [a] && [a][..0] == [];
    assert PolledAll(s, [], blank) == s;
    assert PolledAll(s, [a], blank) == Polled(s, a, blank);
  }

  lemma LongLinePolls(s: State, text: seq<Byte>, blank: Line -> bool)
    requires |text| == PENDING_MAX + 1 && NEWLINE !in text && blank([])
    requires s == State(PENDING_MAX, text[..PENDING_MAX], 0, Some(text[PENDING_MAX - 1]), [])
    ensures Polled(Polled(s, text, blank), text + [NEWLINE], blank).published == []
  {
    var all, dropped := text + [NEWLINE], State(PENDING_MAX + 1, [], 0, Some(text[PENDING_MAX]), []);
    assert s.pending + Batch(s, text) == text;
    assert Lines([]) == [] && Rest([]) == [];
    NothingDone(0, blank);
    PollSplits(s, text, blank);
    assert Polled(s, text, blank) == dropped;
    assert Batch(dropped, all) == [NEWLINE] && [] + [NEWLINE] == [NEWLINE];
    assert [] + [NEWLINE] + [] == [NEWLINE];
    FirstLine([], []);
    var empty: Line := [];
    assert [empty] + [] == [empty] && [] + [empty] == [empty];
    KeptOne([], empty, blank);
    PollSplits(dropped, all, blank);
  }

  // ---------- a file that was rewritten ----------

  /** The check is exactly the comparison of one byte: the one before the position. */
  lemma RewriteNoticedExactly(s: State, start: nat, seen: seq<Byte>, content: seq<Byte>, before: seq<Item>,
      blank: Line -> bool)
    requires CaughtUpTo(s, start, seen, before, blank) && start < s.pos <= |content|
    ensures Polled(s, content, blank) == Fresh(0, s.published) <==> content[s.pos - 1] != seen[s.pos - 1]
  {
  }

  /**
   * A poll that does not notice a rewrite reads the file as if the bytes before the position were still
   * the ones it had seen, and is right exactly when that file has the same lines and unfinished line.
   */
  lemma RewriteExactly(s: State, start: nat, seen: seq<Byte>, content: seq<Byte>, before: seq<Item>,
      blank: Line -> bool)
    requires CaughtUpTo(s, start, seen, before, blank) && start < s.pos <= |content|
    requires content[s.pos - 1] == seen[s.pos - 1] && |s.pending + Batch(s, content)| <= PENDING_MAX
    ensures Polled(s, content, blank).published
            == s.published + Numbered(Kept(Lines(s.pending + Batch(s, content)), blank), s.number)
    ensures var told, believed := content[start..Min(|content|, s.pos + READ_BATCH)],
        seen[start..s.pos] + Batch(s, content);
            CaughtUpTo(Polled(s, content, blank), start, content, before, blank) <==>
            Rest(believed) == Rest(told) && Kept(Lines(believed), blank) == Kept(Lines(told), blank)
  {
    var a, b := seen[start..s.pos], Batch(s, content);
    hide Lines, Rest, Kept, Numbered;
    assert Cut(s, content) == Rest(a) + b by {
      if |content| == s.pos { assert s.pending + [] == s.pending; }
    }
    PollExactly(s, start, seen, content, before, blank);
    hide Polled, Cut;
    SplitAppend(a, b);
    KeptAppend(Lines(a), Lines(Rest(a) + b), blank);
  }

  /** In particular it is right if the rewritten part has the same lines and the same unfinished line. */
  lemma RewriteHarmless(s: State, start: nat, seen: seq<Byte>, content: seq<Byte>, before: seq<Item>,
      blank: Line -> bool)
    requires CaughtUpTo(s, start, seen, before, blank) && start < s.pos <= |content|
    requires content[s.pos - 1] == seen[s.pos - 1] && |s.pending + Batch(s, content)| <= PENDING_MAX
    requires Rest(seen[start..s.pos]) == Rest(content[start..s.pos])
    requires Kept(Lines(seen[start..s.pos]), blank) == Kept(Lines(content[start..s.pos]), blank)
    ensures CaughtUpTo(Polled(s, content, blank), start, content, before, blank)
  {
    var a, a', b := seen[start..s.pos], content[start..s.pos], Batch(s, content);
    hide Lines, Rest, Kept, Numbered, Polled;
    assert content[start..Min(|content|, s.pos + READ_BATCH)] == a' + b;
    RewriteExactly(s, start, seen, content, before, blank);
    SplitAppend(a, b);
    SplitAppend(a', b);
    KeptAppend(Lines(a), Lines(Rest(a) + b), blank);
    KeptAppend(Lines(a'), Lines(Rest(a') + b), blank);
  }

  /**
   * "a", newline, then replaced by "b", newline, "cd", newline: the byte before the position is a
   * newline in both.
   */
  lemma RewriteCanBeMissed(blank: Line -> bool)
    requires forall l: Line :: blank(l) <==> l == []
    ensures PolledAll(Fresh(0, []), [[97, NEWLINE], [98, NEWLINE, 99, 100, NEWLINE]], blank).published
            == [Item(1, [97]), Item(2, [99, 100])]
  {
    var first: seq<Byte>, second: seq<Byte> := [97, NEWLINE], [98, NEWLINE, 99, 100, NEWLINE];
    var contents: seq<seq<Byte>> := [first, second];
    assert contents[..1] == [first] && contents[..1][..0] == [];
    assert first[0..] == [97] + [NEWLINE] && second[2..] == [99, 100] + [NEWLINE];
    var s1 := State(2, [], 1, Some(NEWLINE), [Item(1, [97])]);
    OneLinePoll(Fresh(0, []), first, [97], blank);
    OneLinePoll(s1, second, [99, 100], blank);
    hide Polled;
    assert PolledAll(Fresh(0, []), contents[..1], blank) == s1;
  }

  lemma OneLineBatch(line: Line, number: nat, blank: Line -> bool)
    requires NEWLINE !in line && !blank(line)
    ensures var batch := line + [NEWLINE];
            Rest(batch) == [] && Kept(Lines(batch), blank) == [line] &&
                Numbered([line], number) == [Item(number + 1, line)]
  {
    var batch := line + [NEWLINE];
    assert batch + [] == batch && [line] + [] == [line] && [] + [line] == [line];
    FirstLine(line, []);
    KeptOne([], line, blank);
    assert Kept([], blank) == [] && Lines([]) == [] && Rest([]) == [];
    hide Lines, Rest, Kept;
  }

  lemma OneLinePoll(s: State, content: seq<Byte>, line: Line, blank: Line -> bool)
    requires s.pos < |content| <= s.pos + READ_BATCH && !Rewritten(s, content) && s.pending == []
    requires content[s.pos..] == line + [NEWLINE] && NEWLINE !in line && !blank(line)
    ensures Polled(s, content, blank) ==
        State(|content|, [], s.number + 1, Some(NEWLINE), s.published + [Item(s.number + 1, line)])
  {
    hide Lines, Rest, Kept, Numbered, Polled;
    var batch := line + [NEWLINE];
    assert content[s.pos..|content|] == content[s.pos..] && s.pending + batch == batch;
    assert content[|content| - 1] == content[s.pos..][|line|] == NEWLINE;
    PollSplits(s, content, blank);
    OneLineBatch(line, s.number, blank);
  }
}
