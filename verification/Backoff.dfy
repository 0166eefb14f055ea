/**
 The reconciler's counter-free retry backoff, which only stores the last failure and the next
 permitted retry, against the closed form of the startup backoff policy. Times are integers in
 one unit, durations naturals.
 */
module Backoff {
  import opened Wrappers

  const U32_MAX := 0xFFFF_FFFF

  /** The two backoff columns of an instance row. */
  datatype Window = Window(lastFailure: Option<int>, nextRetry: Option<int>)

  const CLEAR := Window(None, None)

  function Min(a: int, b: int): int {
    if a <= b then a else b
  }

  function Max(a: int, b: int): int {
    if a >= b then a else b
  }

  /** The gap stored by the previous failure decides the next one. */
  function NextGap(w: Window, base: nat, max: nat): nat {
    match (w.lastFailure, w.nextRetry)
    case (Some(l), Some(n)) => if n > l then Min(2 * Max(n - l, base), max) else base
    case _ => base
  }

  /** `record_failure` at time `now`. */
  function RecordFailure(w: Window, now: int, base: nat, max: nat): Window {
    Window(Some(now), Some(now + NextGap(w, base, max)))
  }

  /** `backoff_ready` */
  predicate Ready(w: Window, now: int) {
    w.nextRetry.Some? ==> now >= w.nextRetry.value
  }

  function Pow(factor: nat, e: nat): nat {
    if e == 0 then 1 else factor * Pow(factor, e - 1)
  }

  function SaturatingPow(factor: nat, e: nat): nat {
    Min(Pow(factor, e), U32_MAX)
  }

  /** `ExponentialBackoff::delay_for` */
  function DelayFor(base: nat, factor: nat, max: nat, attempt: nat): nat {
    Min(base * SaturatingPow(factor, if attempt == 0 then 0 else attempt - 1), max)
  }

  /** The row after failures at the given times, starting from cleared columns. */
  function AfterFailures(times: seq<int>, base: nat, max: nat): Window {
    if times == [] then CLEAR
    else RecordFailure(AfterFailures(times[..|times| - 1], base, max), times[|times| - 1], base, max)
  }

  function Gap(k: nat, base: nat, max: nat): nat
    requires k >= 1
  {
    Min(base * Pow(2, k - 1), max)
  }

  /** Whatever the failure times, the k-th consecutive failure stores `min(base * 2^(k-1), max)`. */
  lemma {:induction false} ClosedForm(times: seq<int>, base: nat, max: nat)
    requires times != [] && base <= max
    ensures AfterFailures(times, base, max)
            == Window(Some(times[|times| - 1]), Some(times[|times| - 1] + Gap(|times|, base, max)))
  {
    var k := |times|;
    if k > 1 {
      var init := times[..k - 1];
      ClosedForm(init, base, max);
      PowPositive(k - 2);
      assert Pow(2, k - 1) == 2 * Pow(2, k - 2);
      var p := Pow(2, k - 2);
      assert base * p >= base by {
        assert base * p == base + base * (p - 1);
      }
      assert base * (2 * p) == 2 * (base * p);
    } else {
      assert AfterFailures(times[..0], base, max) == CLEAR;
    }
  }

  /** The first failure is not capped, so the closed form needs a base within the cap. */
  lemma FirstGapExact(time: int, base: nat, max: nat)
    ensures AfterFailures([time], base, max) == Window(Some(time), Some(time + Gap(1, base, max))) <==> base <= max
  {
    assert AfterFailures([time][..0], base, max) == CLEAR;
    assert Pow(2, 0) == 1;
  }

  lemma {:induction false} PowPositive(e: nat)
    ensures Pow(2, e) >= 1
  {
    if e > 0 { PowPositive(e - 1); }
  }

  lemma {:induction false} PowExceedsU32(e: nat)
    ensures e < 32 ==> Pow(2, e) <= U32_MAX
    ensures e >= 32 ==> Pow(2, e) > U32_MAX
  {
    PowMonotone(if e < 32 then e else 32, if e < 32 then 31 else e);
    assert Pow(2, 8) == 256;
    PowAdd(8, 8);
    PowAdd(16, 16);
    assert Pow(2, 16) == 65536;
    assert Pow(2, 32) == 0x1_0000_0000;
    assert 2 * Pow(2, 31) == Pow(2, 32);
  }

  lemma {:induction false} PowAdd(a: nat, b: nat)
    ensures Pow(2, a + b) == Pow(2, a) * Pow(2, b)
  {
    if a > 0 {
      PowAdd(a - 1, b);
      assert Pow(2, a + b) == 2 * Pow(2, a - 1 + b);
      assert 2 * (Pow(2, a - 1) * Pow(2, b)) == (2 * Pow(2, a - 1)) * Pow(2, b);
    }
  }

  lemma {:induction false} PowMonotone(a: nat, b: nat)
    requires a <= b
    ensures Pow(2, a) <= Pow(2, b)
    decreases b
  {
    if a < b {
      PowMonotone(a, b - 1);
      PowPositive(b - 1);
    }
  }

  /**
   * The startup policy with factor 2 agrees with the reconciler except where its u32 power saturates
   * below the cap.
   */
  lemma MatchesDelayFor(k: nat, base: nat, max: nat)
    requires k >= 1 && base >= 1
    ensures DelayFor(base, 2, max, k) == Gap(k, base, max) <==> k <= 32 || base * U32_MAX >= max
  {
    PowExceedsU32(k - 1);
    if k > 32 {
      var p := Pow(2, k - 1);
      assert base * p > base * U32_MAX by {
        assert base * p - base * U32_MAX == base * (p - U32_MAX);
        MulPositive(base, p - U32_MAX);
      }
    }
  }

  lemma MulPositive(a: int, b: int)
    requires a >= 1 && b >= 1
    ensures a * b >= 1
  {
  }

  // ---------- how many automatic retries fit into an interval ----------

  /** A streak of failed attempts, each later one let through by the window of its predecessors. */
  ghost predicate Streak(attempts: seq<int>, failures: seq<int>, base: nat, max: nat) {
    && |attempts| == |failures|
    && (forall i :: 0 <= i < |attempts| ==> attempts[i] <= failures[i])
    && (forall i :: 0 < i < |attempts| ==> Ready(AfterFailures(failures[..i], base, max), attempts[i]))
  }

  const BASE: nat := 5
  const MAX: nat := 300

  lemma StreakGap(attempts: seq<int>, failures: seq<int>, base: nat, max: nat, i: nat)
    requires Streak(attempts, failures, base, max) && base <= max && i + 1 < |attempts|
    ensures attempts[i + 1] >= attempts[i] + Gap(i + 1, base, max)
  {
    ClosedForm(failures[..i + 1], base, max);
  }

  function Spread(n: nat): nat {
    if n == 0 then 0 else if n == 1 then 5 else if n == 2 then 15 else if n == 3 then 35
    else if n == 4 then 75 else if n == 5 then 155 else 315 + 300 * (n - 6)
  }

  lemma DefaultGap(k: nat)
    requires k >= 1
    ensures Gap(k, BASE, MAX) == if k == 1 then 5 else if k == 2 then 10 else if k == 3 then 20
                                 else if k == 4 then 40 else if k == 5 then 80 else if k == 6 then 160 else 300
  {
    if k >= 7 { PowMonotone(6, k - 1); }
  }

  lemma {:induction false} StreakSpread(attempts: seq<int>, failures: seq<int>, i: nat, j: nat)
    requires Streak(attempts, failures, BASE, MAX) && i <= j < |attempts|
    ensures attempts[j] - attempts[i] >= Spread(j - i)
    decreases j - i
  {
    if i < j {
      StreakSpread(attempts, failures, i, j - 1);
      StreakGap(attempts, failures, BASE, MAX, j - 1);
      DefaultGap(j);
      DefaultGap(j - i);
      GapMonotone(j - i, j);
    }
  }

  lemma GapMonotone(a: nat, b: nat)
    requires 1 <= a <= b
    ensures Gap(a, BASE, MAX) <= Gap(b, BASE, MAX)
  {
    PowMonotone(a - 1, b - 1);
  }

  /** Any stretch of a failure streak lasting T seconds holds at most 7 + T/300 automatic attempts. */
  lemma AttemptsBounded(attempts: seq<int>, failures: seq<int>, i: nat, j: nat)
    requires Streak(attempts, failures, BASE, MAX) && i <= j < |attempts|
    ensures attempts[j] >= attempts[i]
    ensures j - i + 1 <= 7 + (attempts[j] - attempts[i]) / 300
  {
    StreakSpread(attempts, failures, i, j);
  }
}
