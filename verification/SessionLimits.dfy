/**
 The gateway's session limits: a token bucket for new sessions per second and a cap on live ones.
 Tokens and times are exact reals; times are seconds on the clock the readings come from.
 */
module SessionLimits {
  import opened Wrappers

  datatype Bucket = Bucket(rate: real, tokens: real, last: real)

  predicate Holds(b: Bucket) {
    b.rate >= 1.0 && 0.0 <= b.tokens <= b.rate
  }

  function Full(rate: real, now: real): Bucket {
    Bucket(rate, rate, now)
  }

  // ---------- one request ----------

  /** What flows in during `duration`. */
  function Flow(rate: real, duration: real): real {
    duration * rate
  }

  lemma FlowAdds(rate: real, a: real, b: real, c: real)
    requires a <= b <= c && rate >= 0.0
    ensures Flow(rate, c - a) == Flow(rate, b - a) + Flow(rate, c - b)
    ensures Flow(rate, b - a) >= 0.0 && Flow(rate, c - b) >= 0.0
  {
    assert (c - b) * rate >= 0.0 && (b - a) * rate >= 0.0;
  }

  function Refilled(b: Bucket, now: real): real {
    var elapsed := if now >= b.last then now - b.last else 0.0;
    var tokens := b.tokens + Flow(b.rate, elapsed);
    if tokens <= b.rate then tokens else b.rate
  }

  predicate Granted(b: Bucket, now: real) {
    Refilled(b, now) >= 1.0
  }

  function Taken(b: Bucket, now: real): Bucket {
    b.(tokens := Refilled(b, now) - (if Granted(b, now) then 1.0 else 0.0), last := now)
  }

  class TokenBucket {
    const rate: real
    var tokens: real
    var last: real

    function State(): Bucket
      reads this
    {
      Bucket(rate, tokens, last)
    }

    constructor (rate: nat, now: real)
      ensures State() == Full(rate as real, now)
      ensures rate >= 1 ==> Holds(State())
    {
      this.rate := rate as real;
      tokens := rate as real;
      last := now;
    }

    method TryTake(now: real) returns (ok: bool)
      requires Holds(State())
      modifies this
      ensures Holds(State())
      ensures State() == Taken(old(State()), now) && ok == Granted(old(State()), now)
    {
      var elapsed := if now >= last then now - last else 0.0;
      FlowAdds(rate, 0.0, 0.0, elapsed);
      var refilled := tokens + Flow(rate, elapsed);
      tokens := if refilled <= rate then refilled else rate;
      last := now;
      ok := tokens >= 1.0;
      if ok {
        tokens := tokens - 1.0;
      }
    }
  }

  lemma TakenHolds(b: Bucket, now: real)
    requires Holds(b)
    ensures Holds(Taken(b, now)) && 0.0 <= Refilled(b, now) <= b.rate
  {
    FlowAdds(b.rate, 0.0, 0.0, if now >= b.last then now - b.last else 0.0);
  }

  // ---------- runs of requests ----------

  function After(b: Bucket, times: seq<real>): Bucket {
    if times == [] then b else Taken(After(b, times[..|times| - 1]), times[|times| - 1])
  }

  ghost predicate InOrder(start: real, times: seq<real>) {
    && (forall i :: 0 <= i < |times| ==> start <= times[i])
    && (forall i, j :: 0 <= i < j < |times| ==> times[i] <= times[j])
  }

  /** Requests granted at readings in [from, to]. */
  function GrantedIn(b: Bucket, times: seq<real>, from: real, to: real): nat {
    if times == [] then 0
    else
      var init, now := times[..|times| - 1], times[|times| - 1];
      GrantedIn(b, init, from, to) + (if Granted(After(b, init), now) && from <= now <= to then 1 else 0)
  }

  /** Requests granted from the `k`-th on. */
  function GrantedSince(b: Bucket, times: seq<real>, k: nat): nat {
    if |times| <= k then 0
    else
      var init, now := times[..|times| - 1], times[|times| - 1];
      GrantedSince(b, init, k) + (if Granted(After(b, init), now) then 1 else 0)
  }

  lemma {:induction false} AlwaysHolds(b: Bucket, times: seq<real>)
    requires Holds(b)
    ensures Holds(After(b, times)) && After(b, times).rate == b.rate
    ensures After(b, times).last == if times == [] then b.last else times[|times| - 1]
  {
    if times != [] {
      AlwaysHolds(b, times[..|times| - 1]);
      TakenHolds(After(b, times[..|times| - 1]), times[|times| - 1]);
    }
  }

  /** No interval of readings admits more than one full bucket plus what flows in meanwhile. */
  lemma {:induction false} IntervalBound(b: Bucket, times: seq<real>, from: real, to: real)
    requires Holds(b) && InOrder(b.last, times) && from <= to
    ensures GrantedIn(b, times, from, to) as real <= b.rate + Flow(b.rate, to - from)
    ensures var after, n := After(b, times), GrantedIn(b, times, from, to);
            && (after.last < from || times == [] ==> n == 0)
            && (times != [] && from <= after.last <= to ==>
                n as real + after.tokens <= b.rate + Flow(b.rate, after.last - from))
  {
    FlowAdds(b.rate, from, to, to);
    if times != [] {
      var init, now := times[..|times| - 1], times[|times| - 1];
      var before := After(b, init);
      IntervalBound(b, init, from, to);
      AlwaysHolds(b, init);
      AlwaysHolds(b, times);
      assert before.last <= now;
      TakenHolds(before, now);
      hide Flow;
      if from <= now <= to {
        FlowAdds(b.rate, from, now, to);
        if from <= before.last && init != [] {
          FlowAdds(b.rate, from, before.last, now);
        }
      }
    }
  }

  /** Readings at least 1/rate apart are never refused. */
  lemma {:induction false} SpacedNeverRefused(b: Bucket, times: seq<real>)
    requires Holds(b) && b.tokens >= 1.0 && InOrder(b.last, times)
    requires forall i :: 0 < i < |times| ==> Flow(b.rate, times[i] - times[i - 1]) >= 1.0
    ensures forall i :: 0 <= i < |times| ==> Granted(After(b, times[..i]), times[i])
  {
    forall i | 0 <= i < |times| ensures Granted(After(b, times[..i]), times[i]) {
      AlwaysHolds(b, times[..i]);
      TakenHolds(After(b, times[..i]), times[i]);
      if i == 0 {
        FlowAdds(b.rate, b.last, b.last, times[0]);
      }
      hide Flow;
    }
  }

  // ---------- a refusal is always justified ----------

  /** What the bound still leaves at `now` for an interval that starts at the `k`-th reading. */
  function Slack(b: Bucket, times: seq<real>, k: nat, now: real): real
    requires k < |times|
  {
    b.rate + Flow(b.rate, now - times[k]) - GrantedSince(b, times, k) as real
  }

  ghost predicate UpTo(b: Bucket, times: seq<real>, now: real) {
    && Holds(b) && b.tokens == b.rate
    && InOrder(b.last, times) && b.last <= now && (times != [] ==> times[|times| - 1] <= now)
  }

  /** The level of the bucket is the smallest slack, or the bucket is full. */
  lemma {:induction false} LevelIsLeastSlack(b: Bucket, times: seq<real>, now: real)
    requires UpTo(b, times, now)
    ensures forall i :: 0 <= i < |times| ==> Refilled(After(b, times), now) <= Slack(b, times, i, now)
    ensures || Refilled(After(b, times), now) == b.rate
            || exists k :: 0 <= k < |times| && Refilled(After(b, times), now) == Slack(b, times, k, now)
  {
    AlwaysHolds(b, times);
    if times == [] {
      FlowAdds(b.rate, b.last, b.last, now);
    } else {
      var n := |times|;
      var init, t := times[..n - 1], times[n - 1];
      LevelIsLeastSlack(b, init, t);
      AlwaysHolds(b, init);
      TakenHolds(After(b, init), t);
      forall i | 0 <= i < n ensures Refilled(After(b, times), now) <= Slack(b, times, i, now) {
        SlackStep(b, times, i, now);
      }
      if Refilled(After(b, times), now) != b.rate {
        if Refilled(After(b, init), t) == b.rate {
          SlackStep(b, times, n - 1, now);
        } else {
          var k :| 0 <= k < n - 1 && Refilled(After(b, init), t) == Slack(b, init, k, t);
          SlackStep(b, times, k, now);
        }
      }
    }
  }

  lemma SlackStep(b: Bucket, times: seq<real>, i: nat, now: real)
    requires i < |times| && UpTo(b, times, now)
    ensures var n := |times|;
            var t, before := times[n - 1], After(b, times[..n - 1]);
            Slack(b, times, i, now) == Flow(b.rate, now - t) - (if Granted(before, t) then 1.0 else 0.0) +
                                       (if i == n - 1 then b.rate else Slack(b, times[..n - 1], i, t))
  {
    hide Granted, After;
    FlowAdds(b.rate, times[i], times[|times| - 1], now);
    FlowAdds(b.rate, now, now, now);
    hide Flow;
    if i == |times| - 1 {
      assert GrantedSince(b, times[..|times| - 1], i) == 0;
    }
  }

  /** Granting one more at `now` would exceed a full bucket and the inflow since the `k`-th reading. */
  predicate BreaksBound(b: Bucket, times: seq<real>, now: real, k: nat)
    requires k < |times|
  {
    GrantedSince(b, times, k) as real + 1.0 > b.rate + Flow(b.rate, now - times[k])
  }

  /**
   * The refusals are exact: a request is turned away if and only if granting it would break the bound of
   * `IntervalBound` for some interval that ends with it.
   */
  lemma RefusedExactly(b: Bucket, times: seq<real>, now: real)
    requires UpTo(b, times, now)
    ensures !Granted(After(b, times), now) <==> exists k :: 0 <= k < |times| && BreaksBound(b, times, now, k)
  {
    hide After, GrantedSince, Flow, Refilled;
    LevelIsLeastSlack(b, times, now);
    if !Granted(After(b, times), now) {
      var k :| 0 <= k < |times| && Refilled(After(b, times), now) == Slack(b, times, k, now);
      assert BreaksBound(b, times, now, k);
    } else {
      forall k | 0 <= k < |times| ensures !BreaksBound(b, times, now, k) {
        assert Slack(b, times, k, now) >= 1.0;
      }
    }
  }

  // ---------- readings that go back ----------

  /** The way up: what the clock gains from reading to reading, its falls not counted. */
  function Climb(start: real, times: seq<real>): real {
    if times == [] then 0.0
    else
      var init, now := times[..|times| - 1], times[|times| - 1];
      var before := Latest(start, init);
      Climb(start, init) + (if now >= before then now - before else 0.0)
  }

  function Latest(start: real, times: seq<real>): real {
    if times == [] then start else times[|times| - 1]
  }

  /** The climb is the time that passed exactly when no reading goes back. */
  lemma {:induction false} ClimbExactly(start: real, times: seq<real>)
    ensures Climb(start, times) >= 0.0 && Climb(start, times) >= Latest(start, times) - start
    ensures Climb(start, times) == Latest(start, times) - start <==> InOrder(start, times)
  {
    if times != [] {
      var init, now := times[..|times| - 1], times[|times| - 1];
      ClimbExactly(start, init);
      assert init != [] ==> init[|init| - 1] == times[|init| - 1];
      if InOrder(start, times) {
        assert InOrder(start, init);
      }
      if Climb(start, times) == now - start {
        assert Climb(start, init) == Latest(start, init) - start && now >= Latest(start, init);
        forall i | 0 <= i < |times| ensures start <= times[i] <= now {
          if i < |init| { assert times[i] == init[i] <= Latest(start, init); }
        }
      }
    }
  }

  /** The ordered readings on the clock of the climb. */
  function Straightened(start: real, times: seq<real>): seq<real> {
    if times == [] then []
    else Straightened(start, times[..|times| - 1]) + [start + Climb(start, times)]
  }

  lemma {:induction false} StraightenedOrdered(start: real, times: seq<real>)
    ensures var s := Straightened(start, times);
            |s| == |times| && InOrder(start, s) && Latest(start, s) == start + Climb(start, times)
  {
    ClimbExactly(start, times);
    if times != [] { StraightenedOrdered(start, times[..|times| - 1]); }
  }

  lemma StraightenedMore(start: real, times: seq<real>)
    requires times != []
    ensures var s, init := Straightened(start, times), Straightened(start, times[..|times| - 1]);
            s != [] && s[..|s| - 1] == init && s[|s| - 1] == start + Climb(start, times)
  {
    var init := Straightened(start, times[..|times| - 1]);
    assert (init + [start + Climb(start, times)])[..|init|] == init;
  }

  /** The bucket does not see the difference: on any readings it does what it does on the straightened ones. */
  lemma {:induction false} SameStraightened(b: Bucket, times: seq<real>)
    ensures var s := Straightened(b.last, times);
            After(b, times).(last := 0.0) == After(b, s).(last := 0.0)
  {
    if times != [] {
      SameStraightened(b, times[..|times| - 1]);
      StraightenedMore(b.last, times);
      SameRequest(b, times[..|times| - 1], times[|times| - 1]);
      hide Refilled, Granted, Straightened;
    }
  }

  /** The next request fares alike on both. */
  lemma SameRequest(b: Bucket, times: seq<real>, now: real)
    requires After(b, times).(last := 0.0) == After(b, Straightened(b.last, times)).(last := 0.0)
    ensures var c, d, t := After(b, times), After(b, Straightened(b.last, times)),
        b.last + Climb(b.last, times + [now]);
            Refilled(c, now) == Refilled(d, t) && (Granted(c, now) <==> Granted(d, t))
  {
    var s := Straightened(b.last, times);
    assert (times + [now])[..|times|] == times;
    StraightenedOrdered(b.last, times);
    LatestOfAfter(b, times);
    LatestOfAfter(b, s);
    hide After, Flow, Refilled, Granted, Straightened, InOrder;
    SameElapsed(After(b, times), After(b, s), now, b.last + Climb(b.last, times + [now]));
  }

  lemma GrantedMore(b: Bucket, times: seq<real>, k: nat)
    ensures |times| <= k ==> GrantedSince(b, times, k) == 0
    ensures |times| > k ==>
              var init, now := times[..|times| - 1], times[|times| - 1];
              GrantedSince(b, times, k) == GrantedSince(b, init, k) + (if Granted(After(b, init), now) then 1 else 0)
  {
    hide Granted, After;
  }

  lemma {:induction false} SameGrants(b: Bucket, times: seq<real>, k: nat)
    ensures GrantedSince(b, times, k) == GrantedSince(b, Straightened(b.last, times), k)
  {
    hide *;
    GrantedMore(b, times, k);
    GrantedMore(b, Straightened(b.last, times), k);
    StraightenedLength(b.last, times);
    if |times| > k {
      var init, now := times[..|times| - 1], times[|times| - 1];
      SameGrants(b, init, k);
      SameStraightened(b, init);
      SameRequest(b, init, now);
      StraightenedMore(b.last, times);
      assert init + [now] == times;
    }
  }

  /** A request only sees the level, the rate, and the time since the last one. */
  lemma SameElapsed(b: Bucket, c: Bucket, now: real, t: real)
    requires b.tokens == c.tokens && b.rate == c.rate
    requires if now >= b.last then t - c.last == now - b.last else t == c.last
    ensures Refilled(b, now) == Refilled(c, t) && (Granted(b, now) <==> Granted(c, t))
  {
    hide Flow;
  }

  lemma {:induction false} LatestOfAfter(b: Bucket, times: seq<real>)
    ensures After(b, times).last == Latest(b.last, times) && After(b, times).rate == b.rate
  {
    if times != [] { LatestOfAfter(b, times[..|times| - 1]); }
  }

  /**
   * On any readings whatever, what was granted and what is left is at most what was there and what
   * flowed in on the climb.
   */
  lemma {:induction false} ClimbBound(b: Bucket, times: seq<real>)
    requires Holds(b)
    ensures GrantedSince(b, times, 0) as real + After(b, times).tokens <= b.tokens +
        Flow(b.rate, Climb(b.last, times))
  {
    ClimbExactly(b.last, times);
    FlowAdds(b.rate, 0.0, 0.0, 0.0);
    if times != [] {
      var init, now := times[..|times| - 1], times[|times| - 1];
      var before := After(b, init);
      ClimbBound(b, init);
      ClimbExactly(b.last, init);
      LatestOfAfter(b, init);
      FlowAdds(b.rate, 0.0, Climb(b.last, init), Climb(b.last, times));
      hide Flow, Climb;
    }
  }

  lemma {:induction false} StraightenedAt(start: real, times: seq<real>, k: nat)
    requires k < |times|
    ensures |Straightened(start, times)| == |times|
    ensures Straightened(start, times)[k] == start + Climb(start, times[..k + 1])
  {
    var n := |times|;
    var init := times[..n - 1];
    StraightenedLength(start, init);
    if k < n - 1 {
      StraightenedAt(start, init, k);
      assert init[..k + 1] == times[..k + 1];
    } else {
      assert times[..n] == times;
    }
  }

  lemma {:induction false} StraightenedLength(start: real, times: seq<real>)
    ensures |Straightened(start, times)| == |times|
  {
    if times != [] { StraightenedLength(start, times[..|times| - 1]); }
  }

  /** Granting one more at `now` would exceed a full bucket and the inflow of the climb since the `k`-th reading. */
  predicate BreaksOnClimb(b: Bucket, times: seq<real>, now: real, k: nat)
    requires k < |times|
  {
    GrantedSince(b, times, k) as real + 1.0
    > b.rate + Flow(b.rate, Climb(b.last, times + [now]) - Climb(b.last, times[..k + 1]))
  }

  /** The refusals are exact on any readings, with the climb since a reading for the time since it. */
  lemma RefusedExactlyOnClimb(b: Bucket, times: seq<real>, now: real)
    requires Holds(b) && b.tokens == b.rate
    ensures !Granted(After(b, times), now) <==> exists k :: 0 <= k < |times| && BreaksOnClimb(b, times, now, k)
  {
    hide *;
    var s, t := Straightened(b.last, times), b.last + Climb(b.last, times + [now]);
    StraightenedUpTo(b, times, now);
    StraightenedLength(b.last, times);
    SameStraightened(b, times);
    SameRequest(b, times, now);
    RefusedExactly(b, s, t);
    forall k | 0 <= k < |times| ensures BreaksOnClimb(b, times, now, k) <==> BreaksBound(b, s, t, k) {
      BreaksAlike(b, times, now, k);
    }
  }

  lemma StraightenedUpTo(b: Bucket, times: seq<real>, now: real)
    requires Holds(b) && b.tokens == b.rate
    ensures UpTo(b, Straightened(b.last, times), b.last + Climb(b.last, times + [now]))
  {
    assert (times + [now])[..|times|] == times;
    ClimbExactly(b.last, times);
    StraightenedOrdered(b.last, times);
    hide InOrder, Straightened;
  }

  lemma BreaksAlike(b: Bucket, times: seq<real>, now: real, k: nat)
    requires k < |times|
    ensures |Straightened(b.last, times)| == |times|
    ensures BreaksOnClimb(b, times, now, k) <==>
            BreaksBound(b, Straightened(b.last, times), b.last + Climb(b.last, times + [now]), k)
  {
    StraightenedAt(b.last, times, k);
    SameGrants(b, times, k);
    hide GrantedSince, Flow, Climb, Straightened;
    var s, t := Straightened(b.last, times), b.last + Climb(b.last, times + [now]);
    assert t - s[k] == Climb(b.last, times + [now]) - Climb(b.last, times[..k + 1]);
  }

  /**
   * Readings that go back credit the same second twice: rate 1, and three grants at 0, 1 and, after a
   * reading of 0, 1 again.
   */
  lemma StaleReadingCreditsTwice()
    ensures var b := Full(1.0, 0.0);
            GrantedIn(b, [0.0, 1.0, 0.0, 1.0], 0.0, 1.0) == 3
    ensures 3.0 > 1.0 + Flow(1.0, 1.0 - 0.0)
  {
    var b := Full(1.0, 0.0);
    assert [0.0, 1.0, 0.0, 1.0][..3] == [0.0, 1.0, 0.0];
    assert [0.0, 1.0, 0.0][..2] == [0.0, 1.0];
    assert [0.0, 1.0][..1] == [0.0];
    assert [0.0][..0] == [];
    assert After(b, []) == b;
    assert After(b, [0.0]) == Bucket(1.0, 0.0, 0.0);
    assert After(b, [0.0, 1.0]) == Bucket(1.0, 0.0, 1.0);
    assert After(b, [0.0, 1.0, 0.0]) == Bucket(1.0, 0.0, 0.0);
  }

  // ---------- the cap on live sessions ----------

  datatype Rejection = ConnFull | RateLimited

  /** `counted` permits hold a place under the cap until they are dropped. */
  datatype Permit = Permit(id: nat, counted: bool)

  class Limiter {
    const cap: Option<nat>
    const bucket: TokenBucket?
    var available: nat
    var issued: nat
    ghost var live: set<nat>

    ghost predicate Valid()
      reads this, bucket
    {
      && (bucket != null ==> Holds(bucket.State()))
      && (forall id :: id in live ==> id < issued)
      && (cap.Some? ==> cap.value >= 1 && available + |live| == cap.value)
      && (cap.None? ==> live == {})
    }

    /** Whether one more session would get in now. */
    ghost predicate Admits(now: real)
      reads this, bucket
    {
      (bucket != null ==> Granted(bucket.State(), now)) && cap != Some(|live|)
    }

    constructor (maxConnections: Option<nat>, maxRps: Option<nat>, now: real)
      ensures Valid() && live == {}
      ensures cap == if maxConnections.None? then None
          else Some(if maxConnections.value == 0 then 1 else maxConnections.value)
      ensures if maxRps.None? then bucket == null
              else
                && bucket != null && fresh(bucket)
                && bucket.State() == Full((if maxRps.value == 0 then 1 else maxRps.value) as real, now)
    {
      cap := if maxConnections.None? then None
          else Some(if maxConnections.value == 0 then 1 else maxConnections.value);
      available := if maxConnections.None? then 0 else if maxConnections.value == 0 then 1 else maxConnections.value;
      issued, live := 0, {};
      if maxRps.None? {
        bucket := null;
      } else {
        bucket := new TokenBucket(if maxRps.value == 0 then 1 else maxRps.value, now);
      }
    }

    /** The bucket is asked first, so a session refused by the cap has already spent a token. */
    method Acquire(now: real) returns (r: Result<Permit, Rejection>)
      requires Valid()
      modifies this, bucket
      ensures Valid()
      ensures bucket != null ==> bucket.State() == Taken(old(bucket.State()), now)
      ensures r == Err(RateLimited) <==> bucket != null && !Granted(old(bucket.State()), now)
      ensures r == Err(ConnFull) <==> r != Err(RateLimited) && cap == Some(|old(live)|)
      ensures r.Ok? <==> old(Admits(now))
      ensures r.Err? ==> live == old(live)
      ensures r.Ok? && cap.None? ==> !r.value.counted && live == old(live)
      ensures r.Ok? && cap.Some? ==> r.value.counted && r.value.id !in old(live) && live == old(live) + {r.value.id}
    {
      if bucket != null {
        var ok := bucket.TryTake(now);
        if !ok { return Err(RateLimited); }
      }
      if cap.None? { return Ok(Permit(0, false)); }
      if available == 0 { return Err(ConnFull); }
      available := available - 1;
      r := Ok(Permit(issued, true));
      live := live + {issued};
      issued := issued + 1;
    }

    /** Dropping a permit, which its session does once. */
    method Release(permit: Permit)
      requires Valid() && (permit.counted ==> permit.id in live)
      modifies this
      ensures Valid() && live == if permit.counted then old(live) - {permit.id} else old(live)
      ensures bucket != null ==> bucket.State() == old(bucket.State())
    {
      if permit.counted {
        available := available + 1;
        live := live - {permit.id};
      }
    }
  }
}
