/**
 The per-address login limiter: failures are counted in windows that start at the first failure, and
 expired windows are evicted when somebody asks. Times are readings of one clock that never goes back.
 */
module LoginLimiter {
  import opened Wrappers

  type Ip = int

  datatype Failures = Failures(count: nat, start: nat)

  datatype Decision = Allow | Blocked

  datatype Limits = Limits(maxFailures: nat, window: nat)

  type Entries = map<Ip, Failures>

  // ---------- what the operations do ----------

  predicate Expired(limits: Limits, f: Failures, now: nat) {
    now - f.start >= limits.window
  }

  function Evicted(limits: Limits, entries: Entries, now: nat): Entries {
    map ip | ip in entries && !Expired(limits, entries[ip], now) :: entries[ip]
  }

  function Decide(limits: Limits, entries: Entries, ip: Ip): Decision {
    if ip in entries && entries[ip].count >= limits.maxFailures then Blocked else Allow
  }

  /** One more failure on top of what is known of the address. */
  function Counted(limits: Limits, known: Option<Failures>, now: nat): Failures {
    if known.None? || Expired(limits, known.value, now) then Failures(1, now)
    else known.value.(count := known.value.count + 1)
  }

  function Known(entries: Entries, ip: Ip): Option<Failures> {
    if ip in entries then Some(entries[ip]) else None
  }

  function Recorded(limits: Limits, entries: Entries, ip: Ip, now: nat): Entries {
    entries[ip := Counted(limits, Known(entries, ip), now)]
  }

  /** What the password check says; `Unusable` covers a broken body and a failed user lookup. */
  datatype Attempt = WrongPassword | RightPassword | Unusable

  datatype Response = Forbidden | Unauthorized | LoggedIn | OtherError

  class InMemoryLoginLimiter {
    const limits: Limits
    var entries: Entries

    constructor (limits: Limits)
      ensures this.limits == limits && entries == map[]
    {
      this.limits := limits;
      entries := map[];
    }

    method Evict(now: nat)
      modifies this
      ensures entries == Evicted(limits, old(entries), now)
    {
      var expired := Elements(set ip | ip in entries && Expired(limits, entries[ip], now));
      var i := 0;
      while i < |expired|
        invariant 0 <= i <= |expired|
        invariant entries == map ip | ip in old(entries) && ip !in expired[..i] :: old(entries)[ip]
      {
        entries := entries - {expired[i]};
        i := i + 1;
      }
      assert expired[..|expired|] == expired;
    }

    method Check(ip: Ip, now: nat) returns (d: Decision)
      modifies this
      ensures entries == Evicted(limits, old(entries), now)
      ensures d == Decide(limits, entries, ip)
    {
      Evict(now);
      d := if ip in entries && entries[ip].count >= limits.maxFailures then Blocked else Allow;
    }

    method RecordFailure(ip: Ip, now: nat) returns (d: Decision)
      modifies this
      ensures entries == Recorded(limits, old(entries), ip, now)
      ensures d == Decide(limits, entries, ip)
    {
      var state := if ip in entries then entries[ip] else Failures(0, now);
      if now - state.start >= limits.window {
        state := Failures(0, now);
      }
      state := state.(count := state.count + 1);
      entries := entries[ip := state];
      d := if state.count >= limits.maxFailures then Blocked else Allow;
    }

    method RecordSuccess(ip: Ip)
      modifies this
      ensures entries == old(entries) - {ip}
    {
      entries := entries - {ip};
    }

    /** The login handler with nobody else in between; the limiter is asked at `now` and told at `later`. */
    method Login(ip: Ip, now: nat, attempt: Attempt, later: nat) returns (r: Response)
      modifies this
      ensures var asked := Evicted(limits, old(entries), now);
              var told := Recorded(limits, asked, ip, later);
              if Decide(limits, asked, ip) == Blocked then r == Forbidden && entries == asked
              else match attempt
                case Unusable => r == OtherError && entries == asked
                case RightPassword => r == LoggedIn && entries == asked - {ip}
                case WrongPassword =>
                  && entries == told
                  && r == if Decide(limits, told, ip) == Blocked then Forbidden else Unauthorized
    {
      var d := Check(ip, now);
      if d == Blocked { return Forbidden; }
      match attempt {
        case Unusable => r := OtherError;
        case RightPassword =>
          RecordSuccess(ip);
          r := LoggedIn;
        case WrongPassword =>
          d := RecordFailure(ip, later);
          r := if d == Blocked then Forbidden else Unauthorized;
      }
    }
  }

  // ---------- runs of many addresses, with logins in flight ----------

  /** `Leave` is a login that was let in and ends without telling the limiter anything. */
  datatype Event =
    | Check(ip: Ip, now: nat)
    | Fail(ip: Ip, now: nat)
    | Succeed(ip: Ip, now: nat)
    | Leave(ip: Ip, now: nat)

  function Apply(limits: Limits, entries: Entries, e: Event): Entries {
    match e
    case Check(_, now) => Evicted(limits, entries, now)
    case Fail(ip, now) => Recorded(limits, entries, ip, now)
    case Succeed(ip, _) => entries - {ip}
    case Leave(_, _) => entries
  }

  function EntriesAfter(limits: Limits, run: seq<Event>): Entries {
    if run == [] then map[] else Apply(limits, EntriesAfter(limits, run[..|run| - 1]), run[|run| - 1])
  }

  /** Whether a check after `run` lets the address in. */
  predicate LetIn(limits: Limits, run: seq<Event>, ip: Ip, now: nat) {
    Decide(limits, Evicted(limits, EntriesAfter(limits, run), now), ip) == Allow
  }

  predicate InOrder(run: seq<Event>) {
    forall i, j :: 0 <= i < j < |run| ==> run[i].now <= run[j].now
  }

  // ---------- the simple limiter: one address, nothing evicted ----------

  function PlainApply(limits: Limits, known: Option<Failures>, ip: Ip, e: Event): Option<Failures> {
    if e.ip != ip then known
    else match e
      case Fail(_, now) => Some(Counted(limits, known, now))
      case Succeed(_, _) => None
      case _ => known
  }

  function PlainAfter(limits: Limits, run: seq<Event>, ip: Ip): Option<Failures> {
    if run == [] then None else PlainApply(limits, PlainAfter(limits, run[..|run| - 1], ip), ip, run[|run| - 1])
  }

  function Live(limits: Limits, known: Option<Failures>, now: nat): Option<Failures> {
    if known.Some? && Expired(limits, known.value, now) then None else known
  }

  predicate PlainLetIn(limits: Limits, run: seq<Event>, ip: Ip, now: nat) {
    var live := Live(limits, PlainAfter(limits, run, ip), now);
    live.None? || live.value.count < limits.maxFailures
  }

  function Mine(run: seq<Event>, ip: Ip): seq<Event> {
    if run == [] then []
    else Mine(run[..|run| - 1], ip) + (if run[|run| - 1].ip == ip then [run[|run| - 1]] else [])
  }

  lemma {:induction false} SameLiveWindow(limits: Limits, run: seq<Event>, ip: Ip, now: nat)
    requires InOrder(run) && (run != [] ==> run[|run| - 1].now <= now)
    ensures Live(limits, Known(EntriesAfter(limits, run), ip), now) == Live(limits, PlainAfter(limits, run, ip), now)
  {
    if run != [] {
      var last := run[|run| - 1];
      SameLiveWindow(limits, run[..|run| - 1], ip, last.now);
    }
  }

  lemma {:induction false} OthersDoNotMatter(limits: Limits, run: seq<Event>, ip: Ip)
    ensures PlainAfter(limits, run, ip) == PlainAfter(limits, Mine(run, ip), ip)
  {
    if run != [] {
      var mine, last := Mine(run[..|run| - 1], ip), run[|run| - 1];
      OthersDoNotMatter(limits, run[..|run| - 1], ip);
      assert (mine + [last])[..|mine|] == mine && mine + [] == mine;
    }
  }

  /** The evicting table of all addresses decides as the plain limiter that only ever saw this address. */
  lemma EvictionAndOthersInvisible(limits: Limits, run: seq<Event>, ip: Ip, now: nat)
    requires InOrder(run) && (run != [] ==> run[|run| - 1].now <= now)
    ensures LetIn(limits, run, ip, now) <==> PlainLetIn(limits, Mine(run, ip), ip, now)
  {
    SameLiveWindow(limits, run, ip, now);
    OthersDoNotMatter(limits, run, ip);
  }

  // ---------- who is blocked, told from the events ----------

  predicate NoSuccess(run: seq<Event>, ip: Ip, i: nat, k: nat)
    requires i <= k <= |run|
  {
    forall m :: i <= m < k ==> !(run[m].Succeed? && run[m].ip == ip)
  }

  /** Event `i` is a failure of the address that falls into no window opened before and not closed by a success. */
  ghost predicate Opens(limits: Limits, run: seq<Event>, ip: Ip, i: nat)
    requires i < |run|
    decreases i
  {
    && run[i].Fail? && run[i].ip == ip
    && forall j :: 0 <= j < i && Opens(limits, run, ip, j) && NoSuccess(run, ip, j, i) ==>
         run[i].now >= run[j].now + limits.window
  }

  function FailuresFrom(run: seq<Event>, ip: Ip, i: nat): nat {
    if |run| <= i then 0
    else
      var last := run[|run| - 1];
      FailuresFrom(run[..|run| - 1], ip, i) + if last.Fail? && last.ip == ip then 1 else 0
  }

  /** Event `i` has opened a window that no success has closed. */
  ghost predicate Stands(limits: Limits, run: seq<Event>, ip: Ip, i: nat) {
    i < |run| && Opens(limits, run, ip, i) && NoSuccess(run, ip, i, |run|)
  }

  /** Window `i` is the latest of these. */
  ghost predicate Counts(limits: Limits, run: seq<Event>, ip: Ip, i: nat) {
    Stands(limits, run, ip, i) && forall j: nat :: Stands(limits, run, ip, j) ==> j <= i
  }

  /** What is known of the address is its window: when it was opened and how many failures have come since. */
  ghost predicate IsWindow(limits: Limits, run: seq<Event>, ip: Ip, known: Option<Failures>) {
    if known.None? then forall i: nat :: !Stands(limits, run, ip, i)
    else
      exists i: nat ::
        Counts(limits, run, ip, i) && i < |run| && known.value == Failures(FailuresFrom(run, ip, i), run[i].now)
  }

  lemma {:induction false} OpensPrefix(limits: Limits, run: seq<Event>, e: Event, ip: Ip, i: nat)
    requires i < |run|
    ensures Opens(limits, run + [e], ip, i) <==> Opens(limits, run, ip, i)
    decreases i
  {
    var more := run + [e];
    forall j | 0 <= j < i
      ensures Opens(limits, more, ip, j) <==> Opens(limits, run, ip, j)
      ensures NoSuccess(more, ip, j, i) <==> NoSuccess(run, ip, j, i)
    {
      OpensPrefix(limits, run, e, ip, j);
      NoSuccessPrefix(run, e, ip, j, i);
    }
  }

  lemma NoSuccessPrefix(run: seq<Event>, e: Event, ip: Ip, i: nat, k: nat)
    requires i <= k <= |run|
    ensures NoSuccess(run + [e], ip, i, k) <==> NoSuccess(run, ip, i, k)
    ensures NoSuccess(run + [e], ip, i, |run| + 1) <==>
            NoSuccess(run, ip, i, |run|) && !(e.Succeed? && e.ip == ip)
  {
    var more := run + [e];
    assert forall m :: 0 <= m < |run| ==> more[m] == run[m];
    assert more[|run|] == e;
    if NoSuccess(more, ip, i, k) {
      forall m | i <= m < k ensures !(run[m].Succeed? && run[m].ip == ip) { assert more[m] == run[m]; }
    }
    if NoSuccess(more, ip, i, |run| + 1) {
      forall m | i <= m < |run| ensures !(run[m].Succeed? && run[m].ip == ip) { assert more[m] == run[m]; }
    }
  }

  /** What one more event makes of windows and counts. */
  lemma OneMoreEvent(limits: Limits, run: seq<Event>, e: Event, ip: Ip)
    ensures forall i: nat :: i < |run| ==>
              (Stands(limits, run + [e], ip, i) <==> Stands(limits, run, ip, i) && !(e.Succeed? && e.ip == ip))
    ensures Stands(limits, run + [e], ip, |run|) <==>
              && e.Fail? && e.ip == ip
              && forall j: nat :: Stands(limits, run, ip, j) ==> e.now >= run[j].now + limits.window
    ensures forall i: nat :: i <= |run| ==>
              FailuresFrom(run + [e], ip, i) == FailuresFrom(run, ip, i) + if e.Fail? && e.ip == ip then 1 else 0
  {
    var more := run + [e];
    assert more[..|run|] == run;
    forall i: nat | i < |run|
      ensures Opens(limits, more, ip, i) <==> Opens(limits, run, ip, i)
      ensures NoSuccess(more, ip, i, |run|) <==> NoSuccess(run, ip, i, |run|)
      ensures NoSuccess(more, ip, i, |more|) <==> NoSuccess(run, ip, i, |run|) && !(e.Succeed? && e.ip == ip)
    {
      OpensPrefix(limits, run, e, ip, i);
      NoSuccessPrefix(run, e, ip, i, |run|);
    }
    NoSuccessPrefix(run, e, ip, |run|, |run|);
    hide NoSuccess;
    assert Opens(limits, more, ip, |run|) <==>
             && e.Fail? && e.ip == ip
             && forall j: nat :: Stands(limits, run, ip, j) ==> e.now >= run[j].now + limits.window by {
      assert more[|run|] == e;
      assert forall j: nat :: j < |run| ==> more[j] == run[j];
    }
    assert e.Fail? ==> NoSuccess(more, ip, |run|, |more|);
  }

  lemma {:induction false} PlainIsWindow(limits: Limits, run: seq<Event>, ip: Ip)
    requires InOrder(run)
    ensures IsWindow(limits, run, ip, PlainAfter(limits, run, ip))
  {
    if run != [] {
      var init, e := run[..|run| - 1], run[|run| - 1];
      assert run == init + [e];
      PlainIsWindow(limits, init, ip);
      OneMoreEvent(limits, init, e, ip);
      WindowStep(limits, init, e, ip, PlainAfter(limits, init, ip));
    }
  }

  lemma WindowStep(limits: Limits, init: seq<Event>, e: Event, ip: Ip, known: Option<Failures>)
    requires InOrder(init + [e]) && IsWindow(limits, init, ip, known)
    ensures IsWindow(limits, init + [e], ip, PlainApply(limits, known, ip, e))
  {
    var run, n := init + [e], |init|;
    OneMoreEvent(limits, init, e, ip);
    Within(limits, init, ip);
    Within(limits, run, ip);
    hide Stands, FailuresFrom;
    if known.Some? {
      var i: nat :| Counts(limits, init, ip, i) && known.value == Failures(FailuresFrom(init, ip, i), init[i].now);
      assert forall j: nat :: Stands(limits, init, ip, j) ==> j <= i && run[j].now <= run[i].now;
      if e.ip == ip && e.Fail? && Expired(limits, known.value, e.now) {
        NoneBefore(run, ip);
        assert Counts(limits, run, ip, n);
      } else if !(e.ip == ip && e.Succeed?) {
        assert Counts(limits, run, ip, i);
      }
    } else if e.ip == ip && e.Fail? {
      NoneBefore(run, ip);
      assert Counts(limits, run, ip, n);
    }
  }

  lemma Within(limits: Limits, run: seq<Event>, ip: Ip)
    ensures forall j: nat :: Stands(limits, run, ip, j) ==> j < |run|
  {
  }

  lemma NoneBefore(run: seq<Event>, ip: Ip)
    requires run != []
    ensures FailuresFrom(run[..|run| - 1], ip, |run| - 1) == 0
  {
  }

  /**
   * After any run an address is blocked exactly if its latest window, which no success has closed, is still
   * open and holds as many failures as the limit allows. So a success lets it in again.
   */
  lemma BlockedExactly(limits: Limits, run: seq<Event>, ip: Ip, now: nat)
    requires InOrder(run) && (run != [] ==> run[|run| - 1].now <= now) && limits.maxFailures >= 1
    ensures !LetIn(limits, run, ip, now) <==>
            exists i: nat :: Counts(limits, run, ip, i) && i < |run|
              && now < run[i].now + limits.window && FailuresFrom(run, ip, i) >= limits.maxFailures
  {
    SameLiveWindow(limits, run, ip, now);
    PlainIsWindow(limits, run, ip);
    hide Stands, FailuresFrom, EntriesAfter, PlainAfter;
    if PlainAfter(limits, run, ip).Some? {
      var i: nat :| Counts(limits, run, ip, i)
        && PlainAfter(limits, run, ip).value == Failures(FailuresFrom(run, ip, i), run[i].now);
    }
  }

  // ---------- how many failures get through ----------

  /** Logins of the address that were let in and have not ended. */
  function Flying(limits: Limits, run: seq<Event>, ip: Ip): int {
    if run == [] then 0
    else
      var init, last := run[..|run| - 1], run[|run| - 1];
      Flying(limits, init, ip) +
      (if last.ip != ip then 0 else if !last.Check? then -1 else if LetIn(limits, init, ip, last.now) then 1 else 0)
  }

  /** Only logins that were let in end, at most `width` of the address are under way at once, and none succeeds. */
  ghost predicate FailingRun(limits: Limits, run: seq<Event>, ip: Ip, width: nat) {
    && InOrder(run)
    && (forall i :: 0 <= i < |run| ==> run[i] != Succeed(ip, run[i].now))
    && (forall i :: 0 <= i <= |run| ==> 0 <= Flying(limits, run[..i], ip) <= width)
  }

  function FailuresIn(run: seq<Event>, ip: Ip, from: nat, to: nat): nat {
    if run == [] then 0
    else
      var last := run[|run| - 1];
      FailuresIn(run[..|run| - 1], ip, from, to) +
          (if last.Fail? && last.ip == ip && from <= last.now < to then 1 else 0)
  }

  ghost predicate Bounded(limits: Limits, run: seq<Event>, ip: Ip, width: nat, from: nat, now: nat) {
    var known, flying, n := PlainAfter(limits, run, ip), Flying(limits, run, ip),
        FailuresIn(run, ip, from, from + limits.window);
    var most := limits.maxFailures + width - 1;
    && (known.None? ==> n == 0)
    && (known.Some? ==>
         && 1 <= known.value.count <= most
         && known.value.start <= now
         && (!Expired(limits, known.value, now) ==> known.value.count + flying <= most)
         && n <= if known.value.start < from then known.value.count - 1
                 else if known.value.start < from + limits.window then most - 1 + known.value.count
                 else 2 * most - 1)
    && (known.Some? && now < from ==> n == 0)
  }

  lemma {:induction false} BoundedAlways(limits: Limits, run: seq<Event>, ip: Ip, width: nat, from: nat, now: nat)
    requires limits.maxFailures >= 1 && width >= 1
    requires FailingRun(limits, run, ip, width) && (run != [] ==> run[|run| - 1].now <= now)
    ensures Bounded(limits, run, ip, width, from, now)
  {
    if run != [] {
      var init, last := run[..|run| - 1], run[|run| - 1];
      forall i | 0 <= i <= |init| ensures init[..i] == run[..i] {}
      assert run[..|run|] == run;
      BoundedAlways(limits, init, ip, width, from, last.now);
      EvictionAndOthersInvisible(limits, init, ip, last.now);
      OthersDoNotMatter(limits, init, ip);
    }
  }

  /**
   * No half-open interval of window length sees more than 2 * (max + width) - 3 failed logins of an
   * address that never has more than `width` logins under way; for one at a time, 2 * max - 1.
   */
  lemma FailuresBounded(limits: Limits, run: seq<Event>, ip: Ip, width: nat, from: nat)
    requires limits.maxFailures >= 1 && width >= 1
    requires FailingRun(limits, run, ip, width)
    ensures FailuresIn(run, ip, from, from + limits.window) <= 2 * (limits.maxFailures + width) - 3
  {
    var now := if run == [] then 0 else run[|run| - 1].now;
    BoundedAlways(limits, run, ip, width, from, now);
  }

  // ---------- the bound is reached ----------

  /** What the bound needs to know of a run of failing logins of one address. */
  ghost predicate At(limits: Limits, run: seq<Event>, ip: Ip, width: nat, now: nat, known: Option<Failures>,
      flying: nat) {
    && FailingRun(limits, run, ip, width)
    && (run != [] ==> run[|run| - 1].now <= now)
    && PlainAfter(limits, run, ip) == known && Flying(limits, run, ip) == flying
  }

  lemma Appended(limits: Limits, run: seq<Event>, ip: Ip, e: Event, width: nat)
    requires FailingRun(limits, run, ip, width) && !e.Succeed? && (run != [] ==> run[|run| - 1].now <= e.now)
    requires 0 <= Flying(limits, run + [e], ip) <= width
    ensures FailingRun(limits, run + [e], ip, width)
  {
    var more := run + [e];
    assert more[..|more|] == more && run[..|run|] == run;
    forall i | 0 <= i <= |run| ensures more[..i] == run[..i] {}
    hide Flying;
  }

  lemma OneMore(limits: Limits, run: seq<Event>, ip: Ip, e: Event, from: nat, to: nat)
    ensures PlainAfter(limits, run + [e], ip) == PlainApply(limits, PlainAfter(limits, run, ip), ip, e)
    ensures e.ip == ip && e.Check? && LetIn(limits, run, ip, e.now) ==>
              Flying(limits, run + [e], ip) == Flying(limits, run, ip) + 1
    ensures e.ip == ip && !e.Check? ==> Flying(limits, run + [e], ip) == Flying(limits, run, ip) - 1
    ensures FailuresIn(run + [e], ip, from, to)
            == FailuresIn(run, ip, from, to) + (if e.Fail? && e.ip == ip && from <= e.now < to then 1 else 0)
  {
    assert (run + [e])[..|run|] == run;
    hide LetIn, PlainApply;
  }

  /** A login that is let in. */
  lemma Enters(limits: Limits, run: seq<Event>, ip: Ip, width: nat, now: nat, known: Option<Failures>, flying: nat,
      from: nat, to: nat)
    requires At(limits, run, ip, width, now, known, flying) && flying < width
    requires known.None? || Expired(limits, known.value, now) || known.value.count < limits.maxFailures
    ensures At(limits, run + [Check(ip, now)], ip, width, now, known, flying + 1)
    ensures FailuresIn(run + [Check(ip, now)], ip, from, to) == FailuresIn(run, ip, from, to)
  {
    EvictionAndOthersInvisible(limits, run, ip, now);
    OthersDoNotMatter(limits, run, ip);
    OneMore(limits, run, ip, Check(ip, now), from, to);
    Appended(limits, run, ip, Check(ip, now), width);
    hide FailingRun, LetIn, PlainAfter, Flying, FailuresIn;
  }

  /** A login under way that fails. */
  lemma Leaves(limits: Limits, run: seq<Event>, ip: Ip, width: nat, now: nat, known: Option<Failures>, flying: nat,
      from: nat, to: nat)
    requires At(limits, run, ip, width, now, known, flying) && flying > 0
    ensures At(limits, run + [Fail(ip, now)], ip, width, now, Some(Counted(limits, known, now)), flying - 1)
    ensures FailuresIn(run + [Fail(ip, now)], ip, from, to) == FailuresIn(run, ip, from, to) +
        (if from <= now < to then 1 else 0)
  {
    OneMore(limits, run, ip, Fail(ip, now), from, to);
    Appended(limits, run, ip, Fail(ip, now), width);
    hide FailingRun, PlainAfter, Flying, FailuresIn;
  }

  /** `k` logins enter. */
  function Entering(run: seq<Event>, ip: Ip, now: nat, k: nat): seq<Event> {
    if k == 0 then run else Entering(run, ip, now, k - 1) + [Check(ip, now)]
  }

  /** `k` of the logins under way fail. */
  function Failing(run: seq<Event>, ip: Ip, now: nat, k: nat): seq<Event> {
    if k == 0 then run else Failing(run, ip, now, k - 1) + [Fail(ip, now)]
  }

  /** `k` logins enter and fail one after the other. */
  function Trying(run: seq<Event>, ip: Ip, now: nat, k: nat): seq<Event> {
    if k == 0 then run else Trying(run, ip, now, k - 1) + [Check(ip, now)] + [Fail(ip, now)]
  }

  /**
   * One window used up: as many logins as may be under way enter at `first`, one fails and opens the
   * window; at `later` others enter and fail one by one until the limit is reached, and at last the
   * ones still under way.
   */
  function UsedUp(limits: Limits, run: seq<Event>, ip: Ip, width: nat, first: nat, later: nat): seq<Event>
    requires limits.maxFailures >= 1 && width >= 1
  {
    Failing(Trying(Entering(run, ip, first, width) + [Fail(ip, first)], ip, later, limits.maxFailures - 1), ip,
        later, width - 1)
  }

  lemma {:induction false} EnteringAt(limits: Limits, run: seq<Event>, ip: Ip, width: nat, now: nat,
      known: Option<Failures>, k: nat, from: nat, to: nat)
    requires At(limits, run, ip, width, now, known, 0) && k <= width
    requires known.None? || Expired(limits, known.value, now)
    ensures At(limits, Entering(run, ip, now, k), ip, width, now, known, k)
    ensures FailuresIn(Entering(run, ip, now, k), ip, from, to) == FailuresIn(run, ip, from, to)
  {
    if k > 0 {
      EnteringAt(limits, run, ip, width, now, known, k - 1, from, to);
      hide At, FailuresIn;
      Enters(limits, Entering(run, ip, now, k - 1), ip, width, now, known, k - 1, from, to);
    }
  }

  lemma {:induction false} TryingAt(limits: Limits, run: seq<Event>, ip: Ip, width: nat, now: nat, known: Failures,
      k: nat, from: nat, to: nat)
    requires width >= 1 && At(limits, run, ip, width, now, Some(known), width - 1)
    requires !Expired(limits, known, now) && known.count + k <= limits.maxFailures
    ensures At(limits, Trying(run, ip, now, k), ip, width, now, Some(known.(count := known.count + k)), width - 1)
    ensures FailuresIn(Trying(run, ip, now, k), ip, from, to)
            == FailuresIn(run, ip, from, to) + (if from <= now < to then k else 0)
  {
    if k > 0 {
      var before := Trying(run, ip, now, k - 1);
      var reached := known.(count := known.count + k - 1);
      TryingAt(limits, run, ip, width, now, known, k - 1, from, to);
      hide At, FailuresIn;
      Enters(limits, before, ip, width, now, Some(reached), width - 1, from, to);
      Leaves(limits, before + [Check(ip, now)], ip, width, now, Some(reached), width, from, to);
    }
  }

  lemma {:induction false} FailingAt(limits: Limits, run: seq<Event>, ip: Ip, width: nat, now: nat, known: Failures,
      k: nat, flying: nat, from: nat, to: nat)
    requires At(limits, run, ip, width, now, Some(known), flying) && k <= flying && !Expired(limits, known, now)
    ensures At(limits, Failing(run, ip, now, k), ip, width, now, Some(known.(count := known.count + k)), flying - k)
    ensures FailuresIn(Failing(run, ip, now, k), ip, from, to)
            == FailuresIn(run, ip, from, to) + (if from <= now < to then k else 0)
  {
    if k > 0 {
      FailingAt(limits, run, ip, width, now, known, k - 1, flying, from, to);
      hide At, FailuresIn;
      Leaves(limits, Failing(run, ip, now, k - 1), ip, width, now, Some(known.(count := known.count + k - 1)),
          flying - (k - 1), from, to);
    }
  }

  lemma LaterAt(limits: Limits, run: seq<Event>, ip: Ip, width: nat, now: nat, later: nat, known: Option<Failures>,
      flying: nat)
    requires At(limits, run, ip, width, now, known, flying) && now <= later
    ensures At(limits, run, ip, width, later, known, flying)
  {
  }

  lemma UsedUpAt(limits: Limits, run: seq<Event>, ip: Ip, width: nat, first: nat, later: nat,
      known: Option<Failures>, from: nat, to: nat)
    requires limits.maxFailures >= 1 && width >= 1 && first <= later < first + limits.window
    requires At(limits, run, ip, width, first, known, 0) && (known.None? || Expired(limits, known.value, first))
    ensures At(limits, UsedUp(limits, run, ip, width, first, later), ip, width, later,
               Some(Failures(limits.maxFailures + width - 1, first)), 0)
    ensures FailuresIn(UsedUp(limits, run, ip, width, first, later), ip, from, to)
            == FailuresIn(run, ip, from, to) + (if from <= first < to then 1 else 0) +
               (if from <= later < to then limits.maxFailures + width - 2 else 0)
  {
    hide *;
    var m := limits.maxFailures;
    var tried := Trying(Entering(run, ip, first, width) + [Fail(ip, first)], ip, later, m - 1);
    StillOpen(limits, m, first, later);
    TriedAt(limits, run, ip, width, first, later, known, from, to);
    FailingAt(limits, tried, ip, width, later, Failures(m, first), width - 1, width - 1, from, to);
    assert UsedUp(limits, run, ip, width, first, later) == Failing(tried, ip, later, width - 1) by {
      InTheEnd(limits, run, ip, width, first, later);
    }
  }

  lemma InTheEnd(limits: Limits, run: seq<Event>, ip: Ip, width: nat, first: nat, later: nat)
    requires limits.maxFailures >= 1 && width >= 1
    ensures UsedUp(limits, run, ip, width, first, later)
            == Failing(Trying(Entering(run, ip, first, width) + [Fail(ip, first)], ip, later, limits.maxFailures - 1),
                       ip, later, width - 1)
  {
  }

  lemma StillOpen(limits: Limits, count: nat, first: nat, later: nat)
    requires first <= later < first + limits.window
    ensures !Expired(limits, Failures(count, first), later)
  {
  }

  lemma TriedAt(limits: Limits, run: seq<Event>, ip: Ip, width: nat, first: nat, later: nat, known: Option<Failures>,
      from: nat, to: nat)
    requires limits.maxFailures >= 1 && width >= 1 && first <= later < first + limits.window
    requires At(limits, run, ip, width, first, known, 0) && (known.None? || Expired(limits, known.value, first))
    ensures var tried := Trying(Entering(run, ip, first, width) + [Fail(ip, first)], ip, later,
        limits.maxFailures - 1);
            && At(limits, tried, ip, width, later, Some(Failures(limits.maxFailures, first)), width - 1)
            && FailuresIn(tried, ip, from, to)
               == FailuresIn(run, ip, from, to) + (if from <= first < to then 1 else 0) +
                  (if from <= later < to then limits.maxFailures - 1 else 0)
  {
    var open, one := Entering(run, ip, first, width) + [Fail(ip, first)], Failures(1, first);
    assert !Expired(limits, one, later);
    OpenAt(limits, run, ip, width, first, known, from, to);
    hide At, FailuresIn, Entering, Trying, Expired;
    LaterAt(limits, open, ip, width, first, later, Some(one), width - 1);
    TryingAt(limits, open, ip, width, later, one, limits.maxFailures - 1, from, to);
    assert one.(count := one.count + (limits.maxFailures - 1)) == Failures(limits.maxFailures, first);
  }

  lemma OpenAt(limits: Limits, run: seq<Event>, ip: Ip, width: nat, first: nat, known: Option<Failures>, from: nat,
      to: nat)
    requires width >= 1
    requires At(limits, run, ip, width, first, known, 0) && (known.None? || Expired(limits, known.value, first))
    ensures At(limits, Entering(run, ip, first, width) + [Fail(ip, first)], ip, width, first,
        Some(Failures(1, first)), width - 1)
    ensures FailuresIn(Entering(run, ip, first, width) + [Fail(ip, first)], ip, from, to)
            == FailuresIn(run, ip, from, to) + (if from <= first < to then 1 else 0)
  {
    hide At, FailuresIn;
    EnteringAt(limits, run, ip, width, first, known, width, from, to);
    Leaves(limits, Entering(run, ip, first, width), ip, width, first, known, width, from, to);
  }

  /**
   * The bound is reached for every limit and every width: one window is used up late, the next one at
   * once, and both fall into one interval of window length but for the failure that opened the first.
   */
  lemma BoundReached(limits: Limits, width: nat, ip: Ip)
    requires limits.maxFailures >= 1 && width >= 1 && limits.window >= 2
    ensures var w := limits.window;
            var run := UsedUp(limits, UsedUp(limits, [], ip, width, 0, w - 1), ip, width, w, w);
            && FailingRun(limits, run, ip, width)
            && FailuresIn(run, ip, w - 1, w - 1 + w) == 2 * (limits.maxFailures + width) - 3
  {
    var w := limits.window;
    var first := UsedUp(limits, [], ip, width, 0, w - 1);
    var known := Some(Failures(limits.maxFailures + width - 1, 0));
    assert At(limits, [], ip, width, 0, None, 0);
    assert FailuresIn([], ip, w - 1, w - 1 + w) == 0;
    hide UsedUp, FailuresIn;
    UsedUpAt(limits, [], ip, width, 0, w - 1, None, w - 1, w - 1 + w);
    LaterAt(limits, first, ip, width, w - 1, w, known, 0);
    UsedUpAt(limits, first, ip, width, w, w, known, w - 1, w - 1 + w);
  }
}
