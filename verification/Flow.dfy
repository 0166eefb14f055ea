/**
 The startup flow of one instance: register if needed, configure, connect, and poll until the data
 plane is up. The daemon answers from a script, calls take time, and a sleep may last longer than asked.
 Times are milliseconds.
 */
module Flow {
  import opened Wrappers

  const ZT_RETRY: nat := 2000
  const ZT_BUDGET: nat := 60000
  const POLL: nat := 2000
  const VERIFY_BUDGET: nat := 90000

  /**
   * `Missing` is the signature of a registration that has not happened yet; `Down` is a status that is
   * not connected.
   */
  datatype Reply = Good | Missing | Down | Failed

  datatype Action =
    | Register(reply: Reply)
    | Account(reply: Reply)
    | Mode(reply: Reply)
    | SetPort(reply: Reply)
    | Connect(reply: Reply)
    | Status(reply: Reply)
    | Sleep(duration: nat)

  datatype FlowError =
    | RegisterFailed(attempts: nat)
    | ConfigureFailed
    | ConnectFailed
    | VerifyFailed

  datatype Outcome = Outcome(wasRegistered: bool, attempts: nat)

  type Log = seq<Action>

  // ---------- what a run may do ----------

  /** `k` probes that failed with `probe`, each followed by the same pause. */
  ghost predicate Polls(log: Log, k: nat, probe: Action, pause: nat) {
    |log| == 2 * k && forall i :: 0 <= i < k ==> log[2 * i] == probe && log[2 * i + 1] == Sleep(pause)
  }

  /** Polling that ends with one more probe, after at most `most` failed ones. */
  ghost predicate PollLog(log: Log, most: nat, probe: Action, pause: nat, last: Action) {
    exists k :: 0 <= k <= most && |log| == 2 * k + 1 && Polls(log[..2 * k], k, probe, pause) && log[2 * k] == last
  }

  /** `k` refused registrations, each followed by its pause. */
  ghost predicate Refusals(log: Log, k: nat, delay: nat -> nat) {
    && |log| == 2 * k
    && forall i :: 0 <= i < k ==>
         log[2 * i].Register? && log[2 * i].reply != Good && log[2 * i + 1] == Sleep(delay(i + 1))
  }

  ghost predicate RegisterLog(log: Log, max: nat, delay: nat -> nat, attempts: nat, last: Reply) {
    && 1 <= attempts <= max
    && |log| == 2 * attempts - 1 && Refusals(log[..2 * (attempts - 1)], attempts - 1, delay)
    && log[2 * (attempts - 1)] == Register(last)
    && (last != Good ==> attempts == max)
  }

  /** Account, mode and port in this order, up to the first that fails. */
  ghost predicate ConfigureLog(log: Log, ok: bool) {
    && 1 <= |log| <= 3
    && log[0].Account? && (|log| > 1 ==> log[1].Mode?) && (|log| > 2 ==> log[2].SetPort?)
    && (forall i :: 0 <= i < |log| - 1 ==> Answered(log[i]) == Good)
    && (ok <==> |log| == 3 && Answered(log[2]) == Good)
    && (!ok ==> Answered(log[|log| - 1]) != Good)
  }

  function Answered(a: Action): Reply {
    if a.Sleep? then Good else a.reply
  }

  /** Only a ZeroTrust start waits for its registration. */
  ghost predicate ConnectLog(log: Log, zeroTrust: bool, last: Reply) {
    PollLog(log, if zeroTrust then 30 else 0, Connect(Missing), 2000, Connect(last))
  }

  ghost predicate VerifyLog(log: Log, last: Reply) {
    PollLog(log, 45, Status(Down), 2000, Status(last))
  }

  datatype Phases = Phases(register: Log, configure: Log, connect: Log, verify: Log)

  function Whole(p: Phases): Log {
    p.register + p.configure + p.connect + p.verify
  }

  ghost predicate RegisterPhase(log: Log, skipped: bool, max: nat, delay: nat -> nat, r: Result<Outcome, FlowError>) {
    if skipped then log == [] && (r.Ok? ==> r.value == Outcome(false, 0)) && (r.Err? ==> !r.error.RegisterFailed?)
    else
      exists attempts: nat, last :: RegisterLog(log, max, delay, attempts, last) &&
        (if last != Good then r == Err(RegisterFailed(max))
         else (r.Ok? ==> r.value == Outcome(true, attempts)) && (r.Err? ==> !r.error.RegisterFailed?))
  }

  ghost predicate ConfigurePhase(log: Log, skipped: bool, r: Result<Outcome, FlowError>) {
    if skipped then log == [] && r != Err(ConfigureFailed) else ConfigureLog(log, r != Err(ConfigureFailed))
  }

  ghost predicate ConnectPhase(log: Log, zeroTrust: bool, r: Result<Outcome, FlowError>) {
    exists last :: ConnectLog(log, zeroTrust, last) && (last == Good <==> r != Err(ConnectFailed))
  }

  ghost predicate VerifyPhase(log: Log, r: Result<Outcome, FlowError>) {
    exists last :: VerifyLog(log, last) && (last == Good <==> r.Ok?)
  }

  /** The phases of a run with result `r`: a phase runs only if all before it succeeded. */
  ghost predicate FlowLog(p: Phases, zeroTrust: bool, regFile: bool, max: nat, delay: nat -> nat,
      r: Result<Outcome, FlowError>) {
    && RegisterPhase(p.register, zeroTrust || regFile, max, delay, r)
    && (if r.Err? && r.error.RegisterFailed? then p.configure == [] else ConfigurePhase(p.configure, zeroTrust, r))
    && (if r.Err? && (r.error.RegisterFailed? || r.error.ConfigureFailed?) then p.connect == []
        else ConnectPhase(p.connect, zeroTrust, r))
    && (if r.Err? && !r.error.VerifyFailed? then p.verify == [] else VerifyPhase(p.verify, r))
  }

  // ---------- the world the flow runs against ----------

  class Daemon {
    const script: nat -> (Reply, nat)
    const late: nat -> nat
    var calls: nat
    var now: nat
    var log: Log

    constructor (script: nat -> (Reply, nat), late: nat -> nat, now: nat)
      ensures this.now == now && log == []
    {
      this.script, this.late := script, late;
      calls, this.now, log := 0, now, [];
    }

    method Answer() returns (r: Reply)
      modifies this`calls, this`now
      ensures now >= old(now) && r == script(old(calls)).0 && calls == old(calls) + 1
    {
      r := script(calls).0;
      now := now + script(calls).1;
      calls := calls + 1;
    }

    method Do(action: Reply -> Action) returns (r: Reply)
      modifies this
      ensures now >= old(now) && log == old(log) + [action(r)]
      ensures r == script(old(calls)).0 && calls == old(calls) + 1
    {
      r := Answer();
      log := log + [action(r)];
    }

    method SleepFor(duration: nat)
      modifies this
      ensures now >= old(now) + duration && log == old(log) + [Sleep(duration)] && calls == old(calls) + 1
    {
      now := now + duration + late(calls);
      calls := calls + 1;
      log := log + [Sleep(duration)];
    }

    /** At most `max` attempts, with a pause after each refused one but the last. */
    method EnsureRegistered(regFile: bool, max: nat, delay: nat -> nat)
      returns (r: Result<Outcome, FlowError>, ghost done: Log, ghost last: Reply)
      requires max >= 1
      modifies this
      ensures log == old(log) + done && now >= old(now)
      ensures regFile ==> done == [] && r == Ok(Outcome(false, 0))
      ensures !regFile && r.Ok? ==> r.value.wasRegistered && RegisterLog(done, max, delay, r.value.attempts, Good)
      ensures !regFile && r.Err? ==>
          last != Good && r.error == RegisterFailed(max) && RegisterLog(done, max, delay, max, last)
    {
      done, last := [], Good;
      if regFile { return Ok(Outcome(false, 0)), done, last; }
      var attempt := 1;
      while true
        invariant 1 <= attempt <= max && now >= old(now)
        invariant log == old(log) + done && Refusals(done, attempt - 1, delay)
        decreases max - attempt
      {
        var reply := Do((x: Reply) => Register(x));
        ghost var before := done;
        done, last := done + [Register(reply)], reply;
        assert done[..2 * (attempt - 1)] == before;
        if reply == Good {
          return Ok(Outcome(true, attempt)), done, last;
        }
        if attempt == max {
          return Err(RegisterFailed(max)), done, last;
        }
        SleepFor(delay(attempt));
        done := done + [Sleep(delay(attempt))];
        attempt := attempt + 1;
      }
    }

    method Configure() returns (ok: bool, ghost done: Log)
      modifies this
      ensures log == old(log) + done && now >= old(now)
      ensures ConfigureLog(done, ok)
    {
      var reply := Do((x: Reply) => Account(x));
      done := [Account(reply)];
      if reply != Good { return false, done; }
      reply := Do((x: Reply) => Mode(x));
      done := done + [Mode(reply)];
      if reply != Good { return false, done; }
      reply := Do((x: Reply) => SetPort(x));
      done := done + [SetPort(reply)];
      ok := reply == Good;
    }

    /** Gives up on a missing registration no sooner than the budget allows. */
    method TryConnect(retryMissing: bool) returns (ok: bool, ghost done: Log, ghost last: Reply)
      modifies this
      ensures log == old(log) + done && now >= old(now)
      ensures ConnectLog(done, retryMissing, last) && (ok <==> last == Good)
      ensures retryMissing && last == Missing ==> now >= old(now) + 60000
    {
      done := [];
      if !retryMissing {
        var reply := Do((x: Reply) => Connect(x));
        done, last := [Connect(reply)], reply;
        assert Polls(done[..0], 0, Connect(Missing), ZT_RETRY);
        return reply == Good, done, last;
      }
      var deadline := now + ZT_BUDGET;
      ghost var k := 0;
      while true
        invariant 0 <= k <= 30 && now >= old(now) + k * ZT_RETRY
        invariant log == old(log) + done && Polls(done, k, Connect(Missing), ZT_RETRY)
        decreases 30 - k
      {
        var reply := Do((x: Reply) => Connect(x));
        ghost var before := done;
        done, last := done + [Connect(reply)], reply;
        assert done[..2 * k] == before;
        if reply == Good { return true, done, last; }
        if reply != Missing || now >= deadline { return false, done, last; }
        SleepFor(ZT_RETRY);
        done := done + [Sleep(ZT_RETRY)];
        k := k + 1;
      }
    }

    /** Gives up on a daemon that answers but is not connected no sooner than the budget allows. */
    method Verify() returns (ok: bool, ghost done: Log, ghost last: Reply)
      modifies this
      ensures log == old(log) + done && now >= old(now)
      ensures VerifyLog(done, last) && (ok <==> last == Good)
      ensures last == Down ==> now >= old(now) + 90000
    {
      var deadline := now + VERIFY_BUDGET;
      var status := Do((x: Reply) => Status(x));
      done, last := [Status(status)], status;
      ghost var k := 0;
      assert done[..0] == [];
      while status == Down
        invariant 0 <= k <= 45 && now >= old(now) + k * POLL && last == status
        invariant log == old(log) + done && |done| == 2 * k + 1
        invariant Polls(done[..2 * k], k, Status(Down), POLL) && done[2 * k] == Status(status)
        decreases 45 - k
      {
        if now >= deadline { return false, done, last; }
        SleepFor(POLL);
        ghost var before := done;
        status := Do((x: Reply) => Status(x));
        done, last := done + [Sleep(POLL), Status(status)], status;
        k := k + 1;
        assert done[..2 * k] == before + [Sleep(POLL)];
      }
      ok := status == Good;
    }

    /** Registration and configuration, which a ZeroTrust start leaves to the daemon. */
    method Prepare(zeroTrust: bool, regFile: bool, max: nat, delay: nat -> nat)
      returns (r: Result<Outcome, FlowError>, ghost registering: Log, ghost configuring: Log)
      requires max >= 1
      modifies this
      ensures log == old(log) + registering + configuring
      ensures r.Err? ==> r.error.RegisterFailed? || r.error.ConfigureFailed?
      ensures RegisterPhase(registering, zeroTrust || regFile, max, delay, r)
      ensures if r.Err? && r.error.RegisterFailed? then configuring == []
          else ConfigurePhase(configuring, zeroTrust, r)
    {
      hide RegisterLog, ConfigureLog;
      registering, configuring := [], [];
      if zeroTrust { return Ok(Outcome(false, 0)), [], []; }
      ghost var last: Reply;
      r, registering, last := EnsureRegistered(regFile, max, delay);
      if r.Err? { return; }
      var configured;
      configured, configuring := Configure();
      if !configured { r := Err(ConfigureFailed); }
    }

    method Run(zeroTrust: bool, regFile: bool, max: nat, delay: nat -> nat)
      returns (r: Result<Outcome, FlowError>, ghost p: Phases)
      requires max >= 1
      modifies this
      ensures log == old(log) + Whole(p)
      ensures FlowLog(p, zeroTrust, regFile, max, delay, r)
    {
      hide RegisterPhase, ConfigurePhase, ConnectLog, VerifyLog;
      p := Phases([], [], [], []);
      ghost var registering, configuring, more, last;
      r, registering, configuring := Prepare(zeroTrust, regFile, max, delay);
      p := p.(register := registering, configure := configuring);
      if r.Err? { return; }
      PreparedStays(p, zeroTrust, regFile, max, delay, r);
      var connected;
      connected, more, last := TryConnect(zeroTrust);
      p := p.(connect := more);
      if !connected { return Err(ConnectFailed), p; }
      var up;
      up, more, last := Verify();
      p := p.(verify := more);
      if !up { r := Err(VerifyFailed); }
    }
  }

  /** A later failure says nothing about the phases before it. */
  lemma PreparedStays(p: Phases, zeroTrust: bool, regFile: bool, max: nat, delay: nat -> nat,
      r: Result<Outcome, FlowError>)
    requires r.Ok? && RegisterPhase(p.register, zeroTrust || regFile, max, delay, r) &&
        ConfigurePhase(p.configure, zeroTrust, r)
    ensures forall e: FlowError | e.ConnectFailed? || e.VerifyFailed? ::
              RegisterPhase(p.register, zeroTrust || regFile, max, delay, Err(e)) &&
                  ConfigurePhase(p.configure, zeroTrust, Err(e))
  {
    hide RegisterLog, ConfigureLog;
  }

  // ---------- how much a run can do ----------

  datatype Kind = Registrations | Connects | Statuses

  predicate Is(kind: Kind, a: Action) {
    match kind
    case Registrations => a.Register?
    case Connects => a.Connect?
    case Statuses => a.Status?
  }

  function Count(log: Log, kind: Kind): nat {
    if log == [] then 0 else Count(log[..|log| - 1], kind) + (if Is(kind, log[|log| - 1]) then 1 else 0)
  }

  function Slept(log: Log): nat {
    if log == [] then 0
    else Slept(log[..|log| - 1]) + (if log[|log| - 1].Sleep? then log[|log| - 1].duration else 0)
  }

  function Delays(delay: nat -> nat, k: nat): nat {
    if k == 0 then 0 else Delays(delay, k - 1) + delay(k)
  }

  lemma {:induction false} CountAppend(a: Log, b: Log, kind: Kind)
    ensures Count(a + b, kind) == Count(a, kind) + Count(b, kind) && Slept(a + b) == Slept(a) + Slept(b)
  {
    if b == [] {
      assert a + b == a;
    } else {
      assert (a + b)[..|a + b| - 1] == a + b[..|b| - 1];
      CountAppend(a, b[..|b| - 1], kind);
    }
  }

  lemma {:induction false} PollsBound(log: Log, k: nat, probe: Action, pause: nat, kind: Kind)
    requires Polls(log, k, probe, pause) && !probe.Sleep?
    ensures Count(log, kind) == (if Is(kind, probe) then k else 0) && Slept(log) == k * pause
  {
    if k > 0 {
      var n := |log|;
      PollsBound(log[..n - 2], k - 1, probe, pause, kind);
      assert log[..n - 1][..n - 2] == log[..n - 2];
      assert log[2 * (k - 1)] == probe && log[2 * (k - 1) + 1] == Sleep(pause);
      assert k * pause == (k - 1) * pause + pause;
    }
  }

  lemma {:induction false} RefusalsBound(log: Log, k: nat, delay: nat -> nat, kind: Kind)
    requires Refusals(log, k, delay)
    ensures Count(log, kind) <= k && Slept(log) == Delays(delay, k)
    ensures kind != Registrations ==> Count(log, kind) == 0
  {
    if k > 0 {
      var n := |log|;
      RefusalsBound(log[..n - 2], k - 1, delay, kind);
      assert log[..n - 1][..n - 2] == log[..n - 2];
      assert log[2 * (k - 1)].Register? && log[2 * (k - 1) + 1] == Sleep(delay(k));
    }
  }

  lemma PollLogBound(log: Log, most: nat, probe: Action, pause: nat, last: Action, kind: Kind)
    requires PollLog(log, most, probe, pause, last) && !probe.Sleep? && !last.Sleep?
    ensures Count(log, kind) <= most + 1 && Slept(log) <= most * pause && log != [] && log[|log| - 1] == last
    ensures !Is(kind, probe) && !Is(kind, last) ==> Count(log, kind) == 0
  {
    var k :| 0 <= k <= most && |log| == 2 * k + 1 && Polls(log[..2 * k], k, probe, pause) && log[2 * k] == last;
    PollsBound(log[..2 * k], k, probe, pause, kind);
    Product(k, most, pause);
  }

  lemma Product(k: nat, most: nat, pause: nat)
    requires k <= most
    ensures k * pause <= most * pause
  {
  }

  lemma RegisterBound(log: Log, max: nat, delay: nat -> nat, attempts: nat, last: Reply, kind: Kind)
    requires RegisterLog(log, max, delay, attempts, last)
    ensures Count(log, kind) <= attempts && Slept(log) == Delays(delay, attempts - 1)
    ensures kind != Registrations ==> Count(log, kind) == 0
  {
    RefusalsBound(log[..2 * (attempts - 1)], attempts - 1, delay, kind);
  }

  lemma ConfigureBound(log: Log, ok: bool, kind: Kind)
    requires ConfigureLog(log, ok)
    ensures Count(log, kind) == 0 && Slept(log) == 0
  {
    assert log == [log[0]] + log[1..];
    CountAppend([log[0]], log[1..], kind);
    if |log| > 1 {
      assert log[1..] == [log[1]] + log[2..];
      CountAppend([log[1]], log[2..], kind);
      assert |log| > 2 ==> log[2..] == [log[2]];
    }
  }

  lemma {:induction false} DelaysGrow(delay: nat -> nat, k: nat, n: nat)
    requires k <= n
    ensures Delays(delay, k) <= Delays(delay, n)
  {
    if k < n { DelaysGrow(delay, k, n - 1); }
  }

  /** What one phase adds to the total. */
  ghost predicate Uses(log: Log, kind: Kind, calls: nat, sleep: nat) {
    Count(log, kind) <= calls && Slept(log) <= sleep
  }

  lemma WholeUses(p: Phases, kind: Kind, c1: nat, c2: nat, c3: nat, c4: nat, s1: nat, s3: nat, s4: nat)
    requires Uses(p.register, kind, c1, s1) && Uses(p.configure, kind, c2, 0) && Uses(p.connect, kind, c3, s3) &&
        Uses(p.verify, kind, c4, s4)
    ensures Uses(Whole(p), kind, c1 + c2 + c3 + c4, s1 + s3 + s4)
  {
    CountAppend(p.register, p.configure, kind);
    CountAppend(p.register + p.configure, p.connect, kind);
    CountAppend(p.register + p.configure + p.connect, p.verify, kind);
  }

  lemma RegisterUses(log: Log, skipped: bool, max: nat, delay: nat -> nat, r: Result<Outcome, FlowError>, kind: Kind)
    requires max >= 1 && RegisterPhase(log, skipped, max, delay, r)
    ensures Uses(log, kind, if kind.Registrations? && !skipped then max else 0, Delays(delay, max - 1))
  {
    if !skipped {
      var attempts: nat, last :| RegisterLog(log, max, delay, attempts, last);
      RegisterBound(log, max, delay, attempts, last, kind);
      DelaysGrow(delay, attempts - 1, max - 1);
    }
  }

  lemma ConnectUses(log: Log, zeroTrust: bool, r: Result<Outcome, FlowError>, kind: Kind)
    requires ConnectPhase(log, zeroTrust, r)
    ensures Uses(log, kind, if kind.Connects? then (if zeroTrust then 31 else 1) else 0, if zeroTrust
        then ZT_BUDGET else 0)
  {
    var last :| ConnectLog(log, zeroTrust, last);
    PollLogBound(log, if zeroTrust then 30 else 0, Connect(Missing), ZT_RETRY, Connect(last), kind);
  }

  lemma VerifyUses(log: Log, r: Result<Outcome, FlowError>, kind: Kind)
    requires VerifyPhase(log, r)
    ensures Uses(log, kind, if kind.Statuses? then 46 else 0, VERIFY_BUDGET)
    ensures log != [] && (r.Ok? ==> log[|log| - 1] == Status(Good))
  {
    var last :| VerifyLog(log, last) && (last == Good <==> r.Ok?);
    PollLogBound(log, 45, Status(Down), POLL, Status(last), kind);
  }

  /**
   * Every run: at most `max` registrations, and none for ZeroTrust or with a registration on disk; at
   * most 31 connects, one unless ZeroTrust; at most 46 status calls; and bounded sleep. A successful
   * run ends with a connected status.
   */
  lemma FlowBounds(p: Phases, zeroTrust: bool, regFile: bool, max: nat, delay: nat -> nat,
      r: Result<Outcome, FlowError>)
    requires max >= 1 && FlowLog(p, zeroTrust, regFile, max, delay, r)
    ensures Count(Whole(p), Registrations) <= if zeroTrust || regFile then 0 else max
    ensures Count(Whole(p), Connects) <= if zeroTrust then 31 else 1
    ensures Count(Whole(p), Statuses) <= 46
    ensures Slept(Whole(p)) <= Delays(delay, max - 1) + (if zeroTrust then ZT_BUDGET else 0) + VERIFY_BUDGET
    ensures r.Ok? ==> Whole(p) != [] && Whole(p)[|Whole(p)| - 1] == Status(Good)
  {
    KindBound(p, zeroTrust, regFile, max, delay, r, Registrations);
    KindBound(p, zeroTrust, regFile, max, delay, r, Connects);
    KindBound(p, zeroTrust, regFile, max, delay, r, Statuses);
    if r.Ok? { VerifyUses(p.verify, r, Statuses); }
  }

  lemma KindBound(p: Phases, zeroTrust: bool, regFile: bool, max: nat, delay: nat -> nat,
      r: Result<Outcome, FlowError>, kind: Kind)
    requires max >= 1 && FlowLog(p, zeroTrust, regFile, max, delay, r)
    ensures Uses(Whole(p), kind,
                 match kind
                 case Registrations => if zeroTrust || regFile then 0 else max
                 case Connects => if zeroTrust then 31 else 1
                 case Statuses => 46,
                 Delays(delay, max - 1) + (if zeroTrust then ZT_BUDGET else 0) + VERIFY_BUDGET)
  {
    hide RegisterPhase, ConnectPhase, VerifyPhase, ConfigureLog, Whole;
    var skipped := zeroTrust || regFile;
    RegisterUses(p.register, skipped, max, delay, r, kind);
    if p.configure != [] { ConfigureBound(p.configure, r != Err(ConfigureFailed), kind); }
    if p.connect != [] { ConnectUses(p.connect, zeroTrust, r, kind); }
    if p.verify != [] { VerifyUses(p.verify, r, kind); }
    WholeUses(p, kind,
              if kind.Registrations? && !skipped then max else 0, 0,
              if kind.Connects? then (if zeroTrust then 31 else 1) else 0,
              if kind.Statuses? then 46 else 0,
              Delays(delay, max - 1), if zeroTrust then ZT_BUDGET else 0, VERIFY_BUDGET);
  }
}
