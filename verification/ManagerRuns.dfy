/** Runs of the instance manager from its beginning, in which it shows or promises what is not so. */
module ManagerRuns {
  import opened Wrappers
  import opened Health
  import opened Runtime
  import opened Manager

  /**
   * A health round looks at the first run of instance 7, which answers no probe; a stop and a start come
   * in between; then the guard lets the verdict through, and the fresh run is no longer shown as Healthy.
   */
  method StaleVerdictRun(config: Config, input: StartInput) returns (m: InstanceManager)
    requires config.Valid() && input.Starts() && Verifies(input.probes)
    ensures fresh(m) && m.config == config && m.Valid(None)
    ensures m.runs == map[7 := Running(1, true)] && Svc(1) in m.children && 1 in m.tasks && m.tasks[1].Live()
    ensures NoAnswer(config).state != Healthy
    ensures m.registry == map[7 := Entry(NoAnswer(config).state, Some(1), NoAnswer(config).counters)]
    ensures VerdictWritten(7, Some(0), Some(1), 0, 1) in m.log
  {
    m := new InstanceManager(config);
    var quiet := (k: nat) => [];
    assert Quiet(quiet);
    hide *;
    FirstRun(m, input, quiet);
    LookAtFirst(m);
    SecondRun(m, input, quiet);
    WriteToSecond(m);
  }

  /** The judgement of a round in which the first run of an instance answers no probe. */
  function NoAnswer(config: Config): Verdict
    requires config.Valid()
  {
    Assess(LayersReport(true, false, None), Counters(0, 0), config, Healthy)
  }

  ghost predicate AtFirst(m: InstanceManager)
    reads m
  {
    && m.Valid(None) && m.runs == map[] && m.registry == map[] && m.monitor == Idle && m.next == 0 && m.stops == map[]
  }

  ghost predicate InFirst(m: InstanceManager)
    reads m
  {
    && m.Valid(None) && m.next == 1 && m.stops == map[]
    && m.runs == map[7 := Running(0, true)] && m.registry == map[7 := Fresh(0, true)]
  }

  ghost predicate InSecond(m: InstanceManager)
    reads m
  {
    && m.Valid(None) && m.stops == map[7 := 1]
    && m.runs == map[7 := Running(1, true)] && m.registry == map[7 := Fresh(1, true)]
    && Svc(1) in m.children && 1 in m.tasks && m.tasks[1].Live()
  }

  ghost predicate HoldsVerdict(m: InstanceManager)
    reads m
    requires m.config.Valid()
  {
    && m.monitor.Judged? && m.monitor.id == 7 && m.monitor.verdict == NoAnswer(m.config)
    && m.round == Round(7, Some(0), 0)
  }

  method LookAtFirst(m: InstanceManager)
    requires InFirst(m) && m.monitor == Idle
    modifies m
    ensures InFirst(m) && HoldsVerdict(m)
  {
    ghost var first := m.Snapshot();
    hide Inv, EnvLe, Steps;
    m.Others([Collect(7, false, None), Judge], None);
    JudgedRound(first, 7, 0, m.config);
  }

  method WriteToSecond(m: InstanceManager)
    requires InSecond(m) && HoldsVerdict(m)
    modifies m
    ensures m.Valid(None) && m.runs == old(m.runs)
    ensures Svc(1) in m.children && 1 in m.tasks && m.tasks[1].Live()
    ensures m.registry == map[7 := Entry(NoAnswer(m.config).state, Some(1), NoAnswer(m.config).counters)]
    ensures VerdictWritten(7, Some(0), Some(1), 0, 1) in m.log
  {
    ghost var second := m.Snapshot();
    hide Inv, EnvLe, Steps, NoAnswer;
    m.Others([Apply], None);
    AppliedRound(second, 7, 1, m.config);
  }

  method FirstRun(m: InstanceManager, input: StartInput, quiet: nat -> seq<Act>)
    requires AtFirst(m) && input.Starts() && Verifies(input.probes) && Quiet(quiet)
    modifies m
    ensures InFirst(m) && m.monitor == Idle
  {
    hide Inv, EnvLe, OnlyOn, BackedStart, CrashNow, Verifies, Quiet, Settled;
    var _ := m.Start(7, input, quiet);
  }

  method SecondRun(m: InstanceManager, input: StartInput, quiet: nat -> seq<Act>)
    requires InFirst(m) && HoldsVerdict(m) && input.Starts() && Verifies(input.probes) && Quiet(quiet)
    modifies m
    ensures InSecond(m) && HoldsVerdict(m)
  {
    hide Inv, EnvLe, OnlyOn, BackedStart, CrashNow, Verifies, Quiet, Settled, NoAnswer;
    var _ := m.Stop(7, true, quiet);
    var _ := m.Start(7, input, quiet);
  }

  lemma JudgedRound(w: World, id: Id, t: Token, config: Config)
    requires config.Valid() && Inv(w, None) && w.monitor == Idle && Probed(w.registry, id)
    requires w.registry[id].pid.Some? && id in w.runs && w.runs[id].token == t
    ensures var report := LayersReport(true, false, None);
            Steps(w, [Collect(id, false, None), Judge], config)
            == w.(monitor := Judged(id, Assess(report, w.registry[id].counters, config, w.registry[id].state),
                report),
                  round := Round(id, Some(t), Count(w.stops, id)))
  {
    var acts := [Collect(id, false, None), Judge];
    assert acts[..1] == [Collect(id, false, None)] && acts[..1][..0] == [];
    assert RunOk(w, None, id);
    RunOfHolder(w, None, id, t);
    hide Inv, RunOf;
    assert Steps(w, acts[..1], config) == CollectStep(w, id, false, None);
  }

  lemma AppliedRound(w: World, id: Id, t: Token, config: Config)
    requires config.Valid() && Inv(w, None) && w.monitor.Judged? && w.monitor.id == id && Probed(w.registry, id)
    requires id in w.runs && w.runs[id].token == t
    ensures var w' := Steps(w, [Apply], config);
            && w' == w.(monitor := Idle, log := w'.log, registry := w.registry[id :=
                 w.registry[id].(state := w.monitor.verdict.state, counters := w.monitor.verdict.counters)])
            && VerdictWritten(id, w.round.run, Some(t), w.round.stops, Count(w.stops, id)) in w'.log
  {
    assert [Apply][..0] == [];
    assert RunOk(w, None, id);
    RunOfHolder(w, None, id, t);
    hide Inv, RunOf;
    var w' := ApplyStep(w);
    assert Steps(w, [Apply], config) == w';
    assert w'.log[|w.log|] == Written(w, id);
  }

  /**
   * The process of a first start dies and is recorded as crashed before its pid is. Nothing else runs, and
   * the start ends well: the entry of the dead process, which nobody watches any more, is Healthy or Degraded
   * with its pid and without a failure that was not one of the verification.
   */
  method HiddenCrashRun(config: Config, input: StartInput) returns (m: InstanceManager)
    requires config.Valid() && input.Starts()
    ensures fresh(m) && m.config == config && m.Valid(None) && m.runs == map[7 := Running(0, true)]
    ensures 7 in m.registry && m.registry[7] == Fresh(0, Verifies(input.probes))
    ensures m.CrashRecorded(0)
  {
    m := new InstanceManager(config);
    var env := (k: nat) => if k == 13 then CrashNow(0) else [];
    assert Settled(env);
    hide Inv, EnvLe, OnlyOn, BackedStart, AfterStart, CrashNow, Verifies, Fresh, Quiet, Settled;
    var _ := m.Start(7, input, env);
  }

  /**
   * A stop fails because its cleanup does. The processes are gone, the entry says Stopping with the pid of
   * the dead process, and no later stop or restart can succeed or changes that.
   */
  method RetryFailsRun(config: Config, input: StartInput, cleanupOk: bool)
    returns (m: InstanceManager, first: Result<(), ManagerError>, shown: Entry, second: Result<(), ManagerError>)
    requires config.Valid() && input.Starts()
    ensures fresh(m) && m.config == config && m.Valid(None)
    ensures first == second == Err(StopFailed)
    ensures shown == Fresh(0, Verifies(input.probes)).In(Stopping)
    ensures m.runs == map[7 := Running(0, false)] && 7 in m.registry && m.registry[7] == shown
    ensures m.children !! {Svc(0), Dbus(0)}
  {
    m := new InstanceManager(config);
    var quiet := (k: nat) => [];
    assert Quiet(quiet);
    hide *;
    StartFirst(m, input, quiet);
    first, shown, second := FailTwice(m, cleanupOk, quiet);
  }

  method StartFirst(m: InstanceManager, input: StartInput, quiet: nat -> seq<Act>)
    requires AtFirst(m) && input.Starts() && Quiet(quiet)
    modifies m
    ensures m.Valid(None) && m.runs == map[7 := Running(0, true)] && Svc(0) in m.children
    ensures 7 in m.registry && m.registry[7] == Fresh(0, Verifies(input.probes))
  {
    hide Inv, EnvLe, OnlyOn, BackedStart, CrashNow, Verifies, Quiet, Settled, Fresh;
    var _ := m.Start(7, input, quiet);
  }

  method FailTwice(m: InstanceManager, cleanupOk: bool, env: nat -> seq<Act>)
    returns (first: Result<(), ManagerError>, shown: Entry, second: Result<(), ManagerError>)
    requires m.Valid(None) && m.runs == map[7 := Running(0, true)] && 7 in m.registry
    requires Quiet(env) && Svc(0) in m.children
    modifies m
    ensures m.Valid(None) && first == second == Err(StopFailed)
    ensures shown == old(m.registry)[7].In(Stopping)
    ensures m.runs == map[7 := Running(0, false)] && 7 in m.registry && m.registry[7] == shown
    ensures m.children !! {Svc(0), Dbus(0)}
  {
    hide Inv, EnvLe, OnlyOn, Quiet;
    first := m.Stop(7, false, env);
    shown := m.registry[7];
    second := m.Stop(7, cleanupOk, env);
  }
}
