/** Runtime registry entries and the three-layer health judgement. */
module Health {
  import opened Wrappers

  const U32_MAX := 0xFFFF_FFFF

  type u32 = n: int | 0 <= n <= U32_MAX

  datatype RuntimeState =
    | Disabled | Stopped | Starting | Registering | Connecting
    | Healthy | Degraded | Stopping | Failed

  /** One probe round. `dataPlane` is None when the probe failed, else whether `warp=on`. */
  datatype LayersReport = LayersReport(processAlive: bool, controlConnected: bool, dataPlane: Option<bool>)
  {
    predicate DataPlaneOk() {
      dataPlane == Some(true)
    }

    predicate Success() {
      processAlive && controlConnected && DataPlaneOk()
    }
  }

  datatype Counters = Counters(failures: u32, successes: u32)

  datatype Config = Config(failureThreshold: u32, recoveryThreshold: u32)
  {
    // The assertions at the top of `assess_layers`.
    predicate Valid() {
      failureThreshold >= 1 && recoveryThreshold >= 1
    }
  }

  datatype Verdict = Verdict(state: RuntimeState, counters: Counters)

  function SaturatingIncrement(n: u32): u32 {
    if n == U32_MAX then n else n + 1
  }

  function Saturate(n: nat): u32 {
    if n > U32_MAX then U32_MAX else n
  }

  function Assess(report: LayersReport, counters: Counters, config: Config, current: RuntimeState): (v: Verdict)
    requires config.Valid()
    ensures v.state in {Healthy, Degraded, Failed}
    ensures v.state == Healthy ==> report.Success()
    ensures !report.processAlive ==> v.state == Failed
  {
    if !report.processAlive then
      Verdict(Failed, Counters(SaturatingIncrement(counters.failures), 0))
    else if report.controlConnected && report.DataPlaneOk() then
      var successes := SaturatingIncrement(counters.successes);
      var recovered := successes >= config.recoveryThreshold || current == Healthy;
      Verdict(if recovered then Healthy else Degraded, Counters(0, successes))
    else
      var failures := SaturatingIncrement(counters.failures);
      Verdict(if failures >= config.failureThreshold then Failed else Degraded, Counters(failures, 0))
  }

  // ---------- hysteresis over whole report histories ----------

  /** The monitor's fold: a Failed entry is no longer probed, so it absorbs later reports. */
  function Monitored(history: seq<LayersReport>, config: Config): Verdict
    requires config.Valid()
  {
    if history == [] then
      Verdict(Healthy, Counters(0, 0))
    else
      var before := Monitored(history[..|history| - 1], config);
      if before.state == Failed then before
      else Assess(history[|history| - 1], before.counters, config, before.state)
  }

  /** Length of the longest suffix of rounds that all succeeded (`good`) or all failed. */
  function Trailing(history: seq<LayersReport>, good: bool): nat {
    if history == [] || history[|history| - 1].Success() != good then 0
    else 1 + Trailing(history[..|history| - 1], good)
  }

  /** Some prefix of the history ends with a dead process or with a full run of failures. */
  ghost predicate HasFailed(history: seq<LayersReport>, config: Config) {
    exists k :: 0 < k <= |history| && FailsAt(history[..k], config)
  }

  predicate FailsAt(prefix: seq<LayersReport>, config: Config)
    requires prefix != []
  {
    !prefix[|prefix| - 1].processAlive || Trailing(prefix, false) >= config.failureThreshold
  }

  ghost predicate NeverFailing(history: seq<LayersReport>) {
    forall r :: r in history ==> r.Success()
  }

  lemma HasFailedStep(history: seq<LayersReport>, config: Config)
    requires history != []
    ensures HasFailed(history, config) <==>
            HasFailed(history[..|history| - 1], config) || FailsAt(history, config)
  {
    var init := history[..|history| - 1];
    assert history[..|history|] == history;
    if HasFailed(history, config) {
      var k :| 0 < k <= |history| && FailsAt(history[..k], config);
      if k < |history| {
        assert init[..k] == history[..k];
      }
    }
    if HasFailed(init, config) {
      var k :| 0 < k <= |init| && FailsAt(init[..k], config);
      assert init[..k] == history[..k];
    }
  }

  /** The judgement after any history is decided by the trailing runs alone. */
  lemma {:induction false} Hysteresis(history: seq<LayersReport>, config: Config)
    requires config.Valid()
    ensures (Monitored(history, config).state == Failed) <==> HasFailed(history, config)
    ensures !HasFailed(history, config) ==>
              && Monitored(history, config).counters
                 == Counters(Saturate(Trailing(history, false)), Saturate(Trailing(history, true)))
              && (Monitored(history, config).state == Healthy <==>
                  NeverFailing(history) || Trailing(history, true) >= config.recoveryThreshold)
              && Monitored(history, config).state in {Healthy, Degraded}
  {
    if history != [] {
      var init, last := history[..|history| - 1], history[|history| - 1];
      assert history == init + [last];
      Hysteresis(init, config);
      HasFailedStep(history, config);
    }
  }

  /** A start whose data plane was not verified leaves the entry one failed probe into this history. */
  lemma DegradedStartIsOneFailedProbe(config: Config, report: LayersReport)
    requires config.Valid() && config.failureThreshold >= 2
    requires report.processAlive && !report.Success()
    ensures Monitored([report], config) == Verdict(Degraded, Counters(1, 0))
  {
    assert [report][..0] == [];
  }
}
