/**
 Health rounds on the real state. What the monitor makes of an entry is told from the reports alone: by how
 the rounds at the end went, how many they were, and what the entry was before.
 */
module HealthRounds {
  import opened Wrappers
  import opened Health
  import opened Runtime
  import opened Manager

  // ---------- what the reports say ----------

  /** The rounds at the end that all went well or all failed, with those before the history if that is all of it. */
  function Seen(history: seq<LayersReport>, good: bool, before: nat): nat {
    if Trailing(history, good) == |history| then before + |history| else Trailing(history, good)
  }

  predicate FailsFrom(prefix: seq<LayersReport>, failures: nat, config: Config)
    requires prefix != []
  {
    !prefix[|prefix| - 1].processAlive || Seen(prefix, false, failures) >= config.failureThreshold
  }

  /** Some round found the process dead or was one failure too many, after `failures` before the history. */
  ghost predicate FailedFrom(history: seq<LayersReport>, failures: nat, config: Config) {
    exists k :: 0 < k <= |history| && FailsFrom(history[..k], failures, config)
  }

  /** The entry is what a history makes of `start`. */
  ghost predicate Follows(e: Entry, start: Entry, history: seq<LayersReport>, config: Config) {
    var failed := FailedFrom(history, start.counters.failures, config);
    && (e.state == Failed <==> failed)
    && (!failed ==>
          && e.state in {Healthy, Degraded}
          && e.counters == Counters(Saturate(Seen(history, false, start.counters.failures)),
                                    Saturate(Seen(history, true, start.counters.successes)))
          && (e.state == Healthy <==>
                || (start.state == Healthy && NeverFailing(history))
                || (Trailing(history, true) > 0
                    && Seen(history, true, start.counters.successes) >= config.recoveryThreshold)))
  }

  lemma FollowsNothing(start: Entry, config: Config)
    requires start.state in {Healthy, Degraded}
    ensures Follows(start, start, [], config)
  {
  }

  lemma FailedFromStep(history: seq<LayersReport>, r: LayersReport, failures: nat, config: Config)
    ensures FailedFrom(history + [r], failures, config) <==>
            FailedFrom(history, failures, config) || FailsFrom(history + [r], failures, config)
  {
    var all := history + [r];
    assert all[..|all|] == all;
    if FailedFrom(all, failures, config) {
      var k :| 0 < k <= |all| && FailsFrom(all[..k], failures, config);
      if k < |all| { assert history[..k] == all[..k]; }
    }
    if FailedFrom(history, failures, config) {
      var k :| 0 < k <= |history| && FailsFrom(history[..k], failures, config);
      assert history[..k] == all[..k];
    }
  }

  lemma SeenStep(history: seq<LayersReport>, r: LayersReport, good: bool, before: nat)
    ensures Trailing(history + [r], good) == if r.Success() == good then Trailing(history, good) + 1 else 0
    ensures Trailing(history, good) <= |history|
    ensures Seen(history + [r], good, before) == if r.Success() == good then Seen(history, good, before) + 1 else 0
  {
    assert (history + [r])[..|history|] == history;
    TrailingBound(history, good);
  }

  lemma {:induction false} TrailingBound(history: seq<LayersReport>, good: bool)
    ensures Trailing(history, good) <= |history|
  {
    if history != [] { TrailingBound(history[..|history| - 1], good); }
  }

  lemma NeverFailingStep(history: seq<LayersReport>, r: LayersReport)
    ensures NeverFailing(history + [r]) <==> NeverFailing(history) && r.Success()
  {
    assert r in history + [r];
    assert forall x :: x in history ==> x in history + [r];
  }

  /** An entry as a round leaves it: a Failed one is not looked at any more. */
  function AfterReport(e: Entry, r: LayersReport, config: Config): Entry
    requires config.Valid()
  {
    if e.state == Failed then e
    else
      var v := Assess(r, e.counters, config, e.state);
      e.(state := v.state, counters := v.counters)
  }

  lemma FollowsStep(e: Entry, start: Entry, history: seq<LayersReport>, r: LayersReport, config: Config)
    requires config.Valid() && Follows(e, start, history, config)
    ensures Follows(AfterReport(e, r, config), start, history + [r], config)
  {
    FailedFromStep(history, r, start.counters.failures, config);
    SeenStep(history, r, false, start.counters.failures);
    SeenStep(history, r, true, start.counters.successes);
    NeverFailingStep(history, r);
    assert (history + [r])[|history|] == r;
    hide FailedFrom, Seen, Trailing, NeverFailing;
  }

  // ---------- rounds without anyone else ----------

  /** What the two probes of a round answer; that the process lives is read from the entry. */
  datatype Probe = Probe(control: bool, plane: Option<bool>)

  function RoundActs(id: Id, probes: seq<Probe>): seq<Act> {
    if probes == [] then []
    else
      var p := probes[|probes| - 1];
      RoundActs(id, probes[..|probes| - 1]) + [Collect(id, p.control, p.plane), Judge, Apply]
  }

  /** The reports of these rounds on an entry with a pid. */
  function Reports(probes: seq<Probe>): seq<LayersReport> {
    if probes == [] then []
    else
      var p := probes[|probes| - 1];
      Reports(probes[..|probes| - 1]) + [LayersReport(true, p.control, p.plane)]
  }

  lemma OneRound(w: World, id: Id, p: Probe, config: Config)
    requires config.Valid() && w.monitor == Idle && id in w.registry && w.registry[id].pid.Some?
    requires w.registry[id].state in {Healthy, Degraded, Failed}
    ensures var w' := Step(Step(Step(w, Collect(id, p.control, p.plane), config), Judge, config), Apply, config);
            && w'.monitor == Idle
            && w'.registry == w.registry[id :=
                 AfterReport(w.registry[id], LayersReport(true, p.control, p.plane), config)]
  {
    if w.registry[id].state == Failed {
      assert w == JudgeStep(CollectStep(w, id, p.control, p.plane), config);
    } else {
      RoundJudged(w, id, p, config);
      hide CollectStep, JudgeStep, Assess, RunOf;
    }
  }

  lemma RoundJudged(w: World, id: Id, p: Probe, config: Config)
    requires config.Valid() && w.monitor == Idle && Probed(w.registry, id) && w.registry[id].pid.Some?
    ensures var b, e, r := JudgeStep(CollectStep(w, id, p.control, p.plane), config), w.registry[id],
                LayersReport(true, p.control, p.plane);
            b.registry == w.registry && b.monitor == Judged(id, Assess(r, e.counters, config, e.state), r)
  {
    hide RunOf, Assess;
  }

  /**
   * Over any number of rounds on an entry with a pid, the entry is what the reports make of it: Failed exactly if
   * some round was one failure too many, and else Healthy exactly if it always was or the rounds at the end
   * went well often enough.
   */
  lemma {:induction false} RoundsFollow(w: World, id: Id, probes: seq<Probe>, config: Config)
    requires config.Valid() && w.monitor == Idle && Probed(w.registry, id) && w.registry[id].pid.Some?
    ensures var w' := Steps(w, RoundActs(id, probes), config);
            && w'.monitor == Idle && id in w'.registry
            && w'.registry == w.registry[id := w'.registry[id]]
            && w'.registry[id].pid == w.registry[id].pid
            && Follows(w'.registry[id], w.registry[id], Reports(probes), config)
  {
    if probes == [] {
      FollowsNothing(w.registry[id], config);
    } else {
      var init, p := probes[..|probes| - 1], probes[|probes| - 1];
      var v := Steps(w, RoundActs(id, init), config);
      RoundsFollow(w, id, init, config);
      OneRound(v, id, p, config);
      FollowsStep(v.registry[id], w.registry[id], Reports(init), LayersReport(true, p.control, p.plane), config);
      ThreeMore(w, RoundActs(id, init), Collect(id, p.control, p.plane), Judge, Apply, config);
      hide Step, Steps, Follows, Assess;
    }
  }

  /** From a fresh Healthy entry the whole story is told by the reports. */
  lemma FreshRounds(w: World, id: Id, probes: seq<Probe>, config: Config)
    requires config.Valid() && w.monitor == Idle && id in w.registry && w.registry[id].pid.Some?
    requires w.registry[id].state == Healthy && w.registry[id].counters == Counters(0, 0)
    ensures var w' := Steps(w, RoundActs(id, probes), config);
            && id in w'.registry
            && var e, history := w'.registry[id], Reports(probes);
            && (e.state == Failed <==> HasFailed(history, config))
            && (!HasFailed(history, config) ==>
                  && e.counters == Counters(Saturate(Trailing(history, false)), Saturate(Trailing(history, true)))
                  && (e.state == Healthy <==>
                      NeverFailing(history) || Trailing(history, true) >= config.recoveryThreshold)
                  && e.state in {Healthy, Degraded})
  {
    RoundsFollow(w, id, probes, config);
    var history := Reports(probes);
    hide Steps;
    forall k | 0 < k <= |history|
      ensures FailsFrom(history[..k], 0, config) <==> FailsAt(history[..k], config)
    {
    }
    assert FailedFrom(history, 0, config) <==> HasFailed(history, config);
    hide FailedFrom, HasFailed;
  }

  /** From an entry whose start could not verify the data plane, which counts as a failed round before. */
  lemma UnverifiedRounds(w: World, id: Id, probes: seq<Probe>, config: Config)
    requires config.Valid() && w.monitor == Idle && id in w.registry && w.registry[id].pid.Some?
    requires w.registry[id].state == Degraded && w.registry[id].counters == Counters(1, 0)
    ensures var w' := Steps(w, RoundActs(id, probes), config);
            && id in w'.registry
            && var e, history := w'.registry[id], Reports(probes);
            && (e.state == Failed <==> FailedFrom(history, 1, config))
            && (!FailedFrom(history, 1, config) ==>
                  && e.counters == Counters(Saturate(Seen(history, false, 1)), Saturate(Trailing(history, true)))
                  && (e.state == Healthy <==> Trailing(history, true) >= config.recoveryThreshold)
                  && e.state in {Healthy, Degraded})
  {
    RoundsFollow(w, id, probes, config);
    hide Steps, FailedFrom;
  }

  /** A start in which nothing else runs, and then rounds: the entry is told by the verification and the reports. */
  method StartThenRounds(m: InstanceManager, id: Id, input: StartInput, probes: seq<Probe>)
    requires m.Valid(None) && id !in m.runs && m.monitor == Idle && input.Starts()
    modifies m
    ensures m.Valid(None) && id in m.registry && m.registry[id].pid == Some(old(m.next))
    ensures Follows(m.registry[id], if Verifies(input.probes) then StoppedEntry.In(Healthy)
        else StoppedEntry.Unverified(),
              Reports(probes), m.config)
  {
    StartAlone(m, id, input);
    RoundsFollow(m.Snapshot(), id, probes, m.config);
    hide Inv, EnvLe, Steps;
    m.Others(RoundActs(id, probes), None);
  }

  method StartAlone(m: InstanceManager, id: Id, input: StartInput)
    requires m.Valid(None) && id !in m.runs && m.monitor == Idle && input.Starts()
    modifies m
    ensures m.Valid(None) && m.monitor == Idle
    ensures id in m.registry && m.registry[id] == Fresh(old(m.next), Verifies(input.probes))
  {
    var quiet := (k: nat) => [];
    assert Quiet(quiet) && Settled(quiet);
    hide Inv, EnvLe, OnlyOn, BackedStart, CrashNow, Quiet, Settled, Verifies, Fresh;
    var _ := m.Start(id, input, quiet);
  }

  // ---------- any schedule ----------

  /** The reports whose verdicts have been written to the entry of `id` along a schedule. */
  ghost function Written(w: World, acts: seq<Act>, config: Config, id: Id): seq<LayersReport>
    requires config.Valid()
  {
    if acts == [] then []
    else
      var init, act := acts[..|acts| - 1], acts[|acts| - 1];
      var v := Steps(w, init, config);
      Written(w, init, config, id)
      + if Writes(v, act, id) then [v.monitor.report] else []
  }

  /** What a round in progress knows of the entry of `id` is still so. */
  ghost predicate UpToDate(v: World, id: Id, config: Config)
    requires config.Valid()
  {
    id in v.registry ==>
      && (v.monitor.Collected? && v.monitor.id == id ==>
            v.monitor.before.state == v.registry[id].state && v.monitor.before.counters == v.registry[id].counters)
      && (v.monitor.Judged? && v.monitor.id == id ==>
            v.monitor.verdict
            == Assess(v.monitor.report, v.registry[id].counters, config, v.registry[id].state))
  }

  /**
   * In any schedule, with other instances, other rounds and dying processes in between: until a crash of the
   * instance is recorded its entry is what the reports written to it make of it, and then it is Failed.
   */
  lemma {:induction false} ScheduleFollows(w: World, acts: seq<Act>, config: Config, held: Option<Token>, id: Id)
    requires config.Valid() && Inv(w, held) && w.monitor == Idle && Probed(w.registry, id)
    ensures var w' := Steps(w, acts, config);
            && id in w'.registry
            && (CrashOf(w, w', id) ==> w'.registry[id].state == Failed)
            && (!CrashOf(w, w', id) ==>
                  && UpToDate(w', id, config)
                  && Follows(w'.registry[id], w.registry[id], Written(w, acts, config, id), config))
  {
    CrashShows(w, acts, config, held, id);
    if acts == [] {
      FollowsNothing(w.registry[id], config);
    } else {
      var init, act := acts[..|acts| - 1], acts[|acts| - 1];
      ScheduleFollows(w, init, config, held, id);
      StepsEnv(w, init, config, held);
      hide *;
      StepFollows(w, Steps(w, init, config), act, config, held, id, Written(w, init, config, id));
      Unfolded(w, acts, config, id);
    }
  }

  lemma Unfolded(w: World, acts: seq<Act>, config: Config, id: Id)
    requires config.Valid() && acts != []
    ensures var init, act := acts[..|acts| - 1], acts[|acts| - 1];
            && Steps(w, acts, config) == Step(Steps(w, init, config), act, config)
            && Written(w, acts, config, id) == Written(w, init, config, id)
                 + if Writes(Steps(w, init, config), act, id) then [Steps(w, init, config).monitor.report] else []
  {
  }

  lemma CrashShows(w: World, acts: seq<Act>, config: Config, held: Option<Token>, id: Id)
    requires config.Valid() && Inv(w, held) && id in w.registry
    ensures var w' := Steps(w, acts, config);
            id in w'.registry && (CrashOf(w, w', id) ==> w'.registry[id].state == Failed)
  {
    StepsEnv(w, acts, config, held);
    assert EntryLe(w, Steps(w, acts, config), id);
  }

  lemma StepFollows(w: World, v: World, act: Act, config: Config, held: Option<Token>, id: Id,
                    history: seq<LayersReport>)
    requires config.Valid() && Inv(v, held) && EnvLe(w, v) && id in w.registry && id in v.registry
    requires !CrashOf(w, v, id) ==>
        UpToDate(v, id, config) && Follows(v.registry[id], w.registry[id], history, config)
    ensures var w' := Step(v, act, config);
            id in w'.registry &&
            (!CrashOf(w, w', id) ==>
               && UpToDate(w', id, config)
               && Follows(w'.registry[id], w.registry[id],
                    history + (if Writes(v, act, id) then [v.monitor.report] else []), config))
  {
    var w' := Step(v, act, config);
    CrashesCompose(w, v, act, config, held, id);
    assert id in w'.registry by { StepEnv(v, act, config, held); }
    hide Inv, EnvLe, CrashOf, UpToDate, Follows, Step;
    if !CrashOf(w, w', id) {
      if Writes(v, act, id) {
        WriteFollows(v, config, id);
        FollowsStep(v.registry[id], w.registry[id], history, v.monitor.report, config);
      } else {
        OthersKeep(v, act, config, id);
        assert history + [] == history;
      }
    }
  }

  lemma CrashesCompose(w: World, v: World, act: Act, config: Config, held: Option<Token>, id: Id)
    requires config.Valid() && Inv(v, held) && Moves(w, v)
    ensures var w' := Step(v, act, config);
            CrashOf(w, v, id) || CrashOf(v, w', id) ==> CrashOf(w, w', id)
  {
    var w' := Step(v, act, config);
    StepEnv(v, act, config, held);
    hide Step, Inv;
    if CrashOf(w, v, id) {
      var t :| CrashedBetween(w, v, t) && w.tasks[t].id == id;
      assert CrashedBetween(w, w', t);
    }
    if CrashOf(v, w', id) {
      var t :| CrashedBetween(v, w', t) && v.tasks[t].id == id;
      assert CrashedBetween(w, w', t);
    }
  }

  /** This step writes a verdict to the entry of `id`. */
  ghost predicate Writes(v: World, act: Act, id: Id) {
    act.Apply? && v.monitor.Judged? && v.monitor.id == id && Probed(v.registry, id)
  }

  lemma WriteFollows(v: World, config: Config, id: Id)
    requires config.Valid() && Writes(v, Apply, id) && UpToDate(v, id, config)
    ensures var w' := Step(v, Apply, config);
            && id in w'.registry && UpToDate(w', id, config)
            && w'.registry[id] == AfterReport(v.registry[id], v.monitor.report, config)
  {
    hide RunOf;
  }

  lemma OthersKeep(v: World, act: Act, config: Config, id: Id)
    requires config.Valid() && id in v.registry && !Writes(v, act, id) && UpToDate(v, id, config)
    requires !CrashOf(v, Step(v, act, config), id)
    ensures var w' := Step(v, act, config);
            id in w'.registry && w'.registry[id] == v.registry[id] && UpToDate(w', id, config)
  {
    hide RunOf, Newest, Assess;
    if act.Record? {
      RecordCrashes(v, act.token);
    }
    hide CrashOf;
  }

  lemma RecordCrashes(v: World, t: Token)
    ensures t in v.tasks && v.tasks[t].phase == Confirmed ==> CrashOf(v, RecordStep(v, t), v.tasks[t].id)
  {
    if t in v.tasks && v.tasks[t].phase == Confirmed {
      assert CrashedBetween(v, RecordStep(v, t), t);
    }
  }
}
