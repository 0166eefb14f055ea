/**
 The instance manager: start, stop, restart, delete and shutdown, written as the program runs
 them under the `runs` lock, with `Pause` at every point where other tasks may run. A pause runs
 an arbitrary schedule of watcher, monitor and operating-system steps, so a contract here holds
 for every interleaving.
 */
module Manager {
  import opened Wrappers
  import opened Health
  import opened Runtime

  const VERIFY_ATTEMPTS: nat := 12

  datatype ManagerError = AlreadyRunning | NotRunning | PortInUse | InvalidId | StartFailed | StopFailed

  /** `NoSocket`: the daemon runs, but waiting for its socket timed out or failed. */
  datatype DbusOutcome = Ready | NoChild | NoSocket

  /** What the outside world answers during one start. */
  datatype StartInput = StartInput(
    portFree: bool,
    credentialsOk: bool,
    mdmOk: bool,
    dbus: DbusOutcome,
    svcOk: bool,
    ready: bool,
    flowOk: bool,
    probes: nat -> Option<bool>)
  {
    predicate Starts() {
      portFree && credentialsOk && mdmOk && dbus == Ready && svcOk && ready && flowOk
    }

    /** The one path on which a start gives up a running process. */
    predicate Leaks() {
      portFree && credentialsOk && mdmOk && dbus == NoSocket
    }
  }

  datatype Command =
    | DoStartCmd(id: Id, input: StartInput)
    | DoStopCmd(id: Id, cleanupOk: bool)
    | DoRestartCmd(id: Id, cleanupOk: bool, idValid: bool, input: StartInput)
    | DoDeleteCmd(id: Id, cleanupOk: bool, idValid: bool)

  function NextGeneration(current: map<Id, nat>, id: Id): nat {
    if id in current then current[id] + 1 else 1
  }

  /** Some probe of the bounded startup verification reports `warp=on`. */
  ghost predicate Verifies(probes: nat -> Option<bool>) {
    exists k: nat :: k < 12 && probes(k) == Some(true)
  }

  /** A start shows Healthy because its own verification succeeded, or because the monitor reported it meanwhile. */
  ghost predicate BackedStart(before: seq<Event>, after: seq<Event>, id: Id, verified: bool) {
    || (verified && Told(before, after, HealthySet(id, true, FromStart)))
    || Told(before, after, HealthySet(id, true, FromMonitor))
  }

  ghost predicate Quiet(env: nat -> seq<Act>) {
    forall k: nat :: env(k) == []
  }

  /** Nothing else runs any more once the pid has been recorded. */
  ghost predicate Settled(env: nat -> seq<Act>) {
    forall k: nat :: k >= 14 ==> env(k) == []
  }

  /** The entry that a start leaves if nothing else runs after its pid has been recorded. */
  ghost function Fresh(token: Token, verified: bool): Entry {
    if verified then Entry(Healthy, Some(token), Counters(0, 0)) else Entry(Degraded, Some(token), Counters(1, 0))
  }

  /** An entry whose stop once failed: its watcher handle is gone. */
  predicate Spent(runs: map<Id, Running>, id: Id) {
    id in runs && !runs[id].watching
  }

  /** The runs table after the instances in `done` were stopped once each. */
  ghost predicate StoppedSoFar(before: map<Id, Running>, now: map<Id, Running>, done: set<Id>,
      cleanupOk: Id -> bool) {
    && now.Keys <= before.Keys
    && forall id :: id in before ==>
         if id in done then
           (id in now <==> !(before[id].watching && cleanupOk(id))) && (id in now ==> Spent(now, id))
         else id in now && now[id] == before[id]
  }

  lemma StopOneMore(before: map<Id, Running>, now: map<Id, Running>, after: map<Id, Running>, done: set<Id>,
                    id: Id, cleanupOk: Id -> bool)
    requires StoppedSoFar(before, now, done, cleanupOk) && id !in done
    requires after == if id in now &&
        !(now[id].watching && cleanupOk(id)) then now[id := Running(now[id].token, false)]
                      else now - {id}
    ensures StoppedSoFar(before, after, done + {id}, cleanupOk)
  {
  }

  /** The same watcher tasks, those that had ended still ended. */
  predicate SameTasks(before: map<Token, Task>, after: map<Token, Task>) {
    && after.Keys == before.Keys
    && forall t :: t in before ==> after[t].id == before[t].id && (after[t].Live() ==> before[t].Live())
  }

  lemma AllStopped(before: map<Id, Running>, now: map<Id, Running>, done: set<Id>, cleanupOk: Id -> bool)
    requires StoppedSoFar(before, now, done, cleanupOk)
    requires forall id :: id in before ==> id in done
    ensures (forall id :: id in before ==> before[id].watching && cleanupOk(id)) ==> now == map[]
    ensures forall id :: id in before && !(before[id].watching && cleanupOk(id)) ==> Spent(now, id)
  {
    if forall id :: id in before ==> before[id].watching && cleanupOk(id) {
      assert forall id :: id !in now;
    }
  }

  /** The answer tells whether the instance is in the runs table now. */
  predicate RunsAfter(cmd: Command, r: Result<(), ManagerError>) {
    match cmd
    case DoStartCmd(_, _) => r.Ok? || r.error == AlreadyRunning
    case DoStopCmd(_, _) => r.Err?
    case DoRestartCmd(_, _, _, _) => r.Ok? || r.error == StopFailed
    case DoDeleteCmd(_, _, _) => r == Err(StopFailed)
  }

  /** A stop, restart or delete that gets past its stop. */
  predicate Passes(cmd: Command, r: Result<(), ManagerError>) {
    !cmd.DoStartCmd? && r != Err(StopFailed)
  }

  /** The runs table after a command with this answer. */
  function NextRuns(before: map<Id, Running>, next: Token, cmd: Command, r: Result<(), ManagerError>)
    : map<Id, Running>
  {
    var id := cmd.id;
    if r == Err(StopFailed) && id in before then before[id := Running(before[id].token, false)]
    else
      match cmd
      case DoStartCmd(_, _) => if r.Ok? then before[id := Running(next, true)] else before
      case DoStopCmd(_, _) => before - {id}
      case DoRestartCmd(_, _, _, _) => if r.Ok? then before[id := Running(next, true)] else before - {id}
      case DoDeleteCmd(_, _, _) => if r.Ok? then before - {id} else before
  }

  /** The answers that a command can get. */
  predicate Answers(before: map<Id, Running>, cmd: Command, r: Result<(), ManagerError>) {
    var id := cmd.id;
    && (Spent(before, id) ==> r == Err(if cmd.DoStartCmd? then AlreadyRunning else StopFailed))
    && (r == Err(StopFailed) ==> id in before)
    && match cmd
       case DoStartCmd(_, _) => (r == Err(AlreadyRunning) <==> id in before) && r != Err(StopFailed)
       case DoStopCmd(_, _) => r.Err? ==> r.error == StopFailed
       case DoRestartCmd(_, _, _, _) => true
       case DoDeleteCmd(_, _, _) => r.Err? && id in before ==> r.error == StopFailed
  }

  lemma CommandOnRuns(before: map<Id, Running>, next: Token, cmd: Command, r: Result<(), ManagerError>)
    requires Answers(before, cmd, r) && (cmd.id in before ==> before[cmd.id].token < next)
    ensures var now := NextRuns(before, next, cmd, r);
            && (forall id :: Spent(before, id) ==> Spent(now, id))
            && (r == Err(StopFailed) ==> Spent(now, cmd.id))
            && (forall id :: id in before && id !in now ==> id == cmd.id && before[id].watching)
            && (forall id :: id in now && id != cmd.id ==> id in before && now[id] == before[id])
            && (cmd.id in before ==>
                  (cmd.id in now && now[cmd.id].token == before[cmd.id].token <==>
                   r == Err(StopFailed) || cmd.DoStartCmd?))
            && (cmd.id in now <==> RunsAfter(cmd, r))
  {
  }

  /**
   * Whether an instance is in the runs table after commands with these answers, and how many of its
   * runs they ended.
   */
  function InRuns(cmds: seq<Command>, results: seq<Result<(), ManagerError>>, id: Id, before: bool): bool
    requires |results| == |cmds|
  {
    if cmds == [] then before
    else
      var n := |cmds| - 1;
      if cmds[n].id == id then RunsAfter(cmds[n], results[n]) else InRuns(cmds[..n], results[..n], id, before)
  }

  function Ended(cmds: seq<Command>, results: seq<Result<(), ManagerError>>, id: Id, before: bool): nat
    requires |results| == |cmds|
  {
    if cmds == [] then 0
    else
      var n := |cmds| - 1;
      Ended(cmds[..n], results[..n], id, before)
      + if cmds[n].id == id && InRuns(cmds[..n], results[..n], id, before) &&
          Passes(cmds[n], results[n]) then 1 else 0
  }

  /** The command got as far as a start of its own: its generation is counted up. */
  predicate Attempts(cmd: Command, r: Result<(), ManagerError>) {
    (cmd.DoStartCmd? || cmd.DoRestartCmd?) && (r.Ok? || r.error in {PortInUse, StartFailed})
  }

  /** Only a stop that ends a run drops the counter. */
  predicate Forgets(cmd: Command, r: Result<(), ManagerError>, running: bool) {
    cmd.DoStopCmd? && running && r.Ok?
  }

  function GenerationAfter(g: Option<nat>, cmd: Command, r: Result<(), ManagerError>, running: bool): Option<nat> {
    if Attempts(cmd, r) then Some(if g.Some? then g.value + 1 else 1)
    else if Forgets(cmd, r, running) then None
    else g
  }

  /** The generation counter of an instance after commands with these answers. */
  function Generation(cmds: seq<Command>, results: seq<Result<(), ManagerError>>, id: Id, before: Option<nat>,
                      running: bool): Option<nat>
    requires |results| == |cmds|
  {
    if cmds == [] then before
    else
      var n := |cmds| - 1;
      var g := Generation(cmds[..n], results[..n], id, before, running);
      if cmds[n].id == id then GenerationAfter(g, cmds[n], results[n], InRuns(cmds[..n], results[..n], id, running))
      else g
  }

  /** Two starts of an instance without a successful stop in between have increasing generations. */
  lemma {:induction false} GenerationsIncrease(cmds: seq<Command>, results: seq<Result<(), ManagerError>>, id: Id,
      before: Option<nat>, running: bool, i: nat, j: nat)
    requires |results| == |cmds| && i < j < |cmds| && cmds[i].id == cmds[j].id == id
    requires Attempts(cmds[i], results[i]) && Attempts(cmds[j], results[j])
    requires forall k :: i < k < j && cmds[k].id == id ==>
               !(cmds[k].DoStopCmd? && results[k].Ok? && InRuns(cmds[..k], results[..k], id, running))
    ensures var first, second := Generation(cmds[..i + 1], results[..i + 1], id, before, running),
                Generation(cmds[..j + 1], results[..j + 1], id, before, running);
            first.Some? && second.Some? && first.value < second.value
  {
    KeepsCounting(cmds, results, id, before, running, i, j);
    assert cmds[..j + 1][..j] == cmds[..j] && results[..j + 1][..j] == results[..j];
    hide InRuns;
  }

  lemma {:induction false} KeepsCounting(cmds: seq<Command>, results: seq<Result<(), ManagerError>>, id: Id,
      before: Option<nat>, running: bool, i: nat, j: nat)
    requires |results| == |cmds| && i < j <= |cmds| && cmds[i].id == id && Attempts(cmds[i], results[i])
    requires forall k :: i < k < j && cmds[k].id == id ==>
               !(cmds[k].DoStopCmd? && results[k].Ok? && InRuns(cmds[..k], results[..k], id, running))
    ensures var first, second := Generation(cmds[..i + 1], results[..i + 1], id, before, running),
                Generation(cmds[..j], results[..j], id, before, running);
            first.Some? && second.Some? && first.value <= second.value
    decreases j
  {
    hide InRuns;
    assert cmds[..j][..j - 1] == cmds[..j - 1] && results[..j][..j - 1] == results[..j - 1];
    if j > i + 1 {
      KeepsCounting(cmds, results, id, before, running, i, j - 1);
    }
  }

  /** The counters after a command: its own is counted up, dropped or kept, all others are kept. */
  ghost predicate Counted(before: map<Id, nat>, now: map<Id, nat>, cmd: Command, r: Result<(), ManagerError>,
      running: bool)
  {
    forall id ::
      Lookup(now, id)
      == if id == cmd.id then GenerationAfter(Lookup(before, id), cmd, r, running) else Lookup(before, id)
  }

  function NextCounts(before: map<Id, nat>, cmd: Command, r: Result<(), ManagerError>, running: bool): map<Id, nat> {
    if Attempts(cmd, r) then before[cmd.id := NextGeneration(before, cmd.id)]
    else if Forgets(cmd, r, running) then before - {cmd.id}
    else before
  }

  lemma CountsCounted(before: map<Id, nat>, cmd: Command, r: Result<(), ManagerError>, running: bool)
    ensures Counted(before, NextCounts(before, cmd, r, running), cmd, r, running)
  {
  }

  /** A failed stop is failed for good: so far every later command on the instance has failed. */
  ghost predicate SpentStay(before: map<Id, Running>, now: map<Id, Running>, cmds: seq<Command>,
      results: seq<Result<(), ManagerError>>)
    requires |results| == |cmds|
  {
    && (forall id :: Spent(before, id) ==> Spent(now, id))
    && (forall k :: 0 <= k < |cmds| && Spent(before, cmds[k].id) ==> results[k].Err?)
    && (forall k :: 0 <= k < |cmds| && results[k] == Err(StopFailed) ==> Spent(now, cmds[k].id))
    && (forall k, m :: 0 <= k < m < |cmds| && results[k] == Err(StopFailed) && cmds[m].id == cmds[k].id ==>
          results[m].Err?)
  }

  lemma SpentStayOneMore(before: map<Id, Running>, now: map<Id, Running>, after: map<Id, Running>, cmds: seq<Command>,
      results: seq<Result<(), ManagerError>>, cmd: Command, r: Result<(), ManagerError>)
    requires |results| == |cmds| && SpentStay(before, now, cmds, results)
    requires forall id :: Spent(now, id) ==> Spent(after, id)
    requires Spent(now, cmd.id) ==> r.Err?
    requires r == Err(StopFailed) ==> Spent(after, cmd.id)
    ensures SpentStay(before, after, cmds + [cmd], results + [r])
  {
  }

  lemma SpentForGood(before: map<Id, Running>, now: map<Id, Running>, cmds: seq<Command>,
                     results: seq<Result<(), ManagerError>>)
    requires |results| == |cmds| && SpentStay(before, now, cmds, results)
    ensures forall id :: Spent(before, id) ==> Spent(now, id)
    ensures forall k :: 0 <= k < |cmds| && Spent(before, cmds[k].id) ==> results[k].Err?
    ensures forall k, m :: 0 <= k < m < |cmds| && results[k] == Err(StopFailed) && cmds[m].id == cmds[k].id ==>
              results[m].Err?
  {
  }

  /** The counters and the runs table are what commands and answers say. */
  ghost predicate AsTold(before: World, now: World, cmds: seq<Command>, results: seq<Result<(), ManagerError>>)
    requires |results| == |cmds|
  {
    forall id ::
      && (id in now.runs <==> InRuns(cmds, results, id, id in before.runs))
      && Count(now.stops, id) == Count(before.stops, id) + Ended(cmds, results, id, id in before.runs)
      && Lookup(now.current, id) == Generation(cmds, results, id, Lookup(before.current, id), id in before.runs)
  }

  /** Nobody but a command on the instance itself moves an instance that is down. */
  ghost predicate DownLeftAlone(before: World, now: World, cmds: seq<Command>) {
    forall id :: Untouched(cmds, id) ==> DownKept(before, now, id)
  }

  predicate Untouched(cmds: seq<Command>, id: Id) {
    forall k :: 0 <= k < |cmds| ==> cmds[k].id != id
  }

  lemma DownOneMore(before: World, now: World, after: World, cmds: seq<Command>, cmd: Command)
    requires DownLeftAlone(before, now, cmds) && forall id :: id != cmd.id ==> DownKept(now, after, id)
    ensures DownLeftAlone(before, after, cmds + [cmd])
  {
    forall id | Untouched(cmds + [cmd], id) ensures DownKept(before, after, id) {
      assert (cmds + [cmd])[|cmds|] == cmd;
      assert forall k :: 0 <= k < |cmds| ==> (cmds + [cmd])[k] == cmds[k];
      assert Untouched(cmds, id) && cmd.id != id;
      assert DownKept(before, now, id) && DownKept(now, after, id);
    }
  }

  lemma BeforeCommands(w: World)
    ensures AllReported(w, w) && SpentStay(w.runs, w.runs, [], []) && AsTold(w, w, [], [])
    ensures DownLeftAlone(w, w, [])
  {
  }

  lemma AsToldOneMore(before: World, now: World, after: World, cmds: seq<Command>,
      results: seq<Result<(), ManagerError>>, cmd: Command, r: Result<(), ManagerError>)
    requires |results| == |cmds| && AsTold(before, now, cmds, results)
    requires forall id :: id in after.runs <==> if id == cmd.id then RunsAfter(cmd, r) else id in now.runs
    requires after.stops == if cmd.id in now.runs && Passes(cmd, r) then OneMore(now.stops, cmd.id) else now.stops
    requires Counted(now.current, after.current, cmd, r, cmd.id in now.runs)
    ensures AsTold(before, after, cmds + [cmd], results + [r])
  {
    var cmds', results' := cmds + [cmd], results + [r];
    assert cmds'[..|cmds|] == cmds && results'[..|cmds|] == results;
    hide RunsAfter, Passes, GenerationAfter;
  }

  /** What a start leaves in which nothing else runs. */
  ghost function AfterStart(w: World, id: Id, verified: bool, log: seq<Event>): World {
    var generation := NextGeneration(w.current, id);
    w.(registry := w.registry[id := Fresh(w.next, verified)],
       current := w.current[id := generation],
       tasks := w.tasks[w.next := Task(id, generation, false, Watching)],
       children := w.children + {Svc(w.next), Dbus(w.next)},
       next := w.next + 1,
       log := log)
  }

  /** The entry of an instance whose stop is under way, or has failed: no later than a crash. */
  predicate StopUnderWay(before: map<Id, Entry>, after: map<Id, Entry>, id: Id) {
    id in before && before[id].state in {Stopping, Failed} ==>
      id in after && after[id].state in {Stopping, Failed} && after[id].pid in {before[id].pid, None}
  }

  /** What a stop leaves that has failed, if the instance is registered. */
  predicate StopFailedOk(before: map<Id, Entry>, after: map<Id, Entry>, id: Id) {
    id in before ==>
      id in after && after[id].state in {Stopping, Failed} && after[id].pid in {before[id].pid, None}
  }

  class InstanceManager {
    const config: Config
    var registry: map<Id, Entry>
    var runs: map<Id, Running>
    var current: map<Id, nat>
    var tasks: map<Token, Task>
    var monitor: Monitor
    var children: set<Child>
    var leaked: set<Token>
    var next: Token
    // What only the proofs look at: stops that succeeded, the snapshot of the health round, the record of reports.
    ghost var stops: map<Id, nat>
    ghost var round: Round
    ghost var log: seq<Event>

    ghost function Snapshot(): World
      reads this
    {
      World(registry, runs, current, tasks, monitor, children, leaked, next, stops, round, log)
    }

    ghost predicate Valid(held: Option<Token>)
      reads this
    {
      config.Valid() && Inv(Snapshot(), held)
    }

    /** An operation on `id` that began in `origin` is in progress. */
    ghost predicate Busy(held: Option<Token>, origin: World, id: Id)
      reads this
    {
      Valid(held) && OnlyOn(origin, Snapshot(), id) && HeldFor(Snapshot(), held, id)
    }

    constructor (config: Config)
      requires config.Valid()
      ensures Valid(None)
      ensures registry == map[] && runs == map[] && current == map[] && tasks == map[] && children == {} &&
          leaked == {}
      ensures this.config == config && monitor == Idle && next == 0 && stops == map[]
    {
      this.config := config;
      registry, runs, current, tasks := map[], map[], map[], map[];
      monitor, children, leaked, next := Idle, {}, {}, 0;
      stops, round, log := map[], NO_ROUND, [];
    }

    // ---------- the crash watcher task ----------

    method PollExit(t: Token)
      modifies this`tasks
      ensures Snapshot() == PollStep(old(Snapshot()), t)
    {
      if t in tasks && tasks[t].phase == Watching {
        if tasks[t].cancelled {
          tasks := tasks[t := tasks[t].(phase := Finished(false))];
        } else if Svc(t) !in children {
          tasks := tasks[t := tasks[t].(phase := Seen)];
        }
      }
    }

    method CompareGeneration(t: Token)
      modifies this`tasks, this`log
      ensures Snapshot() == CompareStep(old(Snapshot()), t)
    {
      if t in tasks && tasks[t].phase == Seen {
        var task := tasks[t];
        if task.id in current && current[task.id] == task.generation {
          tasks := tasks[t := task.(phase := Confirmed)];
        } else {
          tasks := tasks[t := task.(phase := Finished(true))];
          log := log + [CrashIgnored(task.id, task.generation)];
        }
      }
    }

    method RecordCrash(t: Token)
      modifies this`tasks, this`registry, this`log
      ensures Snapshot() == RecordStep(old(Snapshot()), t)
    {
      if t in tasks && tasks[t].phase == Confirmed {
        var task := tasks[t];
        log := log + [CrashSet(task.id, task.generation, Lookup(current, task.id), Newest(Snapshot(), t))];
        registry := Updated(registry, task.id, (e: Entry) => e.Crashed());
        tasks := tasks[t := task.(phase := Finished(true))];
      }
    }

    // ---------- the health monitor task ----------

    method CollectLayers(id: Id, control: bool, plane: Option<bool>)
      modifies this`monitor, this`round
      ensures Snapshot() == CollectStep(old(Snapshot()), id, control, plane)
    {
      if monitor == Idle && id in registry && registry[id].state in {Healthy, Degraded} {
        var before := registry[id];
        round := Round(id, RunOf(Snapshot(), id), Count(stops, id));
        monitor := Collected(id, before, LayersReport(before.pid.Some?, control, plane));
      }
    }

    method JudgeLayers()
      requires config.Valid()
      modifies this`monitor
      ensures Snapshot() == JudgeStep(old(Snapshot()), config)
    {
      if monitor.Collected? {
        var id, before, report := monitor.id, monitor.before, monitor.report;
        if id in registry && registry[id].state in {Healthy, Degraded} {
          monitor := Judged(id, Assess(report, before.counters, config, before.state), report);
        } else {
          monitor := Idle;
        }
      }
    }

    method ApplyVerdict()
      modifies this`monitor, this`registry, this`log
      ensures Snapshot() == ApplyStep(old(Snapshot()))
    {
      if monitor.Judged? {
        var id, verdict, report := monitor.id, monitor.verdict, monitor.report;
        ghost var written := Written(Snapshot(), id);
        monitor := Idle;
        if id in registry && registry[id].state in {Healthy, Degraded} {
          registry := registry[id := registry[id].(state := verdict.state, counters := verdict.counters)];
          log := log + [written];
          if verdict.state == Healthy {
            log := log + [HealthySet(id, report.DataPlaneOk(), FromMonitor)];
          }
        }
      }
    }

    method Other(act: Act)
      requires config.Valid()
      modifies this
      ensures Snapshot() == Step(old(Snapshot()), act, config)
    {
      match act {
        case Die(t) => children := children - {Svc(t)};
        case Poll(t) => PollExit(t);
        case Compare(t) => CompareGeneration(t);
        case Record(t) => RecordCrash(t);
        case Collect(id, control, plane) => CollectLayers(id, control, plane);
        case Judge => JudgeLayers();
        case Apply => ApplyVerdict();
      }
    }

    /** Runs a schedule of steps of other tasks. */
    method Others(acts: seq<Act>, ghost held: Option<Token>)
      requires Valid(held)
      modifies this
      ensures Valid(held)
      ensures Snapshot() == Steps(old(Snapshot()), acts, config)
      ensures EnvLe(old(Snapshot()), Snapshot())
    {
      var i := 0;
      while i < |acts|
        invariant 0 <= i <= |acts|
        invariant config.Valid() && Snapshot() == Steps(old(Snapshot()), acts[..i], config)
      {
        Other(acts[i]);
        assert acts[..i + 1][..i] == acts[..i];
        i := i + 1;
      }
      assert acts[..i] == acts;
      StepsEnv(old(Snapshot()), acts, config, held);
    }

    method Pause(acts: seq<Act>, ghost held: Option<Token>, ghost origin: World, ghost id: Id)
      requires Busy(held, origin, id)
      modifies this
      ensures Busy(held, origin, id)
      ensures EnvLe(old(Snapshot()), Snapshot())
      ensures Snapshot() == Steps(old(Snapshot()), acts, config)
      ensures acts == [] ==> Snapshot() == old(Snapshot())
    {
      Others(acts, held);
      OnlyOnEnv(origin, old(Snapshot()), Snapshot(), held, id);
    }

    /** One registry write of instance `id`, then a pause. */
    method Update(id: Id, f: Entry -> Entry, acts: seq<Act>, ghost held: Option<Token>, ghost origin: World)
      requires Busy(held, origin, id)
      requires id in registry && f(registry[id]).state == Healthy ==>
                 registry[id].state == Healthy || Told(origin.log, log, HealthySet(id, true, FromStart))
      requires id in registry && f(registry[id]).state in {Healthy, Degraded} ==>
                 Probed(registry, id) || (held.Some? && held.value in tasks && tasks[held.value].id == id)
      modifies this
      ensures Busy(held, origin, id)
      ensures Snapshot() == Steps(old(Snapshot()).(registry := Updated(old(registry), id, f)), acts, config)
      ensures EnvLe(old(Snapshot()).(registry := Updated(old(registry), id, f)), Snapshot())
      ensures acts == [] ==> Snapshot() == old(Snapshot()).(registry := Updated(old(registry), id, f))
    {
      OwnWrite(Snapshot(), id, f, held, origin);
      hide Inv, EnvLe, OnlyOn;
      registry := Updated(registry, id, f);
      Pause(acts, held, origin, id);
    }

    // ---------- start ----------

    /** `verify_data_plane`: bounded retries until a probe reports `warp=on`. */
    method VerifyDataPlane(probes: nat -> Option<bool>, env: nat -> seq<Act>, ghost held: Option<Token>,
                           ghost origin: World, ghost id: Id)
      returns (report: Option<bool>)
      requires Busy(held, origin, id)
      modifies this
      ensures Busy(held, origin, id)
      ensures EnvLe(old(Snapshot()), Snapshot())
      ensures report.Some? ==> report == Some(true)
      ensures report.Some? <==> Verifies(probes)
      ensures Settled(env) ==> Snapshot() == old(Snapshot())
    {
      var attempt := 0;
      EnvLeReflexive(Snapshot());
      while attempt < VERIFY_ATTEMPTS
        invariant 0 <= attempt <= VERIFY_ATTEMPTS
        invariant Busy(held, origin, id)
        invariant EnvLe(old(Snapshot()), Snapshot())
        invariant Settled(env) ==> Snapshot() == old(Snapshot())
        invariant forall k :: 0 <= k < attempt ==> probes(k) != Some(true)
      {
        ghost var before := Snapshot();
        Pause(env(20 + attempt), held, origin, id);
        EnvLeTransitive(old(Snapshot()), before, Snapshot());
        if probes(attempt) == Some(true) {
          return probes(attempt);
        }
        attempt := attempt + 1;
      }
      report := None;
    }

    /** What every step of a start before the watcher exists may assume. */
    ghost predicate Launching(id: Id, token: Token, origin: World)
      reads this
    {
      && Busy(Some(token), origin, id)
      && id in registry && id in current && id !in runs
      && token !in tasks && next == token + 1
      && forall u :: u in tasks ==> u < token
    }

    /** Other tasks run while a start is under way. */
    method Proceed(id: Id, token: Token, acts: seq<Act>, ghost origin: World)
      requires Launching(id, token, origin)
      modifies this
      ensures Launching(id, token, origin)
      ensures runs == old(runs) && stops == old(stops) && current == old(current) && leaked == old(leaked)
      ensures children <= old(children)
      ensures old(registry[id].state) == Failed ==> registry[id].state == Failed
      ensures Dbus(token) in old(children) ==> Dbus(token) in children
      ensures Snapshot() == Steps(old(Snapshot()), acts, config)
      ensures acts == [] ==> Snapshot() == old(Snapshot())
    {
      Pause(acts, Some(token), origin, id);
      assert EntryLe(old(Snapshot()), Snapshot(), id);
    }

    method KillOne(c: Child, acts: seq<Act>, ghost held: Option<Token>, ghost origin: World, ghost id: Id)
      requires Busy(held, origin, id) && (c.Dbus? ==> Svc(c.token) !in children)
      modifies this
      ensures Busy(held, origin, id)
      ensures runs == old(runs) && stops == old(stops) && current == old(current) && leaked == old(leaked)
      ensures next == old(next) && registry.Keys == old(registry).Keys && SameTasks(old(tasks), tasks)
      ensures children <= old(children) - {c}
      ensures !Probed(old(registry), id) ==> !Probed(registry, id)
      ensures StopUnderWay(old(registry), registry, id)
      ensures Snapshot() == Steps(old(Snapshot()).(children := old(children) - {c}), acts, config)
      ensures acts == [] ==> Snapshot() == old(Snapshot()).(children := children)
    {
      hide Inv, EnvLe, OnlyOn;
      KillChildInv(Snapshot(), c, held);
      OnlyOnKill(origin, Snapshot(), id, children - {c});
      children := children - {c};
      ghost var w := Snapshot();
      Pause(acts, held, origin, id);
      EnvFrame(w, Snapshot());
      EnvStops(w, Snapshot(), id);
    }

    /** The graceful stop: warp-svc is terminated or killed and reaped, then dbus-daemon. */
    method KillProcesses(token: Token, env: nat -> seq<Act>, ghost held: Option<Token>, ghost origin: World,
        ghost id: Id)
      requires Busy(held, origin, id)
      modifies this
      ensures Busy(held, origin, id)
      ensures runs == old(runs) && stops == old(stops) && current == old(current) && leaked == old(leaked)
      ensures next == old(next) && registry.Keys == old(registry).Keys && SameTasks(old(tasks), tasks)
      ensures children <= old(children) - {Svc(token), Dbus(token)}
      ensures !Probed(old(registry), id) ==> !Probed(registry, id)
      ensures StopUnderWay(old(registry), registry, id)
      ensures Quiet(env) ==> Snapshot() == old(Snapshot()).(children := children)
    {
      hide Inv, EnvLe, OnlyOn, Probed;
      KillOne(Svc(token), env(40), held, origin, id);
      KillOne(Dbus(token), env(41), held, origin, id);
    }

    /** `fail_start`: the failure is recorded and the attempt forgotten. */
    method FailStart(id: Id, token: Token, acts: seq<Act>, ghost origin: World)
      requires Launching(id, token, origin)
      requires forall c :: c in children && c.token == token ==> c.Dbus? && token in leaked
      modifies this
      ensures Busy(None, origin, id)
      ensures id in registry && registry[id].state == Failed
      ensures runs == old(runs) && stops == old(stops) && current == old(current) && leaked == old(leaked)
      ensures children <= old(children)
      ensures acts == [] ==> registry == old(registry)[id := old(registry)[id].Errored()]
    {
      Update(id, (e: Entry) => e.Errored(), acts, Some(token), origin);
      assert EntryLe(old(Snapshot()).(registry := Updated(old(registry), id, (e: Entry) => e.Errored())), Snapshot(),
          id);
      ReleaseInv(Snapshot(), token);
    }

    ghost predicate StartedOk(id: Id, token: Token)
      reads this
    {
      && id in registry && id in current && token in tasks
      && tasks[token].id == id && tasks[token].generation == current[id]
      && registry[id].state in {Healthy, Degraded, Failed}
      && PidOk(Snapshot(), id, token)
    }

    /** A write of `id` while its watcher runs: the pid stays the attempt's own. */
    method TailUpdate(id: Id, token: Token, f: Entry -> Entry, acts: seq<Act>, ghost origin: World)
      requires Busy(Some(token), origin, id)
      requires PidOk(Snapshot(), id, token) && id !in runs && tasks[token].id == id
      requires f(registry[id]).pid == registry[id].pid
      requires f(registry[id]).state == Healthy ==>
                 registry[id].state == Healthy || Told(origin.log, log, HealthySet(id, true, FromStart))
      modifies this
      ensures Busy(Some(token), origin, id)
      ensures PidOk(Snapshot(), id, token)
      ensures runs == old(runs) && stops == old(stops) && current == old(current) && leaked == old(leaked)
      ensures next == old(next)
      ensures children <= old(children)
      ensures tasks[token] == old(tasks)[token].(phase := tasks[token].phase)
      ensures registry[id].state in {f(old(registry)[id]).state, Failed} ||
              {registry[id].state, f(old(registry)[id]).state} == {Healthy, Degraded}
      ensures old(log) <= log
      ensures registry[id].state == Healthy && f(old(registry)[id]).state != Healthy ==>
                Told(old(log), log, HealthySet(id, true, FromMonitor))
      ensures acts == [] ==> Snapshot() == old(Snapshot()).(registry := old(registry)[id := f(old(registry)[id])])
    {
      ghost var w := Snapshot().(registry := Updated(registry, id, f));
      RegistryWriteInv(Snapshot(), w.registry, Some(token));
      Update(id, f, acts, Some(token), origin);
      PidOkStays(w, Snapshot(), id, token);
      assert EntryLe(w, Snapshot(), id);
    }

    /** The bus event of the Healthy transition, with the report that justifies it. */
    ghost method LogHealthy(id: Id, warpOn: bool, token: Token, origin: World)
      requires Busy(Some(token), origin, id) && warpOn
      modifies this`log
      ensures Busy(Some(token), origin, id)
      ensures Told(origin.log, log, HealthySet(id, true, FromStart))
      ensures Told(old(log), log, HealthySet(id, true, FromStart))
    {
      ReportAdded(origin, Snapshot(), id);
      LogInv(Snapshot(), HealthySet(id, warpOn, FromStart), Some(token));
      log := log + [HealthySet(id, warpOn, FromStart)];
    }

    /** From the pid being known to the verdict of the data-plane verification. */
    method StartupTail(id: Id, token: Token, probes: nat -> Option<bool>, env: nat -> seq<Act>, ghost origin: World)
      requires Busy(Some(token), origin, id)
      requires PidOk(Snapshot(), id, token) && id !in runs && id in current
      requires tasks[token].id == id && tasks[token].generation == current[id]
      requires registry[id].state in {Starting, Failed}
      modifies this
      ensures Busy(Some(token), origin, id)
      ensures StartedOk(id, token)
      ensures runs == old(runs) && stops == old(stops) && current == old(current) && leaked == old(leaked)
      ensures next == old(next)
      ensures children <= old(children)
      ensures old(log) <= log
      ensures registry[id].state == Healthy ==> BackedStart(old(log), log, id, Verifies(probes))
      ensures Settled(env) && old(registry[id].state) == Starting ==>
                Snapshot() == old(Snapshot()).(log := log, registry := old(registry)[id :=
                  if Verifies(probes) then old(registry[id]).In(Healthy) else old(registry[id]).Unverified()])
    {
      hide Inv, OnlyOn;
      ghost var w := Snapshot();
      var report := VerifyDataPlane(probes, env, Some(token), origin, id);
      PidOkStays(w, Snapshot(), id, token);
      assert EntryLe(w, Snapshot(), id);
      hide EnvLe;
      ghost var verified := log;
      Conclude(id, token, report, env, origin);
      ToldLater(w.log, verified, log, HealthySet(id, true, FromStart));
      ToldLater(w.log, verified, log, HealthySet(id, true, FromMonitor));
    }

    /**
     * The verdict of the verification is written. Neither write looks at the entry again: a crash recorded
     * before the Healthy write, or between the read and the write of Degraded, is overwritten.
     */
    method Conclude(id: Id, token: Token, report: Option<bool>, env: nat -> seq<Act>, ghost origin: World)
      requires Busy(Some(token), origin, id)
      requires PidOk(Snapshot(), id, token) && id !in runs && id in current
      requires tasks[token].id == id && tasks[token].generation == current[id]
      requires registry[id].state in {Starting, Failed} && (report.Some? ==> report.value)
      modifies this
      ensures Busy(Some(token), origin, id)
      ensures StartedOk(id, token)
      ensures runs == old(runs) && stops == old(stops) && current == old(current) && leaked == old(leaked)
      ensures next == old(next)
      ensures children <= old(children)
      ensures old(registry[id].state) == Failed && report.None? ==> registry[id].state == Failed
      ensures report.Some? && env(15) == [] ==> registry[id].state == Healthy
      ensures report.None? && old(registry[id].state) == Starting && env(17) == [] ==> registry[id].state == Degraded
      ensures old(log) <= log
      ensures registry[id].state == Healthy ==> BackedStart(old(log), log, id, report.Some?)
      ensures Settled(env) && old(registry[id].state) == Starting ==>
                Snapshot() == old(Snapshot()).(log := log, registry := old(registry)[id :=
                  if report.Some? then old(registry[id]).In(Healthy) else old(registry[id]).Unverified()])
    {
      hide Inv, OnlyOn, EnvLe;
      if report.Some? {
        LogHealthy(id, report.value, token, origin);
        ghost var told := log;
        TailUpdate(id, token, (e: Entry) => e.In(Healthy), env(15), origin);
        ToldLater(old(log), told, log, HealthySet(id, true, FromStart));
      } else {
        var stillStarting := registry[id].state == Starting;
        TailUpdate(id, token, (e: Entry) => e, env(16), origin);
        ghost var read := log;
        if stillStarting {
          TailUpdate(id, token, (e: Entry) => e.Unverified(), env(17), origin);
        }
        ToldLater(old(log), read, log, HealthySet(id, true, FromMonitor));
      }
    }

    /** A child process of the attempt is spawned. */
    method Spawn(id: Id, token: Token, c: Child, acts: seq<Act>, ghost origin: World)
      requires Launching(id, token, origin) && c.token == token && (c.Svc? ==> Dbus(token) in children)
      modifies this
      ensures Launching(id, token, origin) && (c.Dbus? ==> c in children)
      ensures runs == old(runs) && stops == old(stops) && current == old(current) && leaked == old(leaked)
      ensures children <= old(children) + {c}
      ensures acts == [] ==> Snapshot() == old(Snapshot()).(children := old(children) + {c})
    {
      SpawnChildInv(Snapshot(), token, c);
      children := children + {c};
      Proceed(id, token, acts, origin);
    }

    /** Both processes of a failed attempt are stopped, then the failure is recorded. */
    method AbortStart(id: Id, token: Token, env: nat -> seq<Act>, acts: seq<Act>, ghost origin: World)
      requires Launching(id, token, origin)
      modifies this
      ensures Busy(None, origin, id)
      ensures id in registry && registry[id].state == Failed
      ensures runs == old(runs) && stops == old(stops) && current == old(current) && leaked == old(leaked)
      ensures children <= old(children) - {Svc(token), Dbus(token)}
      ensures Quiet(env) && acts == [] ==> registry == old(registry)[id := old(registry)[id].Errored()]
    {
      KillProcesses(token, env, Some(token), origin, id);
      FailStart(id, token, acts, origin);
    }

    /** The two daemons are spawned, dbus-daemon first; a failure undoes what was started. */
    method SpawnDaemons(id: Id, token: Token, input: StartInput, env: nat -> seq<Act>, ghost origin: World)
      returns (ok: bool)
      requires Launching(id, token, origin) && token !in leaked
      requires forall c :: c in children ==> c.token != token
      modifies this
      ensures ok ==> Launching(id, token, origin)
      ensures ok <==> input.dbus == Ready && input.svcOk
      ensures !ok ==> Busy(None, origin, id) && id in registry && registry[id].state == Failed
      ensures runs == old(runs) && stops == old(stops) && current == old(current)
      ensures leaked == old(leaked) + (if input.dbus == NoSocket then {token} else {})
      ensures children <= old(children) + (if ok then {Svc(token), Dbus(token)}
                                           else if input.dbus == NoSocket then {Dbus(token)} else {})
      ensures !ok && Quiet(env) ==> registry == old(registry)[id := old(registry)[id].Errored()]
      ensures ok && Quiet(env) ==>
                Snapshot() == old(Snapshot()).(children := old(children) + {Svc(token), Dbus(token)})
    {
      hide Inv, EnvLe, OnlyOn;
      if input.dbus == NoChild {
        FailStart(id, token, env(5), origin);
        return false;
      }
      Spawn(id, token, Dbus(token), env(6), origin);
      if input.dbus == NoSocket {
        LeakDbus(id, token, origin);
        FailStart(id, token, env(7), origin);
        return false;
      }
      if !input.svcOk {
        AbortStart(id, token, env, env(9), origin);
        return false;
      }
      Spawn(id, token, Svc(token), env(10), origin);
      return true;
    }

    /** The handle of a daemon whose socket was not found, in time or at all, is dropped without killing it. */
    method LeakDbus(id: Id, token: Token, ghost origin: World)
      requires Launching(id, token, origin)
      modifies this`leaked
      ensures Launching(id, token, origin)
      ensures leaked == old(leaked) + {token}
    {
      LeakInv(Snapshot(), token);
      leaked := leaked + {token};
    }

    /** The head of `do_start`: the generation is registered before anything else. */
    method BumpGeneration(id: Id, acts: seq<Act>, ghost origin: World) returns (token: Token)
      requires Busy(None, origin, id) && id !in runs
      modifies this
      ensures token == old(next) && next == token + 1
      ensures Busy(Some(token), origin, id)
      ensures token !in leaked && token !in tasks && (forall c :: c in children ==> c.token != token)
      ensures forall u :: u in tasks ==> u < token
      ensures runs == old(runs) && stops == old(stops) && leaked == old(leaked) && children <= old(children)
      ensures current == old(current)[id := NextGeneration(old(current), id)]
      ensures Snapshot() == Steps(old(Snapshot()).(next := next,
                current := old(current)[id := NextGeneration(old(current), id)]), acts, config)
      ensures acts == [] ==> Snapshot() == old(Snapshot()).(current := current, next := next)
    {
      token := next;
      hide Inv, EnvLe, OnlyOn;
      NextIsNew(Snapshot(), None);
      BeginInv(Snapshot(), id, NextGeneration(current, id));
      OnlyOnCounted(origin, Snapshot(), id, NextGeneration(current, id));
      current, next := current[id := NextGeneration(current, id)], next + 1;
      ghost var w := Snapshot();
      Pause(acts, Some(token), origin, id);
      EnvFrame(w, Snapshot());
    }

    method InsertEntry(id: Id, token: Token, acts: seq<Act>, ghost origin: World)
      requires Busy(Some(token), origin, id)
      requires id in current && id !in runs && token !in tasks && next == token + 1
      requires forall u :: u in tasks ==> u < token
      modifies this
      ensures Launching(id, token, origin)
      ensures runs == old(runs) && stops == old(stops) && current == old(current) && leaked == old(leaked)
      ensures children <= old(children)
      ensures Snapshot() == Steps(old(Snapshot()).(registry := Insert(old(registry), id)), acts, config)
      ensures acts == [] ==> Snapshot() == old(Snapshot()).(registry := Insert(old(registry), id))
    {
      RegistryWriteInv(Snapshot(), Insert(registry, id), Some(token));
      registry := Insert(registry, id);
      Proceed(id, token, acts, origin);
    }

    method MarkStarting(id: Id, token: Token, acts: seq<Act>, ghost origin: World)
      requires Launching(id, token, origin)
      modifies this
      ensures Launching(id, token, origin)
      ensures runs == old(runs) && stops == old(stops) && current == old(current) && leaked == old(leaked)
      ensures children <= old(children)
      ensures registry[id].state in {Starting, Failed}
      ensures acts == [] ==>
                Snapshot() == old(Snapshot()).(registry := old(registry)[id := old(registry)[id].In(Starting)])
    {
      RegistryWriteInv(Snapshot(), Updated(registry, id, (e: Entry) => e.In(Starting)), Some(token));
      registry := registry[id := registry[id].In(Starting)];
      ghost var w := Snapshot();
      Pause(acts, Some(token), origin, id);
      assert EntryLe(w, Snapshot(), id);
    }

    /** `do_start`. On success the token stays held by the caller. */
    method DoStart(id: Id, input: StartInput, env: nat -> seq<Act>, ghost origin: World)
      returns (r: Result<Token, ManagerError>)
      requires Busy(None, origin, id) && id !in runs
      modifies this
      ensures Busy(if r.Ok? then Some(r.value) else None, origin, id)
      ensures runs == old(runs) && stops == old(stops) && id in registry
      ensures current == old(current)[id := NextGeneration(old(current), id)]
      ensures r.Ok? <==> input.Starts()
      ensures r.Err? ==> r.error == if input.portFree then StartFailed else PortInUse
      ensures r.Err? ==> registry[id].state == Failed
      ensures r.Err? && Quiet(env) ==>
                registry == old(registry)[id :=
                  (if id in old(registry) then old(registry)[id] else StoppedEntry).Errored()]
      ensures r.Err? ==> children <= old(children) + (if input.Leaks() then {Dbus(old(next))} else {})
      ensures leaked == old(leaked) + (if input.Leaks() then {old(next)} else {})
      ensures r.Ok? ==> r.value == old(next) && StartedOk(id, r.value)
      ensures r.Ok? && registry[id].state == Healthy ==> BackedStart(origin.log, log, id, Verifies(input.probes))
      ensures r.Ok? && Settled(env) ==> registry[id] == Fresh(r.value, Verifies(input.probes))
      ensures r.Ok? && Settled(env) && env(13) == CrashNow(r.value) ==> CrashRecorded(r.value)
      ensures r.Ok? && Quiet(env) ==>
                Snapshot() == AfterStart(old(Snapshot()), id, Verifies(input.probes), log)
    {
      hide Inv, EnvLe, OnlyOn, StartedOk, CrashRecorded, CrashNow, BackedStart, Verifies, Fresh;
      var token := BumpGeneration(id, env(0), origin);
      InsertEntry(id, token, env(1), origin);
      r := Attempt(id, token, input, env, origin);
    }

    /** The stages of a start whose generation and entry are registered. */
    method Attempt(id: Id, token: Token, input: StartInput, env: nat -> seq<Act>, ghost origin: World)
      returns (r: Result<Token, ManagerError>)
      requires Launching(id, token, origin) && token !in leaked
      requires forall c :: c in children ==> c.token != token
      modifies this
      ensures Busy(if r.Ok? then Some(token) else None, origin, id)
      ensures runs == old(runs) && stops == old(stops) && current == old(current) && id in registry
      ensures r == if input.Starts() then Ok(token) else Err(if input.portFree then StartFailed else PortInUse)
      ensures r.Err? ==> registry[id].state == Failed
      ensures r.Err? && Quiet(env) ==> registry == old(registry)[id := old(registry)[id].Errored()]
      ensures r.Err? ==> children <= old(children) + (if input.Leaks() then {Dbus(token)} else {})
      ensures leaked == old(leaked) + (if input.Leaks() then {token} else {})
      ensures r.Ok? ==> StartedOk(id, token)
      ensures r.Ok? && registry[id].state == Healthy ==> BackedStart(origin.log, log, id, Verifies(input.probes))
      ensures r.Ok? && Settled(env) ==> registry[id] == Fresh(token, Verifies(input.probes))
      ensures r.Ok? && Settled(env) && env(13) == CrashNow(token) ==> CrashRecorded(token)
      ensures r.Ok? && Quiet(env) ==>
                Snapshot() == old(Snapshot()).(log := log,
                  tasks := old(tasks)[token := Task(id, current[id], false, Watching)],
                  children := old(children) + {Svc(token), Dbus(token)},
                  registry := old(registry)[id := Fresh(token, Verifies(input.probes))])
    {
      hide Inv, EnvLe, OnlyOn, PidOk, CrashRecorded, CrashNow, BackedStart, Verifies, Fresh;
      if !input.portFree {
        FailStart(id, token, env(2), origin);
        return Err(PortInUse);
      }
      MarkStarting(id, token, env(3), origin);
      if !input.credentialsOk || !input.mdmOk {
        FailStart(id, token, env(4), origin);
        return Err(StartFailed);
      }
      var spawned := SpawnDaemons(id, token, input, env, origin);
      if !spawned {
        return Err(StartFailed);
      }
      if !input.ready || !input.flowOk {
        AbortStart(id, token, env, env(12), origin);
        return Err(StartFailed);
      }
      Supervise(id, token, input.probes, env, origin);
      return Ok(token);
    }

    /** The rest of a start whose flow succeeded. */
    method Supervise(id: Id, token: Token, probes: nat -> Option<bool>, env: nat -> seq<Act>, ghost origin: World)
      requires Launching(id, token, origin)
      modifies this
      ensures Busy(Some(token), origin, id)
      ensures StartedOk(id, token)
      ensures runs == old(runs) && stops == old(stops) && current == old(current) && leaked == old(leaked)
      ensures children <= old(children)
      ensures registry[id].state == Healthy ==> BackedStart(origin.log, log, id, Verifies(probes))
      ensures Settled(env) ==> registry[id] == Fresh(token, Verifies(probes))
      ensures Settled(env) && env(13) == CrashNow(token) ==> CrashRecorded(token)
      ensures Quiet(env) ==>
                Snapshot() == old(Snapshot()).(log := log,
                  tasks := old(tasks)[token := Task(id, current[id], false, Watching)],
                  registry := old(registry)[id := Fresh(token, Verifies(probes))])
    {
      hide Inv, EnvLe, OnlyOn, PidOk;
      SpawnWatcher(id, token, env, origin);
      OnlyOnGrows(origin, Snapshot(), id);
      ghost var watched := log;
      StartupTail(id, token, probes, env, origin);
      OnlyOnGrows(origin, Snapshot(), id);
      ToldLater(origin.log, watched, log, HealthySet(id, true, FromStart));
      ToldLater(origin.log, watched, log, HealthySet(id, true, FromMonitor));
      hide Told;
    }

    /** The watcher task takes over the process handle; then `on_started`, whatever the watcher recorded before it. */
    method SpawnWatcher(id: Id, token: Token, env: nat -> seq<Act>, ghost origin: World)
      requires Launching(id, token, origin)
      modifies this
      ensures Busy(Some(token), origin, id)
      ensures PidOk(Snapshot(), id, token) && id !in runs && id in current
      ensures tasks[token].id == id && tasks[token].generation == current[id]
      ensures registry[id].state in {Starting, Failed}
      ensures runs == old(runs) && stops == old(stops) && current == old(current) && leaked == old(leaked)
      ensures children <= old(children)
      ensures env(14) == [] ==> registry[id] == Entry(Starting, Some(token), Counters(0, 0))
      ensures env(14) == [] && env(13) == CrashNow(token) ==> CrashRecorded(token)
      ensures env(14) == [] && env(13) == [] ==>
                Snapshot() == old(Snapshot()).(tasks := old(tasks)[token := Task(id, current[id], false, Watching)],
                  registry := old(registry)[id := Entry(Starting, Some(token), Counters(0, 0))])
    {
      hide Inv, EnvLe, OnlyOn;
      LaunchWatcher(id, token, env(13), origin);
      RecordPid(id, token, env(14), origin);
    }

    method RecordPid(id: Id, token: Token, acts: seq<Act>, ghost origin: World)
      requires Busy(Some(token), origin, id)
      requires id in registry && id in current && id !in runs && token in tasks
      requires tasks[token].id == id && tasks[token].generation == current[id]
      modifies this
      ensures Busy(Some(token), origin, id)
      ensures PidOk(Snapshot(), id, token) && id !in runs && id in current
      ensures tasks[token].id == id && tasks[token].generation == current[id]
      ensures registry[id].state in {Starting, Failed}
      ensures runs == old(runs) && stops == old(stops) && current == old(current) && leaked == old(leaked)
      ensures children <= old(children)
      ensures acts == [] ==>
                Snapshot() == old(Snapshot()).(registry :=
                  old(registry)[id := Entry(Starting, Some(token), Counters(0, 0))])
    {
      RegistryWriteInv(Snapshot(), Updated(registry, id, (e: Entry) => e.Started(token)), Some(token));
      registry := registry[id := registry[id].Started(token)];
      TailUpdate(id, token, (e: Entry) => e, acts, origin);
    }

    method LaunchWatcher(id: Id, token: Token, acts: seq<Act>, ghost origin: World)
      requires Launching(id, token, origin)
      modifies this
      ensures Busy(Some(token), origin, id)
      ensures id in registry && id in current && id !in runs && token in tasks
      ensures tasks[token].id == id && tasks[token].generation == current[id]
      ensures runs == old(runs) && stops == old(stops) && current == old(current) && leaked == old(leaked)
      ensures children <= old(children)
      ensures Snapshot() == Steps(old(Snapshot()).(tasks :=
                old(tasks)[token := Task(id, old(current)[id], false, Watching)]), acts, config)
      ensures acts == CrashNow(token) ==> CrashRecorded(token)
      ensures acts == [] ==>
                Snapshot() == old(Snapshot()).(tasks := old(tasks)[token := Task(id, current[id], false, Watching)])
    {
      SpawnInv(Snapshot(), id, token);
      tasks := tasks[token := Task(id, current[id], false, Watching)];
      ghost var w := Snapshot();
      Pause(acts, Some(token), origin, id);
      if acts == CrashNow(token) {
        CrashNowRecorded(w, token, config);
      }
    }

    /** The process of the run is gone, and its watcher has recorded that and ended. */
    ghost predicate CrashRecorded(token: Token)
      reads this
    {
      token in tasks && tasks[token].phase == Finished(true) && Svc(token) !in children
    }

    // ---------- stop ----------

    /** `watcher_task.await`: other tasks run until the cancelled watcher has ended. */
    method JoinWatcher(t: Token, acts: seq<Act>, ghost origin: World, ghost id: Id)
      requires Busy(Some(t), origin, id) && t in tasks && tasks[t].cancelled
      modifies this
      ensures Busy(Some(t), origin, id)
      ensures EnvLe(old(Snapshot()), Snapshot())
      ensures t in tasks && !tasks[t].Live()
      ensures acts == [] ==> monitor == old(monitor) && round == old(round)
      ensures acts == [] && old(tasks)[t].phase !in {Seen, Confirmed} ==>
          Snapshot() == old(Snapshot()).(tasks := tasks)
    {
      if tasks[t].phase !in {Seen, Confirmed} {
        JoinAlone(Snapshot(), t, config);
      }
      Others(acts + [Poll(t), Compare(t), Record(t)], Some(t));
      JoinEnds(old(Snapshot()), acts, t, config, Some(t));
      OnlyOnEnv(origin, old(Snapshot()), Snapshot(), Some(t), id);
    }

    /** Drops the cancel sender. */
    method CancelWatcher(t: Token, ghost origin: World, ghost id: Id)
      requires Busy(Some(t), origin, id) && t in tasks
      modifies this`tasks
      ensures Busy(Some(t), origin, id)
      ensures tasks == old(tasks)[t := old(tasks)[t].(cancelled := true)]
    {
      CancelInv(Snapshot(), t, Some(t));
      tasks := tasks[t := tasks[t].(cancelled := true)];
    }

    /** Ends the run of `t`: the watcher is cancelled and joined, and both processes are reaped. */
    method ReapRun(id: Id, t: Token, env: nat -> seq<Act>, ghost origin: World)
      requires Busy(Some(t), origin, id) && t in tasks
      modifies this
      ensures Busy(Some(t), origin, id)
      ensures runs == old(runs) && stops == old(stops) && current == old(current) && leaked == old(leaked)
      ensures next == old(next) && children <= old(children) - {Svc(t), Dbus(t)}
      ensures NothingRuns(Snapshot(), Some(t)) && t in tasks && tasks[t].id == old(tasks)[t].id
      ensures registry.Keys == old(registry).Keys
      ensures !Probed(old(registry), id) ==> !Probed(registry, id)
      ensures StopUnderWay(old(registry), registry, id)
      ensures Quiet(env) ==> monitor == old(monitor) && round == old(round)
      ensures Quiet(env) && old(tasks)[t].phase !in {Seen, Confirmed} ==> registry == old(registry)
    {
      hide Inv, EnvLe, OnlyOn, Probed;
      CancelWatcher(t, origin, id);
      ghost var w := Snapshot();
      JoinWatcher(t, env(31), origin, id);
      EnvFrame(w, Snapshot());
      EnvStops(w, Snapshot(), id);
      KillProcesses(t, env, Some(t), origin, id);
    }

    /** A registry write of an instance nobody watches: the entry is exactly what was written. */
    method UpdateUnwatched(id: Id, state: RuntimeState, clearPid: bool, acts: seq<Act>, ghost held: Option<Token>,
        ghost origin: World)
      requires Busy(held, origin, id) && !(id in runs && runs[id].watching)
      requires NothingRuns(Snapshot(), held)
      requires state !in {Healthy, Degraded}
      modifies this
      ensures Busy(held, origin, id) && NothingRuns(Snapshot(), held)
      ensures runs == old(runs) && stops == old(stops) && current == old(current) && leaked == old(leaked)
      ensures next == old(next) && children <= old(children) && tasks.Keys == old(tasks).Keys
      ensures forall t :: t in tasks ==> tasks[t].id == old(tasks)[t].id
      ensures registry.Keys == old(registry).Keys
      ensures id in registry ==>
                registry[id] == old(registry)[id].(state := state, pid := if clearPid then None
                    else old(registry)[id].pid)
      ensures acts == [] ==> monitor == old(monitor) && round == old(round)
      ensures acts == [] && id in old(registry) ==> registry == old(registry)[id := registry[id]]
    {
      var f := (e: Entry) => e.(state := state, pid := if clearPid then None else e.pid);
      ghost var w := Snapshot().(registry := Updated(registry, id, f));
      hide Inv, EnvLe, OnlyOn;
      if id in registry {
        UnwatchedWrite(Snapshot(), id, f(registry[id]), held);
      }
      Update(id, f, acts, held, origin);
      UnwatchedAfter(w, Snapshot(), id, held);
      hide NothingRuns;
      EnvFrame(w, Snapshot());
    }

    /** A registry write of an instance whose watcher may still report a crash. */
    method MarkStopping(id: Id, held: Option<Token>, acts: seq<Act>, ghost origin: World)
      requires Busy(held, origin, id)
      modifies this
      ensures Busy(held, origin, id)
      ensures runs == old(runs) && stops == old(stops) && current == old(current) && leaked == old(leaked)
      ensures next == old(next)
      ensures children <= old(children) && tasks.Keys == old(tasks).Keys
      ensures forall t :: t in tasks ==> tasks[t].id == old(tasks)[t].id
      ensures registry.Keys == old(registry).Keys && !Probed(registry, id)
      ensures id in registry ==>
                registry[id].state in {Stopping, Failed} && registry[id].pid in {old(registry)[id].pid, None}
      ensures acts == [] ==>
                Snapshot() == old(Snapshot()).(registry :=
                  if id in old(registry) then old(registry)[id := old(registry)[id].In(Stopping)] else old(registry))
    {
      ghost var w := Snapshot().(registry := Updated(registry, id, (e: Entry) => e.In(Stopping)));
      Update(id, (e: Entry) => e.In(Stopping), acts, held, origin);
      assert id in registry ==> EntryLe(w, Snapshot(), id);
    }

    /** `do_stop`: succeeds exactly when the watcher handle is present and the cleanup works. */
    method DoStop(id: Id, run: Running, cleanupOk: bool, env: nat -> seq<Act>, ghost origin: World)
      returns (ok: bool)
      requires Busy(Some(run.token), origin, id)
      requires id !in runs && run.token in tasks && tasks[run.token].id == id
      requires !run.watching ==> NothingRuns(Snapshot(), Some(run.token))
      modifies this
      ensures Busy(if ok then None else Some(run.token), origin, id)
      ensures ok <==> run.watching && cleanupOk
      ensures stops == if ok then OneMore(old(stops), id) else old(stops)
      ensures !ok ==> NothingRuns(Snapshot(), Some(run.token))
      ensures runs == old(runs) && current == old(current) && leaked == old(leaked) && next == old(next)
      ensures children <= old(children)
      ensures run.watching ==> children !! {Svc(run.token), Dbus(run.token)}
      ensures run.token in tasks && tasks[run.token].id == id
      ensures registry.Keys == old(registry).Keys
      ensures ok && id in registry ==> registry[id].state == Stopped && registry[id].pid == None
      ensures !run.watching && id in registry ==> registry[id] == old(registry)[id].In(Stopping)
      ensures !ok ==> StopFailedOk(old(registry), registry, id)
      ensures Quiet(env) ==> monitor == old(monitor) && round == old(round)
      ensures Quiet(env) && Svc(run.token) in old(children) && id in old(registry) ==>
                registry == old(registry)[id := if ok then old(registry)[id].Ended()
                    else old(registry)[id].In(Stopping)]
    {
      hide Inv, EnvLe, OnlyOn;
      if !run.watching {
        // "watcher task already consumed"
        UpdateUnwatched(id, Stopping, false, env(30), Some(run.token), origin);
        return false;
      }
      ok := StopWatched(id, run.token, cleanupOk, env, origin);
    }

    /** The stop of a run whose watcher handle is still there. */
    method StopWatched(id: Id, t: Token, cleanupOk: bool, env: nat -> seq<Act>, ghost origin: World)
      returns (ok: bool)
      requires Busy(Some(t), origin, id) && id !in runs && t in tasks && tasks[t].id == id
      modifies this
      ensures Busy(if ok then None else Some(t), origin, id)
      ensures ok <==> cleanupOk
      ensures stops == if ok then OneMore(old(stops), id) else old(stops)
      ensures !ok ==> NothingRuns(Snapshot(), Some(t)) && StopFailedOk(old(registry), registry, id)
      ensures runs == old(runs) && current == old(current) && leaked == old(leaked) && next == old(next)
      ensures children <= old(children) - {Svc(t), Dbus(t)}
      ensures t in tasks && tasks[t].id == id && registry.Keys == old(registry).Keys
      ensures ok && id in registry ==> registry[id].state == Stopped && registry[id].pid == None
      ensures Quiet(env) ==> monitor == old(monitor) && round == old(round)
      ensures Quiet(env) && Svc(t) in old(children) && id in old(registry) ==>
                registry == old(registry)[id := if ok then old(registry)[id].Ended()
                    else old(registry)[id].In(Stopping)]
    {
      hide Inv, EnvLe, OnlyOn, NothingRuns;
      MarkAndReap(id, t, env, origin);
      if !cleanupOk {
        return false;
      }
      UpdateUnwatched(id, Stopped, true, env(33), Some(t), origin);
      EndRun(id, t, origin);
      return true;
    }

    /** The part of a stop that its success does not depend on. */
    method MarkAndReap(id: Id, t: Token, env: nat -> seq<Act>, ghost origin: World)
      requires Busy(Some(t), origin, id) && t in tasks && tasks[t].id == id
      modifies this
      ensures Busy(Some(t), origin, id) && NothingRuns(Snapshot(), Some(t))
      ensures StopFailedOk(old(registry), registry, id) && registry.Keys == old(registry).Keys
      ensures !Probed(registry, id)
      ensures runs == old(runs) && stops == old(stops) && current == old(current) && leaked == old(leaked)
      ensures next == old(next) && children <= old(children) - {Svc(t), Dbus(t)}
      ensures t in tasks && tasks[t].id == id
      ensures Quiet(env) ==> monitor == old(monitor) && round == old(round)
      ensures Quiet(env) && Svc(t) in old(children) && id in old(registry) ==>
                registry == old(registry)[id := old(registry)[id].In(Stopping)]
    {
      AliveUnseen(Snapshot(), Some(t), t);
      hide Inv, EnvLe, OnlyOn, Probed, NothingRuns;
      MarkStopping(id, Some(t), env(30), origin);
      ReapRun(id, t, env, origin);
    }

    /** A stop has succeeded: the handles of the run are dropped. */
    ghost method EndRun(id: Id, t: Token, origin: World)
      requires Busy(Some(t), origin, id)
      requires t in tasks && NothingRuns(Snapshot(), Some(t)) && tasks[t].id == id && !Probed(registry, id)
      modifies this`stops
      ensures Busy(None, origin, id)
      ensures stops == OneMore(old(stops), id)
    {
      ReleaseInv(Snapshot(), t);
      stops := OneMore(stops, id);
    }

    /** Takes the entry of `id` out of the runs table and stops it; a failed stop puts it back. */
    method TakeAndStop(id: Id, cleanupOk: bool, env: nat -> seq<Act>, ghost origin: World) returns (ok: bool)
      requires Busy(None, origin, id) && id in runs
      modifies this
      ensures Busy(None, origin, id)
      ensures ok <==> old(runs)[id].watching && cleanupOk
      ensures runs == if ok then old(runs) - {id} else old(runs)[id := Running(old(runs)[id].token, false)]
      ensures stops == if ok then OneMore(old(stops), id) else old(stops)
      ensures current == old(current) && leaked == old(leaked) && next == old(next) && children <= old(children)
      ensures old(runs)[id].watching ==> children !! {Svc(old(runs)[id].token), Dbus(old(runs)[id].token)}
      ensures registry.Keys == old(registry).Keys
      ensures ok && id in registry ==> registry[id].state == Stopped && registry[id].pid == None
      ensures Spent(old(runs), id) && id in registry ==> registry[id] == old(registry)[id].In(Stopping)
      ensures !ok ==> StopFailedOk(old(registry), registry, id)
      ensures Quiet(env) ==> monitor == old(monitor) && round == old(round)
      ensures Quiet(env) && Svc(old(runs)[id].token) in old(children) && id in old(registry) ==>
                registry == old(registry)[id := if ok then old(registry)[id].Ended()
                    else old(registry)[id].In(Stopping)]
    {
      hide Inv, EnvLe, OnlyOn, NothingRuns;
      var run := TakeEntry(id, origin);
      ok := DoStop(id, run, cleanupOk, env, origin);
      if !ok {
        PutBack(id, run.token, origin);
      }
    }

    method TakeEntry(id: Id, ghost origin: World) returns (run: Running)
      requires Busy(None, origin, id) && id in runs
      modifies this`runs
      ensures run == old(runs)[id] && runs == old(runs) - {id}
      ensures Busy(Some(run.token), origin, id)
      ensures run.token in tasks && tasks[run.token].id == id && id in current
      ensures !run.watching ==> NothingRuns(Snapshot(), Some(run.token))
    {
      run := runs[id];
      assert RunOk(Snapshot(), None, id);
      TakeInv(Snapshot(), id);
      runs := runs - {id};
    }

    method PutBack(id: Id, token: Token, ghost origin: World)
      requires Busy(Some(token), origin, id) && id !in runs && id in current
      requires token in tasks && NothingRuns(Snapshot(), Some(token)) && tasks[token].id == id
      modifies this`runs
      ensures Busy(None, origin, id)
      ensures runs == old(runs)[id := Running(token, false)]
    {
      PutBackInv(Snapshot(), id, token);
      runs := runs[id := Running(token, false)];
      assert runs - {id} == origin.runs - {id};
    }

    method ForgetGeneration(id: Id, ghost origin: World)
      requires Busy(None, origin, id) && id !in runs
      modifies this`current
      ensures Busy(None, origin, id)
      ensures current == old(current) - {id}
    {
      ForgetRunInv(Snapshot(), id);
      current := current - {id};
      assert current - {id} == origin.current - {id};
    }

    method RemoveEntry(id: Id, ghost origin: World)
      requires Busy(None, origin, id)
      modifies this`registry
      ensures Busy(None, origin, id)
      ensures registry == old(registry) - {id}
    {
      RegistryWriteInv(Snapshot(), registry - {id}, None);
      registry := registry - {id};
      assert registry.Keys - {id} == origin.registry.Keys - {id};
    }

    /** `RuntimeRegistry::insert`, as the reconciler calls it for a row without an entry. */
    method Register(id: Id)
      requires Valid(None)
      modifies this`registry
      ensures Valid(None) && registry == Insert(old(registry), id)
    {
      RegistryWriteInv(Snapshot(), Insert(registry, id), None);
      registry := Insert(registry, id);
    }

    // ---------- the public operations, each under the runs lock ----------

    method Start(id: Id, input: StartInput, env: nat -> seq<Act>) returns (r: Result<(), ManagerError>)
      requires Valid(None)
      modifies this
      ensures Valid(None) && OnlyOn(old(Snapshot()), Snapshot(), id)
      ensures r.Ok? <==> id !in old(runs) && input.Starts()
      ensures r.Ok? ==> input.portFree && input.credentialsOk && input.mdmOk && input.dbus == Ready
      ensures r.Ok? ==> input.svcOk && input.ready && input.flowOk
      ensures r.Err? && input.dbus != NoSocket ==> children <= old(children) && leaked == old(leaked)
      ensures id in old(runs) ==> r == Err(AlreadyRunning) && Snapshot() == old(Snapshot())
      ensures runs == if r.Ok? then old(runs)[id := Running(old(next), true)] else old(runs)
      ensures stops == old(stops)
      ensures current ==
                if id in old(runs) then old(current) else old(current)[id := NextGeneration(old(current), id)]
      ensures r.Ok? ==> StartedOk(id, old(next))
      ensures r.Ok? && registry[id].state == Healthy ==> BackedStart(old(log), log, id, Verifies(input.probes))
      ensures r.Ok? && Settled(env) ==> registry[id] == Fresh(old(next), Verifies(input.probes))
      ensures r.Ok? && Settled(env) && env(13) == CrashNow(old(next)) ==> CrashRecorded(old(next))
      ensures r.Ok? && Quiet(env) ==>
                Snapshot() == AfterStart(old(Snapshot()), id, Verifies(input.probes), log).(runs := runs)
      ensures r.Err? && id !in old(runs) ==>
                r.error in {PortInUse, StartFailed} && id in registry && registry[id].state == Failed
      ensures r.Err? && id !in old(runs) && Quiet(env) ==>
                registry == old(registry)[id :=
                  (if id in old(registry) then old(registry)[id] else StoppedEntry).Errored()]
      ensures r.Err? ==> children <= old(children) + (if input.Leaks() then {Dbus(old(next))} else {})
    {
      OnlyOnReflexive(Snapshot(), id);
      hide Inv, EnvLe, OnlyOn;
      if id in runs {
        return Err(AlreadyRunning);
      }
      ghost var origin := Snapshot();
      var started := DoStart(id, input, env, origin);
      if started.Err? {
        return Err(started.error);
      }
      Handover(id, started.value, origin);
      return Ok(());
    }

    method Handover(id: Id, token: Token, ghost origin: World)
      requires Busy(Some(token), origin, id) && id !in runs && StartedOk(id, token)
      modifies this`runs
      ensures Busy(None, origin, id)
      ensures runs == old(runs)[id := Running(token, true)] && StartedOk(id, token)
    {
      HandoverInv(Snapshot(), id, token);
      runs := runs[id := Running(token, true)];
      assert runs - {id} == origin.runs - {id};
    }

    /** Idempotent on an instance that is not running; a failed stop keeps the runs entry. */
    method Stop(id: Id, cleanupOk: bool, env: nat -> seq<Act>) returns (r: Result<(), ManagerError>)
      requires Valid(None)
      modifies this
      ensures Valid(None) && OnlyOn(old(Snapshot()), Snapshot(), id)
      ensures r.Ok? <==> id !in old(runs) || (old(runs)[id].watching && cleanupOk)
      ensures r.Err? ==> r.error == StopFailed && runs == old(runs)[id := Running(old(runs)[id].token, false)]
      ensures r.Ok? ==> runs == old(runs) - {id} && (id in old(runs) ==> current == old(current) - {id})
      ensures stops == if r.Ok? && id in old(runs) then OneMore(old(stops), id) else old(stops)
      ensures current == if r.Ok? && id in old(runs) then old(current) - {id} else old(current)
      ensures next == old(next)
      ensures Quiet(env) ==> monitor == old(monitor) && round == old(round)
      ensures r.Ok? && id in registry ==> registry[id].state == Stopped
      ensures id !in old(runs) && id in old(registry) && id in registry ==>
          registry[id] == old(registry)[id].In(Stopped)
      ensures registry.Keys == old(registry).Keys && children <= old(children) && leaked == old(leaked)
      ensures id in old(runs) && old(runs)[id].watching ==>
                children !! {Svc(old(runs)[id].token), Dbus(old(runs)[id].token)}
      ensures current.Keys <= old(current).Keys
      ensures Spent(old(runs), id) && id in registry ==> registry[id] == old(registry)[id].In(Stopping)
      ensures r.Err? ==> StopFailedOk(old(registry), registry, id)
      ensures Quiet(env) && id in old(runs) && Svc(old(runs)[id].token) in old(children) && id in old(registry) ==>
                registry == old(registry)[id := if r.Ok? then old(registry)[id].Ended()
                    else old(registry)[id].In(Stopping)]
    {
      OnlyOnReflexive(Snapshot(), id);
      hide Inv, EnvLe, OnlyOn;
      ghost var origin := Snapshot();
      if id !in runs {
        UpdateUnwatched(id, Stopped, false, env(0), None, origin);
        assert runs == old(runs) - {id};
        return Ok(());
      }
      var stopped := TakeAndStop(id, cleanupOk, env, origin);
      if !stopped {
        return Err(StopFailed);
      }
      ForgetGeneration(id, origin);
      return Ok(());
    }

    method Restart(id: Id, cleanupOk: bool, idValid: bool, input: StartInput, env: nat -> seq<Act>,
        env': nat -> seq<Act>)
      returns (r: Result<(), ManagerError>)
      requires Valid(None)
      modifies this
      ensures Valid(None) && OnlyOn(old(Snapshot()), Snapshot(), id)
      ensures r.Ok? <==>
                && (if id in old(runs) then old(runs)[id].watching && cleanupOk else id in old(registry) && idValid)
                && input.Starts()
      ensures r.Ok? ==> runs == old(runs)[id := Running(old(next), true)] && StartedOk(id, old(next))
      ensures stops == if id in old(runs) && r != Err(StopFailed) then OneMore(old(stops), id) else old(stops)
      ensures r.Ok? && registry[id].state == Healthy ==> BackedStart(old(log), log, id, Verifies(input.probes))
      ensures r == Err(StopFailed) <==> id in old(runs) && !(old(runs)[id].watching && cleanupOk)
      ensures r == Err(StopFailed) ==> runs == old(runs)[id := Running(old(runs)[id].token, false)]
      ensures r == Err(StopFailed) ==> StopFailedOk(old(registry), registry, id)
      ensures r == Err(StopFailed) && Quiet(env) && id in old(runs) && Svc(old(runs)[id].token) in old(children)
              && id in old(registry) ==>
                registry == old(registry)[id := old(registry)[id].In(Stopping)]
      ensures r.Err? && r != Err(StopFailed) ==> runs == old(runs) - {id}
      ensures id in old(registry) ==> id in registry
      ensures current ==
                if r.Ok? || r.error in {PortInUse, StartFailed}
                then old(current)[id := NextGeneration(old(current), id)] else old(current)
      ensures r == Err(NotRunning) <==> id !in old(runs) && id !in old(registry)
      ensures r.Err? && r.error in {PortInUse, StartFailed} ==> id in registry && registry[id].state == Failed
    {
      OnlyOnReflexive(Snapshot(), id);
      hide Inv, EnvLe, OnlyOn, StartedOk, BackedStart, CrashRecorded, Fresh, AfterStart, NextGeneration, StopFailedOk;
      ghost var origin := Snapshot();
      if id in runs {
        var stopped := TakeAndStop(id, cleanupOk, env, origin);
        if !stopped {
          return Err(StopFailed);
        }
      } else if id !in registry {
        assert runs == old(runs) - {id};
        return Err(NotRunning);
      } else if !idValid {
        assert runs == old(runs) - {id};
        return Err(InvalidId);
      }
      assert runs == old(runs) - {id};
      var started := DoStart(id, input, env', origin);
      if started.Err? {
        return Err(started.error);
      }
      Handover(id, started.value, origin);
      assert runs == old(runs)[id := Running(old(next), true)];
      return Ok(());
    }

    /** Stops the instance if it runs and removes its registry entry; its generation counter stays. */
    method Delete(id: Id, cleanupOk: bool, idValid: bool, env: nat -> seq<Act>) returns (r: Result<(), ManagerError>)
      requires Valid(None)
      modifies this
      ensures Valid(None) && OnlyOn(old(Snapshot()), Snapshot(), id)
      ensures r.Ok? <==> if id in old(runs) then old(runs)[id].watching && cleanupOk else idValid
      ensures r.Ok? ==>
                runs == old(runs) - {id} && registry.Keys == old(registry).Keys - {id} && current == old(current)
      ensures stops == if r.Ok? && id in old(runs) then OneMore(old(stops), id) else old(stops)
      ensures r.Err? && id in old(runs) ==>
                r.error == StopFailed && runs == old(runs)[id := Running(old(runs)[id].token, false)]
      ensures r == Err(StopFailed) ==> StopFailedOk(old(registry), registry, id)
      ensures r == Err(StopFailed) && Quiet(env) && id in old(runs) && Svc(old(runs)[id].token) in old(children)
              && id in old(registry) ==>
                registry == old(registry)[id := old(registry)[id].In(Stopping)]
      ensures current == old(current)
      ensures r.Err? && id !in old(runs) ==> r.error == InvalidId && Snapshot() == old(Snapshot())
    {
      OnlyOnReflexive(Snapshot(), id);
      hide Inv, EnvLe, OnlyOn;
      ghost var origin := Snapshot();
      if id in runs {
        var stopped := TakeAndStop(id, cleanupOk, env, origin);
        if !stopped {
          return Err(StopFailed);
        }
      } else if !idValid {
        return Err(InvalidId);
      }
      assert runs == old(runs) - {id};
      RemoveEntry(id, origin);
      return Ok(());
    }

    /**
     * Shutdown: every instance with a generation counter is stopped. If no entry is spent and every
     * cleanup works, nothing is left running but daemons leaked by earlier starts.
     */
    method StopAll(cleanupOk: Id -> bool, env: (Id, nat) -> seq<Act>)
      requires Valid(None)
      modifies this
      ensures Valid(None)
      ensures (forall id :: id in old(runs) ==> old(runs)[id].watching && cleanupOk(id)) ==>
                runs == map[] && forall c :: c in children ==> c.Dbus? && c.token in leaked
      ensures forall id :: id in old(runs) && !(old(runs)[id].watching && cleanupOk(id)) ==> Spent(runs, id)
    {
      var ids := Elements(current.Keys);
      RunsAreCounted(Snapshot());
      assert forall id :: id in runs ==> id in ids;
      hide Inv, EnvLe, OnlyOn;
      ghost var done: set<Id> := {};
      var i := 0;
      while i < |ids|
        invariant 0 <= i <= |ids|
        invariant Valid(None)
        invariant forall id :: id in done <==> id in ids[..i]
        invariant StoppedSoFar(old(runs), runs, done, cleanupOk)
      {
        assert ids[i] !in ids[..i] && ids[..i + 1] == ids[..i] + [ids[i]];
        ghost var before := runs;
        var _ := Stop(ids[i], cleanupOk(ids[i]), (k: nat) => env(ids[i], k));
        StopOneMore(old(runs), before, runs, done, ids[i], cleanupOk);
        done := done + {ids[i]};
        i := i + 1;
      }
      assert ids[..i] == ids;
      AllStopped(old(runs), runs, done, cleanupOk);
      if runs == map[] {
        NothingLeft(Snapshot());
      }
    }

    // ---------- whole runs ----------

    method Execute(cmd: Command, env: nat -> seq<Act>, env': nat -> seq<Act>) returns (r: Result<(), ManagerError>)
      requires Valid(None)
      modifies this
      ensures Valid(None)
      ensures forall id :: Spent(old(runs), id) ==> Spent(runs, id)
      ensures Spent(old(runs), cmd.id) ==> r.Err?
      ensures r == Err(StopFailed) ==> Spent(runs, cmd.id)
      ensures AllReported(old(Snapshot()), Snapshot())
      ensures cmd.DoRestartCmd? && r.Ok? ==>
                cmd.id in registry &&
                (registry[cmd.id].state == Healthy ==> BackedStart(old(log), log, cmd.id, Verifies(cmd.input.probes)))
      ensures forall id :: id in old(runs) && id !in runs ==> id == cmd.id && old(runs)[id].watching
      ensures forall id :: id in runs && id != cmd.id ==> id in old(runs) && runs[id] == old(runs)[id]
      ensures cmd.id in old(runs) ==>
                (cmd.id in runs && runs[cmd.id].token == old(runs)[cmd.id].token <==>
                 r == Err(StopFailed) || cmd.DoStartCmd?)
      ensures cmd.id in runs <==> RunsAfter(cmd, r)
      ensures runs == NextRuns(old(runs), old(next), cmd, r) && Answers(old(runs), cmd, r)
      ensures forall id :: id != cmd.id ==> DownKept(old(Snapshot()), Snapshot(), id)
      ensures stops == if cmd.id in old(runs) && Passes(cmd, r) then OneMore(old(stops), cmd.id) else old(stops)
      ensures Counted(old(current), current, cmd, r, cmd.id in old(runs))
    {
      assert cmd.id in runs ==> RunOk(Snapshot(), None, cmd.id) && runs[cmd.id].token < next;
      hide Inv, EnvLe, OnlyOn, AllReported, StartedOk, CrashRecorded, BackedStart, Counted, StopFailedOk, AfterStart;
      hide Fresh, NextGeneration;
      match cmd {
        case DoStartCmd(id, input) => r := Start(id, input, env);
        case DoStopCmd(id, cleanupOk) => r := Stop(id, cleanupOk, env);
        case DoRestartCmd(id, cleanupOk, idValid, input) => r := Restart(id, cleanupOk, idValid, input, env, env');
        case DoDeleteCmd(id, cleanupOk, idValid) => r := Delete(id, cleanupOk, idValid, env);
      }
      OnlyOnGrows(old(Snapshot()), Snapshot(), cmd.id);
      assert runs == NextRuns(old(runs), old(next), cmd, r) && Answers(old(runs), cmd, r);
      assert current == NextCounts(old(current), cmd, r, cmd.id in old(runs));
      hide NextRuns, Answers, RunsAfter, NextCounts;
      CountsCounted(old(current), cmd, r, cmd.id in old(runs));
      CommandOnRuns(old(runs), old(next), cmd, r);
    }

    /**
     * Any sequence of lifecycle commands, with any schedule of other tasks inside and between them. The
     * invariant holds throughout; nobody becomes Healthy without a report in between; and an instance
     * whose stop failed stays unstoppable: every later command on it fails, contrary to the comment that
     * promises a retry.
     */
    method Drive(cmds: seq<Command>, env: (nat, nat) -> seq<Act>, env': (nat, nat) -> seq<Act>)
      returns (results: seq<Result<(), ManagerError>>)
      requires Valid(None)
      modifies this
      ensures Valid(None) && |results| == |cmds|
      ensures AllReported(old(Snapshot()), Snapshot())
      ensures forall id :: Spent(old(runs), id) ==> Spent(runs, id)
      ensures forall i :: 0 <= i < |cmds| && Spent(old(runs), cmds[i].id) ==> results[i].Err?
      ensures forall i, j :: 0 <= i < j < |cmds| && results[i] == Err(StopFailed) && cmds[j].id == cmds[i].id ==>
                results[j].Err?
      ensures AsTold(old(Snapshot()), Snapshot(), cmds, results)
      ensures DownLeftAlone(old(Snapshot()), Snapshot(), cmds)
      ensures forall e :: e in log && e.VerdictWritten? ==>
                e.began <= e.stops && (e.judged == e.written <==> e.began == e.stops)
    {
      results := [];
      var i := 0;
      BeforeCommands(Snapshot());
      hide Inv, AllReported, AsTold, SpentStay, RunsAfter, Passes, OneMore, DownLeftAlone, DownKept, Counted;
      while i < |cmds|
        invariant 0 <= i == |results| <= |cmds|
        invariant Valid(None)
        invariant AllReported(old(Snapshot()), Snapshot())
        invariant SpentStay(old(runs), runs, cmds[..i], results)
        invariant AsTold(old(Snapshot()), Snapshot(), cmds[..i], results)
        invariant DownLeftAlone(old(Snapshot()), Snapshot(), cmds[..i])
      {
        ghost var before := Snapshot();
        var r := ExecuteAfter(env(i, 99), cmds[i], (k: nat) => env(i, k), (k: nat) => env'(i, k));
        AllReportedTransitive(old(Snapshot()), before, Snapshot());
        AsToldOneMore(old(Snapshot()), before, Snapshot(), cmds[..i], results, cmds[i], r);
        SpentStayOneMore(old(runs), before.runs, runs, cmds[..i], results, cmds[i], r);
        DownOneMore(old(Snapshot()), before, Snapshot(), cmds[..i], cmds[i]);
        assert cmds[..i + 1] == cmds[..i] + [cmds[i]];
        results := results + [r];
        i := i + 1;
      }
      assert cmds[..i] == cmds;
      SpentForGood(old(runs), runs, cmds, results);
      EveryVerdictJustified(Snapshot());
    }

    /** Other tasks, then a command. */
    method ExecuteAfter(acts: seq<Act>, cmd: Command, env: nat -> seq<Act>, env': nat -> seq<Act>)
      returns (r: Result<(), ManagerError>)
      requires Valid(None)
      modifies this
      ensures Valid(None) && AllReported(old(Snapshot()), Snapshot())
      ensures forall id :: Spent(old(runs), id) ==> Spent(runs, id)
      ensures Spent(old(runs), cmd.id) ==> r.Err?
      ensures r == Err(StopFailed) ==> Spent(runs, cmd.id)
      ensures cmd.id in old(runs) ==>
                (cmd.id in runs && runs[cmd.id].token == old(runs)[cmd.id].token <==>
                 r == Err(StopFailed) || cmd.DoStartCmd?)
      ensures forall id :: id in runs <==> if id == cmd.id then RunsAfter(cmd, r) else id in old(runs)
      ensures stops == if cmd.id in old(runs) && Passes(cmd, r) then OneMore(old(stops), cmd.id) else old(stops)
      ensures Counted(old(current), current, cmd, r, cmd.id in old(runs))
      ensures forall id :: id != cmd.id ==> DownKept(old(Snapshot()), Snapshot(), id)
    {
      Others(acts, None);
      ghost var between := Snapshot();
      hide Inv, EnvLe, AllReported, DownKept, RunsAfter, NextRuns, Answers, Passes, OneMore, BackedStart, Counted;
      EnvReports(old(Snapshot()), between);
      EnvFrame(old(Snapshot()), between);
      r := Execute(cmd, env, env');
      AllReportedTransitive(old(Snapshot()), between, Snapshot());
      forall id | id != cmd.id ensures DownKept(old(Snapshot()), Snapshot(), id) {
        DownThen(old(Snapshot()), between, Snapshot(), id);
      }
    }
  }
}
