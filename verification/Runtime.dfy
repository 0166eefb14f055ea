/**
 The actual state of the runtime, as one snapshot, and the atomic steps that other tasks
 (crash watchers, the health monitor, the operating system) take on it between any two steps
 of a lifecycle operation. One lock section or one await of the program is one step here.
 */
module Runtime {
  import opened Wrappers
  import opened Health

  type Id = int

  /** Identity of one start attempt: its warp-svc, its dbus daemon and its watcher task. */
  type Token = nat

  datatype Entry = Entry(state: RuntimeState, pid: Option<Token>, counters: Counters)
  {
    function In(s: RuntimeState): Entry {
      this.(state := s)
    }

    /** `record_error` */
    function Errored(): Entry {
      this.(state := Failed, counters := counters.(failures := SaturatingIncrement(counters.failures)))
    }

    /** `on_started`: the pid is known, the state stays Starting. */
    function Started(token: Token): Entry {
      Entry(Starting, Some(token), Counters(0, 0))
    }

    /** `on_crash` */
    function Crashed(): Entry {
      Errored().(pid := None)
    }

    /** `on_stopped` */
    function Ended(): Entry {
      this.(state := Stopped, pid := None)
    }

    /** The write of a start whose data plane stayed unverified. */
    function Unverified(): Entry {
      this.(state := Degraded, counters := counters.(failures := 1))
    }
  }

  const StoppedEntry := Entry(Stopped, None, Counters(0, 0))

  /** `watching` is false once a failed stop has consumed the watcher handle. */
  datatype Running = Running(token: Token, watching: bool)

  datatype Phase = Watching | Seen | Confirmed | Finished(crashed: bool)

  datatype Task = Task(id: Id, generation: nat, cancelled: bool, phase: Phase)
  {
    predicate Live() {
      !phase.Finished?
    }
  }

  datatype Monitor =
    | Idle
    | Collected(id: Id, before: Entry, report: LayersReport)
    | Judged(id: Id, verdict: Verdict, report: LayersReport)

  datatype Child = Svc(token: Token) | Dbus(token: Token)

  datatype Writer = FromStart | FromMonitor

  /** What observers may rely on: the justification recorded with each critical registry write. */
  datatype Event =
    | VerdictWritten(id: Id, judged: Option<Token>, written: Option<Token>, began: nat, stops: nat)
    | HealthySet(id: Id, warpOn: bool, writer: Writer)
    | CrashSet(id: Id, generation: nat, current: Option<nat>, newest: bool)
    | CrashIgnored(id: Id, generation: nat)

  /**
   * The run that the health round in progress looked at, and how many runs of the instance had been
   * stopped by then.
   */
  datatype Round = Round(id: Id, run: Option<Token>, stops: nat)

  const NO_ROUND := Round(0, None, 0)

  datatype World = World(
    registry: map<Id, Entry>,
    runs: map<Id, Running>,
    current: map<Id, nat>,
    tasks: map<Token, Task>,
    monitor: Monitor,
    children: set<Child>,
    leaked: set<Token>,
    next: Token,
    stops: map<Id, nat>,
    round: Round,
    log: seq<Event>)

  /** What the registry's own writes do to an entry; counters saturate at the width of 32 bits. */
  lemma EntryWrites(e: Entry, t: Token)
    ensures e.Errored().state == Failed && e.Errored().pid == e.pid
    ensures e.Crashed().state == Failed && e.Crashed().pid == None
    ensures e.Errored().counters.successes == e.Crashed().counters.successes == e.counters.successes
    ensures e.Errored().counters.failures == e.Crashed().counters.failures
            == if e.counters.failures < 0xFFFF_FFFF then e.counters.failures + 1 else 0xFFFF_FFFF
    ensures e.Started(t).state == Starting && e.Started(t).pid == Some(t)
    ensures e.Started(t).counters.failures == e.Started(t).counters.successes == 0
    ensures e.Ended().state == Stopped && e.Ended().pid == None && e.Ended().counters == e.counters
    ensures e.Unverified().state == Degraded && e.Unverified().pid == e.pid
    ensures e.Unverified().counters.failures == 1 && e.Unverified().counters.successes == e.counters.successes
    ensures forall s :: e.In(s).state == s && e.In(s).pid == e.pid && e.In(s).counters == e.counters
  {
  }

  // ---------- registry operations (each one write-lock section) ----------

  function Insert(registry: map<Id, Entry>, id: Id): map<Id, Entry> {
    if id in registry then registry else registry[id := StoppedEntry]
  }

  /** `RuntimeRegistry::update`: a missing id is left missing. */
  function Updated(registry: map<Id, Entry>, id: Id, f: Entry -> Entry): map<Id, Entry> {
    if id in registry then registry[id := f(registry[id])] else registry
  }

  predicate Probed(registry: map<Id, Entry>, id: Id) {
    id in registry && registry[id].state in {Healthy, Degraded}
  }

  // ---------- steps of the environment ----------

  datatype Act =
    | Die(token: Token)
    | Poll(token: Token)
    | Compare(token: Token)
    | Record(token: Token)
    | Collect(id: Id, control: bool, plane: Option<bool>)
    | Judge
    | Apply

  ghost predicate Newest(w: World, t: Token)
    requires t in w.tasks
  {
    forall u :: u in w.tasks && w.tasks[u].id == w.tasks[t].id ==> u <= t
  }

  /** How many stops of the instance have succeeded, those inside a restart or a delete included. */
  function Count(stops: map<Id, nat>, id: Id): nat {
    if id in stops then stops[id] else 0
  }

  /** The newest run of the instance. */
  ghost function RunOf(w: World, id: Id): Option<Token> {
    if exists t :: t in w.tasks && w.tasks[t].id == id && Newest(w, t) then
      var t :| t in w.tasks && w.tasks[t].id == id && Newest(w, t);
      Some(t)
    else None
  }

  function Lookup(m: map<Id, nat>, id: Id): Option<nat> {
    if id in m then Some(m[id]) else None
  }

  function WithPhase(w: World, t: Token, phase: Phase): World
    requires t in w.tasks
  {
    w.(tasks := w.tasks[t := w.tasks[t].(phase := phase)])
  }

  /** `CrashWatcher::watch`: cancellation wins over a detected exit. */
  function PollStep(w: World, t: Token): World {
    if t !in w.tasks || w.tasks[t].phase != Watching then w
    else if w.tasks[t].cancelled then WithPhase(w, t, Finished(false))
    else if Svc(t) !in w.children then WithPhase(w, t, Seen)
    else w
  }

  /** The run_id guard of the watcher task. */
  function CompareStep(w: World, t: Token): World {
    if t !in w.tasks || w.tasks[t].phase != Seen then w
    else
      var task := w.tasks[t];
      if Lookup(w.current, task.id) == Some(task.generation) then WithPhase(w, t, Confirmed)
      else WithPhase(w, t, Finished(true)).(log := w.log + [CrashIgnored(task.id, task.generation)])
  }

  ghost function RecordStep(w: World, t: Token): World {
    if t !in w.tasks || w.tasks[t].phase != Confirmed then w
    else
      var task := w.tasks[t];
      WithPhase(w, t, Finished(true)).(
        registry := Updated(w.registry, task.id, (e: Entry) => e.Crashed()),
        log := w.log + [CrashSet(task.id, task.generation, Lookup(w.current, task.id), Newest(w, t))])
  }

  /** `collect_health_layers`: the snapshot is read first, the probes answer later. */
  ghost function CollectStep(w: World, id: Id, control: bool, plane: Option<bool>): World {
    if w.monitor != Idle || !Probed(w.registry, id) then w
    else
      var before := w.registry[id];
      w.(monitor := Collected(id, before, LayersReport(before.pid.Some?, control, plane)),
         round := Round(id, RunOf(w, id), Count(w.stops, id)))
  }

  /** `assess_layers`, then the first read of `apply_health_verdict`. */
  function JudgeStep(w: World, config: Config): World
    requires config.Valid()
  {
    match w.monitor
    case Collected(id, before, report) =>
      if Probed(w.registry, id) then
        w.(monitor := Judged(id, Assess(report, before.counters, config, before.state), report))
      else w.(monitor := Idle)
    case _ => w
  }

  /** The guarded update closure of `apply_health_verdict`. */
  ghost function ApplyStep(w: World): World {
    match w.monitor
    case Judged(id, verdict, report) =>
      var done := w.(monitor := Idle);
      if !Probed(w.registry, id) then done
      else
        var e := w.registry[id].(state := verdict.state, counters := verdict.counters);
        done.(
          registry := w.registry[id := e],
          log := w.log + [Written(w, id)]
            + if verdict.state == Healthy then [HealthySet(id, report.DataPlaneOk(), FromMonitor)] else [])
    case _ => w
  }

  /** The run that a verdict written now was reached on, and the run it is written to. */
  ghost function Written(w: World, id: Id): Event {
    VerdictWritten(id, w.round.run, RunOf(w, id), w.round.stops, Count(w.stops, id))
  }

  ghost function Step(w: World, act: Act, config: Config): World
    requires config.Valid()
  {
    match act
    case Die(t) => w.(children := w.children - {Svc(t)})
    case Poll(t) => PollStep(w, t)
    case Compare(t) => CompareStep(w, t)
    case Record(t) => RecordStep(w, t)
    case Collect(id, control, plane) => CollectStep(w, id, control, plane)
    case Judge => JudgeStep(w, config)
    case Apply => ApplyStep(w)
  }

  ghost function Steps(w: World, acts: seq<Act>, config: Config): World
    requires config.Valid()
  {
    if acts == [] then w else Step(Steps(w, acts[..|acts| - 1], config), acts[|acts| - 1], config)
  }

  // ---------- the invariant ----------

  /** Token `t` is reachable by whoever may stop instance `id`: its runs entry, or the operation in progress. */
  predicate Owns(w: World, held: Option<Token>, id: Id, t: Token) {
    held == Some(t) || (id in w.runs && w.runs[id] == Running(t, true))
  }

  ghost predicate Justified(e: Event) {
    match e
    case VerdictWritten(_, judged, written, began, stops) =>
      judged.Some? && written.Some? && began <= stops && (judged == written <==> began == stops)
    case HealthySet(_, warpOn, _) => warpOn
    case CrashSet(_, generation, current, newest) => current == Some(generation) && newest
    case CrashIgnored(_, _) => false
  }

  ghost predicate TaskOk(w: World, held: Option<Token>, t: Token)
    requires t in w.tasks
  {
    var task := w.tasks[t];
    && t < w.next
    && (task.phase in {Seen, Confirmed} ==> Svc(t) !in w.children)
    && (task.Live() ==>
          && Owns(w, held, task.id, t)
          && Lookup(w.current, task.id) == Some(task.generation)
          && Newest(w, t))
  }

  ghost predicate RunOk(w: World, held: Option<Token>, id: Id)
    requires id in w.runs
  {
    var run := w.runs[id];
    && id in w.current
    && run.token in w.tasks
    && w.tasks[run.token].id == id
    && Newest(w, run.token)
    && held != Some(run.token)
  }

  ghost predicate ChildOk(w: World, held: Option<Token>, c: Child) {
    || (c.Dbus? && c.token in w.leaked)
    || held == Some(c.token)
    || (c.token in w.tasks && Owns(w, held, w.tasks[c.token].id, c.token))
  }

  ghost predicate MonitorOk(m: Monitor) {
    m.Judged? ==>
      && m.verdict.state in {Healthy, Degraded, Failed}
      && (m.verdict.state == Healthy ==> m.report.Success())
  }

  ghost predicate Reported(log: seq<Event>, id: Id) {
    HealthySet(id, true, FromStart) in log || HealthySet(id, true, FromMonitor) in log
  }

  /** Whoever is shown as Healthy was reported with `warp=on`. */
  ghost predicate Backed(registry: map<Id, Entry>, log: seq<Event>) {
    forall id :: id in registry && registry[id].state == Healthy ==> Reported(log, id)
  }

  ghost predicate Core(w: World, held: Option<Token>) {
    && (forall t :: t in w.tasks ==> TaskOk(w, held, t))
    && (forall id :: id in w.runs ==> RunOk(w, held, id))
    && (forall c :: c in w.children ==> c.token < w.next && ChildOk(w, held, c))
    && (forall t :: Svc(t) in w.children ==> Dbus(t) in w.children)
    && (forall t :: t in w.leaked ==> t < w.next)
    && (held.Some? ==> held.value < w.next && (held.value in w.tasks ==> Newest(w, held.value)))
    && MonitorOk(w.monitor)
    && (forall e :: e in w.log ==> Justified(e))
    && Backed(w.registry, w.log)
  }

  /** `t` is the run of instance `id`: in the runs table, or taken over by the operation in progress. */
  predicate Holds(w: World, held: Option<Token>, id: Id, t: Token) {
    && t in w.tasks && w.tasks[t].id == id
    && (held == Some(t) || (id in w.runs && w.runs[id].token == t))
  }

  /** Whoever is shown as Healthy or Degraded has a run. */
  ghost predicate ProbedOk(w: World, held: Option<Token>) {
    forall id :: Probed(w.registry, id) ==> exists t :: Holds(w, held, id, t)
  }

  /** The run that a health round looked at is still that of its instance exactly if no stop has succeeded since. */
  ghost predicate RoundOk(w: World, held: Option<Token>) {
    w.monitor != Idle ==>
      && w.round.id == w.monitor.id && w.round.run.Some?
      && w.round.run.value in w.tasks && w.tasks[w.round.run.value].id == w.round.id
      && w.round.stops <= Count(w.stops, w.round.id)
      && (w.round.stops == Count(w.stops, w.round.id) <==> Holds(w, held, w.round.id, w.round.run.value))
  }

  ghost predicate Inv(w: World, held: Option<Token>) {
    Core(w, held) && ProbedOk(w, held) && RoundOk(w, held)
  }

  // ---------- what the environment can do ----------

  ghost predicate PhaseLe(before: Phase, after: Phase) {
    before == after || !before.Finished?
  }

  /** Between the two states the watcher `t` ended with a recorded crash. */
  ghost predicate CrashedBetween(a: World, b: World, t: Token) {
    && t in a.tasks && t in b.tasks
    && a.tasks[t].Live() && b.tasks[t].phase == Finished(true)
  }

  ghost predicate CrashOf(a: World, b: World, id: Id) {
    exists t :: CrashedBetween(a, b, t) && a.tasks[t].id == id
  }

  ghost predicate EntryLe(a: World, b: World, id: Id)
    requires id in a.registry && id in b.registry
  {
    var before, after := a.registry[id], b.registry[id];
    && (|| after.state == before.state
        || after.state == Failed
        || (before.state in {Healthy, Degraded} && after.state in {Healthy, Degraded}))
    && (after.pid == before.pid || (after.pid == None && CrashOf(a, b, id)))
    && (after == before || Probed(a.registry, id) || CrashOf(a, b, id))
    && (CrashOf(a, b, id) ==> after.state == Failed && after.pid == None)
  }

  /**
   * Everything a schedule of environment steps leaves alone, and how far it may move the rest:
   * Failed stays Failed, a pid is only erased by a recorded crash, a recorded crash always
   * shows as Failed, and an entry is only written while probed or by its own watcher.
   */
  ghost predicate Moves(a: World, b: World) {
    && b.runs == a.runs && b.current == a.current && b.next == a.next && b.leaked == a.leaked && b.stops == a.stops
    && b.children <= a.children && (forall t :: Dbus(t) in a.children ==> Dbus(t) in b.children)
    && b.registry.Keys == a.registry.Keys
    && b.tasks.Keys == a.tasks.Keys
    && (forall t :: t in a.tasks ==>
          && b.tasks[t] == a.tasks[t].(phase := b.tasks[t].phase) && PhaseLe(a.tasks[t].phase, b.tasks[t].phase)
          && (b.tasks[t].phase in {Seen, Confirmed} ==>
              a.tasks[t].phase in {Seen, Confirmed} || Svc(t) !in b.children))
    && (forall id :: id in a.registry ==> EntryLe(a, b, id))
  }

  lemma MovesNot(a: World)
    ensures Moves(a, a)
  {
  }

  lemma MovesTransitive(a: World, b: World, c: World)
    requires Moves(a, b) && Moves(b, c)
    ensures Moves(a, c)
  {
  }

  // ---------- the record grows ----------

  /** `e` was recorded between the two states of the log. */
  ghost predicate Told(before: seq<Event>, after: seq<Event>, e: Event) {
    before <= after && e in after[|before|..]
  }

  lemma ToldLater(a: seq<Event>, b: seq<Event>, c: seq<Event>, e: Event)
    requires a <= b <= c
    ensures a <= c
    ensures Told(a, b, e) || Told(b, c, e) ==> Told(a, c, e)
  {
    assert c[|a|..] == b[|a|..] + c[|b|..];
  }

  predicate BecameHealthy(a: World, b: World, id: Id) {
    id in b.registry && b.registry[id].state == Healthy && !(id in a.registry && a.registry[id].state == Healthy)
  }

  /** The log only grows, and nobody becomes Healthy without a `warp=on` report of the monitor in between. */
  ghost predicate LogLe(a: World, b: World) {
    && a.log <= b.log
    && forall id :: BecameHealthy(a, b, id) ==> Told(a.log, b.log, HealthySet(id, true, FromMonitor))
  }

  lemma LogLeTransitive(a: World, b: World, c: World)
    requires LogLe(a, b) && LogLe(b, c)
    ensures LogLe(a, c)
  {
    forall id | BecameHealthy(a, c, id) ensures Told(a.log, c.log, HealthySet(id, true, FromMonitor)) {
      ToldLater(a.log, b.log, c.log, HealthySet(id, true, FromMonitor));
      assert BecameHealthy(a, b, id) || BecameHealthy(b, c, id);
    }
  }

  /** Everything that other tasks can do between two steps of a lifecycle operation. */
  ghost predicate EnvLe(a: World, b: World) {
    Moves(a, b) && LogLe(a, b)
  }

  lemma EnvLeReflexive(a: World)
    ensures EnvLe(a, a)
  {
    MovesNot(a);
  }

  lemma EnvLeTransitive(a: World, b: World, c: World)
    requires EnvLe(a, b) && EnvLe(b, c)
    ensures EnvLe(a, c)
  {
    hide Moves, LogLe;
    MovesTransitive(a, b, c);
    LogLeTransitive(a, b, c);
  }

  /** The invariant survives any such move whose new log entries are justified. */
  lemma EnvLeKeepsInv(w: World, w': World, held: Option<Token>)
    requires Inv(w, held) && EnvLe(w, w') && MonitorOk(w'.monitor) && RoundOk(w', held)
    requires forall e :: e in w'.log ==> Justified(e)
    ensures Inv(w', held)
  {
    BackedStays(w, w');
    ProbedStays(w, w', held);
    hide LogLe, ProbedOk, RoundOk;
  }

  lemma HoldsStays(w: World, w': World, held: Option<Token>)
    requires Moves(w, w')
    ensures forall id, t :: Holds(w', held, id, t) <==> Holds(w, held, id, t)
  {
  }

  lemma ProbedStays(w: World, w': World, held: Option<Token>)
    requires ProbedOk(w, held) && Moves(w, w')
    ensures ProbedOk(w', held)
  {
    HoldsStays(w, w', held);
    forall id | Probed(w'.registry, id) ensures exists t :: Holds(w', held, id, t) {
      assert EntryLe(w, w', id) && Probed(w.registry, id);
      var t :| Holds(w, held, id, t);
      assert Holds(w', held, id, t);
    }
  }

  lemma RoundStays(w: World, w': World, held: Option<Token>)
    requires RoundOk(w, held) && Moves(w, w')
    requires w'.monitor == Idle || (w.monitor != Idle && w'.monitor.id == w.monitor.id && w'.round == w.round)
    ensures RoundOk(w', held)
  {
    HoldsStays(w, w', held);
  }

  /** The run of an instance is its newest. */
  lemma RunOfHolder(w: World, held: Option<Token>, id: Id, t: Token)
    requires Core(w, held) && Holds(w, held, id, t)
    ensures RunOf(w, id) == Some(t)
  {
    assert Newest(w, t) by {
      if held != Some(t) { assert RunOk(w, held, id); }
    }
  }

  lemma BackedStays(w: World, w': World)
    requires Backed(w.registry, w.log) && LogLe(w, w')
    ensures Backed(w'.registry, w'.log)
  {
    forall id | id in w'.registry && w'.registry[id].state == Healthy ensures Reported(w'.log, id) {
      if BecameHealthy(w, w', id) {
        assert HealthySet(id, true, FromMonitor) in w'.log[|w.log|..];
      }
    }
  }

  /** A watcher that has seen its process exit belongs to the current run: the run guard never drops it. */
  lemma SeenCrashIsCurrent(w: World, held: Option<Token>, t: Token)
    requires Inv(w, held) && t in w.tasks && w.tasks[t].Live()
    ensures Lookup(w.current, w.tasks[t].id) == Some(w.tasks[t].generation)
    ensures Newest(w, t)
    ensures CompareStep(w, t).log == w.log
    ensures forall u :: u in w.tasks && w.tasks[u].Live() && w.tasks[u].id == w.tasks[t].id ==> u == t
  {
    hide ProbedOk, RoundOk;
    assert TaskOk(w, held, t);
    forall u | u in w.tasks && w.tasks[u].Live() && w.tasks[u].id == w.tasks[t].id ensures u == t {
      assert TaskOk(w, held, u);
    }
  }

  lemma PhaseMove(w: World, t: Token, phase: Phase)
    requires t in w.tasks && w.tasks[t].Live() && phase != Finished(true)
    requires phase in {Seen, Confirmed} ==> Svc(t) !in w.children
    ensures Moves(w, WithPhase(w, t, phase))
  {
  }

  lemma CompareEnv(w: World, held: Option<Token>, t: Token)
    requires Inv(w, held)
    ensures Moves(w, CompareStep(w, t)) && CompareStep(w, t).log == w.log
    ensures CompareStep(w, t).monitor == w.monitor && CompareStep(w, t).round == w.round
  {
    if t in w.tasks && w.tasks[t].phase == Seen {
      assert TaskOk(w, held, t);
      hide Inv;
      PhaseMove(w, t, Confirmed);
    } else {
      MovesNot(w);
    }
    hide Inv, Moves;
  }

  lemma RecordEnv(w: World, held: Option<Token>, t: Token)
    requires Inv(w, held)
    ensures Moves(w, RecordStep(w, t)) && forall e :: e in RecordStep(w, t).log ==> Justified(e)
    ensures RecordStep(w, t).monitor == w.monitor && RecordStep(w, t).round == w.round
  {
    if t in w.tasks && w.tasks[t].phase == Confirmed {
      SeenCrashIsCurrent(w, held, t);
      var w' := RecordStep(w, t);
      assert CrashedBetween(w, w', t);
      forall id | id in w.registry ensures EntryLe(w, w', id) {
        assert CrashOf(w, w', id) ==> id == w.tasks[t].id;
      }
    }
  }

  lemma MonitorMove(w: World, w': World)
    requires w' == w.(monitor := w'.monitor, round := w'.round)
    ensures Moves(w, w')
  {
  }

  lemma JudgeEnv(w: World, config: Config)
    requires config.Valid() && MonitorOk(w.monitor)
    ensures Moves(w, JudgeStep(w, config)) && MonitorOk(JudgeStep(w, config).monitor)
    ensures JudgeStep(w, config).round == w.round
    ensures JudgeStep(w, config).monitor != Idle ==>
              w.monitor != Idle && JudgeStep(w, config).monitor.id == w.monitor.id
  {
    MonitorMove(w, JudgeStep(w, config));
    hide Moves;
  }

  /**
   * The health monitor never touches an entry that is not Healthy or Degraded, and the verdict is
   * written to the run it was reached on exactly if no stop of the instance has succeeded in between.
   */
  lemma ApplyEnv(w: World, held: Option<Token>)
    requires Inv(w, held)
    ensures Moves(w, ApplyStep(w)) && ApplyStep(w).round == w.round
    ensures ApplyStep(w).monitor == if w.monitor.Judged? then Idle else w.monitor
    ensures forall e :: e in ApplyStep(w).log ==> Justified(e)
  {
    if w.monitor.Judged? && Probed(w.registry, w.monitor.id) {
      FoundIsJudged(w, held);
    }
    ApplyMoves(w);
    hide ProbedOk, RoundOk, Moves, RunOf;
  }

  lemma ApplyMoves(w: World)
    requires MonitorOk(w.monitor)
    ensures Moves(w, ApplyStep(w))
  {
    hide RunOf;
  }

  lemma DieEnv(w: World, t: Token)
    ensures Moves(w, w.(children := w.children - {Svc(t)}))
  {
  }

  lemma PollEnv(w: World, t: Token)
    ensures Moves(w, PollStep(w, t)) && PollStep(w, t).log == w.log && PollStep(w, t).monitor == w.monitor &&
        PollStep(w, t).round == w.round
  {
    MovesNot(w);
    if t in w.tasks && w.tasks[t].phase == Watching {
      PhaseMove(w, t, Finished(false));
      if Svc(t) !in w.children {
        PhaseMove(w, t, Seen);
      }
    }
  }

  lemma CollectEnv(w: World, held: Option<Token>, id: Id, control: bool, plane: Option<bool>)
    requires Inv(w, held)
    ensures var w' := CollectStep(w, id, control, plane);
            Moves(w, w') && w'.log == w.log && MonitorOk(w'.monitor) && RoundOk(w', held)
  {
    if w.monitor == Idle && Probed(w.registry, id) {
      var t :| Holds(w, held, id, t);
      RunOfHolder(w, held, id, t);
    }
  }

  lemma StepLog(w: World, act: Act, config: Config)
    requires config.Valid() && MonitorOk(w.monitor)
    ensures LogLe(w, Step(w, act, config))
  {
    var w' := Step(w, act, config);
    forall id | BecameHealthy(w, w', id) ensures Told(w.log, w'.log, HealthySet(id, true, FromMonitor)) {
      assert act.Apply? && w.monitor.Judged? && w.monitor.id == id;
      assert w'.log[|w.log|..] == [Written(w, id), HealthySet(id, true, FromMonitor)];
      assert w'.log[|w.log|..][1] == HealthySet(id, true, FromMonitor);
    }
  }

  /** One step of any other task keeps the invariant and moves the world only as far as `EnvLe` allows. */
  lemma StepEnv(w: World, act: Act, config: Config, held: Option<Token>)
    requires config.Valid() && Inv(w, held)
    ensures Inv(Step(w, act, config), held)
    ensures EnvLe(w, Step(w, act, config))
  {
    assert MonitorOk(w.monitor) && forall e :: e in w.log ==> Justified(e);
    StepLog(w, act, config);
    assert RoundOk(w, held);
    hide Inv, Moves, LogLe, MonitorOk, RoundOk, PollStep, CompareStep, RecordStep, CollectStep, JudgeStep, ApplyStep;
    match act {
      case Die(t) => DieEnv(w, t);
      case Poll(t) => PollEnv(w, t);
      case Compare(t) => CompareEnv(w, held, t);
      case Record(t) => RecordEnv(w, held, t);
      case Collect(id, control, plane) => CollectEnv(w, held, id, control, plane);
      case Judge => JudgeEnv(w, config);
      case Apply => ApplyEnv(w, held);
    }
    if !act.Collect? {
      RoundStays(w, Step(w, act, config), held);
    }
    EnvLeKeepsInv(w, Step(w, act, config), held);
  }

  /** No schedule of environment steps, however long and in whatever order, escapes `EnvLe`. */
  lemma {:induction false} StepsEnv(w: World, acts: seq<Act>, config: Config, held: Option<Token>)
    requires config.Valid() && Inv(w, held)
    ensures Inv(Steps(w, acts, config), held)
    ensures EnvLe(w, Steps(w, acts, config))
  {
    if acts != [] {
      var mid := Steps(w, acts[..|acts| - 1], config);
      StepsEnv(w, acts[..|acts| - 1], config, held);
      StepEnv(mid, acts[|acts| - 1], config, held);
      EnvLeTransitive(w, mid, Steps(w, acts, config));
    }
  }

  // ---------- lifecycle operations as seen by the other instances ----------

  ghost predicate BystanderLe(before: Entry, after: Entry) {
    && (after.pid == before.pid || after.pid == None)
    && (|| after.state == before.state
        || after.state == Failed
        || (before.state in {Healthy, Degraded} && after.state in {Healthy, Degraded}))
  }

  /** From `a` to `b`, instances other than `id` were touched by the environment alone. */
  ghost predicate OnlyOn(a: World, b: World, id: Id) {
    && b.runs - {id} == a.runs - {id}
    && b.current - {id} == a.current - {id}
    && b.registry.Keys - {id} == a.registry.Keys - {id}
    && (forall j :: j in a.registry && j != id && j in b.registry ==> BystanderLe(a.registry[j], b.registry[j]))
    && a.next <= b.next
    && a.leaked <= b.leaked
    && ReportsLe(a, b, id)
    && forall j :: j != id && Down(a, j) ==> j in b.registry && b.registry[j] == a.registry[j]
  }

  /** An instance that neither a watcher nor the monitor looks at. */
  predicate Down(w: World, id: Id) {
    id in w.registry && !Probed(w.registry, id) && !(id in w.runs && w.runs[id].watching)
  }

  ghost predicate DownKept(a: World, b: World, id: Id) {
    Down(a, id) ==>
      && Down(b, id) && b.registry[id] == a.registry[id]
      && (id in b.runs <==> id in a.runs) && (id in a.runs ==> b.runs[id] == a.runs[id])
  }

  /** The run that an operation on `id` holds is one of `id`. */
  predicate HeldFor(w: World, held: Option<Token>, id: Id) {
    held.Some? && held.value in w.tasks ==> w.tasks[held.value].id == id
  }

  /** No schedule of other tasks moves the entry of such an instance, whatever operation is in progress on others. */
  lemma DownStays(a: World, b: World, held: Option<Token>, id: Id, j: Id)
    requires Inv(a, held) && EnvLe(a, b) && HeldFor(a, held, j)
    requires Down(a, id) && (held.Some? ==> j != id)
    ensures DownKept(a, b, id)
  {
    forall t | t in a.tasks && a.tasks[t].id == id ensures !a.tasks[t].Live() {
      assert TaskOk(a, held, t);
    }
    UnwatchedStays(a, b, id);
  }

  /** The log only grows, and whoever became Healthy was reported in between, `id` also by its own start. */
  ghost predicate ReportsLe(a: World, b: World, id: Id) {
    && a.log <= b.log
    && forall j :: BecameHealthy(a, b, j) ==>
         || Told(a.log, b.log, HealthySet(j, true, FromMonitor))
         || (j == id && Told(a.log, b.log, HealthySet(j, true, FromStart)))
  }

  lemma OnlyOnGrows(a: World, b: World, id: Id)
    requires OnlyOn(a, b, id)
    ensures a.log <= b.log && AllReported(a, b)
    ensures forall j :: j != id ==> DownKept(a, b, j)
  {
    forall j | j != id ensures DownKept(a, b, j) {
      DownThere(a, b, id, j);
    }
  }

  /** A report written by a start of `id` is there, and spoils nothing. */
  lemma ReportAdded(a: World, b: World, id: Id)
    requires OnlyOn(a, b, id)
    ensures var e := HealthySet(id, true, FromStart);
            OnlyOn(a, b.(log := b.log + [e]), id) && Told(a.log, b.log + [e], e) && Told(b.log, b.log + [e], e)
  {
    var e, c := HealthySet(id, true, FromStart), b.log + [HealthySet(id, true, FromStart)];
    assert c[|b.log|..] == [e] && c[|b.log|..][0] == e;
    ToldLater(a.log, b.log, c, e);
    forall j | BecameHealthy(a, b, j)
      ensures || Told(a.log, c, HealthySet(j, true, FromMonitor))
              || (j == id && Told(a.log, c, HealthySet(j, true, FromStart)))
    {
      ToldLater(a.log, b.log, c, HealthySet(j, true, FromMonitor));
      ToldLater(a.log, b.log, c, HealthySet(j, true, FromStart));
    }
  }

  /** Whoever became Healthy was reported with `warp=on` in between. */
  ghost predicate AllReported(a: World, b: World) {
    && a.log <= b.log
    && forall id :: BecameHealthy(a, b, id) ==>
         Told(a.log, b.log, HealthySet(id, true, FromMonitor)) || Told(a.log, b.log, HealthySet(id, true, FromStart))
  }

  lemma AllReportedTransitive(a: World, b: World, c: World)
    requires AllReported(a, b) && AllReported(b, c)
    ensures AllReported(a, c)
  {
    forall id | BecameHealthy(a, c, id)
      ensures Told(a.log, c.log, HealthySet(id, true, FromMonitor)) ||
          Told(a.log, c.log, HealthySet(id, true, FromStart))
    {
      ToldLater(a.log, b.log, c.log, HealthySet(id, true, FromMonitor));
      ToldLater(a.log, b.log, c.log, HealthySet(id, true, FromStart));
      assert BecameHealthy(a, b, id) || BecameHealthy(b, c, id);
    }
  }

  lemma OnlyOnCounted(origin: World, w: World, id: Id, generation: nat)
    requires OnlyOn(origin, w, id)
    ensures OnlyOn(origin, w.(current := w.current[id := generation], next := w.next + 1), id)
  {
    assert w.current[id := generation] - {id} == w.current - {id};
  }

  lemma OnlyOnKill(origin: World, w: World, id: Id, children: set<Child>)
    requires OnlyOn(origin, w, id)
    ensures OnlyOn(origin, w.(children := children), id)
  {
  }

  lemma OnlyOnReflexive(w: World, id: Id)
    ensures OnlyOn(w, w, id)
  {
  }

  lemma DownThen(a: World, b: World, c: World, id: Id)
    requires Inv(a, None) && EnvLe(a, b) && DownKept(b, c, id)
    ensures DownKept(a, c, id)
  {
    if Down(a, id) {
      DownStays(a, b, None, id, id);
    }
  }

  lemma EnvReports(a: World, b: World)
    requires EnvLe(a, b)
    ensures AllReported(a, b)
  {
  }

  lemma OnlyOnEnv(origin: World, a: World, b: World, held: Option<Token>, id: Id)
    requires OnlyOn(origin, a, id) && Inv(a, held) && HeldFor(a, held, id) && EnvLe(a, b)
    ensures OnlyOn(origin, b, id) && HeldFor(b, held, id)
  {
    forall j | j != id && Down(origin, j) ensures j in b.registry && b.registry[j] == origin.registry[j] {
      DownThere(origin, a, id, j);
      DownStays(a, b, held, j, id);
    }
    hide Inv;
  }

  lemma DownThere(a: World, b: World, id: Id, j: Id)
    requires OnlyOn(a, b, id) && j != id
    ensures DownKept(a, b, j)
  {
    if Down(a, j) {
      assert j in a.runs ==> j in a.runs - {id} && (a.runs - {id})[j] == a.runs[j];
      assert j in b.runs ==> j in b.runs - {id} && (b.runs - {id})[j] == b.runs[j];
    }
  }

  predicate Unwatched(w: World, id: Id) {
    forall t :: t in w.tasks && w.tasks[t].id == id ==> !w.tasks[t].Live()
  }

  lemma UnownedIsUnwatched(w: World, held: Option<Token>, id: Id)
    requires Inv(w, held) && !(id in w.runs && w.runs[id].watching)
    requires held.Some? && held.value in w.tasks ==> !w.tasks[held.value].Live()
    ensures Unwatched(w, id)
  {
  }

  /** An entry that is neither probed nor watched cannot be written by the environment. */
  lemma UnwatchedStays(a: World, b: World, id: Id)
    requires EnvLe(a, b) && Unwatched(a, id)
    ensures Unwatched(b, id)
    ensures id in a.registry && !Probed(a.registry, id) ==> b.registry[id] == a.registry[id]
  {
  }

  // ---------- steps of a lifecycle operation ----------

  /** An operation shows only its own instance as Healthy or Degraded, and only while it holds its run. */
  ghost predicate ShownByHolder(w: World, registry: map<Id, Entry>, held: Option<Token>) {
    forall id :: Probed(registry, id) ==>
      Probed(w.registry, id) || (held.Some? && held.value in w.tasks && w.tasks[held.value].id == id)
  }

  lemma RegistryWriteInv(w: World, registry: map<Id, Entry>, held: Option<Token>)
    requires Inv(w, held) && Backed(registry, w.log) && ShownByHolder(w, registry, held)
    ensures Inv(w.(registry := registry), held)
  {
    var w' := w.(registry := registry);
    forall id | Probed(registry, id) ensures exists t :: Holds(w', held, id, t) {
      if Probed(w.registry, id) {
        var t :| Holds(w, held, id, t);
        assert Holds(w', held, id, t);
      } else {
        assert Holds(w', held, id, held.value);
      }
    }
    SameRound(w, w', held, held);
    hide ProbedOk, RoundOk;
  }

  /** Whoever takes a run over or gives it back does not change whose run it is. */
  lemma SameRound(w: World, w': World, held: Option<Token>, held': Option<Token>)
    requires RoundOk(w, held) && w'.monitor == w.monitor && w'.round == w.round && w'.stops == w.stops
    requires forall t :: t in w.tasks ==> t in w'.tasks && w'.tasks[t].id == w.tasks[t].id
    requires forall id, t :: t in w.tasks ==> (Holds(w', held', id, t) <==> Holds(w, held, id, t))
    ensures RoundOk(w', held')
  {
  }

  lemma SameProbed(w: World, w': World, held: Option<Token>, held': Option<Token>)
    requires ProbedOk(w, held) && w'.registry == w.registry
    requires forall id, t :: Holds(w, held, id, t) ==> Holds(w', held', id, t)
    ensures ProbedOk(w', held')
  {
    forall id | Probed(w'.registry, id) ensures exists t :: Holds(w', held', id, t) {
      var t :| Holds(w, held, id, t);
      assert Holds(w', held', id, t);
    }
  }

  lemma SameRuns(w: World, w': World, held: Option<Token>, held': Option<Token>)
    requires ProbedOk(w, held) && RoundOk(w, held)
    requires w'.registry == w.registry && w'.monitor == w.monitor && w'.round == w.round && w'.stops == w.stops
    requires forall t :: t in w.tasks ==> t in w'.tasks && w'.tasks[t].id == w.tasks[t].id
    requires forall id, t :: t in w.tasks ==> (Holds(w', held', id, t) <==> Holds(w, held, id, t))
    ensures ProbedOk(w', held') && RoundOk(w', held')
  {
    SameProbed(w, w', held, held');
    SameRound(w, w', held, held');
  }

  /** A write of an operation to the entry of its own instance. */
  lemma OwnWrite(w: World, id: Id, f: Entry -> Entry, held: Option<Token>, origin: World)
    requires Inv(w, held) && OnlyOn(origin, w, id)
    requires id in w.registry && f(w.registry[id]).state == Healthy ==>
               w.registry[id].state == Healthy || Told(origin.log, w.log, HealthySet(id, true, FromStart))
    requires id in w.registry && f(w.registry[id]).state in {Healthy, Degraded} ==>
               Probed(w.registry, id) || (held.Some? && held.value in w.tasks && w.tasks[held.value].id == id)
    ensures Inv(w.(registry := Updated(w.registry, id, f)), held)
    ensures OnlyOn(origin, w.(registry := Updated(w.registry, id, f)), id)
  {
    RegistryWriteInv(w, Updated(w.registry, id, f), held);
    hide Inv;
  }

  lemma LogInv(w: World, e: Event, held: Option<Token>)
    requires Inv(w, held) && Justified(e)
    ensures Inv(w.(log := w.log + [e]), held)
  {
    SameRuns(w, w.(log := w.log + [e]), held, held);
    hide ProbedOk, RoundOk;
  }

  /** `do_start` registers its generation; no watcher of an earlier run of `id` can be alive here. */
  lemma BeginInv(w: World, id: Id, generation: nat)
    requires Inv(w, None) && id !in w.runs
    ensures Inv(w.(current := w.current[id := generation], next := w.next + 1), Some(w.next))
  {
    SameRuns(w, w.(current := w.current[id := generation], next := w.next + 1), None, Some(w.next));
    hide ProbedOk, RoundOk;
  }

  lemma NextIsNew(w: World, held: Option<Token>)
    requires Inv(w, held)
    ensures w.next !in w.tasks && w.next !in w.leaked && (forall c :: c in w.children ==> c.token != w.next)
    ensures forall t :: t in w.tasks ==> t < w.next
  {
    forall t | t in w.tasks ensures t < w.next { assert TaskOk(w, held, t); }
  }

  lemma SpawnInv(w: World, id: Id, token: Token)
    requires Inv(w, Some(token)) && id !in w.runs && id in w.current && token !in w.tasks
    requires forall u :: u in w.tasks ==> u < token
    ensures Inv(w.(tasks := w.tasks[token := Task(id, w.current[id], false, Watching)]), Some(token))
  {
    SameRuns(w, w.(tasks := w.tasks[token := Task(id, w.current[id], false, Watching)]), Some(token), Some(token));
    hide ProbedOk, RoundOk;
  }

  /** The finished start hands its handles to the runs table. */
  lemma HandoverInv(w: World, id: Id, token: Token)
    requires Inv(w, Some(token)) && id !in w.runs && id in w.current
    requires token in w.tasks && w.tasks[token].id == id
    ensures Inv(w.(runs := w.runs[id := Running(token, true)]), None)
  {
    SameRuns(w, w.(runs := w.runs[id := Running(token, true)]), Some(token), None);
    hide ProbedOk, RoundOk;
  }

  /** The watcher of run `t` has ended and its processes are gone or leaked. */
  ghost predicate Reaped(w: World, t: Token) {
    && t in w.tasks && !w.tasks[t].Live()
    && forall c :: c in w.children && c.token == t ==> c.Dbus? && t in w.leaked
  }

  /** The operation in progress holds no run, or one of which nothing runs any more. */
  ghost predicate NothingRuns(w: World, held: Option<Token>) {
    held.Some? ==> Reaped(w, held.value)
  }

  /** A write that takes an instance nobody watches out of the monitor's sight; nobody else writes its entry. */
  lemma UnwatchedWrite(w: World, id: Id, e: Entry, held: Option<Token>)
    requires Inv(w, held) && id in w.registry && e.state !in {Healthy, Degraded}
    ensures Inv(w.(registry := w.registry[id := e]), held)
  {
    RegistryWriteInv(w, w.registry[id := e], held);
  }

  lemma UnwatchedAfter(w: World, w': World, id: Id, held: Option<Token>)
    requires Inv(w, held) && EnvLe(w, w') && NothingRuns(w, held) && !(id in w.runs && w.runs[id].watching)
    requires !Probed(w.registry, id)
    ensures NothingRuns(w', held) && (id in w.registry ==> id in w'.registry && w'.registry[id] == w.registry[id])
  {
    UnownedIsUnwatched(w, held, id);
    UnwatchedStays(w, w', id);
  }

  /** What no schedule of other tasks moves at all. */
  lemma EnvFrame(a: World, b: World)
    requires EnvLe(a, b)
    ensures b.runs == a.runs && b.stops == a.stops && b.current == a.current && b.leaked == a.leaked
    ensures b.next == a.next
    ensures b.registry.Keys == a.registry.Keys && b.tasks.Keys == a.tasks.Keys && b.children <= a.children
    ensures forall t :: t in a.tasks ==>
              b.tasks[t].id == a.tasks[t].id && b.tasks[t].cancelled == a.tasks[t].cancelled &&
              (b.tasks[t].Live() ==> a.tasks[t].Live())
    ensures forall id :: Probed(b.registry, id) ==> Probed(a.registry, id)
  {
    forall id | Probed(b.registry, id) ensures Probed(a.registry, id) {
      assert EntryLe(a, b, id);
    }
  }

  /** Other tasks move the entry of an instance that is being stopped to Failed at most, and its pid to none. */
  lemma EnvStops(a: World, b: World, id: Id)
    requires EnvLe(a, b)
    ensures id in a.registry ==>
              && id in b.registry && b.registry[id].pid in {a.registry[id].pid, None}
              && (a.registry[id].state in {Stopping, Failed} ==> b.registry[id].state in {Stopping, Failed})
  {
    assert id in a.registry ==> EntryLe(a, b, id);
  }

  /** A run guard that does not match: the watcher ends and writes nothing, whoever else may run by then. */
  lemma StaleIsIgnored(w: World, t: Token)
    requires t in w.tasks && w.tasks[t].phase == Seen
    requires Lookup(w.current, w.tasks[t].id) != Some(w.tasks[t].generation)
    ensures var w' := CompareStep(w, t);
            && w'.registry == w.registry && t in w'.tasks && w'.tasks[t].phase == Finished(true)
            && w'.tasks - {t} == w.tasks - {t}
            && RecordStep(w', t) == w'
  {
  }

  /**
   * A round whose entry has left the monitor's sight is dropped before it is judged, or at the write
   * at the latest.
   */
  lemma RoundDropped(w: World, config: Config)
    requires config.Valid() && w.monitor != Idle && !Probed(w.registry, w.monitor.id)
    ensures w.monitor.Collected? ==> JudgeStep(w, config) == w.(monitor := Idle)
    ensures w.monitor.Judged? ==> ApplyStep(w) == w.(monitor := Idle)
  {
  }

  /** After any schedule, no warp-svc runs without the dbus-daemon of its attempt. */
  lemma BusOutlivesService(w: World, acts: seq<Act>, config: Config, held: Option<Token>, t: Token)
    requires config.Valid() && Inv(w, held) && Svc(t) in Steps(w, acts, config).children
    ensures Dbus(t) in Steps(w, acts, config).children
  {
    StepsEnv(w, acts, config, held);
  }

  /** The watcher of a process that lives has seen no exit. */
  lemma AliveUnseen(w: World, held: Option<Token>, t: Token)
    requires Inv(w, held) && t in w.tasks
    ensures Svc(t) in w.children ==> w.tasks[t].phase !in {Seen, Confirmed}
  {
    assert TaskOk(w, held, t);
  }

  /** A stop takes the entry out of the runs table; of an entry without watcher handle nothing runs any more. */
  lemma TakeInv(w: World, id: Id)
    requires Inv(w, None) && id in w.runs
    ensures Inv(w.(runs := w.runs - {id}), Some(w.runs[id].token))
    ensures !w.runs[id].watching ==> Reaped(w, w.runs[id].token)
  {
    assert RunOk(w, None, id);
    if !w.runs[id].watching {
      forall c | c in w.children && c.token == w.runs[id].token ensures c.Dbus? && c.token in w.leaked {
        assert ChildOk(w, None, c);
      }
    }
    TakenRuns(w, id);
    hide ProbedOk, RoundOk;
  }

  lemma TakenRuns(w: World, id: Id)
    requires Inv(w, None) && id in w.runs
    ensures ProbedOk(w.(runs := w.runs - {id}), Some(w.runs[id].token))
    ensures RoundOk(w.(runs := w.runs - {id}), Some(w.runs[id].token))
  {
    assert RunOk(w, None, id);
    SameRuns(w, w.(runs := w.runs - {id}), None, Some(w.runs[id].token));
  }

  lemma CancelInv(w: World, t: Token, held: Option<Token>)
    requires Inv(w, held) && t in w.tasks
    ensures Inv(w.(tasks := w.tasks[t := w.tasks[t].(cancelled := true)]), held)
  {
    CancelledRuns(w, t, held);
    hide ProbedOk, RoundOk;
  }

  lemma CancelledRuns(w: World, t: Token, held: Option<Token>)
    requires ProbedOk(w, held) && RoundOk(w, held) && t in w.tasks
    ensures ProbedOk(w.(tasks := w.tasks[t := w.tasks[t].(cancelled := true)]), held)
    ensures RoundOk(w.(tasks := w.tasks[t := w.tasks[t].(cancelled := true)]), held)
  {
    hide ProbedOk, RoundOk;
    SameRuns(w, w.(tasks := w.tasks[t := w.tasks[t].(cancelled := true)]), held, held);
  }

  lemma SpawnChildInv(w: World, t: Token, c: Child)
    requires Inv(w, Some(t)) && c.token == t && t !in w.tasks && (c.Svc? ==> Dbus(t) in w.children)
    ensures Inv(w.(children := w.children + {c}), Some(t))
  {
    SameRuns(w, w.(children := w.children + {c}), Some(t), Some(t));
    hide ProbedOk, RoundOk;
  }

  lemma LeakInv(w: World, t: Token)
    requires Inv(w, Some(t))
    ensures Inv(w.(leaked := w.leaked + {t}), Some(t))
  {
    SameRuns(w, w.(leaked := w.leaked + {t}), Some(t), Some(t));
    hide ProbedOk, RoundOk;
  }

  lemma KillChildInv(w: World, c: Child, held: Option<Token>)
    requires Inv(w, held) && (c.Dbus? ==> Svc(c.token) !in w.children)
    ensures Inv(w.(children := w.children - {c}), held)
  {
    SameRuns(w, w.(children := w.children - {c}), held, held);
    hide ProbedOk, RoundOk;
  }

  /** A cancelled watcher ends within three of its own steps, whatever ran before. */
  lemma JoinEnds(w: World, acts: seq<Act>, t: Token, config: Config, held: Option<Token>)
    requires config.Valid() && Inv(w, held) && t in w.tasks && w.tasks[t].cancelled
    ensures var w' := Steps(w, acts + [Poll(t), Compare(t), Record(t)], config);
            && t in w'.tasks && !w'.tasks[t].Live()
            && w'.monitor == Steps(w, acts, config).monitor && w'.round == Steps(w, acts, config).round
  {
    var a := Steps(w, acts, config);
    StepsEnv(w, acts, config, held);
    assert t in a.tasks && a.tasks[t].cancelled;
    hide *;
    ThreeMore(w, acts, Poll(t), Compare(t), Record(t), config);
    JoinSteps(a, t, config);
  }

  lemma JoinSteps(a: World, t: Token, config: Config)
    requires config.Valid() && t in a.tasks && a.tasks[t].cancelled
    ensures var w' := Step(Step(Step(a, Poll(t), config), Compare(t), config), Record(t), config);
            && t in w'.tasks && !w'.tasks[t].Live()
            && w'.monitor == a.monitor && w'.round == a.round
  {
    var b := PollStep(a, t);
    var c := CompareStep(b, t);
    CancelledPoll(a, t);
    SeenCompare(b, t);
    hide PollStep, CompareStep;
  }

  lemma CancelledPoll(w: World, t: Token)
    requires t in w.tasks && w.tasks[t].cancelled
    ensures var w' := PollStep(w, t);
            t in w'.tasks && w'.tasks[t].phase != Watching && w'.monitor == w.monitor && w'.round == w.round
  {
  }

  lemma SeenCompare(w: World, t: Token)
    requires t in w.tasks && w.tasks[t].phase != Watching
    ensures var w' := CompareStep(w, t);
            && t in w'.tasks && w'.tasks[t].phase !in {Watching, Seen}
            && w'.monitor == w.monitor && w'.round == w.round
  {
  }

  /** With no crash seen before, joining a cancelled watcher changes nothing but its own task. */
  lemma JoinAlone(w: World, t: Token, config: Config)
    requires config.Valid() && t in w.tasks && w.tasks[t].cancelled && w.tasks[t].phase !in {Seen, Confirmed}
    ensures var w' := Steps(w, [] + [Poll(t), Compare(t), Record(t)], config);
            w' == w.(tasks := w'.tasks)
  {
    ThreeMore(w, [], Poll(t), Compare(t), Record(t), config);
    var b := PollStep(w, t);
    assert t in b.tasks && b.tasks[t].phase.Finished? && b == w.(tasks := b.tasks);
    hide PollStep;
  }

  lemma ThreeMore(w: World, acts: seq<Act>, x: Act, y: Act, z: Act, config: Config)
    requires config.Valid()
    ensures Steps(w, acts + [x, y, z], config)
            == Step(Step(Step(Steps(w, acts, config), x, config), y, config), z, config)
  {
    hide Step;
    var n, all := |acts|, acts + [x, y, z];
    assert all[..n + 2] == acts + [x, y] && all[..n + 2][..n + 1] == acts + [x] && (acts + [x])[..n] == acts;
    assert Steps(w, acts + [x], config) == Step(Steps(w, acts, config), x, config);
    assert Steps(w, acts + [x, y], config) == Step(Steps(w, acts + [x], config), y, config);
  }

  function OneMore(stops: map<Id, nat>, id: Id): map<Id, nat> {
    stops[id := Count(stops, id) + 1]
  }

  /** The end of an attempt: if it was a run, that is one more stop that succeeded. */
  function Forgotten(w: World, t: Token): World {
    if t in w.tasks then w.(stops := OneMore(w.stops, w.tasks[t].id)) else w
  }

  /** An operation may forget a token once its watcher has ended and its processes are gone or leaked. */
  lemma ReleaseInv(w: World, t: Token)
    requires Inv(w, Some(t)) && (t in w.tasks ==> !w.tasks[t].Live() && !Probed(w.registry, w.tasks[t].id))
    requires forall c :: c in w.children && c.token == t ==> c.Dbus? && t in w.leaked
    ensures Inv(Forgotten(w, t), None)
  {
    ForgottenRuns(w, t);
    hide ProbedOk, RoundOk;
  }

  lemma ForgottenRuns(w: World, t: Token)
    requires Inv(w, Some(t)) && (t in w.tasks ==> !Probed(w.registry, w.tasks[t].id))
    ensures ProbedOk(Forgotten(w, t), None) && RoundOk(Forgotten(w, t), None)
  {
    var w' := Forgotten(w, t);
    if t !in w.tasks {
      SameRuns(w, w', Some(t), None);
      return;
    }
    forall id | Probed(w.registry, id) ensures exists u :: Holds(w', None, id, u) {
      var u :| Holds(w, Some(t), id, u);
      assert Holds(w', None, id, u);
    }
    if w.monitor != Idle && w.tasks[t].id == w.round.id {
      assert w.round.id in w.runs ==> RunOk(w, Some(t), w.round.id);
      assert !Holds(w', None, w.round.id, w.round.run.value);
    }
  }

  /** A failed stop puts the entry back without its watcher handle. */
  lemma PutBackInv(w: World, id: Id, t: Token)
    requires Inv(w, Some(t)) && id !in w.runs && id in w.current && Reaped(w, t) && w.tasks[t].id == id
    ensures Inv(w.(runs := w.runs[id := Running(t, false)]), None)
  {
    SameRuns(w, w.(runs := w.runs[id := Running(t, false)]), Some(t), None);
    hide ProbedOk, RoundOk;
  }

  lemma ForgetRunInv(w: World, id: Id)
    requires Inv(w, None) && id !in w.runs
    ensures Inv(w.(current := w.current - {id}), None)
  {
    SameRuns(w, w.(current := w.current - {id}), None, None);
    hide ProbedOk, RoundOk;
  }

  /** The entry of `id` carries the pid of attempt `t`, unless that attempt's crash erased it. */
  predicate PidOk(w: World, id: Id, t: Token) {
    && id in w.registry && t in w.tasks
    && (w.registry[id].pid == Some(t) || (w.registry[id].pid == None && w.tasks[t].phase == Finished(true)))
  }

  lemma PidOkStays(a: World, b: World, id: Id, t: Token)
    requires Inv(a, Some(t)) && EnvLe(a, b) && PidOk(a, id, t) && id !in a.runs
    ensures PidOk(b, id, t)
  {
    assert EntryLe(a, b, id);
    if b.registry[id].pid != a.registry[id].pid {
      var u :| CrashedBetween(a, b, u) && a.tasks[u].id == id;
      assert TaskOk(a, Some(t), u);
    }
  }

  // ---------- consequences ----------

  /**
   * After any schedule at rest, every child process is that of a stoppable runs entry, except daemons
   * leaked by a start.
   */
  lemma NoOrphans(w: World, acts: seq<Act>, config: Config, c: Child)
    requires config.Valid() && Inv(w, None) && c in Steps(w, acts, config).children
    ensures var w' := Steps(w, acts, config);
            (c.Dbus? && c.token in w'.leaked) || exists id :: id in w'.runs && w'.runs[id] == Running(c.token, true)
  {
    var w' := Steps(w, acts, config);
    StepsEnv(w, acts, config, None);
    assert ChildOk(w', None, c);
    if !(c.Dbus? && c.token in w'.leaked) {
      var id := w'.tasks[c.token].id;
      assert id in w'.runs && w'.runs[id] == Running(c.token, true);
    }
  }

  lemma RunsAreCounted(w: World)
    requires Inv(w, None)
    ensures forall id :: id in w.runs ==> id in w.current
  {
  }

  lemma NothingLeft(w: World)
    requires Inv(w, None) && w.runs == map[]
    ensures forall c :: c in w.children ==> c.Dbus? && c.token in w.leaked
  {
    forall c | c in w.children ensures c.Dbus? && c.token in w.leaked { assert ChildOk(w, None, c); }
  }

  /**
   * After any schedule there are no two live watchers of one instance, and none whose generation is
   * not the current one.
   */
  lemma AtMostOneWatcher(w: World, held: Option<Token>, acts: seq<Act>, config: Config, t: Token, u: Token)
    requires config.Valid() && Inv(w, held)
    requires var tasks := Steps(w, acts, config).tasks;
             t in tasks && u in tasks && tasks[t].Live() && tasks[u].Live() && tasks[t].id == tasks[u].id
    ensures var w' := Steps(w, acts, config);
            t == u && Lookup(w'.current, w'.tasks[t].id) == Some(w'.tasks[t].generation)
  {
    StepsEnv(w, acts, config, held);
    SeenCrashIsCurrent(Steps(w, acts, config), held, t);
  }

  /**
   * After any schedule every Healthy entry was reported with `warp=on`, and every crash written was
   * one of the current, newest run.
   */
  lemma EveryWriteIsJustified(w: World, held: Option<Token>, acts: seq<Act>, config: Config)
    requires config.Valid() && Inv(w, held)
    ensures var w' := Steps(w, acts, config);
            && (forall id :: id in w'.registry && w'.registry[id].state == Healthy ==> Reported(w'.log, id))
            && (forall id :: BecameHealthy(w, w', id) ==> Told(w.log, w'.log, HealthySet(id, true, FromMonitor)))
            && (forall e :: e in w'.log ==> Justified(e))
  {
    StepsEnv(w, acts, config, held);
  }

  /** Over every schedule: a Failed entry stays Failed; a watcher that ends with a crash leaves its entry Failed. */
  lemma CrashIsKept(w: World, held: Option<Token>, acts: seq<Act>, config: Config, id: Id, t: Token)
    requires config.Valid() && Inv(w, held) && id in w.registry
    requires t in w.tasks && w.tasks[t].id == id
    ensures var w' := Steps(w, acts, config);
            && id in w'.registry && t in w'.tasks
            && (w.registry[id].state == Failed ==> w'.registry[id].state == Failed)
            && (w.tasks[t].Live() && w'.tasks[t].phase == Finished(true) ==> w'.registry[id].state == Failed)
  {
    var w' := Steps(w, acts, config);
    StepsEnv(w, acts, config, held);
    assert EntryLe(w, w', id);
    if w.tasks[t].Live() && w'.tasks[t].phase == Finished(true) {
      assert CrashedBetween(w, w', t);
    }
  }

  predicate MonitorRests(w: World, acts: seq<Act>) {
    w.monitor == Idle && forall act :: act in acts ==> !act.Judge? && !act.Apply? && !act.Collect?
  }

  /**
   * A start writes its entry three times without looking at what is there. Whatever such a write is, as
   * long as it is not Failed: a crash that the watcher records later shows, over every schedule; one
   * recorded before leaves no trace, over every schedule if the entry written is not one that the
   * monitor probes, and else until the monitor looks.
   */
  lemma WriteHidesCrash(w: World, t: Token, id: Id, f: Entry -> Entry, acts: seq<Act>, config: Config)
    requires config.Valid() && Inv(w, Some(t)) && id in w.registry
    requires t in w.tasks && w.tasks[t].id == id && id !in w.runs
    requires f(w.registry[id]).state != Failed && (f(w.registry[id]).state == Healthy ==> Reported(w.log, id))
    ensures var written := w.(registry := Updated(w.registry, id, f));
            var w' := Steps(written, acts, config);
            && t in w'.tasks && id in w'.registry
            && (w.tasks[t].Live() && w'.tasks[t].phase == Finished(true) ==> w'.registry[id].state == Failed)
            && (!w.tasks[t].Live() && (!Probed(written.registry, id) || MonitorRests(w, acts)) ==>
                  w'.registry[id] == f(w.registry[id]))
  {
    var written := w.(registry := Updated(w.registry, id, f));
    RegistryWriteInv(w, written.registry, Some(t));
    CrashIsKept(written, Some(t), acts, config, id, t);
    if !w.tasks[t].Live() {
      UnownedIsUnwatched(written, Some(t), id);
      StepsEnv(written, acts, config, Some(t));
      UnwatchedStays(written, Steps(written, acts, config), id);
      if MonitorRests(w, acts) {
        WatchersLeaveOthers(written, acts, config, Some(t), id);
      }
    }
  }

  /**
   * The write of a verified start: without the monitor, a crash shows exactly when it is recorded
   * after the write.
   */
  lemma HealthyWriteHidesCrash(w: World, t: Token, id: Id, acts: seq<Act>, config: Config)
    requires config.Valid() && Inv(w, Some(t)) && id in w.registry && Reported(w.log, id)
    requires t in w.tasks && w.tasks[t].id == id && id !in w.runs && MonitorRests(w, acts)
    ensures var w' := Steps(w.(registry := Updated(w.registry, id, (e: Entry) => e.In(Healthy))), acts, config);
            && t in w'.tasks && id in w'.registry
            && (w'.tasks[t].phase == Finished(true) ==> (w'.registry[id].state == Failed <==> w.tasks[t].Live()))
  {
    hide Inv;
    WriteHidesCrash(w, t, id, (e: Entry) => e.In(Healthy), acts, config);
  }

  /** The write of an unverified start: what it read before, that the entry was still Starting, does not matter. */
  lemma DegradedWriteHidesCrash(w: World, t: Token, id: Id, acts: seq<Act>, config: Config)
    requires config.Valid() && Inv(w, Some(t)) && id in w.registry
    requires t in w.tasks && w.tasks[t].id == id && id !in w.runs && MonitorRests(w, acts)
    ensures var w' := Steps(w.(registry := Updated(w.registry, id, (e: Entry) => e.Unverified())), acts, config);
            && t in w'.tasks && id in w'.registry
            && (w'.tasks[t].phase == Finished(true) ==> (w'.registry[id].state == Failed <==> w.tasks[t].Live()))
  {
    hide Inv;
    WriteHidesCrash(w, t, id, (e: Entry) => e.Unverified(), acts, config);
  }

  /** `on_started`: the entry is Starting, which nobody probes, so this holds over every schedule. */
  lemma StartedWriteHidesCrash(w: World, t: Token, id: Id, acts: seq<Act>, config: Config)
    requires config.Valid() && Inv(w, Some(t)) && id in w.registry
    requires t in w.tasks && w.tasks[t].id == id && id !in w.runs
    ensures var w' := Steps(w.(registry := Updated(w.registry, id, (e: Entry) => e.Started(t))), acts, config);
            && t in w'.tasks && id in w'.registry
            && (w'.tasks[t].phase == Finished(true) ==> (w'.registry[id].state == Failed <==> w.tasks[t].Live()))
  {
    hide Inv;
    WriteHidesCrash(w, t, id, (e: Entry) => e.Started(t), acts, config);
  }

  lemma RestingStep(w: World, act: Act, config: Config, id: Id)
    requires config.Valid() && id in w.registry && Unwatched(w, id) && MonitorRests(w, [act])
    ensures var w' := Step(w, act, config);
            id in w'.registry && w'.registry[id] == w.registry[id] && w'.monitor == Idle
  {
    assert act in [act];
  }

  lemma {:induction false} WatchersLeaveOthers(w: World, acts: seq<Act>, config: Config, held: Option<Token>, id: Id)
    requires config.Valid() && Inv(w, held) && id in w.registry && Unwatched(w, id) && MonitorRests(w, acts)
    ensures var w' := Steps(w, acts, config);
            id in w'.registry && w'.registry[id] == w.registry[id] && w'.monitor == Idle
  {
    if acts != [] {
      var init := acts[..|acts| - 1];
      WatchersLeaveOthers(w, init, config, held, id);
      StepsEnv(w, init, config, held);
      UnwatchedStays(w, Steps(w, init, config), id);
      hide Inv, EnvLe;
      RestingStep(Steps(w, init, config), acts[|acts| - 1], config, id);
      hide Step;
    }
  }

  /** A start of instance 7 with token 0, its watcher running, before or after the pid is recorded. */
  function JustSpawned(pid: Option<Token>): World {
    World(map[7 := Entry(Starting, pid, Counters(0, 0))], map[], map[7 := 1],
          map[0 := Task(7, 1, false, Watching)], Idle, {Svc(0), Dbus(0)}, {}, 1, map[], NO_ROUND, [])
  }

  lemma JustSpawnedInv(pid: Option<Token>)
    ensures Inv(JustSpawned(pid), Some(0))
  {
    assert TaskOk(JustSpawned(pid), Some(0), 0);
  }

  /**
   * The hidden cases, from a state of a start that keeps the invariant: the process dies, its watcher records
   * the crash before the write, and the entry of the dead, no longer watched process turns Healthy, Degraded
   * or Starting.
   */
  lemma HiddenCrashExample(pid: Option<Token>, config: Config)
    requires config.Valid() && (pid.Some? ==> pid.value == 0)
    ensures var died := Step(JustSpawned(pid), Die(0), config);
            var w := Step(Step(Step(died, Poll(0), config), Compare(0), config), Record(0), config);
            && w.registry == map[7 := Entry(Failed, None, Counters(1, 0))]
            && w.tasks == map[0 := Task(7, 1, false, Finished(true))] && w.children == {Dbus(0)}
            && Inv(JustSpawned(pid), Some(0))
            && Updated(w.registry, 7, (e: Entry) => e.In(Healthy)) == map[7 := Entry(Healthy, None, Counters(1, 0))]
            && Updated(w.registry, 7, (e: Entry) => e.Unverified()) == map[7 := Entry(Degraded, None, Counters(1, 0))]
            && Updated(w.registry, 7, (e: Entry) => e.Started(0)) ==
                map[7 := Entry(Starting, Some(0), Counters(0, 0))]
  {
    var start := JustSpawned(pid);
    JustSpawnedInv(pid);
    hide Inv;
    var died := Step(start, Die(0), config);
    assert died == start.(children := {Dbus(0)});
    var seen := PollStep(died, 0);
    assert seen == died.(tasks := map[0 := Task(7, 1, false, Seen)]);
    var confirmed := CompareStep(seen, 0);
    assert confirmed == died.(tasks := map[0 := Task(7, 1, false, Confirmed)]);
  }

  // ---------- a crash in one breath ----------

  /** The process of run `t` dies and its watcher records it. */
  function CrashNow(t: Token): seq<Act> {
    [Die(t), Poll(t), Compare(t), Record(t)]
  }

  lemma CrashNowRecorded(w: World, t: Token, config: Config)
    requires config.Valid() && t in w.tasks && w.tasks[t].phase == Watching && !w.tasks[t].cancelled
    requires Lookup(w.current, w.tasks[t].id) == Some(w.tasks[t].generation)
    ensures var w' := Steps(w, CrashNow(t), config);
            t in w'.tasks && w'.tasks[t].phase == Finished(true) && Svc(t) !in w'.children
  {
    var died := w.(children := w.children - {Svc(t)});
    var seen := PollStep(died, t);
    var confirmed := CompareStep(seen, t);
    assert seen == WithPhase(died, t, Seen) && confirmed == WithPhase(seen, t, Confirmed);
    hide PollStep, CompareStep, Newest;
    assert [Die(t)][..0] == [];
    assert Steps(w, [Die(t)], config) == Step(w, Die(t), config) == died;
    ThreeMore(w, [Die(t)], Poll(t), Compare(t), Record(t), config);
    assert [Die(t)] + [Poll(t), Compare(t), Record(t)] == CrashNow(t);
    hide Steps;
  }

  // ---------- the run a verdict belongs to ----------

  /**
   * In whatever state a schedule leads to, a verdict that finds its entry Healthy or Degraded finds the
   * run it was reached on exactly if no stop of the instance has succeeded since the snapshot. Other
   * tasks alone never come in between: they leave stops, runs and generations as they are.
   */
  lemma VerdictOfSameRun(w: World, acts: seq<Act>, config: Config, held: Option<Token>)
    requires config.Valid() && Inv(w, held)
    ensures var w' := Steps(w, acts, config);
            && (w'.monitor != Idle && Probed(w'.registry, w'.monitor.id) ==>
                  w'.round.run.Some? &&
                  (w'.round.run == RunOf(w', w'.monitor.id) <==> w'.round.stops == Count(w'.stops, w'.monitor.id)))
            && w'.stops == w.stops && w'.runs == w.runs && w'.current == w.current
            && w'.registry.Keys == w.registry.Keys
            && (forall id :: id in w.registry ==> w'.registry[id].pid in {w.registry[id].pid, None})
  {
    var w' := Steps(w, acts, config);
    StepsEnv(w, acts, config, held);
    forall id | id in w.registry ensures w'.registry[id].pid in {w.registry[id].pid, None} {
      assert EntryLe(w, w', id);
    }
    if w'.monitor != Idle && Probed(w'.registry, w'.monitor.id) {
      FoundIsJudged(w', held);
    }
  }

  lemma FoundIsJudged(w: World, held: Option<Token>)
    requires Inv(w, held) && w.monitor != Idle && Probed(w.registry, w.monitor.id)
    ensures w.round.run.Some? && RunOf(w, w.monitor.id).Some? && w.round.stops <= Count(w.stops, w.monitor.id)
    ensures w.round.run == RunOf(w, w.monitor.id) <==> w.round.stops == Count(w.stops, w.monitor.id)
  {
    var id, run := w.monitor.id, w.round.run.value;
    var t :| Holds(w, held, id, t);
    RunOfHolder(w, held, id, t);
    if Holds(w, held, id, run) {
      RunOfHolder(w, held, id, run);
    }
  }

  lemma EveryVerdictJustified(w: World)
    requires Inv(w, None)
    ensures forall e :: e in w.log && e.VerdictWritten? ==>
              e.began <= e.stops && (e.judged == e.written <==> e.began == e.stops)
  {
  }

  /** Such an entry heals by itself: its pid is gone, so the next whole health round reports it Failed. */
  lemma NextRoundReportsFailed(w: World, id: Id, control: bool, plane: Option<bool>, config: Config)
    requires config.Valid() && w.monitor == Idle && Probed(w.registry, id) && w.registry[id].pid == None
    ensures var w' := Steps(w, [Collect(id, control, plane), Judge, Apply], config);
            id in w'.registry && w'.registry[id].state == Failed && w'.monitor == Idle
  {
    var acts := [Collect(id, control, plane), Judge, Apply];
    assert acts[..2] == [Collect(id, control, plane), Judge] && acts[..2][..1] == [Collect(id, control, plane)]
           && acts[..2][..1][..0] == [];
    var collected := CollectStep(w, id, control, plane);
    var judged := JudgeStep(collected, config);
    assert Steps(w, [Collect(id, control, plane)], config) == collected;
    assert Steps(w, acts[..2], config) == judged;
  }
}
