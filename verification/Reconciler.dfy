/**
 One reconcile round: the desired rows and the runtime registry are aligned, orphans are stopped,
 and every row is decided and acted on. What the runtime answers is an input.
 */
module Reconciler {
  import opened Wrappers
  import opened Health
  import opened Backoff

  type Id = int

  datatype Row = Row(
    enabled: bool,
    desiredRunning: bool,
    autoRestart: bool,
    pending: bool,
    command: nat,
    observed: nat,
    window: Window)
  {
    predicate ShouldRun() {
      enabled && desiredRunning
    }

    predicate CommandWaiting() {
      command > observed
    }
  }

  datatype Outcome = Outcome(ok: bool, state: RuntimeState)

  /** Which of the repository calls after a runtime call work; the reconciler ignores their errors. */
  datatype Writes = Writes(
    clearBackoff: bool,
    clearPending: bool,
    acknowledge: bool,
    readBack: bool,
    recordBackoff: bool)

  const ALL_WRITTEN := Writes(true, true, true, true, true)

  /**
   * What the runtime and the repository answer in this round, and the clock as it reads when an instance
   * is looked at and when its call has ended.
   */
  datatype Answers = Answers(
    listed: bool,
    start: Id -> Outcome,
    restart: Id -> Outcome,
    stop: Id -> Outcome,
    writes: Id -> Writes,
    now: Id -> int,
    ended: Id -> int,
    base: nat,
    max: nat)

  datatype CallKind = StartCall | RestartCall | StopCall

  /** An instance before or after its turn: its row, its registry state, and the call made for it. */
  datatype Turn = Turn(row: Row, state: RuntimeState, call: Option<CallKind>)

  const RUNNING_STATES := {Starting, Registering, Connecting, Healthy, Degraded}

  // ---------- the table of section 12.4 of the design, for one instance ----------

  function AfterSuccess(row: Row, w: Writes): Row {
    row.(window := if w.clearBackoff then CLEAR else row.window,
         pending := row.pending && !w.clearPending,
         observed := if w.acknowledge then Max(row.observed, row.command) else row.observed)
  }

  /** A row that cannot be read back counts as one without an earlier failure. */
  function AfterFailure(row: Row, now: int, w: Writes, a: Answers): Row {
    if !w.recordBackoff then row
    else row.(window := RecordFailure(if w.readBack then row.window else CLEAR, now, a.base, a.max))
  }

  function AfterCall(id: Id, row: Row, o: Outcome, kind: CallKind, a: Answers): Turn {
    Turn(if o.ok then AfterSuccess(row, a.writes(id)) else AfterFailure(row, a.ended(id), a.writes(id), a),
         o.state, Some(kind))
  }

  function Reconciled(id: Id, row: Row, state: RuntimeState, a: Answers): Turn {
    if !row.ShouldRun() then
      if state in {Stopped, Stopping, Disabled} then Turn(row, state, None)
      else Turn(row, a.stop(id).state, Some(StopCall))
    else if state == Stopped then AfterCall(id, row, a.start(id), StartCall, a)
    else if (state == Failed && (row.CommandWaiting() || (row.autoRestart && Ready(row.window, a.now(id)))))
         || (state in RUNNING_STATES && (row.pending || row.CommandWaiting()))
    then AfterCall(id, row, a.restart(id), RestartCall, a)
    else Turn(row, state, None)
  }

  // ---------- a whole round ----------

  function Aligned(rows: map<Id, Row>, registry: map<Id, RuntimeState>, id: Id): RuntimeState {
    if id in registry then registry[id] else Stopped
  }

  function TurnOf(rows: map<Id, Row>, registry: map<Id, RuntimeState>, a: Answers, id: Id): Turn
    requires id in rows
  {
    Reconciled(id, rows[id], Aligned(rows, registry, id), a)
  }

  /** The tables while the instances in `todo` still await their turn. */
  function RowsDuring(rows: map<Id, Row>, registry: map<Id, RuntimeState>, a: Answers, todo: set<Id>): map<Id, Row> {
    map id | id in rows :: if id in todo then rows[id] else TurnOf(rows, registry, a, id).row
  }

  /** An orphan leaves the registry only if its stop succeeded. */
  function RegistryDuring(rows: map<Id, Row>, registry: map<Id, RuntimeState>, a: Answers, todo: set<Id>)
    : map<Id, RuntimeState>
  {
    map id | id in rows.Keys + registry.Keys && (id in rows || !a.stop(id).ok) ::
      if id !in rows then a.stop(id).state
      else if id in todo then Aligned(rows, registry, id)
      else TurnOf(rows, registry, a, id).state
  }

  function CallsDuring(rows: map<Id, Row>, registry: map<Id, RuntimeState>, a: Answers,
      todo: set<Id>): map<Id, CallKind> {
    map id | id in rows.Keys + registry.Keys &&
             (id in rows ==> id !in todo && TurnOf(rows, registry, a, id).call.Some?) ::
      if id in rows then TurnOf(rows, registry, a, id).call.value else StopCall
  }

  function RowsAfter(rows: map<Id, Row>, registry: map<Id, RuntimeState>, a: Answers): map<Id, Row> {
    RowsDuring(rows, registry, a, {})
  }

  function RegistryAfter(rows: map<Id, Row>, registry: map<Id, RuntimeState>, a: Answers): map<Id, RuntimeState> {
    RegistryDuring(rows, registry, a, {})
  }

  function CallsOf(rows: map<Id, Row>, registry: map<Id, RuntimeState>, a: Answers): map<Id, CallKind> {
    CallsDuring(rows, registry, a, {})
  }

  lemma TakeTurn(rows: map<Id, Row>, registry: map<Id, RuntimeState>, a: Answers, todo: set<Id>, id: Id)
    requires id in todo && id in rows
    ensures id in RowsDuring(rows, registry, a, todo) && RowsDuring(rows, registry, a, todo)[id] == rows[id]
    ensures id in RegistryDuring(rows, registry, a, todo)
    ensures RegistryDuring(rows, registry, a, todo)[id] == Aligned(rows, registry, id)
    ensures var t := TurnOf(rows, registry, a, id);
            && RowsDuring(rows, registry, a, todo - {id}) == RowsDuring(rows, registry, a, todo)[id := t.row]
            && RegistryDuring(rows, registry, a, todo - {id}) ==
                RegistryDuring(rows, registry, a, todo)[id := t.state]
            && CallsDuring(rows, registry, a, todo - {id})
               == if t.call.Some? then CallsDuring(rows, registry, a, todo)[id := t.call.value]
                  else CallsDuring(rows, registry, a, todo)
  {
  }

  /** The registry while the entries in `todo` have not been looked at for orphans. */
  function OrphansDuring(registry: map<Id, RuntimeState>, desired: set<Id>, a: Answers, todo: set<Id>)
    : map<Id, RuntimeState>
  {
    map id | id in registry && (id in desired || id in todo || !a.stop(id).ok) ::
      if id in desired || id in todo then registry[id] else a.stop(id).state
  }

  function OrphanCalls(registry: map<Id, RuntimeState>, desired: set<Id>, todo: set<Id>): map<Id, CallKind> {
    map id | id in registry && id !in desired && id !in todo :: StopCall
  }

  lemma OrphansBegin(registry: map<Id, RuntimeState>, desired: set<Id>, a: Answers)
    ensures OrphansDuring(registry, desired, a, registry.Keys) == registry
    ensures OrphanCalls(registry, desired, registry.Keys) == map[]
  {
  }

  lemma StopOneOrphan(registry: map<Id, RuntimeState>, desired: set<Id>, a: Answers, todo: set<Id>, id: Id)
    requires id in todo && id in registry
    ensures id in OrphansDuring(registry, desired, a, todo)
    ensures OrphansDuring(registry, desired, a, todo - {id})
            == if id in desired then OrphansDuring(registry, desired, a, todo)
               else if a.stop(id).ok then OrphansDuring(registry, desired, a, todo)[id := a.stop(id).state] - {id}
               else OrphansDuring(registry, desired, a, todo)[id := a.stop(id).state]
    ensures OrphanCalls(registry, desired, todo - {id})
            == if id in desired then OrphanCalls(registry, desired, todo)
               else OrphanCalls(registry, desired, todo)[id := StopCall]
  {
  }

  class Reconciler {
    var rows: map<Id, Row>
    var registry: map<Id, RuntimeState>
    // The runtime calls of the current round.
    var calls: map<Id, CallKind>

    constructor (rows: map<Id, Row>, registry: map<Id, RuntimeState>)
      ensures this.rows == rows && this.registry == registry && calls == map[]
    {
      this.rows, this.registry, this.calls := rows, registry, map[];
    }

    method ClearBackoff(id: Id, works: bool)
      modifies this`rows
      ensures rows == if id in old(rows) && works then old(rows)[id := old(rows)[id].(window := CLEAR)] else old(rows)
    {
      if id in rows && works { rows := rows[id := rows[id].(window := CLEAR)]; }
    }

    method ClearRestartPending(id: Id, works: bool)
      modifies this`rows
      ensures rows == if id in old(rows) &&
          works then old(rows)[id := old(rows)[id].(pending := false)] else old(rows)
    {
      if id in rows && works { rows := rows[id := rows[id].(pending := false)]; }
    }

    method AcknowledgeRestart(id: Id, generation: nat, works: bool)
      modifies this`rows
      ensures rows == if id in old(rows) && works
                      then old(rows)[id := old(rows)[id].(observed := Max(old(rows)[id].observed, generation))]
                      else old(rows)
    {
      if id in rows && works { rows := rows[id := rows[id].(observed := Max(rows[id].observed, generation))]; }
    }

    method RecordBackoff(id: Id, a: Answers)
      modifies this`rows
      ensures rows == if id in old(rows)
                      then old(rows)[id := AfterFailure(old(rows)[id], a.ended(id), a.writes(id), a)]
                      else old(rows)
    {
      var before := CLEAR;
      if id in rows && a.writes(id).readBack {
        before := rows[id].window;
      }
      if id in rows && a.writes(id).recordBackoff {
        rows := rows[id := rows[id].(window := RecordFailure(before, a.ended(id), a.base, a.max))];
      }
      assert id in old(rows) && !a.writes(id).recordBackoff ==> rows == old(rows)[id := old(rows)[id]];
    }

    method SettleRow(id: Id, spec: Row, w: Writes)
      requires id in rows && rows[id] == spec
      modifies this`rows
      ensures rows == old(rows)[id := AfterSuccess(spec, w)]
    {
      ClearBackoff(id, w.clearBackoff);
      assert rows == old(rows)[id := rows[id]];
      ClearRestartPending(id, w.clearPending);
      assert rows == old(rows)[id := rows[id]];
      AcknowledgeRestart(id, spec.command, w.acknowledge);
      assert rows == old(rows)[id := rows[id]];
      assert rows[id] == AfterSuccess(spec, w);
    }

    /** `start_instance` and `restart_instance` differ only in the call; both then settle the row. */
    method Call(id: Id, spec: Row, kind: CallKind, a: Answers)
      requires id in rows && rows[id] == spec && id in registry && kind != StopCall
      modifies this
      ensures var t := AfterCall(id, spec, if kind == StartCall then a.start(id) else a.restart(id), kind, a);
              rows == old(rows)[id := t.row] && registry == old(registry)[id := t.state] &&
                  calls == old(calls)[id := kind]
    {
      var o := if kind == StartCall then a.start(id) else a.restart(id);
      calls := calls[id := kind];
      registry := registry[id := o.state];
      hide AfterSuccess, AfterFailure;
      if o.ok {
        SettleRow(id, spec, a.writes(id));
      } else {
        RecordBackoff(id, a);
      }
    }

    method Stop(id: Id, a: Answers) returns (ok: bool)
      requires id in registry
      modifies this`registry, this`calls
      ensures ok == a.stop(id).ok
      ensures registry == old(registry)[id := a.stop(id).state] && calls == old(calls)[id := StopCall]
    {
      calls := calls[id := StopCall];
      registry := registry[id := a.stop(id).state];
      ok := a.stop(id).ok;
    }

    /** `reconcile_instance` on the row as listed. */
    method ReconcileInstance(id: Id, spec: Row, a: Answers)
      requires id in rows && rows[id] == spec && id in registry
      modifies this
      ensures var t := Reconciled(id, spec, old(registry)[id], a);
              && rows == old(rows)[id := t.row] && registry == old(registry)[id := t.state]
              && calls == (if t.call.Some? then old(calls)[id := t.call.value] else old(calls))
    {
      var actual := registry[id];
      assert rows == rows[id := spec] && registry == registry[id := actual];
      if !spec.ShouldRun() {
        if actual !in {Stopped, Stopping, Disabled} {
          var _ := Stop(id, a);
        }
        return;
      }
      match actual {
        case Stopped => Call(id, spec, StartCall, a);
        case Failed =>
          // An explicit command overrides the automatic-restart policy and its backoff.
          if spec.command > spec.observed {
            Call(id, spec, RestartCall, a);
          } else if spec.autoRestart {
            if Ready(spec.window, a.now(id)) {
              Call(id, spec, RestartCall, a);
            }
          }
        case Stopping =>
        case Disabled =>
        case _ =>
          if spec.pending {
            Call(id, spec, RestartCall, a);
          } else if spec.command > spec.observed {
            Call(id, spec, RestartCall, a);
          }
      }
    }

    /** New rows enter the registry as Stopped. */
    method AlignRegistry(ids: seq<Id>)
      modifies this`registry
      ensures registry == map id | id in old(registry).Keys + (set x | x in ids) ::
                (if id in old(registry) then old(registry)[id] else Stopped)
    {
      for i := 0 to |ids|
        invariant registry == map id | id in old(registry).Keys + (set x | x in ids[..i]) ::
                    if id in old(registry) then old(registry)[id] else Stopped
      {
        assert ids[..i + 1] == ids[..i] + [ids[i]];
        if ids[i] !in registry {
          registry := registry[ids[i] := Stopped];
        }
      }
      assert ids[..|ids|] == ids;
    }

    /** Registry entries without a row are stopped; a failed stop keeps the entry for the next round. */
    method StopOrphans(desired: set<Id>, a: Answers)
      modifies this`registry, this`calls
      ensures registry == OrphansDuring(old(registry), desired, a, {})
      ensures calls == old(calls) + OrphanCalls(old(registry), desired, {})
    {
      hide OrphansDuring, OrphanCalls;
      var todo := registry.Keys;
      OrphansBegin(registry, desired, a);
      while todo != {}
        invariant todo <= old(registry).Keys
        invariant registry == OrphansDuring(old(registry), desired, a, todo)
        invariant calls == old(calls) + OrphanCalls(old(registry), desired, todo)
        decreases todo
      {
        var id := Pick(todo);
        StopOneOrphan(old(registry), desired, a, todo, id);
        if id !in desired {
          var ok := Stop(id, a);
          if ok {
            registry := registry - {id};
          }
        }
        todo := todo - {id};
      }
    }

    /**
     * `reconcile_once` without the proxy synchronisation. Every instance ends as its own row, its own
     * entry and its own answers say, whatever happened to the others.
     */
    method ReconcileOnce(a: Answers)
      modifies this
      ensures a.listed ==>
                && rows == RowsAfter(old(rows), old(registry), a)
                && registry == RegistryAfter(old(rows), old(registry), a)
                && calls == CallsOf(old(rows), old(registry), a)
      ensures !a.listed ==> rows == old(rows) && registry == old(registry) && calls == map[]
    {
      calls := map[];
      if !a.listed { return; }
      var desired := rows;
      var ids := Elements(desired.Keys);
      AlignRegistry(ids);
      assert desired.Keys == set x | x in ids;
      StopOrphans(desired.Keys, a);
      RoundStarts(old(rows), old(registry), a, rows, registry, calls);
      hide RowsDuring, RegistryDuring, CallsDuring, OrphansDuring, OrphanCalls, Reconciled;
      var todo := desired.Keys;
      while todo != {}
        invariant todo <= desired.Keys
        invariant rows == RowsDuring(desired, old(registry), a, todo)
        invariant registry == RegistryDuring(desired, old(registry), a, todo)
        invariant calls == CallsDuring(desired, old(registry), a, todo)
        decreases todo
      {
        var id := Pick(todo);
        TakeTurn(desired, old(registry), a, todo, id);
        ReconcileInstance(id, desired[id], a);
        todo := todo - {id};
      }
    }
  }

  lemma RoundStarts(rows: map<Id, Row>, registry: map<Id, RuntimeState>, a: Answers,
                    rows': map<Id, Row>, registry': map<Id, RuntimeState>, calls': map<Id, CallKind>)
    requires rows' == rows
    requires var aligned := (map id | id in registry.Keys + rows.Keys ::
        if id in registry then registry[id] else Stopped);
             && registry' == OrphansDuring(aligned, rows.Keys, a, {})
             && calls' == OrphanCalls(aligned, rows.Keys, {})
    ensures rows' == RowsDuring(rows, registry, a, rows.Keys)
    ensures registry' == RegistryDuring(rows, registry, a, rows.Keys)
    ensures calls' == CallsDuring(rows, registry, a, rows.Keys)
  {
  }

  // ---------- convergence ----------

  /** The runtime does what it is asked: starts and restarts end Healthy or Degraded, stops end Stopped. */
  ghost predicate AllSucceed(a: Answers) {
    forall id ::
      && a.start(id).ok && a.start(id).state in {Healthy, Degraded}
      && a.restart(id).ok && a.restart(id).state in {Healthy, Degraded}
      && a.stop(id) == Outcome(true, Stopped)
      && a.writes(id) == ALL_WRITTEN
  }

  /** What the decision table leaves alone for as long as no backoff window closes. */
  predicate Settled(row: Row, state: RuntimeState) {
    if !row.ShouldRun() then state in {Stopped, Stopping, Disabled}
    else
      || state in {Stopping, Disabled}
      || (state == Failed && !row.CommandWaiting())
      || (state in RUNNING_STATES && !row.pending && !row.CommandWaiting())
  }

  /** The one reason for which a settled instance is acted on again. */
  predicate RetryDue(row: Row, state: RuntimeState, now: int) {
    row.ShouldRun() && state == Failed && row.autoRestart && Ready(row.window, now)
  }

  /** The answer to the call of a turn. */
  function AnswerTo(kind: CallKind, id: Id, a: Answers): Outcome {
    match kind
    case StartCall => a.start(id)
    case RestartCall => a.restart(id)
    case StopCall => a.stop(id)
  }

  /** No turn changes what handlers decide: whether the instance is wanted, its policy, its commands. */
  lemma TurnKeepsWishes(id: Id, row: Row, state: RuntimeState, a: Answers)
    ensures var t := Reconciled(id, row, state, a);
            && t.row == row.(pending := t.row.pending, observed := t.row.observed, window := t.row.window)
            && (t.call in {None, Some(StopCall)} ==> t.row == row)
            && t.state == if t.call.Some? then AnswerTo(t.call.value, id, a).state else state
  {
  }

  /**
   * A start or restart that succeeds: the backoff is cleared, the flag too, and the listed command is
   * acknowledged.
   */
  lemma SuccessClears(id: Id, row: Row, state: RuntimeState, a: Answers)
    requires var t := Reconciled(id, row, state, a);
             t.call.Some? && t.call != Some(StopCall) && AnswerTo(t.call.value, id, a).ok
    ensures var t, w := Reconciled(id, row, state, a), a.writes(id);
            && t.row.window == (if w.clearBackoff then CLEAR else row.window)
            && t.row.pending == (row.pending && !w.clearPending)
            && t.row.observed == (if w.acknowledge && row.CommandWaiting() then row.command else row.observed)
  {
  }

  /**
   * One that fails, commanded or not: flag and command wait on, and the next retry is as far away as the
   * gap stored before says, doubled and capped, or else the base.
   */
  lemma FailureRecorded(id: Id, row: Row, state: RuntimeState, a: Answers)
    requires var t := Reconciled(id, row, state, a);
             t.call.Some? && t.call != Some(StopCall) && !AnswerTo(t.call.value, id, a).ok
    ensures var t, w, ended := Reconciled(id, row, state, a), a.writes(id), a.ended(id);
            && t.row.pending == row.pending && t.row.observed == row.observed
            && (!w.recordBackoff ==> t.row.window == row.window)
            && (w.recordBackoff ==>
                  && t.row.window.lastFailure == Some(ended) && t.row.window.nextRetry.Some?
                  && var gap, window := t.row.window.nextRetry.value - ended, row.window;
                     if w.readBack && window.lastFailure.Some? && window.nextRetry.Some?
                        && window.nextRetry.value > window.lastFailure.value
                     then
                       var before := window.nextRetry.value - window.lastFailure.value;
                       gap == Min(if before > a.base then 2 * before else 2 * a.base, a.max)
                     else gap == a.base)
  {
  }

  /** A successful call settles its instance exactly when the writes that its row needs have worked. */
  lemma CallSettlesExactly(id: Id, row: Row, state: RuntimeState, a: Answers)
    requires row.ShouldRun() && Reconciled(id, row, state, a).call.Some?
    requires a.start(id).ok && a.start(id).state in {Healthy, Degraded}
    requires a.restart(id).ok && a.restart(id).state in {Healthy, Degraded}
    ensures Settled(Reconciled(id, row, state, a).row, Reconciled(id, row, state, a).state) <==>
            (row.pending ==> a.writes(id).clearPending) && (row.CommandWaiting() ==> a.writes(id).acknowledge)
  {
  }

  lemma TurnSettles(id: Id, row: Row, state: RuntimeState, a: Answers)
    requires AllSucceed(a)
    ensures Settled(Reconciled(id, row, state, a).row, Reconciled(id, row, state, a).state)
    ensures !RetryDue(Reconciled(id, row, state, a).row, Reconciled(id, row, state, a).state, a.now(id))
    ensures row.ShouldRun() && state == Stopped ==> Reconciled(id, row, state, a).state in {Healthy, Degraded}
  {
  }

  lemma SettledActsExactly(id: Id, row: Row, state: RuntimeState, a: Answers)
    requires Settled(row, state)
    ensures Reconciled(id, row, state, a).call.Some? <==> RetryDue(row, state, a.now(id))
    ensures Reconciled(id, row, state, a).call == None ==> Reconciled(id, row, state, a) == Turn(row, state, None)
  {
  }

  /** One round with a working runtime makes the registry and the rows agree on ids and settles every instance. */
  lemma Converges(rows: map<Id, Row>, registry: map<Id, RuntimeState>, a: Answers)
    requires AllSucceed(a)
    ensures RowsAfter(rows, registry, a).Keys == rows.Keys == RegistryAfter(rows, registry, a).Keys
    ensures forall id :: id in rows ==>
              && Settled(RowsAfter(rows, registry, a)[id], RegistryAfter(rows, registry, a)[id])
              && !RetryDue(RowsAfter(rows, registry, a)[id], RegistryAfter(rows, registry, a)[id], a.now(id))
  {
    assert forall id :: a.stop(id).ok;
    forall id | id in rows
      ensures Settled(RowsAfter(rows, registry, a)[id], RegistryAfter(rows, registry, a)[id])
      ensures !RetryDue(RowsAfter(rows, registry, a)[id], RegistryAfter(rows, registry, a)[id], a.now(id))
    {
      TurnSettles(id, rows[id], Aligned(rows, registry, id), a);
    }
  }

  /**
   * A second round after a successful one calls the runtime for exactly those instances whose
   * backoff window has closed in between, and changes nothing else.
   */
  lemma SecondRound(rows: map<Id, Row>, registry: map<Id, RuntimeState>, a: Answers, b: Answers)
    requires AllSucceed(a)
    ensures var rows', registry' := RowsAfter(rows, registry, a), RegistryAfter(rows, registry, a);
            && CallsOf(rows', registry', b).Keys
               == (set id | id in rows' && RetryDue(rows'[id], registry'[id], b.now(id)))
            && (forall id :: id in rows' && id !in CallsOf(rows', registry', b) ==>
                  id in RowsAfter(rows', registry', b) && RowsAfter(rows', registry', b)[id] == rows'[id]
                  && id in RegistryAfter(rows', registry', b) &&
                      RegistryAfter(rows', registry', b)[id] == registry'[id])
  {
    var rows', registry' := RowsAfter(rows, registry, a), RegistryAfter(rows, registry, a);
    Converges(rows, registry, a);
    forall id | id in rows'
      ensures id in CallsOf(rows', registry', b) <==> RetryDue(rows'[id], registry'[id], b.now(id))
      ensures id !in CallsOf(rows', registry', b) ==>
          TurnOf(rows', registry', b, id) == Turn(rows'[id], registry'[id], None)
    {
      SettledActsExactly(id, rows'[id], registry'[id], b);
    }
  }

  /** A waiting command is acted on in every state but the two the table waits in, past auto_restart and backoff. */
  lemma CommandOverridesPolicy(id: Id, row: Row, state: RuntimeState, a: Answers)
    requires row.ShouldRun() && row.CommandWaiting()
    ensures Reconciled(id, row, state, a).call.Some? <==> state !in {Stopping, Disabled}
    ensures Reconciled(id, row, state, a).call.Some? ==>
              (Reconciled(id, row, state, a).row.observed == row.command <==>
               (if state == Stopped then a.start(id).ok else a.restart(id).ok) && a.writes(id).acknowledge)
  {
  }
}
