/**
 A reconcile round whose runtime is the instance manager itself, under any schedule of other tasks: the
 round is the one of `Reconciler` on the states it met, and what it promises to an instance depends on that
 instance alone.
 */
module Rounds {
  import opened Wrappers
  import opened Health
  import opened Runtime
  import opened Manager
  import Reconciler

  /** What the outside world answers to calls for one instance. */
  datatype Ask = Ask(cleanupOk: bool, idValid: bool, input: StartInput)
  {
    predicate Works() {
      cleanupOk && idValid && input.Starts()
    }
  }

  /**
   * The turn of one instance: the state it was met in, the answer to its call if there was one, and
   * its row afterwards.
   */
  datatype Taken = Taken(seen: RuntimeState, outcome: Reconciler.Outcome, row: Reconciler.Row,
                         call: Option<Reconciler.CallKind>)

  // ---------- one instance while others have their turns ----------

  /** Instance `id` was moved by other tasks alone. */
  ghost predicate Aside(a: World, b: World, id: Id) {
    && (id in a.registry <==> id in b.registry)
    && (id in a.registry ==> BystanderLe(a.registry[id], b.registry[id]))
    && (id in a.runs <==> id in b.runs)
    && (id in a.runs ==> b.runs[id] == a.runs[id])
    && DownKept(a, b, id)
  }

  lemma OnlyOnAside(a: World, b: World, id: Id)
    requires OnlyOn(a, b, id)
    ensures forall j :: j != id ==> Aside(a, b, j)
  {
    forall j | j != id ensures Aside(a, b, j) {
      DownThere(a, b, id, j);
      assert j in a.runs <==> j in a.runs - {id};
      assert j in b.runs <==> j in b.runs - {id};
      assert j in a.runs ==> (a.runs - {id})[j] == a.runs[j] && (b.runs - {id})[j] == b.runs[j];
      assert j in a.registry <==> j in a.registry.Keys - {id};
      assert j in b.registry <==> j in b.registry.Keys - {id};
    }
  }

  lemma EnvAside(a: World, b: World, id: Id)
    requires Inv(a, None) && EnvLe(a, b)
    ensures Aside(a, b, id)
  {
    assert id in a.registry ==> EntryLe(a, b, id);
    if Down(a, id) {
      DownStays(a, b, None, id, id);
    }
  }

  /** A running instance has its watcher, and its entry says so or that it crashed. */
  predicate Fit(w: World, id: Id) {
    id in w.runs ==>
      w.runs[id].watching && id in w.registry && w.registry[id].state in {Healthy, Degraded, Failed}
  }

  /** The decision table leaves the instance alone, and it runs only if it is wanted. */
  predicate AtRest(w: World, id: Id, row: Reconciler.Row) {
    && id in w.registry && Reconciler.Settled(row, w.registry[id].state)
    && (id in w.runs ==> row.ShouldRun())
  }

  lemma FitStays(a: World, b: World, id: Id)
    requires Fit(a, id) && Aside(a, b, id)
    ensures Fit(b, id)
  {
  }

  lemma AtRestStays(a: World, b: World, id: Id, row: Reconciler.Row)
    requires Inv(a, None) && Fit(a, id) && AtRest(a, id, row) && Aside(a, b, id)
    ensures AtRest(b, id, row)
  {
    if Probed(a.registry, id) {
      ProbedRuns(a, id);
    }
    hide Inv;
  }

  lemma ProbedRuns(w: World, id: Id)
    requires Inv(w, None) && Probed(w.registry, id)
    ensures id in w.runs
  {
  }

  /** A stop of the instance has failed, so that none can succeed any more, and its entry says Stopping. */
  predicate Stuck(w: World, id: Id) {
    id in w.runs && !w.runs[id].watching && id in w.registry && w.registry[id].state == Stopping
  }

  ghost predicate StuckKept(a: World, b: World, id: Id) {
    Stuck(a, id) ==> Stuck(b, id) && b.runs[id] == a.runs[id] && b.registry[id] == a.registry[id]
  }

  lemma StuckStays(start: World, a: World, b: World, id: Id)
    requires StuckKept(start, a, id) && Aside(a, b, id)
    ensures StuckKept(start, b, id)
  {
  }

  // ---------- before and after the turn ----------

  predicate StateLe(before: RuntimeState, after: RuntimeState) {
    || after == before || after == Failed
    || (before in {Healthy, Degraded} && after in {Healthy, Degraded})
  }

  function AlignedState(w: World, id: Id): RuntimeState {
    if id in w.registry then w.registry[id].state else Stopped
  }

  /** The turn of `id` is still to come. */
  ghost predicate Waits(start: World, w: World, id: Id, rows: map<Id, Reconciler.Row>) {
    && id in w.registry && StateLe(AlignedState(start, id), w.registry[id].state)
    && StuckKept(start, w, id)
    && (Fit(start, id) ==> Fit(w, id))
    && (id in rows && Fit(start, id) && AtRest(start, id, rows[id]) ==> AtRest(w, id, rows[id]))
  }

  lemma StillWaits(start: World, a: World, b: World, id: Id, rows: map<Id, Reconciler.Row>)
    requires Waits(start, a, id, rows) && Inv(a, None) && Aside(a, b, id)
    ensures Waits(start, b, id, rows)
  {
    if Fit(start, id) {
      FitStays(a, b, id);
      if id in rows && AtRest(start, id, rows[id]) {
        AtRestStays(a, b, id, rows[id]);
      }
    }
    StuckStays(start, a, b, id);
    hide Inv, DownKept, StuckKept;
  }

  /** The answers of a round in which every call for `id` is answered with `o`. */
  function Answered(a: Reconciler.Answers, o: Reconciler.Outcome): Reconciler.Answers {
    a.(listed := true, start := (id: Id) => o, restart := (id: Id) => o, stop := (id: Id) => o)
  }

  function TurnOf(id: Id, row: Reconciler.Row, t: Taken, a: Reconciler.Answers): Reconciler.Turn {
    Reconciler.Reconciled(id, row, t.seen, Answered(a, t.outcome))
  }

  /**
   * The turn of `id` was taken as the table decides on what it met, and other tasks have moved its
   * state on at most.
   */
  ghost predicate Decided(start: World, w: World, id: Id, row: Reconciler.Row, t: Taken, a: Reconciler.Answers) {
    && id in w.registry
    && TurnOf(id, row, t, a).row == t.row && TurnOf(id, row, t, a).call == t.call
    && StateLe(AlignedState(start, id), t.seen) && StateLe(TurnOf(id, row, t, a).state, w.registry[id].state)
  }

  /** What a turn promises to its own instance, and what still holds. */
  ghost predicate Kept(start: World, w: World, id: Id, row: Reconciler.Row, t: Taken, ask: Ask,
      a: Reconciler.Answers)
  {
    && StuckKept(start, w, id) && (Stuck(start, id) ==> t.call == None)
    && (t.call.Some? && t.outcome.ok ==> (id in w.runs <==> t.call.value != Reconciler.StopCall))
    && (Fit(start, id) && ask.cleanupOk ==> Fit(w, id))
    && (Fit(start, id) && ask.Works() ==>
          && (t.call.Some? ==> t.outcome.ok)
          && (a.writes(id) == Reconciler.ALL_WRITTEN ==> AtRest(w, id, t.row)))
    && (Fit(start, id) && AtRest(start, id, row) ==> (t.call.Some? <==> Reconciler.RetryDue(row, t.seen, a.now(id))))
  }

  ghost predicate Done(start: World, w: World, id: Id, row: Reconciler.Row, t: Taken, ask: Ask,
      a: Reconciler.Answers)
  {
    Decided(start, w, id, row, t, a) && Kept(start, w, id, row, t, ask, a)
  }

  lemma StillDone(start: World, v: World, w: World, id: Id, row: Reconciler.Row, t: Taken, ask: Ask,
                  a: Reconciler.Answers)
    requires Done(start, v, id, row, t, ask, a) && Inv(v, None) && Aside(v, w, id)
    ensures Done(start, w, id, row, t, ask, a)
  {
    if Fit(start, id) && ask.cleanupOk {
      FitStays(v, w, id);
      if ask.Works() && a.writes(id) == Reconciler.ALL_WRITTEN {
        AtRestStays(v, w, id, t.row);
      }
    }
    StuckStays(start, v, w, id);
    hide Inv, DownKept, TurnOf, StuckKept;
  }

  /** The orphan `id` was stopped, or tried to. */
  ghost predicate Dropped(start: World, w: World, id: Id, o: Reconciler.Outcome, ask: Ask) {
    && (id in w.registry <==> !o.ok)
    && StuckKept(start, w, id) && (Stuck(start, id) ==> !o.ok)
    && (!o.ok ==> StateLe(o.state, w.registry[id].state))
    && (Fit(start, id) && ask.cleanupOk ==> o.ok && id !in w.runs)
  }

  lemma StillDropped(start: World, v: World, w: World, id: Id, o: Reconciler.Outcome, ask: Ask)
    requires Dropped(start, v, id, o, ask) && Aside(v, w, id)
    ensures Dropped(start, w, id, o, ask)
  {
    StuckStays(start, v, w, id);
    hide StuckKept;
  }

  // ---------- the turn ----------

  /** A call on the manager. */
  method Call(m: InstanceManager, id: Id, kind: Reconciler.CallKind, ask: Ask, env: nat -> seq<Act>,
              env': nat -> seq<Act>)
    returns (o: Reconciler.Outcome)
    requires m.Valid(None) && id in m.registry
    modifies m
    ensures m.Valid(None) && OnlyOn(old(m.Snapshot()), m.Snapshot(), id)
    ensures id in m.registry && o.state == m.registry[id].state
    ensures Fit(old(m.Snapshot()), id) && ask.Works() && (kind == Reconciler.StartCall ==> id !in old(m.runs)) ==>
        o.ok
    ensures kind == Reconciler.StopCall && Fit(old(m.Snapshot()), id) && ask.cleanupOk ==> o.ok
    ensures Fit(old(m.Snapshot()), id) && ask.cleanupOk ==> Fit(m.Snapshot(), id)
    ensures o.ok ==> AsCalled(m.Snapshot(), id, kind)
  {
    hide Inv, EnvLe, OnlyOn, BackedStart, AfterStart, Fresh;
    var r;
    match kind {
      case StartCall => r := m.Start(id, ask.input, env);
      case StopCall => r := m.Stop(id, ask.cleanupOk, env);
      case RestartCall => r := m.Restart(id, ask.cleanupOk, ask.idValid, ask.input, env, env');
    }
    o := Reconciler.Outcome(r.Ok?, m.registry[id].state);
  }

  /** What a call that succeeded leaves behind. */
  predicate AsCalled(w: World, id: Id, kind: Reconciler.CallKind) {
    && id in w.registry
    && if kind == Reconciler.StopCall then id !in w.runs && w.registry[id].state == Stopped
       else id in w.runs && w.runs[id].watching && w.registry[id].state in {Healthy, Degraded, Failed}
  }

  method TakeTurn(m: InstanceManager, id: Id, row: Reconciler.Row, ask: Ask, a: Reconciler.Answers,
                  env: nat -> seq<Act>, env': nat -> seq<Act>)
    returns (t: Taken)
    requires m.Valid(None) && id in m.registry
    modifies m
    ensures m.Valid(None) && OnlyOn(old(m.Snapshot()), m.Snapshot(), id)
    ensures t.seen == old(m.registry)[id].state
    ensures Done(old(m.Snapshot()), m.Snapshot(), id, row, t, ask, a)
  {
    OnlyOnReflexive(m.Snapshot(), id);
    hide Inv, OnlyOn, Fit, Done, AsCalled;
    ghost var start := m.Snapshot();
    var seen := m.registry[id].state;
    var call := Reconciler.Reconciled(id, row, seen, a).call;
    if call.None? {
      t := Taken(seen, Reconciler.Outcome(true, seen), row, None);
      NoCall(start, id, row, t, ask, a);
      return;
    }
    var o := Call(m, id, call.value, ask, env, env');
    var row' := if call.value == Reconciler.StopCall then row
        else Reconciler.AfterCall(id, row, o, call.value, a).row;
    t := Taken(seen, o, row', call);
    Called(start, m.Snapshot(), id, row, t, ask, a);
  }

  lemma NoCall(w: World, id: Id, row: Reconciler.Row, t: Taken, ask: Ask, a: Reconciler.Answers)
    requires id in w.registry
    requires t == Taken(w.registry[id].state, Reconciler.Outcome(true, w.registry[id].state), row, None)
    requires Reconciler.Reconciled(id, row, t.seen, a).call.None?
    ensures Done(w, w, id, row, t, ask, a)
  {
  }

  lemma Called(start: World, w: World, id: Id, row: Reconciler.Row, t: Taken, ask: Ask, a: Reconciler.Answers)
    requires id in start.registry && t.seen == start.registry[id].state && t.call.Some?
    requires Reconciler.Reconciled(id, row, t.seen, a).call == t.call
    requires id in w.registry && t.outcome.state == w.registry[id].state
    requires t.row == if t.call.value == Reconciler.StopCall then row
                      else Reconciler.AfterCall(id, row, t.outcome, t.call.value, a).row
    requires Fit(start, id) && ask.Works() && (t.call.value == Reconciler.StartCall ==> id !in start.runs) ==>
        t.outcome.ok
    requires Fit(start, id) && ask.cleanupOk ==> Fit(w, id)
    requires t.outcome.ok ==> AsCalled(w, id, t.call.value)
    ensures Done(start, w, id, row, t, ask, a)
  {
    hide Fit, AsCalled, StuckKept, AtRest;
    assert Decided(start, w, id, row, t, a);
    CalledKept(start, w, id, row, t, ask, a);
    hide *;
  }

  lemma CalledKept(start: World, w: World, id: Id, row: Reconciler.Row, t: Taken, ask: Ask, a: Reconciler.Answers)
    requires id in start.registry && t.seen == start.registry[id].state && t.call.Some?
    requires Reconciler.Reconciled(id, row, t.seen, a).call == t.call
    requires id in w.registry && t.outcome.state == w.registry[id].state
    requires t.row == if t.call.value == Reconciler.StopCall then row
                      else Reconciler.AfterCall(id, row, t.outcome, t.call.value, a).row
    requires Fit(start, id) && ask.Works() && (t.call.value == Reconciler.StartCall ==> id !in start.runs) ==>
        t.outcome.ok
    requires Fit(start, id) && ask.cleanupOk ==> Fit(w, id)
    requires t.outcome.ok ==> AsCalled(w, id, t.call.value)
    ensures Kept(start, w, id, row, t, ask, a)
  {
  }

  lemma TurnAfterWait(start: World, v: World, w: World, id: Id, rows: map<Id, Reconciler.Row>, t: Taken, ask: Ask,
                      a: Reconciler.Answers)
    requires id in rows && Waits(start, v, id, rows) && t.seen == AlignedState(v, id)
    requires Done(v, w, id, rows[id], t, ask, a)
    ensures Done(start, w, id, rows[id], t, ask, a)
  {
  }

  method DropOrphan(m: InstanceManager, id: Id, ask: Ask, env: nat -> seq<Act>) returns (o: Reconciler.Outcome)
    requires m.Valid(None) && id in m.registry
    modifies m
    ensures m.Valid(None) && OnlyOn(old(m.Snapshot()), m.Snapshot(), id)
    ensures Dropped(old(m.Snapshot()), m.Snapshot(), id, o, ask)
  {
    hide Inv, OnlyOn, EnvLe;
    ghost var start := m.Snapshot();
    var r := m.Stop(id, ask.cleanupOk, env);
    o := Reconciler.Outcome(r.Ok?, m.registry[id].state);
    if r.Ok? {
      m.RemoveEntry(id, start);
    }
  }

  // ---------- the round ----------

  /** The row of `id` has not been aligned with the registry yet. */
  ghost predicate Unmet(start: World, w: World, id: Id, rows: map<Id, Reconciler.Row>) {
    if id in start.registry then Waits(start, w, id, rows)
    else id !in w.registry && (id in w.runs <==> id in start.runs)
  }

  /** A round in progress: who is not aligned yet, who waits, and who had its turn or was stopped as an orphan. */
  ghost predicate During(start: World, w: World, rows: map<Id, Reconciler.Row>, unmet: set<Id>, waiting: set<Id>,
      turns: map<Id, Taken>, stops: map<Id, Reconciler.Outcome>, asks: Id -> Ask, a: Reconciler.Answers)
  {
    && (forall id :: id in unmet ==> Unmet(start, w, id, rows))
    && (forall id :: id in waiting ==> Waits(start, w, id, rows))
    && (forall id :: id in turns ==> id in rows && Done(start, w, id, rows[id], turns[id], asks(id), a))
    && (forall id :: id in stops ==> Dropped(start, w, id, stops[id], asks(id)))
    && w.registry.Keys <= start.registry.Keys + rows.Keys
    && (forall id :: id !in start.registry && id !in rows ==> (id in w.runs <==> id in start.runs))
  }

  lemma RoundBegins(w: World, rows: map<Id, Reconciler.Row>, asks: Id -> Ask, a: Reconciler.Answers)
    ensures During(w, w, rows, rows.Keys, w.registry.Keys - rows.Keys, map[], map[], asks, a)
  {
  }

  /** Whatever happened to `id` alone and to everybody by other tasks, the rest of the round stands as it was. */
  lemma RoundStands(start: World, v: World, w: World, rows: map<Id, Reconciler.Row>, unmet: set<Id>, waiting: set<Id>,
                    turns: map<Id, Taken>, stops: map<Id, Reconciler.Outcome>, asks: Id -> Ask,
                    a: Reconciler.Answers, some: set<Id>)
    requires During(start, v, rows, unmet, waiting, turns, stops, asks, a) && Inv(v, None)
    requires forall j :: j !in some ==> Aside(v, w, j)
    requires some !! turns.Keys && some !! stops.Keys && some <= start.registry.Keys + rows.Keys
    ensures During(start, w, rows, unmet - some, waiting - some, turns, stops, asks, a)
  {
    hide Inv, Waits, Done, Dropped;
    forall id | id in unmet - some ensures Unmet(start, w, id, rows) {
      if id in start.registry { StillWaits(start, v, w, id, rows); }
    }
    forall id | id in waiting - some ensures Waits(start, w, id, rows) {
      StillWaits(start, v, w, id, rows);
    }
    forall id | id in turns ensures Done(start, w, id, rows[id], turns[id], asks(id), a) {
      StillDone(start, v, w, id, rows[id], turns[id], asks(id), a);
    }
    forall id | id in stops ensures Dropped(start, w, id, stops[id], asks(id)) {
      StillDropped(start, v, w, id, stops[id], asks(id));
    }
    forall id | id !in start.registry && id !in rows ensures id in w.runs <==> id in start.runs {
      assert Aside(v, w, id);
    }
    hide Aside;
    forall id | id in w.registry ensures id in start.registry.Keys + rows.Keys {
      if id !in some { InBoth(v, w, id); }
    }
  }

  lemma InBoth(v: World, w: World, id: Id)
    requires Aside(v, w, id)
    ensures id in v.registry <==> id in w.registry
  {
  }

  /** Other tasks run in the middle of a round. */
  method Others(m: InstanceManager, acts: seq<Act>, ghost start: World, ghost rows: map<Id, Reconciler.Row>,
      ghost unmet: set<Id>, ghost waiting: set<Id>, ghost turns: map<Id, Taken>,
      ghost stops: map<Id, Reconciler.Outcome>, ghost asks: Id -> Ask, ghost a: Reconciler.Answers)
    requires m.Valid(None) && During(start, m.Snapshot(), rows, unmet, waiting, turns, stops, asks, a)
    modifies m
    ensures m.Valid(None) && During(start, m.Snapshot(), rows, unmet, waiting, turns, stops, asks, a)
  {
    hide Inv, EnvLe, During, Aside;
    ghost var v := m.Snapshot();
    m.Others(acts, None);
    forall j ensures Aside(v, m.Snapshot(), j) { EnvAside(v, m.Snapshot(), j); }
    RoundStands(start, v, m.Snapshot(), rows, unmet, waiting, turns, stops, asks, a, {});
    assert unmet - {} == unmet && waiting - {} == waiting;
  }

  lemma Registered(start: World, v: World, w: World, rows: map<Id, Reconciler.Row>, unmet: set<Id>, waiting: set<Id>,
                   asks: Id -> Ask, a: Reconciler.Answers, id: Id)
    requires During(start, v, rows, unmet, waiting, map[], map[], asks, a) && Inv(v, None)
    requires id in unmet && id in rows && w == v.(registry := Insert(v.registry, id))
    ensures During(start, w, rows, unmet - {id}, waiting + {id}, map[], map[], asks, a)
  {
    forall j | j != id ensures Aside(v, w, j) {
    }
    RoundStands(start, v, w, rows, unmet, waiting, map[], map[], asks, a, {id});
    assert Waits(start, w, id, rows);
    hide Waits, Inv, Aside;
  }

  /** Every row gets an entry. */
  method Align(m: InstanceManager, rows: map<Id, Reconciler.Row>, between: Id -> seq<Act>, ghost asks: Id -> Ask,
      ghost a: Reconciler.Answers)
    requires m.Valid(None)
    modifies m
    ensures m.Valid(None)
    ensures During(old(m.Snapshot()), m.Snapshot(), rows, {}, old(m.registry).Keys + rows.Keys, map[], map[], asks, a)
  {
    ghost var start, all := m.Snapshot(), m.registry.Keys + rows.Keys;
    var todo := rows.Keys;
    RoundBegins(start, rows, asks, a);
    assert all - todo == m.registry.Keys - rows.Keys;
    hide Inv, During, Insert;
    while todo != {}
      invariant m.Valid(None) && todo <= rows.Keys
      invariant During(start, m.Snapshot(), rows, todo, all - todo, map[], map[], asks, a)
      decreases todo
    {
      var id := Pick(todo);
      ghost var v := m.Snapshot();
      m.Register(id);
      Registered(start, v, m.Snapshot(), rows, todo, all - todo, asks, a, id);
      assert (all - todo) + {id} == all - (todo - {id});
      todo := todo - {id};
      Others(m, between(id), start, rows, todo, all - todo, map[], map[], asks, a);
    }
    assert all - todo == all;
  }

  lemma OrphanDropped(start: World, v: World, w: World, rows: map<Id, Reconciler.Row>, waiting: set<Id>,
                      stops: map<Id, Reconciler.Outcome>, asks: Id -> Ask, a: Reconciler.Answers, id: Id,
                      o: Reconciler.Outcome)
    requires During(start, v, rows, {}, waiting, map[], stops, asks, a) && Inv(v, None) && OnlyOn(v, w, id)
    requires id in waiting && id !in rows && id !in stops && id in start.registry && Dropped(v, w, id, o, asks(id))
    ensures During(start, w, rows, {}, waiting - {id}, map[], stops[id := o], asks, a)
  {
    OnlyOnAside(v, w, id);
    hide Inv, OnlyOn, Aside;
    RoundStands(start, v, w, rows, {}, waiting, map[], stops, asks, a, {id});
    assert Dropped(start, w, id, o, asks(id));
    hide Dropped, Waits;
  }

  method DropNext(m: InstanceManager, rows: map<Id, Reconciler.Row>, ghost start: World, asks: Id -> Ask,
                  ghost a: Reconciler.Answers, env: nat -> seq<Act>, before: seq<Act>, ghost waiting: set<Id>,
                  ghost stops: map<Id, Reconciler.Outcome>, id: Id)
    returns (o: Reconciler.Outcome)
    requires m.Valid(None) && During(start, m.Snapshot(), rows, {}, waiting, map[], stops, asks, a)
    requires id in waiting && id !in rows && id !in stops && id in start.registry
    modifies m
    ensures m.Valid(None)
    ensures During(start, m.Snapshot(), rows, {}, waiting - {id}, map[], stops[id := o], asks, a)
  {
    hide Inv, During, OnlyOn, Dropped;
    Others(m, before, start, rows, {}, waiting, map[], stops, asks, a);
    ghost var v := m.Snapshot();
    WaitersListed(start, v, rows, waiting, map[], stops, asks, a);
    o := DropOrphan(m, id, asks(id), env);
    OrphanDropped(start, v, m.Snapshot(), rows, waiting, stops, asks, a, id, o);
  }

  /** Entries without a row are stopped, and leave the registry only if that worked. */
  method DropOrphans(m: InstanceManager, rows: map<Id, Reconciler.Row>, ghost start: World, asks: Id -> Ask,
      ghost a: Reconciler.Answers, env: (Id, nat) -> seq<Act>, between: Id -> seq<Act>)
    returns (stops: map<Id, Reconciler.Outcome>)
    requires m.Valid(None)
    requires During(start, m.Snapshot(), rows, {}, start.registry.Keys + rows.Keys, map[], map[], asks, a)
    modifies m
    ensures m.Valid(None) && stops.Keys == start.registry.Keys - rows.Keys
    ensures During(start, m.Snapshot(), rows, {}, rows.Keys, map[], stops, asks, a)
  {
    stops := map[];
    WaitersListed(start, m.Snapshot(), rows, start.registry.Keys + rows.Keys, map[], map[], asks, a);
    var todo := m.registry.Keys - rows.Keys;
    ghost var orphans := start.registry.Keys - rows.Keys;
    assert todo == orphans && rows.Keys + todo == start.registry.Keys + rows.Keys;
    hide Inv, During;
    while todo != {}
      invariant m.Valid(None) && todo <= orphans && stops.Keys == orphans - todo
      invariant During(start, m.Snapshot(), rows, {}, rows.Keys + todo, map[], stops, asks, a)
      decreases todo
    {
      var id := Pick(todo);
      var o := DropNext(m, rows, start, asks, a, (k: nat) => env(id, k), between(id), rows.Keys + todo, stops, id);
      assert rows.Keys + todo - {id} == rows.Keys + (todo - {id});
      stops, todo := stops[id := o], todo - {id};
    }
    assert rows.Keys + todo == rows.Keys;
  }

  lemma WaitersListed(start: World, w: World, rows: map<Id, Reconciler.Row>, waiting: set<Id>, turns: map<Id, Taken>,
                      stops: map<Id, Reconciler.Outcome>, asks: Id -> Ask, a: Reconciler.Answers)
    requires During(start, w, rows, {}, waiting, turns, stops, asks, a)
    ensures waiting <= w.registry.Keys
  {
    forall id | id in waiting ensures id in w.registry { assert Waits(start, w, id, rows); }
  }

  lemma TurnTaken(start: World, v: World, w: World, rows: map<Id, Reconciler.Row>, waiting: set<Id>,
                  turns: map<Id, Taken>, stops: map<Id, Reconciler.Outcome>, asks: Id -> Ask, a: Reconciler.Answers,
                  id: Id, t: Taken)
    requires During(start, v, rows, {}, waiting, turns, stops, asks, a) && Inv(v, None) && OnlyOn(v, w, id)
    requires id in waiting && id in rows && id !in turns && id !in stops
    requires t.seen == AlignedState(v, id) && Done(v, w, id, rows[id], t, asks(id), a)
    ensures During(start, w, rows, {}, waiting - {id}, turns[id := t], stops, asks, a)
  {
    OnlyOnAside(v, w, id);
    hide Inv, OnlyOn, Aside;
    TurnAfterWait(start, v, w, id, rows, t, asks(id), a);
    hide Done, Waits;
    RoundStands(start, v, w, rows, {}, waiting, turns, stops, asks, a, {id});
  }

  method TakeTurns(m: InstanceManager, rows: map<Id, Reconciler.Row>, ghost start: World, asks: Id -> Ask,
                   a: Reconciler.Answers, env: (Id, nat) -> seq<Act>, env': (Id, nat) -> seq<Act>,
                   between: Id -> seq<Act>, ghost stops: map<Id, Reconciler.Outcome>)
    returns (turns: map<Id, Taken>)
    requires m.Valid(None) && stops.Keys !! rows.Keys
    requires During(start, m.Snapshot(), rows, {}, rows.Keys, map[], stops, asks, a)
    modifies m
    ensures m.Valid(None) && turns.Keys == rows.Keys
    ensures During(start, m.Snapshot(), rows, {}, {}, turns, stops, asks, a)
  {
    turns := map[];
    var todo := rows.Keys;
    hide Inv, During, OnlyOn, Done;
    while todo != {}
      invariant m.Valid(None) && todo <= rows.Keys && turns.Keys == rows.Keys - todo
      invariant During(start, m.Snapshot(), rows, {}, todo, turns, stops, asks, a)
      decreases todo
    {
      var id := Pick(todo);
      Others(m, between(id), start, rows, {}, todo, turns, stops, asks, a);
      ghost var v := m.Snapshot();
      WaitersListed(start, v, rows, todo, turns, stops, asks, a);
      var t := TakeTurn(m, id, rows[id], asks(id), a, (k: nat) => env(id, k), (k: nat) => env'(id, k));
      TurnTaken(start, v, m.Snapshot(), rows, todo, turns, stops, asks, a, id, t);
      turns, todo := turns[id := t], todo - {id};
    }
  }

  /**
   * `reconcile_once` without the proxy synchronisation. What becomes of an instance is a matter of its own row,
   * its own entry and the answers to its own call, whatever happens to the others and whatever else runs.
   */
  method ReconcileOnce(m: InstanceManager, rows: map<Id, Reconciler.Row>, asks: Id -> Ask, a: Reconciler.Answers,
                       env: (Id, nat) -> seq<Act>, env': (Id, nat) -> seq<Act>, between: (nat, Id) -> seq<Act>)
    returns (turns: map<Id, Taken>, stops: map<Id, Reconciler.Outcome>)
    requires m.Valid(None)
    modifies m
    ensures m.Valid(None)
    ensures !a.listed ==> m.Snapshot() == old(m.Snapshot()) && turns == map[] && stops == map[]
    ensures a.listed ==> turns.Keys == rows.Keys && stops.Keys == old(m.registry).Keys - rows.Keys
    ensures a.listed ==> During(old(m.Snapshot()), m.Snapshot(), rows, {}, {}, turns, stops, asks, a)
  {
    if !a.listed { return map[], map[]; }
    ghost var start := m.Snapshot();
    hide Inv, During;
    Align(m, rows, (id: Id) => between(0, id), asks, a);
    stops := DropOrphans(m, rows, start, asks, a, env, (id: Id) => between(1, id));
    turns := TakeTurns(m, rows, start, asks, a, env, env', (id: Id) => between(2, id), stops);
  }

  // ---------- what the round amounts to ----------

  /** The states that the round met, and the answers that it got. */
  function Met(turns: map<Id, Taken>, stops: map<Id, Reconciler.Outcome>): map<Id, RuntimeState> {
    map id | id in turns.Keys + stops.Keys :: if id in turns then turns[id].seen else stops[id].state
  }

  function Got(turns: map<Id, Taken>, stops: map<Id, Reconciler.Outcome>, a: Reconciler.Answers): Reconciler.Answers {
    var of := (id: Id) =>
      if id in turns then turns[id].outcome else if id in stops then stops[id] else Reconciler.Outcome(true, Stopped);
    a.(listed := true, start := of, restart := of, stop := of)
  }

  lemma TurnOfGot(id: Id, row: Reconciler.Row, state: RuntimeState, a: Reconciler.Answers, b: Reconciler.Answers,
                  o: Reconciler.Outcome)
    requires b.start(id) == o && b.restart(id) == o && b.stop(id) == o
    requires b.writes == a.writes && b.now == a.now && b.ended == a.ended && b.base == a.base && b.max == a.max
    ensures Reconciler.Reconciled(id, row, state, b) == Reconciler.Reconciled(id, row, state, Answered(a, o))
  {
  }

  /**
   * The round is the one that the decision table describes, on the states it met and the answers it got: the
   * same rows, the same calls and the same entries, in states that other tasks may have moved on since.
   */
  lemma RoundIsDecided(start: World, w: World, rows: map<Id, Reconciler.Row>, turns: map<Id, Taken>,
                       stops: map<Id, Reconciler.Outcome>, asks: Id -> Ask, a: Reconciler.Answers)
    requires During(start, w, rows, {}, {}, turns, stops, asks, a)
    requires turns.Keys == rows.Keys && stops.Keys == start.registry.Keys - rows.Keys
    ensures var met, got := Met(turns, stops), Got(turns, stops, a);
            && Reconciler.RowsAfter(rows, met, got) == (map id | id in turns :: turns[id].row)
            && Reconciler.CallsOf(rows, met, got)
               == (map id | id in turns.Keys + stops.Keys && (id in turns ==> turns[id].call.Some?) ::
                     if id in turns then turns[id].call.value else Reconciler.StopCall)
            && Reconciler.RegistryAfter(rows, met, got).Keys == w.registry.Keys
            && (forall id :: id in w.registry ==>
                  StateLe(Reconciler.RegistryAfter(rows, met, got)[id], w.registry[id].state))
            && (forall id :: id in rows ==> StateLe(AlignedState(start, id), met[id]))
  {
    var met, got := Met(turns, stops), Got(turns, stops, a);
    forall id | id in rows
      ensures Reconciler.TurnOf(rows, met, got, id) == TurnOf(id, rows[id], turns[id], a)
      ensures TurnOf(id, rows[id], turns[id], a).row == turns[id].row
      ensures TurnOf(id, rows[id], turns[id], a).call == turns[id].call
      ensures StateLe(AlignedState(start, id), met[id])
    {
      TurnOfGot(id, rows[id], turns[id].seen, a, got, turns[id].outcome);
      assert Done(start, w, id, rows[id], turns[id], asks(id), a);
    }
    hide Done, TurnOf;
    forall id
      ensures id in Reconciler.RegistryAfter(rows, met, got) <==> id in w.registry
      ensures id in w.registry ==> StateLe(Reconciler.RegistryAfter(rows, met, got)[id], w.registry[id].state)
    {
      EntryDecided(start, w, rows, turns, stops, asks, a, id);
    }
    TurnsDecided(rows, turns, stops, met, got);
    hide *;
  }

  lemma TurnsDecided(rows: map<Id, Reconciler.Row>, turns: map<Id, Taken>, stops: map<Id, Reconciler.Outcome>,
                     met: map<Id, RuntimeState>, got: Reconciler.Answers)
    requires turns.Keys == rows.Keys && met.Keys == turns.Keys + stops.Keys
    requires forall id :: id in rows ==>
               && Reconciler.TurnOf(rows, met, got, id).row == turns[id].row
               && Reconciler.TurnOf(rows, met, got, id).call == turns[id].call
    ensures Reconciler.RowsAfter(rows, met, got) == (map id | id in turns :: turns[id].row)
    ensures Reconciler.CallsOf(rows, met, got)
            == (map id | id in turns.Keys + stops.Keys && (id in turns ==> turns[id].call.Some?) ::
                  if id in turns then turns[id].call.value else Reconciler.StopCall)
  {
    hide Reconciler.TurnOf;
  }

  lemma EntryDecided(start: World, w: World, rows: map<Id, Reconciler.Row>, turns: map<Id, Taken>,
                     stops: map<Id, Reconciler.Outcome>, asks: Id -> Ask, a: Reconciler.Answers, id: Id)
    requires During(start, w, rows, {}, {}, turns, stops, asks, a)
    requires turns.Keys == rows.Keys && stops.Keys == start.registry.Keys - rows.Keys
    requires id in rows ==>
               Reconciler.TurnOf(rows, Met(turns, stops), Got(turns, stops, a), id) ==
                   TurnOf(id, rows[id], turns[id], a)
    ensures var after := Reconciler.RegistryAfter(rows, Met(turns, stops), Got(turns, stops, a));
            && (id in after <==> id in w.registry)
            && (id in w.registry ==> StateLe(after[id], w.registry[id].state))
  {
    hide TurnOf, Reconciler.TurnOf;
    if id in rows {
      assert Done(start, w, id, rows[id], turns[id], asks(id), a);
    } else if id in stops {
      assert Dropped(start, w, id, stops[id], asks(id));
    }
  }

  /** A wanted instance that is down, or for which a command waits, unless the table waits for its stop. */
  predicate MustRun(row: Reconciler.Row, seen: RuntimeState) {
    row.ShouldRun() && seen !in {Stopping, Disabled} && (seen == Stopped || row.CommandWaiting())
  }

  /**
   * Under every schedule and whatever becomes of the others: an instance whose stops have worked and whose calls
   * work is settled after the round; it is in the runs table only if its row wants it, and then surely if it was
   * met Stopped or a command waited. One whose stops work stays fit for the next round even if its start fails.
   */
  lemma RoundSettles(start: World, w: World, rows: map<Id, Reconciler.Row>, turns: map<Id, Taken>,
                     stops: map<Id, Reconciler.Outcome>, asks: Id -> Ask, a: Reconciler.Answers, id: Id)
    requires During(start, w, rows, {}, {}, turns, stops, asks, a)
    requires turns.Keys == rows.Keys && stops.Keys == start.registry.Keys - rows.Keys
    requires Fit(start, id) && asks(id).cleanupOk
    ensures Fit(w, id) && (id in w.registry <==> id in rows)
    ensures asks(id).Works() && a.writes(id) == Reconciler.ALL_WRITTEN ==>
              && (id in rows ==> AtRest(w, id, turns[id].row) && turns[id].row.ShouldRun() == rows[id].ShouldRun())
              && (id in w.runs ==> id in rows && rows[id].ShouldRun())
              && (id in rows && MustRun(rows[id], turns[id].seen) ==> id in w.runs)
  {
  }

  /** A whole round that works: every process left belongs to a wanted instance, but for leaked daemons. */
  lemma RoundLeavesWanted(start: World, w: World, rows: map<Id, Reconciler.Row>, turns: map<Id, Taken>,
                          stops: map<Id, Reconciler.Outcome>, asks: Id -> Ask, a: Reconciler.Answers, c: Child)
    requires During(start, w, rows, {}, {}, turns, stops, asks, a) && Inv(w, None)
    requires turns.Keys == rows.Keys && stops.Keys == start.registry.Keys - rows.Keys
    requires forall id :: Fit(start, id) && asks(id).Works() && a.writes(id) == Reconciler.ALL_WRITTEN
    requires c in w.children
    ensures || (c.Dbus? && c.token in w.leaked)
            || exists id :: id in rows && rows[id].ShouldRun() && id in w.runs && w.runs[id] == Running(c.token, true)
  {
    assert ChildOk(w, None, c);
    hide During, Inv;
    if !(c.Dbus? && c.token in w.leaked) {
      RoundSettles(start, w, rows, turns, stops, asks, a, w.tasks[c.token].id);
    }
  }

  // ---------- all rounds ----------

  function RowsOf(turns: map<Id, Taken>): map<Id, Reconciler.Row> {
    map id | id in turns :: turns[id].row
  }

  /** Everybody is fit, and all that is listed is settled. */
  ghost predicate AllAtRest(w: World, rows: map<Id, Reconciler.Row>) {
    (forall id :: Fit(w, id)) && forall id :: id in rows ==> AtRest(w, id, rows[id])
  }

  lemma RoundToRest(start: World, w: World, rows: map<Id, Reconciler.Row>, turns: map<Id, Taken>,
                    stops: map<Id, Reconciler.Outcome>, asks: Id -> Ask, a: Reconciler.Answers)
    requires During(start, w, rows, {}, {}, turns, stops, asks, a)
    requires turns.Keys == rows.Keys && stops.Keys == start.registry.Keys - rows.Keys
    requires forall id :: Fit(start, id) && asks(id).Works() && a.writes(id) == Reconciler.ALL_WRITTEN
    ensures AllAtRest(w, RowsOf(turns)) && w.registry.Keys == rows.Keys
    ensures AllAtRest(start, rows) ==> OnlyRetries(rows, turns, a)
  {
    forall id
      ensures Fit(w, id) && (id in w.registry <==> id in rows)
      ensures id in rows ==> AtRest(w, id, turns[id].row)
      ensures id in rows && AtRest(start, id, rows[id]) ==>
                (turns[id].call.Some? <==> Reconciler.RetryDue(rows[id], turns[id].seen, a.now(id)))
    {
      RoundSettles(start, w, rows, turns, stops, asks, a, id);
      assert id in rows ==> Done(start, w, id, rows[id], turns[id], asks(id), a);
    }
    hide During, Fit, AtRest, Done;
    assert forall id :: id in w.registry <==> id in rows;
    assert w.registry.Keys == rows.Keys;
  }

  /** The calls of a round are exactly the retries that are due. */
  predicate OnlyRetries(rows: map<Id, Reconciler.Row>, turns: map<Id, Taken>, a: Reconciler.Answers)
    requires turns.Keys == rows.Keys
  {
    forall id :: id in rows ==>
      (turns[id].call.Some? <==> Reconciler.RetryDue(rows[id], turns[id].seen, a.now(id)))
  }

  /**
   * Any number of rounds over rows that nobody changes, with calls that work, under any schedule: after each
   * round everybody is settled, and from the second on the only calls are retries whose window has closed.
   */
  method AllRounds(m: InstanceManager, rows: map<Id, Reconciler.Row>, asks: Id -> Ask, a: seq<Reconciler.Answers>,
                   env: (nat, Id, nat) -> seq<Act>, env': (nat, Id, nat) -> seq<Act>,
                   between: (nat, nat, Id) -> seq<Act>)
    returns (history: seq<map<Id, Taken>>)
    requires m.Valid(None) && forall id :: Fit(m.Snapshot(), id) && asks(id).Works()
    requires forall k :: 0 <= k < |a| ==> a[k].listed
    requires forall k, id :: 0 <= k < |a| ==> a[k].writes(id) == Reconciler.ALL_WRITTEN
    modifies m
    ensures m.Valid(None) && |history| == |a| && forall k :: 0 <= k < |a| ==> history[k].Keys == rows.Keys
    ensures forall k :: 1 <= k < |a| ==> OnlyRetries(RowsOf(history[k - 1]), history[k], a[k])
    ensures |a| > 0 ==> m.registry.Keys == rows.Keys && AllAtRest(m.Snapshot(), RowsOf(history[|a| - 1]))
  {
    history := [];
    hide Inv, During, Fit, AtRest, OnlyRetries;
    for k := 0 to |a|
      invariant m.Valid(None) && |history| == k && forall i :: 0 <= i < k ==> history[i].Keys == rows.Keys
      invariant forall i :: 1 <= i < k ==> OnlyRetries(RowsOf(history[i - 1]), history[i], a[i])
      invariant forall id :: Fit(m.Snapshot(), id)
      invariant k > 0 ==> m.registry.Keys == rows.Keys && AllAtRest(m.Snapshot(), RowsOf(history[k - 1]))
    {
      ghost var start := m.Snapshot();
      var listed := if k == 0 then rows else RowsOf(history[k - 1]);
      var turns, stops := ReconcileOnce(m, listed, asks, a[k], (id: Id, i: nat) => env(k, id, i),
        (id: Id, i: nat) => env'(k, id, i), (i: nat, id: Id) => between(k, i, id));
      RoundToRest(start, m.Snapshot(), listed, turns, stops, asks, a[k]);
      history := history + [turns];
    }
  }
}
