/**
 What becomes of an instance whose stop has failed: its runs entry has no watcher handle any more, so
 no stop can succeed. While its row is listed, an entry that says Stopping makes the reconciler wait for
 good; once the row is deleted it tries to stop the orphan in every round, fails, and keeps the entry.
 */
module SpentInstances {
  import opened Wrappers
  import opened Health
  import opened Runtime
  import opened Manager
  import opened Rounds
  import Reconciler

  /**
   * As decided, whatever else is in the tables and whatever the runtime answers: a round calls for such an
   * instance exactly if its row is gone, and then to stop it. The entry goes exactly if that stop succeeds,
   * and a listed row stays as it is.
   */
  lemma StuckDecision(rows: map<Id, Reconciler.Row>, registry: map<Id, RuntimeState>, a: Reconciler.Answers, id: Id)
    requires id in registry && registry[id] == Stopping
    ensures var calls := Reconciler.CallsOf(rows, registry, a);
            (id in calls <==> id !in rows) && (id in calls ==> calls[id] == Reconciler.StopCall)
    ensures id in Reconciler.RegistryAfter(rows, registry, a) <==> id in rows || !a.stop(id).ok
    ensures id in rows ==>
              && Reconciler.RegistryAfter(rows, registry, a)[id] == Stopping
              && Reconciler.RowsAfter(rows, registry, a)[id] == rows[id]
              && Reconciler.Settled(rows[id], Stopping)
  {
  }

  /** What a round meets: the rows as the handlers have left them, and the answers to its calls. */
  datatype Round = Round(rows: map<Id, Reconciler.Row>, asks: Id -> Ask, answers: Reconciler.Answers)

  /** What a round did about one instance: the kind of call, if any, and its success. */
  datatype Called = Called(kind: Reconciler.CallKind, ok: bool)

  function CallFor(id: Id, turns: map<Id, Taken>, stops: map<Id, Reconciler.Outcome>): Option<Called> {
    if id in stops then Some(Called(Reconciler.StopCall, stops[id].ok))
    else if id in turns && turns[id].call.Some? then Some(Called(turns[id].call.value, turns[id].outcome.ok))
    else None
  }

  lemma StuckInRound(start: World, w: World, rows: map<Id, Reconciler.Row>, turns: map<Id, Taken>,
                     stops: map<Id, Reconciler.Outcome>, asks: Id -> Ask, a: Reconciler.Answers, id: Id)
    requires During(start, w, rows, {}, {}, turns, stops, asks, a) && Stuck(start, id)
    requires turns.Keys == rows.Keys && stops.Keys == start.registry.Keys - rows.Keys
    ensures StuckKept(start, w, id)
    ensures CallFor(id, turns, stops) == if id in rows then None else Some(Called(Reconciler.StopCall, false))
  {
    if id in rows {
      assert Done(start, w, id, rows[id], turns[id], asks(id), a);
    } else {
      assert Dropped(start, w, id, stops[id], asks(id));
    }
  }

  /**
   * Over any number of rounds, with any rows listed in each, whatever is called for other instances and under any
   * schedule of other tasks in and between them: the instance stays exactly as it is. What is called for it is a
   * stop, which fails, in every round that lists the rows without its own, and nothing in the others.
   */
  method LeftAloneForever(m: InstanceManager, id: Id, rounds: seq<Round>, env: (nat, Id, nat) -> seq<Act>,
                          env': (nat, Id, nat) -> seq<Act>, between: (nat, nat, Id) -> seq<Act>,
                          pause: nat -> seq<Act>)
    returns (calls: seq<Option<Called>>)
    requires m.Valid(None) && Stuck(m.Snapshot(), id)
    modifies m
    ensures m.Valid(None) && Stuck(m.Snapshot(), id)
    ensures m.runs[id] == old(m.runs)[id] && m.registry[id] == old(m.registry)[id]
    ensures |calls| == |rounds| && forall k :: 0 <= k < |rounds| ==> calls[k] == StuckCall(rounds[k], id)
  {
    calls := [];
    hide Inv, EnvLe, During, Aside, StuckCall, CallFor, DownKept;
    for k := 0 to |rounds|
      invariant m.Valid(None) && Stuck(m.Snapshot(), id)
      invariant m.runs[id] == old(m.runs)[id] && m.registry[id] == old(m.registry)[id]
      invariant |calls| == k && forall i :: 0 <= i < k ==> calls[i] == StuckCall(rounds[i], id)
    {
      ghost var before := m.Snapshot();
      m.Others(pause(k), None);
      EnvAside(before, m.Snapshot(), id);
      StuckStays(before, before, m.Snapshot(), id);
      ghost var start := m.Snapshot();
      var round := rounds[k];
      var turns, stops := ReconcileOnce(m, round.rows, round.asks, round.answers,
        (j: Id, i: nat) => env(k, j, i), (j: Id, i: nat) => env'(k, j, i), (i: nat, j: Id) => between(k, i, j));
      StuckAfter(start, m.Snapshot(), round, turns, stops, id);
      calls := calls + [CallFor(id, turns, stops)];
    }
  }

  /** What a round calls for a stuck instance, and with what result. */
  function StuckCall(round: Round, id: Id): Option<Called> {
    if round.answers.listed && id !in round.rows then Some(Called(Reconciler.StopCall, false)) else None
  }

  lemma StuckAfter(start: World, w: World, round: Round, turns: map<Id, Taken>, stops: map<Id, Reconciler.Outcome>,
                   id: Id)
    requires Stuck(start, id)
    requires !round.answers.listed ==> w == start && turns == map[] && stops == map[]
    requires round.answers.listed ==>
               && turns.Keys == round.rows.Keys && stops.Keys == start.registry.Keys - round.rows.Keys
               && During(start, w, round.rows, {}, {}, turns, stops, round.asks, round.answers)
    ensures StuckKept(start, w, id)
    ensures CallFor(id, turns, stops) == StuckCall(round, id)
  {
    if round.answers.listed {
      StuckInRound(start, w, round.rows, turns, stops, round.asks, round.answers, id);
    }
  }
}
