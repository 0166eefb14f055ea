/**
 Restart commands as a protocol between the HTTP handlers, which only count commands up, and the
 reconciler, which lists the rows once per round and acknowledges from that listing. Handler steps
 fall anywhere between the reconciler's steps. `born` tells apart rows that reuse one rowid.
 */
module RestartCommands {
  import opened Wrappers

  type Id = nat

  type Profile = Option<int>

  /** `requests[g - 1]` is the time at which command `g` of this row was recorded. */
  datatype Row = Row(
    born: nat,
    command: nat,
    observed: nat,
    profile: Profile,
    pending: bool,
    requests: seq<nat>)

  /** A runtime call in progress: its row as listed, and what the table held when the call began. */
  datatype Call = Call(id: Id, spec: Row, began: nat, atBegin: Option<Row>)

  datatype Phase =
    | Idle
    | Round(listed: map<Id, Row>)
    | Calling(listed: map<Id, Row>, call: Call)
    | Clearing(listed: map<Id, Row>, call: Call)
    | Acknowledging(listed: map<Id, Row>, call: Call)

  /**
   * `lastStart[id]` is the beginning of the latest successful start or restart of instance `id`, with
   * its profile.
   */
  datatype Sys = Sys(
    rows: map<Id, Row>,
    births: nat,
    clock: nat,
    phase: Phase,
    lastStart: map<Id, nat>,
    running: map<Id, Profile>)

  datatype Action =
    | Create(profile: Profile)
    | RequestRestart(id: Id)
    | Rebind(id: Id, profile: Profile)
    | Delete(id: Id)
    | List
    | Stop(id: Id)
    | Begin(id: Id)
    | Fail
    | Succeed
    | ClearPending
    | Acknowledge
    | EndRound

  const INITIAL := Sys(map[], 0, 1, Idle, map[], map[])

  /** Rowids without AUTOINCREMENT: one more than the largest in use. */
  ghost predicate IsNextRowid(rows: map<Id, Row>, id: Id) {
    id >= 1 && id !in rows && (forall j :: j in rows ==> j < id) && (id > 1 ==> id - 1 in rows)
  }

  function Max(a: nat, b: nat): nat {
    if a >= b then a else b
  }

  // ---------- the statements of the repository ----------

  function Inserted(rows: map<Id, Row>, id: Id, born: nat, profile: Profile): map<Id, Row> {
    rows[id := Row(born, 0, 0, profile, false, [])]
  }

  /** `request_restart` */
  function Requested(rows: map<Id, Row>, id: Id, now: nat): map<Id, Row> {
    if id in rows then
      var r := rows[id];
      rows[id := r.(command := r.command + 1, requests := r.requests + [now])]
    else rows
  }

  /** `rebind_profile_guarded` after its guard */
  function Rebound(rows: map<Id, Row>, id: Id, profile: Profile): map<Id, Row> {
    if id in rows then rows[id := rows[id].(profile := profile, pending := true)] else rows
  }

  /** `clear_restart_pending` */
  function Cleared(rows: map<Id, Row>, id: Id): map<Id, Row> {
    if id in rows then rows[id := rows[id].(pending := false)] else rows
  }

  /** `acknowledge_restart`, with its MAX guard */
  function Acknowledged(rows: map<Id, Row>, id: Id, generation: nat): map<Id, Row> {
    if id in rows then rows[id := rows[id].(observed := Max(rows[id].observed, generation))] else rows
  }

  function Lookup(rows: map<Id, Row>, id: Id): Option<Row> {
    if id in rows then Some(rows[id]) else None
  }

  // ---------- one step ----------

  ghost predicate Next(s: Sys, a: Action, s': Sys) {
    var t := s.(clock := s.clock + 1);
    match a
    case Create(profile) =>
      exists id :: IsNextRowid(s.rows, id) &&
        s' == t.(rows := Inserted(s.rows, id, s.births, profile), births := s.births + 1)
    case RequestRestart(id) => s' == t.(rows := Requested(s.rows, id, s.clock))
    case Rebind(id, profile) => s' == t.(rows := Rebound(s.rows, id, profile))
    case Delete(id) => s' == t.(rows := s.rows - {id})
    case List => s.phase.Idle? && s' == t.(phase := Round(s.rows))
    case Stop(id) => s.phase.Round? && s' == t.(running := s.running - {id})
    case Begin(id) =>
      && s.phase.Round? && id in s.phase.listed
      && s' == t.(phase := Calling(s.phase.listed - {id}, Call(id, s.phase.listed[id], s.clock, Lookup(s.rows, id))))
    case Fail => s.phase.Calling? && s' == t.(phase := Round(s.phase.listed))
    case Succeed =>
      && s.phase.Calling?
      && var c := s.phase.call;
         s' == t.(phase := Clearing(s.phase.listed, c), lastStart := s.lastStart[c.id := c.began],
                  running := s.running[c.id := c.spec.profile])
    case ClearPending =>
      && s.phase.Clearing?
      && s' == t.(phase := Acknowledging(s.phase.listed, s.phase.call), rows := Cleared(s.rows, s.phase.call.id))
    case Acknowledge =>
      && s.phase.Acknowledging?
      && s' == t.(phase := Round(s.phase.listed),
                  rows := Acknowledged(s.rows, s.phase.call.id, s.phase.call.spec.command))
    case EndRound => s.phase.Round? && s' == t.(phase := Idle)
  }

  // ---------- what the program promises ----------

  /** Command `g` of the row was recorded before the latest successful start of `id` began. */
  predicate Covered(s: Sys, id: Id, g: nat)
    requires id in s.rows && 0 < g <= |s.rows[id].requests|
  {
    id in s.lastStart && s.rows[id].requests[g - 1] < s.lastStart[id]
  }

  /** No acknowledged command is lost, and no command is acknowledged before it exists. */
  predicate NoneLost(s: Sys, id: Id)
    requires id in s.rows && s.rows[id].command == |s.rows[id].requests|
  {
    s.rows[id].observed <= s.rows[id].command && forall g :: 0 < g <= s.rows[id].observed ==> Covered(s, id, g)
  }

  ghost predicate HistoryOk(s: Sys, r: Row) {
    && r.born < s.births && r.command == |r.requests|
    && (forall i :: 0 <= i < |r.requests| ==> r.requests[i] < s.clock)
    && (forall i, j :: 0 <= i < j < |r.requests| ==> r.requests[i] < r.requests[j])
  }

  /** An earlier reading of a row against the row now under that id. */
  ghost predicate ReadingOk(s: Sys, id: Id, before: Row) {
    && before.born < s.births
    && (id in s.rows && s.rows[id].born == before.born ==>
          before.command <= s.rows[id].command)
  }

  ghost predicate CallOk(s: Sys, c: Call) {
    && c.began < s.clock
    && ReadingOk(s, c.id, c.spec)
    && (c.atBegin.Some? ==> c.atBegin.value.born < s.births)
    && (c.id in s.rows ==>
          var r := s.rows[c.id];
          && (r.born == c.spec.born ==>
                c.atBegin.Some? && c.atBegin.value.born == r.born && c.spec.command <= c.atBegin.value.command)
          // the commands recorded before the call began are those of the reading at its beginning
          && (forall i :: 0 <= i < |r.requests| ==>
                (r.requests[i] < c.began <==>
                 c.atBegin.Some? && c.atBegin.value.born == r.born && i < c.atBegin.value.command))
          && (c.atBegin.Some? && c.atBegin.value.born == r.born ==> c.atBegin.value.command <= r.command))
  }

  /** As long as nobody clears its flag, a row that no longer has the profile of the reading is flagged. */
  predicate FlagOk(s: Sys, id: Id, before: Row) {
    id in s.rows && s.rows[id].born == before.born ==> s.rows[id].profile == before.profile || s.rows[id].pending
  }

  ghost predicate FlagsOk(s: Sys) {
    && (s.phase != Idle ==> forall id :: id in s.phase.listed ==> FlagOk(s, id, s.phase.listed[id]))
    && (s.phase.Calling? || s.phase.Clearing? ==> FlagOk(s, s.phase.call.id, s.phase.call.spec))
    && (s.phase.Calling? || s.phase.Clearing? || s.phase.Acknowledging? ==> s.phase.call.id !in s.phase.listed)
    && (s.phase.Clearing? ==>
          s.phase.call.id in s.running && s.running[s.phase.call.id] == s.phase.call.spec.profile)
  }

  ghost predicate PhaseOk(s: Sys) {
    match s.phase
    case Idle => true
    case Round(listed) => forall id :: id in listed ==> ReadingOk(s, id, listed[id])
    case Calling(listed, call) =>
      && (forall id :: id in listed ==> ReadingOk(s, id, listed[id]))
      && CallOk(s, call)
      && (forall id :: id in s.lastStart ==> s.lastStart[id] < call.began)
    case Clearing(listed, call) =>
      && (forall id :: id in listed ==> ReadingOk(s, id, listed[id]))
      && CallOk(s, call)
      && call.id in s.lastStart && s.lastStart[call.id] == call.began
    case Acknowledging(listed, call) =>
      && (forall id :: id in listed ==> ReadingOk(s, id, listed[id]))
      && CallOk(s, call)
      && call.id in s.lastStart && s.lastStart[call.id] == call.began
  }

  ghost predicate Inv(s: Sys) {
    && (forall id :: id in s.rows ==> HistoryOk(s, s.rows[id]))
    && (forall id :: id in s.lastStart ==> s.lastStart[id] < s.clock)
    && PhaseOk(s)
    && FlagsOk(s)
  }

  /** How one step may change a row: a new command, other columns, or a fresh row under the id. */
  ghost predicate RowLe(s: Sys, s': Sys, id: Id)
    requires id in s'.rows
  {
    var r' := s'.rows[id];
    || (id in s.rows && r'.born == s.rows[id].born
        && r'.command - s.rows[id].command == |r'.requests| - |s.rows[id].requests|
        && (r'.requests == s.rows[id].requests || r'.requests == s.rows[id].requests + [s.clock]))
    || (r'.born == s.births < s'.births && r'.command == 0 && r'.requests == [])
  }

  ghost predicate RowsLe(s: Sys, s': Sys) {
    s'.clock == s.clock + 1 && s.births <= s'.births && forall id :: id in s'.rows ==> RowLe(s, s', id)
  }

  lemma RowsStep(s: Sys, a: Action, s': Sys)
    requires Next(s, a, s')
    ensures RowsLe(s, s')
  {
  }

  lemma ReadingStep(s: Sys, s': Sys, id: Id, before: Row)
    requires RowsLe(s, s') && ReadingOk(s, id, before)
    ensures ReadingOk(s', id, before)
  {
  }

  lemma CallStep(s: Sys, s': Sys, c: Call)
    requires RowsLe(s, s') && CallOk(s, c)
    requires c.id in s.rows ==> s.rows[c.id].command == |s.rows[c.id].requests|
    ensures CallOk(s', c)
  {
    ReadingStep(s, s', c.id, c.spec);
    if c.id in s'.rows {
      assert RowLe(s, s', c.id);
    }
  }

  lemma PhaseStep(s: Sys, a: Action, s': Sys)
    requires Inv(s) && Next(s, a, s')
    ensures PhaseOk(s')
  {
    RowsStep(s, a, s');
    if s'.phase.Calling? && s.phase.Round? {
      var id := s'.phase.call.id;
      assert ReadingOk(s, id, s.phase.listed[id]);
      if id in s.rows { assert HistoryOk(s, s.rows[id]); }
      assert CallOk(s', s'.phase.call);
    } else if s.phase.Calling? || s.phase.Clearing? || s.phase.Acknowledging? {
      if s.phase.call.id in s.rows { assert HistoryOk(s, s.rows[s.phase.call.id]); }
      CallStep(s, s', s.phase.call);
    }
    if s'.phase != Idle {
      var listed := s'.phase.listed;
      forall id | id in listed ensures ReadingOk(s', id, listed[id]) {
        if s.phase.Idle? {
          if id in s.rows { assert HistoryOk(s, s.rows[id]); }
          assert ReadingOk(s, id, s.rows[id]);
        }
        ReadingStep(s, s', id, listed[id]);
      }
    }
  }

  /** Everything listed and everything in the table was born before the next row. */
  ghost predicate BornOk(s: Sys) {
    && (forall id :: id in s.rows ==> s.rows[id].born < s.births)
    && (s.phase != Idle ==> forall id :: id in s.phase.listed ==> s.phase.listed[id].born < s.births)
    && (s.phase.Calling? || s.phase.Clearing? ==> s.phase.call.spec.born < s.births)
  }

  lemma InvBorn(s: Sys)
    requires Inv(s)
    ensures BornOk(s)
  {
    forall id | id in s.rows ensures s.rows[id].born < s.births { assert HistoryOk(s, s.rows[id]); }
  }

  lemma FlagsStep(s: Sys, a: Action, s': Sys)
    requires FlagsOk(s) && Next(s, a, s') && BornOk(s)
    ensures FlagsOk(s')
  {
  }

  lemma RowHistories(s: Sys, a: Action, s': Sys)
    requires Inv(s) && Next(s, a, s')
    ensures forall id :: id in s'.rows ==> HistoryOk(s', s'.rows[id])
    ensures forall id :: id in s'.lastStart ==> s'.lastStart[id] < s'.clock
  {
    RowsStep(s, a, s');
    forall id | id in s'.rows ensures HistoryOk(s', s'.rows[id]) {
      assert RowLe(s, s', id);
      if id in s.rows { assert HistoryOk(s, s.rows[id]); }
    }
    assert forall id :: id in s.lastStart ==> s.lastStart[id] < s.clock;
    assert s.phase.Calling? ==> s.phase.call.began < s.clock;
  }

  lemma InvStep(s: Sys, a: Action, s': Sys)
    requires Inv(s) && Next(s, a, s')
    ensures Inv(s')
  {
    InvBorn(s);
    RowHistories(s, a, s');
    PhaseStep(s, a, s');
    FlagsStep(s, a, s');
    hide Next, PhaseOk, FlagsOk, HistoryOk, BornOk;
  }

  // ---------- the acknowledgement ----------

  /** The row that is acknowledged is the one the round listed, or none at all. */
  predicate ListedRowStands(s: Sys) {
    s.phase.Acknowledging? ==>
      var c := s.phase.call;
      c.id in s.rows ==> s.rows[c.id].born == c.spec.born
  }

  /** What a reading of the row at the beginning of the call and at its end would tell. */
  predicate CommandsPredateCall(s: Sys)
    requires s.phase.Acknowledging? && s.phase.call.id in s.rows
  {
    var c, r := s.phase.call, s.rows[s.phase.call.id];
    || c.spec.command <= r.observed
    || (c.atBegin.Some? && c.atBegin.value.born == r.born && c.spec.command <= c.atBegin.value.command)
  }

  /** An acknowledgement keeps the promise exactly when the row already carried those commands as the call began. */
  lemma AcknowledgeExact(s: Sys, s': Sys)
    requires Inv(s) && s.phase.Acknowledging? && Next(s, Acknowledge, s')
    requires s.phase.call.id in s.rows && NoneLost(s, s.phase.call.id)
    ensures s.phase.call.id in s'.rows
    ensures s'.rows[s.phase.call.id].command == |s'.rows[s.phase.call.id].requests|
    ensures NoneLost(s', s.phase.call.id) <==> CommandsPredateCall(s)
  {
    var c := s.phase.call;
    var r, r' := s.rows[c.id], s'.rows[c.id];
    assert HistoryOk(s, r);
    if r'.observed > r.observed {
      var g := c.spec.command;
      if CommandsPredateCall(s) {
        forall h | 0 < h <= r'.observed ensures Covered(s', c.id, h) {
          if h <= r.observed { assert Covered(s, c.id, h); }
        }
      } else if g <= r'.command {
        assert !Covered(s', c.id, g);
      }
    } else {
      forall h | 0 < h <= r'.observed ensures Covered(s', c.id, h) {
        assert Covered(s, c.id, h);
      }
    }
  }

  ghost predicate AllKept(s: Sys) {
    Inv(s) && forall id :: id in s.rows ==> HistoryOk(s, s.rows[id]) && NoneLost(s, id)
  }

  lemma KeptStep(s: Sys, a: Action, s': Sys)
    requires AllKept(s) && Next(s, a, s') && (a.Acknowledge? ==> ListedRowStands(s))
    ensures AllKept(s')
  {
    InvStep(s, a, s');
    RowsStep(s, a, s');
    forall id | id in s'.rows ensures HistoryOk(s', s'.rows[id]) && NoneLost(s', id) {
      if a.Acknowledge? && id == s.phase.call.id {
        AcknowledgeExact(s, s');
      } else {
        KeptElsewhere(s, a, s', id);
      }
    }
  }

  lemma KeptElsewhere(s: Sys, a: Action, s': Sys, id: Id)
    requires AllKept(s) && Next(s, a, s') && RowsLe(s, s') && id in s'.rows && HistoryOk(s', s'.rows[id])
    requires !(a.Acknowledge? && id == s.phase.call.id)
    ensures NoneLost(s', id)
  {
    assert RowLe(s, s', id);
    if id in s.rows && s'.rows[id].born == s.rows[id].born {
      assert HistoryOk(s, s.rows[id]) && NoneLost(s, id);
      forall g | 0 < g <= s'.rows[id].observed ensures Covered(s', id, g) {
        assert Covered(s, id, g);
      }
    }
  }

  // ---------- whole runs ----------

  ghost predicate IsRun(states: seq<Sys>, actions: seq<Action>) {
    && |states| == |actions| + 1
    && states[0] == INITIAL
    && forall i :: 0 <= i < |actions| ==> Next(states[i], actions[i], states[i + 1])
  }

  /** In every run whose acknowledgements find the row they listed, no restart command is ever lost. */
  lemma {:induction false} NoCommandLost(states: seq<Sys>, actions: seq<Action>, n: nat)
    requires IsRun(states, actions) && n <= |actions|
    requires forall i :: 0 <= i < |actions| && actions[i].Acknowledge? ==> ListedRowStands(states[i])
    ensures AllKept(states[n])
  {
    if n > 0 {
      NoCommandLost(states, actions, n - 1);
      KeptStep(states[n - 1], actions[n - 1], states[n]);
    }
  }

  lemma {:induction false} RunInv(states: seq<Sys>, actions: seq<Action>, n: nat)
    requires IsRun(states, actions) && n <= |actions|
    ensures Inv(states[n])
  {
    if n > 0 {
      RunInv(states, actions, n - 1);
      InvStep(states[n - 1], actions[n - 1], states[n]);
    }
  }

  /** How the same row at two times compares: its counters have grown and no command was rewritten. */
  predicate Grown(before: Row, after: Row) {
    && before.command <= after.command && before.observed <= after.observed
    && before.requests <= after.requests
  }

  lemma StepGrows(s: Sys, a: Action, s': Sys, id: Id)
    requires Inv(s) && Next(s, a, s') && id in s'.rows && s'.rows[id].born < s.births
    ensures id in s.rows && s.rows[id].born == s'.rows[id].born && Grown(s.rows[id], s'.rows[id])
  {
    RowsStep(s, a, s');
    assert RowLe(s, s', id);
  }

  /** Over the whole life of a row, in every run, its two counters only grow. */
  lemma {:induction false} CountersGrow(states: seq<Sys>, actions: seq<Action>, id: Id, n: nat, m: nat)
    requires IsRun(states, actions) && n <= m <= |actions|
    requires id in states[n].rows && id in states[m].rows && states[n].rows[id].born == states[m].rows[id].born
    ensures Grown(states[n].rows[id], states[m].rows[id])
    decreases m
  {
    RunInv(states, actions, n);
    InvBorn(states[n]);
    assert states[n].rows[id].born < states[n].births;
    if n < m {
      RunInv(states, actions, m - 1);
      BirthsGrow(states, actions, n, m - 1);
      assert Next(states[m - 1], actions[m - 1], states[m]);
      hide Inv, Next, IsRun, BornOk;
      StepGrows(states[m - 1], actions[m - 1], states[m], id);
      CountersGrow(states, actions, id, n, m - 1);
    }
  }

  lemma {:induction false} BirthsGrow(states: seq<Sys>, actions: seq<Action>, n: nat, m: nat)
    requires IsRun(states, actions) && n <= m <= |actions|
    ensures states[n].births <= states[m].births
  {
    if n < m {
      BirthsGrow(states, actions, n, m - 1);
      RowsStep(states[m - 1], actions[m - 1], states[m]);
    }
  }

  // ---------- a run that loses a command ----------

  const OLD_ROW := Row(0, 1, 0, None, false, [2])

  const NEW_ROW := Row(1, 1, 0, None, false, [7])

  const STALE_CALL := Call(1, OLD_ROW, 4, Some(OLD_ROW))

  /** The row is deleted and its rowid reused while its restart is under way. */
  function LosingRun(): seq<Sys> {
    var listed := map[1 := OLD_ROW];
    [ INITIAL,
      Sys(map[1 := Row(0, 0, 0, None, false, [])], 1, 2, Idle, map[], map[]),
      Sys(listed, 1, 3, Idle, map[], map[]),
      Sys(listed, 1, 4, Round(listed), map[], map[]),
      Sys(listed, 1, 5, Calling(map[], STALE_CALL), map[], map[]),
      Sys(map[], 1, 6, Calling(map[], STALE_CALL), map[], map[]),
      Sys(map[1 := Row(1, 0, 0, None, false, [])], 2, 7, Calling(map[], STALE_CALL), map[], map[]),
      Sys(map[1 := NEW_ROW], 2, 8, Calling(map[], STALE_CALL), map[], map[]),
      Sys(map[1 := NEW_ROW], 2, 9, Clearing(map[], STALE_CALL), map[1 := 4], map[1 := None]),
      Sys(map[1 := NEW_ROW], 2, 10, Acknowledging(map[], STALE_CALL), map[1 := 4], map[1 := None]),
      Sys(map[1 := NEW_ROW.(observed := 1)], 2, 11, Round(map[]), map[1 := 4], map[1 := None]) ]
  }

  function LosingActions(): seq<Action> {
    [Create(None), RequestRestart(1), List, Begin(1), Delete(1), Create(None), RequestRestart(1),
     Succeed, ClearPending, Acknowledge]
  }

  lemma LosingRunBegins(i: nat)
    requires i < 5
    ensures Next(LosingRun()[i], LosingActions()[i], LosingRun()[i + 1])
  {
    var states := LosingRun();
    assert map[1 := OLD_ROW] - {1} == map[];
    if i == 0 {
      assert IsNextRowid(states[0].rows, 1);
    } else if i == 1 {
      assert states[1].rows[1].requests + [2] == [2];
      assert Requested(states[1].rows, 1, 2) == states[2].rows;
    }
  }

  lemma LosingRunEnds(i: nat)
    requires 5 <= i < 10
    ensures Next(LosingRun()[i], LosingActions()[i], LosingRun()[i + 1])
  {
    var states := LosingRun();
    if i == 5 {
      assert IsNextRowid(states[5].rows, 1);
    } else if i == 6 {
      assert states[6].rows[1].requests + [7] == [7];
      assert Requested(states[6].rows, 1, 7) == states[7].rows;
    }
  }

  /** The new row's only command is acknowledged although the restart began before it was recorded. */
  lemma StaleAcknowledgementLosesCommand()
    ensures IsRun(LosingRun(), LosingActions())
    ensures var last := LosingRun()[10];
            && last.rows[1].observed == last.rows[1].command == 1
            && last.lastStart[1] < last.rows[1].requests[0]
            && !NoneLost(last, 1)
  {
    forall i | 0 <= i < |LosingActions()|
      ensures Next(LosingRun()[i], LosingActions()[i], LosingRun()[i + 1])
    {
      if i < 5 { LosingRunBegins(i); } else { LosingRunEnds(i); }
    }
    assert !Covered(LosingRun()[10], 1, 1);
  }

  // ---------- the pending flag ----------

  /** A row whose flag is down is served by a run of its own profile. */
  predicate ProfileServed(s: Sys, id: Id) {
    id in s.rows && id in s.running && !s.rows[id].pending ==> s.running[id] == s.rows[id].profile
  }

  /** Clearing the flag keeps the promise exactly if no rebind to another profile came after the listing. */
  lemma ClearPendingExact(s: Sys, cleared: Sys)
    requires Inv(s) && s.phase.Clearing? && Next(s, ClearPending, cleared) && s.phase.call.id in s.rows
    ensures ProfileServed(cleared, s.phase.call.id) <==> s.rows[s.phase.call.id].profile == s.phase.call.spec.profile
  {
    var id := s.phase.call.id;
    assert cleared.rows[id] == s.rows[id].(pending := false);
  }

  ghost predicate AllServed(s: Sys) {
    forall id :: ProfileServed(s, id)
  }

  /**
   * What a step must find for every row to stay served: a new row no process of an earlier instance
   * under its rowid, a finished call no other row than the one it was made for, and a cleared flag the
   * profile that was listed.
   */
  ghost predicate Timely(s: Sys, a: Action) {
    match a
    case Create(profile) => forall id :: IsNextRowid(s.rows, id) && id in s.running ==> s.running[id] == profile
    case Succeed =>
      s.phase.Calling? && s.phase.call.id in s.rows && s.rows[s.phase.call.id].born != s.phase.call.spec.born ==>
        s.rows[s.phase.call.id].pending || s.rows[s.phase.call.id].profile == s.phase.call.spec.profile
    case ClearPending =>
      s.phase.Clearing? && s.phase.call.id in s.rows ==>
        s.rows[s.phase.call.id].profile == s.phase.call.spec.profile
    case _ => true
  }

  lemma NextRowidUnique(rows: map<Id, Row>, id: Id, id': Id)
    requires IsNextRowid(rows, id) && IsNextRowid(rows, id')
    ensures id == id'
  {
  }

  /** Every row stays served exactly if the step is timely. */
  lemma ServedExactly(s: Sys, a: Action, s': Sys)
    requires Inv(s) && AllServed(s) && Next(s, a, s')
    ensures AllServed(s') <==> Timely(s, a)
  {
    match a {
      case Create(profile) =>
        var id :| IsNextRowid(s.rows, id) && s'.rows == Inserted(s.rows, id, s.births, profile);
        forall id' | IsNextRowid(s.rows, id') ensures id' == id { NextRowidUnique(s.rows, id, id'); }
        assert ProfileServed(s', id) <==> (id in s.running ==> s.running[id] == profile);
        forall j | j != id ensures ProfileServed(s', j) { assert ProfileServed(s, j); }
      case Succeed =>
        forall j | j != s.phase.call.id ensures ProfileServed(s', j) { assert ProfileServed(s, j); }
        assert ProfileServed(s', s.phase.call.id) <==> Timely(s, a);
      case ClearPending =>
        forall j | j != s.phase.call.id ensures ProfileServed(s', j) { assert ProfileServed(s, j); }
        assert ProfileServed(s', s.phase.call.id) <==> Timely(s, a);
      case _ =>
        forall j ensures ProfileServed(s', j) { assert ProfileServed(s, j); }
    }
  }

  /** In every run of timely steps every unflagged row is served by a run of its own profile. */
  lemma {:induction false} EveryRowServed(states: seq<Sys>, actions: seq<Action>, n: nat)
    requires IsRun(states, actions) && n <= |actions|
    requires forall i :: 0 <= i < |actions| ==> Timely(states[i], actions[i])
    ensures AllServed(states[n])
  {
    if n > 0 {
      EveryRowServed(states, actions, n - 1);
      RunInv(states, actions, n - 1);
      ServedExactly(states[n - 1], actions[n - 1], states[n]);
    }
  }

  // ---------- a call that nobody disturbs ----------

  /** Handlers leave row `id` alone. */
  predicate LeavesRow(a: Action, id: Id) {
    match a
    case RequestRestart(j) => j != id
    case Rebind(j, _) => j != id
    case Delete(j) => j != id
    case _ => true
  }

  /** From its beginning to its acknowledgement the call is the one in progress, and the row only loses its flag. */
  lemma {:induction false} CallInProgress(states: seq<Sys>, actions: seq<Action>, i: nat, k: nat)
    requires IsRun(states, actions) && i < k <= |actions| && actions[i].Begin? && actions[i].id in states[i].rows
    requires forall m :: i < m < k ==>
        !actions[m].Fail? && !actions[m].Acknowledge? && LeavesRow(actions[m], actions[i].id)
    ensures states[i].phase.Round? && actions[i].id in states[i].phase.listed
    ensures var id, s := actions[i].id, states[k];
            && (s.phase.Calling? || s.phase.Clearing? || s.phase.Acknowledging?)
            && s.phase.call.id == id && s.phase.call.spec == states[i].phase.listed[id]
            && s.phase.call.began == states[i].clock
            && id in s.rows
            && s.rows[id] == states[i].rows[id].(pending := !s.phase.Acknowledging? && states[i].rows[id].pending)
            && (!s.phase.Calling? ==>
                  && id in s.lastStart && s.lastStart[id] == states[i].clock
                  && id in s.running && s.running[id] == states[i].phase.listed[id].profile)
  {
    var id, s := actions[i].id, states[k - 1];
    assert Next(s, actions[k - 1], states[k]);
    if k == i + 1 {
      assert states[i].rows[id] == states[i].rows[id].(pending := states[i].rows[id].pending);
    } else {
      CallInProgress(states, actions, i, k - 1);
    }
  }

  /**
   * A restart that succeeds while handlers leave its row alone, whatever they do to others: afterwards every
   * command of the row is acknowledged, its flag is down, and a process of its profile runs.
   */
  lemma UndisturbedCallServes(states: seq<Sys>, actions: seq<Action>, i: nat, j: nat)
    requires IsRun(states, actions) && i < j < |actions| && actions[i].Begin? && actions[j].Acknowledge?
    requires forall m :: i < m < j ==>
        !actions[m].Fail? && !actions[m].Acknowledge? && LeavesRow(actions[m], actions[i].id)
    requires var id := actions[i].id;
             && id in states[i].rows && states[i].phase.Round? && id in states[i].phase.listed
             && states[i].phase.listed[id] == states[i].rows[id] &&
                 states[i].rows[id].observed <= states[i].rows[id].command
    ensures var id, before, s := actions[i].id, states[i].rows[actions[i].id], states[j + 1];
            && id in s.rows
            && s.rows[id].command == before.command && s.rows[id].observed == before.command
            && !s.rows[id].pending && s.rows[id].profile == before.profile
            && id in s.running && s.running[id] == before.profile
            && id in s.lastStart && s.lastStart[id] == states[i].clock
  {
    CallInProgress(states, actions, i, j);
    assert Next(states[j], actions[j], states[j + 1]);
  }

  // ---------- runs that leave a row with the wrong process ----------

  const BOUND := Row(0, 0, 0, Some(10), false, [])
  const REBOUND := BOUND.(profile := Some(20), pending := true)
  const FIRST_CALL := Call(1, BOUND, 3, Some(BOUND))

  /** A rebind that comes during the call: its flag is cleared with the one the call was to clear. */
  function RebindLostRun(): seq<Sys> {
    [ INITIAL,
      Sys(map[1 := BOUND], 1, 2, Idle, map[], map[]),
      Sys(map[1 := BOUND], 1, 3, Round(map[1 := BOUND]), map[], map[]),
      Sys(map[1 := BOUND], 1, 4, Calling(map[], FIRST_CALL), map[], map[]),
      Sys(map[1 := REBOUND], 1, 5, Calling(map[], FIRST_CALL), map[], map[]),
      Sys(map[1 := REBOUND], 1, 6, Clearing(map[], FIRST_CALL), map[1 := 3], map[1 := Some(10)]),
      Sys(map[1 := REBOUND.(pending := false)], 1, 7, Acknowledging(map[], FIRST_CALL), map[1 := 3],
          map[1 := Some(10)]) ]
  }

  function RebindLostActions(): seq<Action> {
    [Create(Some(10)), List, Begin(1), Rebind(1, Some(20)), Succeed, ClearPending]
  }

  lemma RebindLost()
    ensures IsRun(RebindLostRun(), RebindLostActions())
    ensures !ProfileServed(RebindLostRun()[6], 1)
  {
    var states, actions := RebindLostRun(), RebindLostActions();
    forall i | 0 <= i < |actions| ensures Next(states[i], actions[i], states[i + 1]) {
      RebindLostStep(i);
    }
  }

  lemma RebindLostStep(i: nat)
    requires i < 6
    ensures Next(RebindLostRun()[i], RebindLostActions()[i], RebindLostRun()[i + 1])
  {
    assert map[1 := BOUND] - {1} == map[];
    if i == 0 { assert IsNextRowid(RebindLostRun()[0].rows, 1); }
  }

  const REUSED := Row(1, 0, 0, Some(20), false, [])

  /** The row is deleted, and before the next round another instance gets its rowid and its process. */
  function ReuseRun(): seq<Sys> {
    [ INITIAL,
      Sys(map[1 := BOUND], 1, 2, Idle, map[], map[]),
      Sys(map[1 := BOUND], 1, 3, Round(map[1 := BOUND]), map[], map[]),
      Sys(map[1 := BOUND], 1, 4, Calling(map[], FIRST_CALL), map[], map[]),
      Sys(map[1 := BOUND], 1, 5, Clearing(map[], FIRST_CALL), map[1 := 3], map[1 := Some(10)]),
      Sys(map[1 := BOUND], 1, 6, Acknowledging(map[], FIRST_CALL), map[1 := 3], map[1 := Some(10)]),
      Sys(map[1 := BOUND], 1, 7, Round(map[]), map[1 := 3], map[1 := Some(10)]),
      Sys(map[1 := BOUND], 1, 8, Idle, map[1 := 3], map[1 := Some(10)]),
      Sys(map[], 1, 9, Idle, map[1 := 3], map[1 := Some(10)]),
      Sys(map[1 := REUSED], 2, 10, Idle, map[1 := 3], map[1 := Some(10)]) ]
  }

  function ReuseActions(): seq<Action> {
    [Create(Some(10)), List, Begin(1), Succeed, ClearPending, Acknowledge, EndRound, Delete(1), Create(Some(20))]
  }

  lemma ReuseStep(i: nat)
    requires i < 9
    ensures Next(ReuseRun()[i], ReuseActions()[i], ReuseRun()[i + 1])
  {
    assert map[1 := BOUND] - {1} == map[];
    if i == 0 || i == 8 { assert IsNextRowid(ReuseRun()[i].rows, 1); }
  }

  lemma ReusedRowidKeepsProcess()
    ensures IsRun(ReuseRun(), ReuseActions())
    ensures !ProfileServed(ReuseRun()[9], 1)
  {
    forall i | 0 <= i < |ReuseActions()| ensures Next(ReuseRun()[i], ReuseActions()[i], ReuseRun()[i + 1]) {
      ReuseStep(i);
    }
  }
}
