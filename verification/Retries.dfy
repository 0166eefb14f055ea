/**
 The reconciler's automatic retries over any number of rounds: which calls it makes for an instance
 that keeps failing, and how many fit into an interval.
 */
module Retries {
  import opened Wrappers
  import opened Health
  import opened Backoff
  import opened Reconciler

  /** A round in which no call for `id` succeeds and the failure is recorded. */
  ghost predicate Fails(id: Id, a: Answers, base: nat, max: nat) {
    && a.start(id) == Outcome(false, Failed) && a.restart(id) == Outcome(false, Failed)
    && a.writes(id).readBack && a.writes(id).recordBackoff
    && a.now(id) <= a.ended(id) && a.base == base && a.max == max
  }

  /** Rounds one after the other on a clock that does not go back. */
  ghost predicate Failing(id: Id, rounds: seq<Answers>, base: nat, max: nat) {
    && (forall i :: 0 <= i < |rounds| ==> Fails(id, rounds[i], base, max))
    && (forall i, j :: 0 <= i < j < |rounds| ==> rounds[i].ended(id) <= rounds[j].now(id))
  }

  /** An instance over some rounds, with when the calls for it were decided on and when they had failed. */
  datatype Course = Course(row: Row, state: RuntimeState, attempts: seq<int>, failures: seq<int>)

  function Further(id: Id, c: Course, a: Answers): Course {
    var t := Reconciled(id, c.row, c.state, a);
    if t.call.None? then Course(t.row, t.state, c.attempts, c.failures)
    else Course(t.row, t.state, c.attempts + [a.now(id)], c.failures + [a.ended(id)])
  }

  /** The rounds one after the other; other tasks leave a Failed or Stopped entry alone in between. */
  function Over(id: Id, row: Row, state: RuntimeState, rounds: seq<Answers>): Course {
    if rounds == [] then Course(row, state, [], [])
    else Further(id, Over(id, row, state, rounds[..|rounds| - 1]), rounds[|rounds| - 1])
  }

  /** An instance that is wanted, restarted automatically, down, and for which no command waits. */
  predicate Down(row: Row, state: RuntimeState) {
    row.ShouldRun() && row.autoRestart && !row.CommandWaiting() && state in {Stopped, Failed}
  }

  /** One failing round calls exactly for a Stopped instance or one whose window has closed. */
  lemma RoundCalls(id: Id, row: Row, state: RuntimeState, a: Answers, base: nat, max: nat)
    requires Down(row, state) && Fails(id, a, base, max)
    ensures Reconciled(id, row, state, a).call.Some? <==> state == Stopped || Ready(row.window, a.now(id))
    ensures Reconciled(id, row, state, a) ==
            if Reconciled(id, row, state, a).call.None? then Turn(row, state, None)
            else Turn(row.(window := RecordFailure(row.window, a.ended(id), base, max)), Failed,
                Reconciled(id, row, state, a).call)
  {
  }

  lemma StreakMore(attempts: seq<int>, failures: seq<int>, t: int, f: int, base: nat, max: nat)
    requires Streak(attempts, failures, base, max) && t <= f
    requires attempts != [] ==> Ready(AfterFailures(failures, base, max), t)
    ensures Streak(attempts + [t], failures + [f], base, max)
    ensures AfterFailures(failures + [f], base, max) ==
        RecordFailure(AfterFailures(failures, base, max), f, base, max)
  {
    var more := failures + [f];
    assert more[..|failures|] == failures;
    forall i | 0 < i < |more| ensures Ready(AfterFailures(more[..i], base, max), (attempts + [t])[i]) {
      if i < |failures| { assert more[..i] == failures[..i]; }
    }
  }

  /**
   * The calls so far are a retry streak, each after the first let through by the window of its
   * predecessors, and the row holds that window.
   */
  ghost predicate OnCourse(c: Course, row: Row, state: RuntimeState, base: nat, max: nat) {
    && Streak(c.attempts, c.failures, base, max)
    && c.row == row.(window := AfterFailures(c.failures, base, max))
    && c.state == (if c.attempts == [] then state else Failed)
  }

  lemma FurtherOnCourse(id: Id, c: Course, row: Row, state: RuntimeState, a: Answers, base: nat, max: nat)
    requires Down(row, state) && OnCourse(c, row, state, base, max) && Fails(id, a, base, max)
    ensures OnCourse(Further(id, c, a), row, state, base, max)
  {
    RoundCalls(id, c.row, c.state, a, base, max);
    if Reconciled(id, c.row, c.state, a).call.Some? {
      StreakMore(c.attempts, c.failures, a.now(id), a.ended(id), base, max);
    }
    hide Reconciled, Streak, AfterFailures, RecordFailure;
  }

  /** Over any number of failing rounds an instance that went down stays on such a course. */
  lemma {:induction false} RoundsAreStreak(id: Id, row: Row, state: RuntimeState, rounds: seq<Answers>, base: nat,
      max: nat)
    requires Down(row, state) && row.window == CLEAR && Failing(id, rounds, base, max)
    ensures OnCourse(Over(id, row, state, rounds), row, state, base, max)
  {
    if rounds != [] {
      var init, a := rounds[..|rounds| - 1], rounds[|rounds| - 1];
      RoundsAreStreak(id, row, state, init, base, max);
      FurtherOnCourse(id, Over(id, row, state, init), row, state, a, base, max);
      hide OnCourse, Further;
    }
  }

  /** With the defaults, any stretch of such rounds that lasts T seconds holds at most 7 + T/300 calls. */
  lemma RetriesBounded(id: Id, row: Row, state: RuntimeState, rounds: seq<Answers>, i: nat, j: nat)
    requires Down(row, state) && row.window == CLEAR && Failing(id, rounds, BASE, MAX)
    requires i <= j < |Over(id, row, state, rounds).attempts|
    ensures var t := Over(id, row, state, rounds).attempts;
            t[j] >= t[i] && j - i + 1 <= 7 + (t[j] - t[i]) / 300
  {
    var c := Over(id, row, state, rounds);
    RoundsAreStreak(id, row, state, rounds, BASE, MAX);
    hide Streak, Over;
    AttemptsBounded(c.attempts, c.failures, i, j);
  }

  // ---------- failures and successes ----------

  /** A round as the instance meets it: its row but for the backoff columns, its state, and the answers. */
  datatype Met = Met(spec: Row, state: RuntimeState, answers: Answers)

  function TurnAt(id: Id, window: Window, met: Met): Turn {
    Reconciled(id, met.spec.(window := window), met.state, met.answers)
  }

  /** The backoff columns after these rounds. Nobody but the reconciler writes them. */
  function Stored(id: Id, mets: seq<Met>): Window {
    if mets == [] then CLEAR
    else TurnAt(id, Stored(id, mets[..|mets| - 1]), mets[|mets| - 1]).row.window
  }

  /** When the starts and restarts have failed that no success has come after. */
  function SinceSuccess(id: Id, mets: seq<Met>): seq<int> {
    if mets == [] then []
    else
      var init, met := mets[..|mets| - 1], mets[|mets| - 1];
      var call := TurnAt(id, Stored(id, init), met).call;
      if call in {None, Some(StopCall)} then SinceSuccess(id, init)
      else if AnswerTo(call.value, id, met.answers).ok then []
      else SinceSuccess(id, init) + [met.answers.ended(id)]
  }

  ghost predicate Written(id: Id, mets: seq<Met>, base: nat, max: nat) {
    forall i :: 0 <= i < |mets| ==>
      var a := mets[i].answers;
      a.writes(id).clearBackoff && a.writes(id).readBack && a.writes(id).recordBackoff && a.base == base &&
          a.max == max
  }

  /**
   * Over any rounds, whatever the handlers change in between, the columns are those of the failures
   * since the last success.
   */
  lemma {:induction false} StoredSinceSuccess(id: Id, mets: seq<Met>, base: nat, max: nat)
    requires Written(id, mets, base, max)
    ensures Stored(id, mets) == AfterFailures(SinceSuccess(id, mets), base, max)
  {
    if mets != [] {
      var init, met := mets[..|mets| - 1], mets[|mets| - 1];
      StoredSinceSuccess(id, init, base, max);
      var failures := SinceSuccess(id, init);
      assert (failures + [met.answers.ended(id)])[..|failures|] == failures;
      hide NextGap;
    }
  }

  /** So the k-th failure since the last success lets the next retry wait for min(base * 2^(k-1), max). */
  lemma {:induction false} GapSinceSuccess(id: Id, mets: seq<Met>, base: nat, max: nat)
    requires Written(id, mets, base, max) && base <= max
    ensures var failures := SinceSuccess(id, mets);
            if failures == [] then Stored(id, mets) == CLEAR
            else
              var last := failures[|failures| - 1];
              Stored(id, mets) == Window(Some(last), Some(last + Gap(|failures|, base, max)))
  {
    StoredSinceSuccess(id, mets, base, max);
    hide Stored, SinceSuccess, Gap;
    if SinceSuccess(id, mets) != [] {
      ClosedForm(SinceSuccess(id, mets), base, max);
    }
  }
}
