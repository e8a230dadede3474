/** One process over many reconciles: the mints its calls make, told from the log. */
module Reconciles {
  import opened Wrappers
  import opened Records
  import opened Protocol
  import opened ProtocolInvariant
  import opened Safety
  import opened ApiCalls
  import opened PassSteps
  import opened MintLog
  import opened Manager
  import Backoff

  /** The instants of failing mints, cut wherever a mint succeeded. */
  function StreaksOf(tries: seq<Attempt>): (streaks: seq<seq<Time>>)
    ensures |streaks| > 0
  {
    if tries == [] then [[]]
    else
      var streaks, last := StreaksOf(tries[..|tries| - 1]), tries[|tries| - 1];
      var n := |streaks| - 1;
      if last.succeeded then streaks + [[]] else streaks[..n] + [streaks[n] + [last.at]]
  }

  /** The state a streak of failures starts from: the first inherits what was
      counted, each later one follows a success. */
  function StartOf(initial: Option<Backoff.State>, i: nat): Option<Backoff.State> {
    if i == 0 then initial else None
  }

  /** Every failing mint was let through by the gate, and they lead to this state. */
  ghost predicate Gated(initial: Option<Backoff.State>, tries: seq<Attempt>, state: Option<Backoff.State>) {
    var streaks := StreaksOf(tries);
    && (forall i | 0 <= i < |streaks| :: Backoff.FailingRun(StartOf(initial, i), streaks[i]))
    && state == Backoff.AfterRun(StartOf(initial, |streaks| - 1), streaks[|streaks| - 1])
  }

  lemma {:induction false} OneMoreTry(tries: seq<Attempt>, last: Attempt)
    ensures var streaks := StreaksOf(tries);
      var n := |streaks| - 1;
      StreaksOf(tries + [last])
      == if last.succeeded then streaks + [[]] else streaks[..n] + [streaks[n] + [last.at]]
  {
    assert (tries + [last])[..|tries|] == tries;
  }

  /** A success ends the streak; nothing is counted after it. */
  lemma {:induction false} SuccessExtends(
      initial: Option<Backoff.State>, tries: seq<Attempt>, state: Option<Backoff.State>, now: Time)
    requires Gated(initial, tries, state)
    ensures Gated(initial, tries + [Attempt(now, true)], None)
  {
    OneMoreTry(tries, Attempt(now, true));
    assert Backoff.FailingRun(None, []) && Backoff.AfterRun(None, []) == None;
    hide Backoff.FailingRun, Backoff.AfterRun, StreaksOf;
  }

  /** A failure past the gate extends the streak. */
  lemma {:induction false} FailureExtends(
      initial: Option<Backoff.State>, tries: seq<Attempt>, state: Option<Backoff.State>, now: Time)
    requires Gated(initial, tries, state) && (state.Some? ==> now >= state.value.until)
    ensures Gated(initial, tries + [Attempt(now, false)], Some(Backoff.AfterFailure(state, now)))
  {
    hide Backoff.FailingRun, Backoff.AfterRun, Backoff.AfterFailure, StreaksOf;
    var streaks, more := StreaksOf(tries), StreaksOf(tries + [Attempt(now, false)]);
    var n := |streaks| - 1;
    OneMoreTry(tries, Attempt(now, false));
    Backoff.FailingRunExtends(StartOf(initial, n), streaks[n], now);
    forall i | 0 <= i < |more|
      ensures Backoff.FailingRun(StartOf(initial, i), more[i])
    {
      if i < n {
        assert more[i] == streaks[i];
      }
    }
  }

  lemma {:induction false} CallExtends(
      initial: Option<Backoff.State>, tries: seq<Attempt>, before: map<string, Backoff.State>,
      after: map<string, Backoff.State>, key: string, outcome: Outcome)
    requires Gated(initial, tries, Backoff.StateIn(before, key)) && Counts(before, after, key, outcome)
    ensures Gated(initial, tries + MintOf(outcome), Backoff.StateIn(after, key))
  {
    hide Gated, Backoff.AfterFailure;
    if MintOf(outcome) == [] {
      assert tries + MintOf(outcome) == tries;
    } else if outcome.verdict.Rotated? {
      SuccessExtends(initial, tries, Backoff.StateIn(before, key), outcome.at);
    } else {
      FailureExtends(initial, tries, Backoff.StateIn(before, key), outcome.at);
    }
  }

  /** Each mint was decided while the process ran, and none before an earlier one. */
  predicate InTime(tries: seq<Attempt>, from: Time, until: Time) {
    && (forall i | 0 <= i < |tries| :: from <= tries[i].at <= until)
    && (forall i, j | 0 <= i <= j < |tries| :: tries[i].at <= tries[j].at)
  }

  lemma {:induction false} CallIsInTime(tries: seq<Attempt>, from: Time, mid: Time, until: Time, outcome: Outcome)
    requires InTime(tries, from, mid) && from <= mid <= until && (outcome.Ran? ==> mid <= outcome.at <= until)
    ensures InTime(tries + MintOf(outcome), from, until)
  {
  }

  /** After failing mints the gate is closed for the wait the streak has come to, and
      no more than an hour from the last of them; after a success it is open. */
  predicate HoldsBackAnHourAtMost(tries: seq<Attempt>, state: Option<Backoff.State>) {
    var streaks := StreaksOf(tries);
    var last := streaks[|streaks| - 1];
    && (last != [] ==>
          && state.Some? && state.value.until - last[|last| - 1] <= 3_600_000_000_000
          && (|streaks| > 1 ==> state.value.until - last[|last| - 1] == Backoff.Wait(|last|)))
    && (|streaks| > 1 && last == [] ==> state.None?)
  }

  lemma {:induction false} GatedIsNotHeldBack(
      initial: Option<Backoff.State>, tries: seq<Attempt>, state: Option<Backoff.State>)
    requires Gated(initial, tries, state)
    ensures HoldsBackAnHourAtMost(tries, state)
  {
    var streaks := StreaksOf(tries);
    var last := streaks[|streaks| - 1];
    if last != [] {
      Backoff.HeldBackAnHourAtMost(StartOf(initial, |streaks| - 1), last);
      Backoff.WaitIs(|last|);
    }
  }

  /** A call for every reconcile, whatever the settings are by then and whoever
      acts in between. Of the mints its calls made, by the clock readings in the
      log, every streak of failing ones passed the gate and is spaced. */
  method RotateRepeatedly(
      cluster: Cluster, settings: seq<Option<TokenManagement>>, backoffs: Backoff.Backoffs, key: string)
    requires cluster.Valid()
    modifies cluster, backoffs
    ensures cluster.Valid() && Later(old(cluster.world), cluster.world) && old(cluster.log) <= cluster.log
    ensures Attempts(old(cluster.log)) <= Attempts(cluster.log)
    ensures var tries := Attempts(cluster.log)[|Attempts(old(cluster.log))|..];
      && Gated(old(backoffs.StateOf(key)), tries, backoffs.StateOf(key))
      && InTime(tries, old(cluster.world.clock), cluster.world.clock)
      && forall at | at in StreaksOf(tries) :: Backoff.Spaced(at)
    ensures HoldsBackAnHourAtMost(Attempts(cluster.log)[|Attempts(old(cluster.log))|..], backoffs.StateOf(key))
  {
    hide Inv, Later, Cluster.Valid, Attempts, Counts, MintOf, Gated, InTime, HoldsBackAnHourAtMost;
    ghost var initial, earlier := backoffs.StateOf(key), Attempts(cluster.log);
    ghost var tries: seq<Attempt> := [];
    NoneYet(initial, cluster.world.clock);
    LaterItself(cluster.world);
    assert earlier + tries == earlier;
    for i := 0 to |settings|
      invariant cluster.Valid() && Later(old(cluster.world), cluster.world) && old(cluster.log) <= cluster.log
      invariant Attempts(cluster.log) == earlier + tries && Gated(initial, tries, backoffs.StateOf(key))
      invariant InTime(tries, old(cluster.world.clock), cluster.world.clock)
    {
      ghost var w, before := cluster.world, backoffs.states;
      ClockMoves(old(cluster.world), w);
      var outcome := RotateIfDue(cluster, settings[i], backoffs, key);
      LaterTransitive(old(cluster.world), w, cluster.world);
      ClockMoves(w, cluster.world);
      CallExtends(initial, tries, before, backoffs.states, key, outcome);
      CallIsInTime(tries, old(cluster.world.clock), w.clock, cluster.world.clock, outcome);
      assert earlier + tries + MintOf(outcome) == earlier + (tries + MintOf(outcome));
      tries := tries + MintOf(outcome);
    }
    assert (earlier + tries)[|earlier|..] == tries;
    GatedIsSpaced(initial, tries, backoffs.StateOf(key));
    GatedIsNotHeldBack(initial, tries, backoffs.StateOf(key));
  }

  lemma {:induction false} NoneYet(initial: Option<Backoff.State>, now: Time)
    ensures Gated(initial, [], initial) && InTime([], now, now)
  {
  }

  lemma {:induction false} GatedIsSpaced(
      initial: Option<Backoff.State>, tries: seq<Attempt>, state: Option<Backoff.State>)
    requires Gated(initial, tries, state)
    ensures forall at | at in StreaksOf(tries) :: Backoff.Spaced(at)
  {
    var streaks := StreaksOf(tries);
    forall at | at in streaks
      ensures Backoff.Spaced(at)
    {
      var i :| 0 <= i < |streaks| && streaks[i] == at;
      Backoff.FailingRunsAreSpaced(StartOf(initial, i), at);
    }
  }
}
