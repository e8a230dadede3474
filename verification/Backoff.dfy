/** How failed rotations are spaced: the first failure waits a minute, each
    further one doubles it, up to an hour. */
module Backoff {
  import opened Wrappers
  import opened Records

  const BACKOFF_BASE: Time := MINUTE
  const BACKOFF_MAX: Time := HOUR

  function Pow2(n: nat): (r: nat)
    ensures r >= 1
  {
    if n == 0 then 1 else 2 * Pow2(n - 1)
  }

  lemma {:induction false} Pow2Grows(m: nat, n: nat)
    requires m <= n
    ensures Pow2(m) <= Pow2(n)
    decreases n - m
  {
    if m < n {
      Pow2Grows(m, n - 1);
    }
  }

  /** The wait after the n-th failure in a row. */
  function Wait(n: nat): Time
    requires n >= 1
  {
    var w := BACKOFF_BASE * Pow2(n - 1);
    if w < BACKOFF_MAX then w else BACKOFF_MAX
  }

  /** A minute after the first failure, twice as long after each further one, and
      an hour from the seventh on. */
  lemma {:induction false} WaitIs(n: nat)
    requires n >= 1
    ensures Wait(n) == if n <= 6 then Pow2(n - 1) * MINUTE else 60 * MINUTE
  {
    assert Pow2(0) == 1 && Pow2(1) == 2 && Pow2(2) == 4 && Pow2(3) == 8;
    assert Pow2(4) == 16 && Pow2(5) == 32 && Pow2(6) == 64;
    if n > 6 {
      Pow2Grows(6, n - 1);
    }
  }

  datatype State = State(failures: nat, until: Time)

  function Failures(s: Option<State>): nat {
    match s
    case None => 0
    case Some(state) => state.failures
  }

  function AfterFailure(s: Option<State>, now: Time): State {
    State(Failures(s) + 1, now + Wait(Failures(s) + 1))
  }

  function StateIn(states: map<string, State>, key: string): Option<State> {
    if key in states then Some(states[key]) else None
  }

  class Backoffs {
    var states: map<string, State>

    function StateOf(key: string): Option<State>
      reads this
    {
      StateIn(states, key)
    }

    constructor ()
      ensures states == map[]
    {
      states := map[];
    }

    /** The later of the instant held in memory and the one recorded on the Secret. */
    method Until(key: string, recorded: Option<Time>) returns (until: Option<Time>)
      ensures until.None? <==> key !in states && recorded.None?
      ensures key in states ==> until.Some? && until.value >= states[key].until
      ensures recorded.Some? ==> until.Some? && until.value >= recorded.value
      ensures until.Some? ==> until == recorded || (key in states && until.value == states[key].until)
    {
      until := if key in states then Some(states[key].until) else None;
      if recorded.Some? && (until.None? || until.value < recorded.value) {
        until := recorded;
      }
    }

    /** Count a failure: the doubling stops at the cap, and on the way the wait
        never reaches twice the cap. */
    method Extend(key: string, now: Time) returns (until: Time)
      modifies this
      ensures states == old(states)[key := AfterFailure(old(StateOf(key)), now)]
      ensures until == states[key].until
      ensures var n := states[key].failures;
        && n == (if key in old(states) then old(states)[key].failures else 0) + 1
        && until == now + if n <= 6 then Pow2(n - 1) * 60_000_000_000 else 3_600_000_000_000
    {
      var failures := (if key in states then states[key].failures else 0) + 1;
      var wait := BACKOFF_BASE;
      var i := 1;
      while i < failures && wait < BACKOFF_MAX
        invariant 1 <= i <= failures
        invariant wait == BACKOFF_BASE * Pow2(i - 1) && wait < 2 * BACKOFF_MAX
      {
        wait := wait * 2;
        i := i + 1;
      }
      Pow2Grows(i - 1, failures - 1);
      if wait > BACKOFF_MAX {
        wait := BACKOFF_MAX;
      }
      WaitIs(failures);
      until := now + wait;
      states := states[key := State(failures, until)];
    }

    method Clear(key: string)
      modifies this
      ensures states == old(states) - {key}
    {
      states := map k | k in states && k != key :: states[k];
    }
  }

  // ---- Spacing over a whole run of one process ----

  /** Failed rotations in a row, at these instants, each let through by the gate. */
  predicate FailingRun(s: Option<State>, at: seq<Time>)
    decreases |at|
  {
    at == [] || ((s.Some? ==> at[0] >= s.value.until) && FailingRun(Some(AfterFailure(s, at[0])), at[1..]))
  }

  /** The state after these failures. */
  function AfterRun(s: Option<State>, at: seq<Time>): Option<State>
    decreases |at|
  {
    if at == [] then s else AfterRun(Some(AfterFailure(s, at[0])), at[1..])
  }

  /** A failure that the gate let through extends the run. */
  lemma {:induction false} FailingRunExtends(s: Option<State>, at: seq<Time>, now: Time)
    requires FailingRun(s, at) && (AfterRun(s, at).Some? ==> now >= AfterRun(s, at).value.until)
    ensures FailingRun(s, at + [now])
    ensures AfterRun(s, at + [now]) == Some(AfterFailure(AfterRun(s, at), now))
    decreases |at|
  {
    if at == [] {
      assert [now][1..] == [];
    } else {
      assert (at + [now])[1..] == at[1..] + [now];
      FailingRunExtends(Some(AfterFailure(s, at[0])), at[1..], now);
    }
  }

  /** The gate holds a mint back no longer than the wait after the last failure,
      and so never more than an hour after it. */
  lemma {:induction false} HeldBackAnHourAtMost(s: Option<State>, at: seq<Time>)
    requires at != []
    ensures AfterRun(s, at).Some?
    ensures AfterRun(s, at).value.failures == Failures(s) + |at|
    ensures var n := Failures(s) + |at|;
      AfterRun(s, at).value.until - at[|at| - 1] == if n <= 6 then Pow2(n - 1) * MINUTE else 60 * MINUTE
    ensures AfterRun(s, at).value.until - at[|at| - 1] <= 60 * MINUTE
    decreases |at|
  {
    if |at| == 1 {
      assert at[1..] == [];
      WaitIs(Failures(s) + 1);
      assert AfterRun(s, at) == Some(AfterFailure(s, at[0]));
    } else {
      HeldBackAnHourAtMost(Some(AfterFailure(s, at[0])), at[1..]);
    }
  }

  /** The sum of count waits, the first of them the one after the n-th failure. */
  function Waits(n: nat, count: nat): Time
    requires n >= 1
    decreases count
  {
    if count == 0 then 0 else Wait(n) + Waits(n + 1, count - 1)
  }

  /** The last of a run of failing mints comes no earlier than the sum of the
      waits between them. */
  lemma {:induction false} FailuresAreSpaced(s: Option<State>, at: seq<Time>)
    requires FailingRun(s, at) && |at| >= 1
    ensures at[|at| - 1] - at[0] >= Waits(Failures(s) + 1, |at| - 1)
    decreases |at|
  {
    if |at| > 1 {
      FailuresAreSpaced(Some(AfterFailure(s, at[0])), at[1..]);
    }
  }

  lemma {:induction false} WaitGrows(m: nat, n: nat)
    requires 1 <= m <= n
    ensures Wait(m) <= Wait(n)
  {
    Pow2Grows(m - 1, n - 1);
  }

  lemma {:induction false} WaitsGrow(m: nat, n: nat, count: nat)
    requires 1 <= m <= n
    ensures Waits(m, count) <= Waits(n, count)
    decreases count
  {
    if count > 0 {
      WaitGrows(m, n);
      WaitsGrow(m + 1, n + 1, count - 1);
    }
  }

  /** From the seventh failure on every wait is the cap. */
  lemma {:induction false} WaitsFromTheCap(n: nat, count: nat)
    requires n >= 7
    ensures Waits(n, count) == count * BACKOFF_MAX
    decreases count
  {
    if count > 0 {
      Pow2Grows(6, n - 1);
      assert Pow2(6) == 64 by {
        assert Pow2(3) == 8;
      }
      WaitsFromTheCap(n + 1, count - 1);
    }
  }

  /** The sum of the first waits: 2^count - 1 minutes for up to six, then an
      hour more for each. */
  lemma {:induction false} FirstWaits(count: nat)
    ensures Waits(1, count) ==
      if count <= 6 then (Pow2(count) - 1) * MINUTE else 63 * MINUTE + (count - 6) * HOUR
  {
    assert Pow2(2) == 4 && Pow2(4) == 16 && Pow2(6) == 64 by {
      assert Pow2(3) == 8;
      assert Pow2(5) == 32;
    }
    WaitsSplit(1, if count <= 6 then count else 6, if count <= 6 then 0 else count - 6);
    if count > 6 {
      WaitsFromTheCap(7, count - 6);
    }
    SmallWaits(if count <= 6 then count else 6);
  }

  lemma {:induction false} WaitsSplit(n: nat, a: nat, b: nat)
    requires n >= 1
    ensures Waits(n, a + b) == Waits(n, a) + Waits(n + a, b)
    decreases a
  {
    if a > 0 {
      WaitsSplit(n + 1, a - 1, b);
    }
  }

  lemma {:induction false} SmallWaits(count: nat)
    requires count <= 6
    ensures Waits(1, count) == (Pow2(count) - 1) * MINUTE
  {
    if count > 0 {
      SmallWaits(count - 1);
      WaitsSplit(1, count - 1, 1);
      assert Pow2(3) == 8 && Pow2(5) == 32;
      assert Waits(count, 1) == Wait(count) + Waits(count + 1, 0);
    }
  }

  lemma {:induction false} SuffixIsARun(s: Option<State>, at: seq<Time>, i: nat)
    requires FailingRun(s, at) && i <= |at|
    ensures FailingRun(AfterRun(s, at[..i]), at[i..])
    ensures Failures(AfterRun(s, at[..i])) == Failures(s) + i
    decreases i
  {
    if i == 0 {
      assert at[0..] == at;
    } else {
      assert at[..i][1..] == at[1..][..i - 1] && at[i..] == at[1..][i - 1..];
      SuffixIsARun(Some(AfterFailure(s, at[0])), at[1..], i - 1);
    }
  }

  lemma {:induction false} PrefixIsARun(s: Option<State>, at: seq<Time>, j: nat)
    requires FailingRun(s, at) && j <= |at|
    ensures FailingRun(s, at[..j])
    decreases j
  {
    if j > 0 {
      assert at[..j][1..] == at[1..][..j - 1];
      PrefixIsARun(Some(AfterFailure(s, at[0])), at[1..], j - 1);
    }
  }

  /** Any stretch of a run of failures is one, from the state before it. */
  lemma {:induction false} WindowIsARun(s: Option<State>, at: seq<Time>, i: nat, j: nat)
    requires FailingRun(s, at) && i <= j <= |at|
    ensures FailingRun(AfterRun(s, at[..i]), at[i..j])
    ensures Failures(AfterRun(s, at[..i])) == Failures(s) + i
  {
    PrefixIsARun(s, at, j);
    SuffixIsARun(s, at[..j], i);
    assert at[..j][..i] == at[..i] && at[..j][i..] == at[i..j];
  }

  /** Between any two failing mints of a run lie the waits of the failures from
      the one to the other. */
  lemma {:induction false} WindowsAreSpaced(s: Option<State>, at: seq<Time>, i: nat, j: nat)
    requires FailingRun(s, at) && i <= j < |at|
    ensures at[j] - at[i] >= Waits(Failures(s) + i + 1, j - i)
  {
    WindowIsARun(s, at, i, j + 1);
    FailuresAreSpaced(AfterRun(s, at[..i]), at[i..j + 1]);
  }

  /** However many failures came before, no window holds more failing mints than
      seven and one for each further hour. */
  lemma {:induction false} MintsInAnyWindow(s: Option<State>, at: seq<Time>, i: nat, j: nat)
    requires FailingRun(s, at) && i <= j < |at| && j - i >= 7
    ensures at[j] - at[i] >= 63 * MINUTE + (j - i - 6) * HOUR
  {
    WindowsAreSpaced(s, at, i, j);
    WaitsGrow(1, Failures(s) + i + 1, j - i);
    FirstWaits(j - i);
  }

  /** Any two of these instants are apart by the first waits between them, and by
      an hour for each beyond the sixth. */
  predicate Spaced(at: seq<Time>) {
    forall i, j | 0 <= i <= j < |at| ::
      && at[j] - at[i] >= Waits(1, j - i)
      && (j - i >= 7 ==> at[j] - at[i] >= 63 * MINUTE + (j - i - 6) * HOUR)
  }

  lemma {:induction false} FailingRunsAreSpaced(s: Option<State>, at: seq<Time>)
    requires FailingRun(s, at)
    ensures Spaced(at)
  {
    forall i, j | 0 <= i <= j < |at|
      ensures at[j] - at[i] >= Waits(1, j - i)
      ensures j - i >= 7 ==> at[j] - at[i] >= 63 * MINUTE + (j - i - 6) * HOUR
    {
      WindowsAreSpaced(s, at, i, j);
      WaitsGrow(1, Failures(s) + i + 1, j - i);
      if j - i >= 7 {
        MintsInAnyWindow(s, at, i, j);
      }
    }
  }
}
