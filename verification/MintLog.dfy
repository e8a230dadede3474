/** What a log of calls tells about mints: when each was decided, and whether its
    rotation succeeded. */
module MintLog {
  import opened Wrappers
  import opened Records
  import opened RevokeLedger
  import opened SecretHistory
  import opened Protocol
  import opened ApiCalls
  import opened PassSteps

  /** One call to mint: the clock as it was last read before it, and whether the
      swap to what it minted was accepted. */
  datatype Attempt = Attempt(at: Time, succeeded: bool)

  function LastReading(calls: seq<Call>): Option<Time> {
    if calls == [] then None
    else if calls[|calls| - 1].ReadClock? then Some(calls[|calls| - 1].now)
    else LastReading(calls[..|calls| - 1])
  }

  function Attempts(calls: seq<Call>): seq<Attempt> {
    if calls == [] then []
    else
      var before, c := calls[..|calls| - 1], calls[|calls| - 1];
      var tries := Attempts(before);
      if c.AskedToMint? then
        tries + [Attempt(match LastReading(before) case None => 0 case Some(now) => now, false)]
      else if IsSwap(c) && c.answer.Accepted? && tries != [] then
        tries[|tries| - 1 := tries[|tries| - 1].(succeeded := true)]
      else tries
  }

  /** A call that is no mint, no accepted swap and no look at the clock. */
  predicate Plain(c: Call) {
    !c.ReadClock? && !c.AskedToMint? && !(IsSwap(c) && c.answer.Accepted?)
  }

  lemma {:induction false} PlainCalls(a: seq<Call>, b: seq<Call>)
    requires forall c | c in b :: Plain(c)
    ensures Attempts(a + b) == Attempts(a) && LastReading(a + b) == LastReading(a)
    decreases |b|
  {
    if b == [] {
      assert a + b == a;
    } else {
      var n := |b| - 1;
      assert (a + b)[..|a + b| - 1] == a + b[..n];
      assert b[n] in b;
      PlainCalls(a, b[..n]);
    }
  }

  /** From one log to the next only plain calls were made. */
  predicate OnlyPlain(before: seq<Call>, after: seq<Call>) {
    before <= after && forall i | |before| <= i < |after| :: Plain(after[i])
  }

  lemma {:induction false} PlainChangesNothing(before: seq<Call>, after: seq<Call>)
    requires OnlyPlain(before, after)
    ensures Attempts(after) == Attempts(before) && LastReading(after) == LastReading(before)
  {
    var calls := after[|before|..];
    assert after == before + calls;
    assert forall i | 0 <= i < |calls| :: calls[i] == after[|before| + i];
    PlainCalls(before, calls);
  }

  lemma {:induction false} UpkeepIsPlain(before: seq<Call>, after: seq<Call>)
    requires OnlyUpkeep(before, after)
    ensures OnlyPlain(before, after)
  {
  }

  lemma {:induction false} DrainIsPlain(
      before: seq<Call>, after: seq<Call>, due: seq<Accessor>, cancel: Option<Accessor>, now: Time)
    requires DrainCalls(before, after, due, cancel, now)
    ensures OnlyPlain(before, after)
  {
    var calls :|
      && OnlyRevokes(calls) && Asked(calls) == due
      && (after == before + calls
          || exists gone, answer :: after == before + calls + [Wrote(Drain(cancel, gone, now), answer)]);
    assert forall i | |before| <= i < |before| + |calls| :: after[i] == calls[i - |before|] && after[i] in calls;
  }

  lemma {:induction false} ClockWasRead(log: seq<Call>, now: Time)
    ensures Attempts(log + [ReadClock(now)]) == Attempts(log) && LastReading(log + [ReadClock(now)]) == Some(now)
  {
    assert (log + [ReadClock(now)])[..|log|] == log;
  }

  /** After a mint, calls without another mint or look at the clock decide only
      whether it succeeded. */
  lemma {:induction false} SameAttempt(a: seq<Call>, b: seq<Call>)
    requires Attempts(a) != [] && !Attempts(a)[|Attempts(a)| - 1].succeeded
    requires forall c | c in b :: !c.AskedToMint?
    ensures var n := |Attempts(a)| - 1;
      Attempts(a + b) == Attempts(a)[..n] + [Attempts(a)[n].(succeeded := SwapAccepted(b))]
    decreases |b|
  {
    if b == [] {
      assert a + b == a;
    } else {
      var n := |b| - 1;
      assert (a + b)[..|a + b| - 1] == a + b[..n];
      assert b == b[..n] + [b[n]];
      SameAttempt(a, b[..n]);
      assert SwapAccepted(b) <==> SwapAccepted(b[..n]) || (IsSwap(b[n]) && b[n].answer.Accepted?) by {
        assert forall c :: c in b <==> c in b[..n] || c == b[n];
      }
    }
  }

  /** A rotation is one attempt, decided when its pass last read the clock. */
  lemma {:induction false} RotationIsOneAttempt(
      before: seq<Call>, after: seq<Call>, got: Option<Accessor>, done: bool, now: Time)
    requires RotationSince(before, after, got, done) && LastReading(before) == Some(now)
    ensures Attempts(after) == Attempts(before) + [Attempt(now, done)]
  {
    var calls := after[|before|..];
    var asked, rest := before + [AskedToMint(got)], calls[1..];
    assert after == asked + rest && calls[0] == AskedToMint(got) && asked[..|before|] == before;
    assert Attempts(asked) == Attempts(before) + [Attempt(now, false)];
    forall c | c in rest
      ensures !c.AskedToMint?
    {
      var i :| 0 <= i < |rest| && rest[i] == c;
      assert InRotation(calls, i + 1);
    }
    SameAttempt(asked, rest);
    assert SwapAccepted(rest) <==> SwapAccepted(calls) by {
      assert calls == [calls[0]] + rest;
    }
  }
}
