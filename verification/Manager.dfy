/** One reconcile's call: look the current token up, then settle, drain and rotate. */
module Manager {
  import opened Wrappers
  import opened Records
  import opened RevokeLedger
  import opened SecretHistory
  import opened Protocol
  import opened ProtocolInvariant
  import opened Safety
  import opened ApiCalls
  import opened PassSteps
  import opened MintLog
  import Rotation = RotationPass
  import Backoff

  /** How a call ends: nothing to act on, a read or a setting that stops it, or a pass that ran. */
  datatype Outcome = NothingToDo | ReadFailed | BadPeriod | LedgerUnreadable | Stopped | Ran(verdict: Verdict, at: Time)

  lemma {:induction false} VersionIsIssued(w: World, i: nat)
    requires Inv(w) && i < |w.hist|
    ensures Issued(w, Live(w.hist[i].secret))
  {
  }

  lemma {:induction false} CopyStays(w: World, v: World, c: Copy)
    requires Later(w, v) && c.rv < |w.hist| && w.hist[c.rv].secret == c.secret
    ensures c.rv < |v.hist| && v.hist[c.rv].secret == c.secret
  {
  }

  predicate GraceIsOver(es: seq<Entry>, now: Time) {
    forall e | e in es :: e.notBefore <= now
  }

  /** Vault knows the live token and nothing else the ledger listed, save one
      accessor whose revocation was cancelled. */
  predicate Emptied(before: Secret, w: World) {
    && before.ledger.Entries? && Live(before) in w.valid
    && forall e | e in before.ledger.entries && e.accessor != Live(before) && before.cancelRevoke != Some(e.accessor) ::
         e.accessor !in w.valid
  }

  /** Nothing left Vault but accessors the ledger listed, and neither the live one
      nor one whose revocation was cancelled. */
  predicate OnlyListedGone(before: Secret, was: set<Accessor>, remains: set<Accessor>) {
    forall a | a in was && a !in remains ::
      && a != Live(before) && before.cancelRevoke != Some(a)
      && before.ledger.Entries? && exists e | e in before.ledger.entries :: e.accessor == a
  }

  /** What settling and draining leave undisturbed: an empty ledger and annotations
      that say what the settings are, fenced if a swap was open. */
  function Emptying(before: Secret, tm: TokenManagement, now: Time): Secret
    requires before.ledger.Entries?
  {
    before.(ledger := Entries([]), cancelRevoke := None,
            autoRotate := if tm.autoRotate then Some(tm.rotationPeriod) else None,
            fence := if forall e | e in before.ledger.entries :: e.state == Scheduled then before.fence else Some(now))
  }

  lemma {:induction false} FencedIfOpen(before: Secret, tm: TokenManagement, now: Time)
    requires before.ledger.Entries?
    ensures Emptying(before, tm, now)
         == before.(ledger := Entries([]), cancelRevoke := None,
                    autoRotate := if tm.autoRotate then Some(tm.rotationPeriod) else None,
                    fence := if AllScheduled(before.ledger.entries) then before.fence else Some(now))
  {
  }

  /** What an undisturbed rotation makes of a settled Secret: the minted token in
      it, and the replaced one's entry last in its ledger. */
  predicate Left(before: Secret, tm: TokenManagement, now: Time, verdict: Verdict, s: Secret)
    requires before.ledger.Entries?
  {
    match verdict
    case Rotated(m) =>
      && !tm.gracePeriod.Malformed?
      && var grace := if tm.gracePeriod.Blank? then 60 * MINUTE else tm.gracePeriod.span;
         var retired := if before.rotateNow.Immediate? then Entry(Live(before), now, Forced, Scheduled, SwapId(m))
           else Entry(Live(before), now + grace, Superseded, Scheduled, SwapId(m));
         s == before.(token := Token(m), rotateNow := NotRequested, backoff := None,
                      ledger := Entries(before.ledger.entries + [retired]))
    case _ =>
      && (verdict.Idle? || verdict.BadGrace?)
      && s == before
  }

  lemma {:induction false} SomeOrNone(es: seq<Entry>)
    ensures es == [] || exists e :: e in es
  {
    if es != [] {
      assert es[0] in es;
    }
  }

  /** Settled entries and old ones are all due once every grace period is over. */
  lemma {:induction false} NothingIsLeft(
      before: Secret, mid: seq<Entry>, after: seq<Entry>, was: set<Accessor>, w: World, now: Time)
    requires before.ledger.Entries? && GraceIsOver(before.ledger.entries, now) && AllScheduled(mid)
    requires OldOrDue(mid, before.ledger.entries, now) && ListsAllBut(mid, before.ledger.entries, Live(before))
    requires NoDuplicates(mid)
    requires forall a | a in was && a !in w.valid ::
      && a != Live(before) && before.cancelRevoke != Some(a) && exists e | e in mid :: e.accessor == a && Due(e, now)
    requires forall e | e in after :: e in mid && !Due(e, now)
    requires forall e | e in Cancelled(mid, before.cancelRevoke) && Due(e, now) && e.accessor != Live(before) ::
      e.accessor !in w.valid
    ensures after == [] && OnlyListedGone(before, was, w.valid)
    ensures forall e | e in before.ledger.entries && e.accessor != Live(before)
                       && before.cancelRevoke != Some(e.accessor) :: e.accessor !in w.valid
  {
    assert forall e | e in mid :: Due(e, now);
    SomeOrNone(after);
    forall e | e in before.ledger.entries && e.accessor != Live(before) && before.cancelRevoke != Some(e.accessor)
      ensures e.accessor !in w.valid
    {
      var d :| d in mid && d.accessor == e.accessor;
      if before.cancelRevoke.Some? {
        CancelledExactly(mid, before.cancelRevoke.value);
      }
      assert d in Cancelled(mid, before.cancelRevoke);
    }
  }

  /** What was unknown to Vault once, with an accessor issued before, stays unknown. */
  lemma {:induction false} StaysEmptied(w: World, rv: nat, before: Secret, u: World, v: World)
    requires Inv(w) && rv < |w.hist| && w.hist[rv].secret == before && Later(w, u) && Later(u, v)
    requires Emptied(before, u) && Live(before) in v.valid
    ensures Emptied(before, v)
  {
    assert OldIds(w.hist[rv].secret, |w.created|);
  }

  lemma {:induction false} LeftByRotation(w: World, rv: nat, before: Secret, s: Secret, tm: TokenManagement,
      m: Accessor, grace: Time, stamp: Stamp)
    requires before.ledger.Entries? && !tm.gracePeriod.Malformed?
    requires grace == if tm.gracePeriod.Blank? then 60 * MINUTE else tm.gracePeriod.span
    requires RotatedFrom(w, rv, before, s, m,
      if before.rotateNow.Immediate? then stamp.now else stamp.now + grace,
      if before.rotateNow.Immediate? then Forced else Superseded, stamp)
    ensures Left(before, tm, stamp.now, Rotated(m), s) && RotatedTo(w, m)
  {
  }

  lemma {:induction false} LeftAlone(before: Secret, tm: TokenManagement, now: Time, verdict: Verdict)
    requires before.ledger.Entries? && (verdict.Idle? || verdict.BadGrace?)
    ensures Left(before, tm, now, verdict, before)
  {
  }

  ghost predicate RotatedTo(w: World, m: Accessor) {
    exists rv: nat, before, s, notBefore, reason, stamp ::
      RotatedFrom(w, rv, before, s, m, notBefore, reason, stamp)
  }

  /** What a call does to the failures counted for its key: it mints only where
      the gate lets it, counts a rotation that failed, and forgets them all after
      one that succeeded. */
  predicate Counts(
      before: map<string, Backoff.State>, after: map<string, Backoff.State>, key: string, outcome: Outcome) {
    if !outcome.Ran? || outcome.verdict.Idle? || outcome.verdict.BadGrace? then after == before
    else
      && (key in before ==> outcome.at >= before[key].until)
      && after == (if outcome.verdict.Rotated? then before - {key}
                   else before[key := Backoff.AfterFailure(Backoff.StateIn(before, key), outcome.at)])
  }

  /** The mint of a call, decided when it read the clock. */
  function MintOf(outcome: Outcome): seq<Attempt> {
    if !outcome.Ran? || outcome.verdict.Idle? || outcome.verdict.BadGrace? then []
    else [Attempt(outcome.at, outcome.verdict.Rotated?)]
  }

  /** The rotation was started and failed. */
  predicate Failed(outcome: Outcome) {
    outcome.Ran? && !outcome.verdict.Idle? && !outcome.verdict.BadGrace? && !outcome.verdict.Rotated?
  }

  /** The instant counted to in memory, if any. */
  function StateUntil(states: map<string, Backoff.State>, key: string): Option<Time> {
    if key in states then Some(states[key].until) else None
  }

  lemma {:induction false} NothingCounted(states: map<string, Backoff.State>, key: string)
    ensures forall outcome | outcome in {NothingToDo, ReadFailed, BadPeriod, LedgerUnreadable, Stopped} ::
      Counts(states, states, key, outcome) && MintOf(outcome) == []
  {
  }

  lemma {:induction false} PassCounted(before: map<string, Backoff.State>, after: map<string, Backoff.State>,
      key: string, verdict: Verdict, now: Time, tries: seq<Attempt>, more: seq<Attempt>)
    requires verdict.Idle? || verdict.BadGrace? ==> after == before && more == tries
    requires !verdict.Idle? && !verdict.BadGrace? ==>
      && (key in before ==> now >= before[key].until) && more == tries + [Attempt(now, verdict.Rotated?)]
      && after == (if verdict.Rotated? then before - {key}
                   else before[key := Backoff.AfterFailure(Backoff.StateIn(before, key), now)])
    ensures Counts(before, after, key, Ran(verdict, now)) && more == tries + MintOf(Ran(verdict, now))
    ensures Failed(Ran(verdict, now)) ==> StateUntil(after, key).Some?
  {
  }

  lemma {:induction false} ClockMoves(w: World, v: World)
    requires Later(w, v)
    ensures w.clock <= v.clock
  {
  }

  /** No write makes a ledger readable or unreadable. */
  lemma {:induction false} ReadabilityAsRead(w: World, v: World, c: Copy)
    requires Inv(w) && Inv(v) && Later(w, v) && c.rv < |v.hist| && v.hist[c.rv].secret == c.secret
    ensures |w.hist| > 0 && (c.secret.ledger.Unreadable? <==> Current(w).ledger.Unreadable?)
  {
    hide Inv, Chain;
    ReachableChain(w);
    ReachableChain(v);
    assert v.hist[|w.hist| - 1] == w.hist[|w.hist| - 1];
    ReadabilityIsKept(v.hist, c.rv);
    ReadabilityIsKept(v.hist, |w.hist| - 1);
  }

  lemma {:induction false} StillPlain(first: seq<Call>, second: seq<Call>, third: seq<Call>)
    requires OnlyPlain(first, second) && OnlyPlain(second, third)
    ensures OnlyPlain(first, third) && first <= third
  {
  }

  /** Settle every swap, then drain what is due. */
  method SettleAndDrain(pass: Rotation.RotationPass) returns (stop: bool)
    requires pass.cluster.Valid() && Inv(pass.cluster.world) && pass.Mirrors(pass.cluster.world)
    requires pass.secret.token == pass.token
    modifies pass, pass.cluster
    ensures pass.cluster.Valid() && Inv(pass.cluster.world) && Later(old(pass.cluster.world), pass.cluster.world)
    ensures OnlyPlain(old(pass.cluster.log), pass.cluster.log)
    ensures pass.Mirrors(pass.cluster.world) && (!stop ==> pass.secret.token == pass.token)
    ensures old(pass.cluster.Calm() && pass.rv + 1 == |pass.cluster.world.hist|
                && pass.accessor in pass.cluster.world.valid && GraceIsOver(pass.ledger, pass.now)) ==>
      && !stop && pass.cluster.Calm() && pass.rv + 1 == |pass.cluster.world.hist|
      && pass.accessor in pass.cluster.world.valid && Emptied(old(pass.secret), pass.cluster.world)
      && OnlyListedGone(old(pass.secret), old(pass.cluster.world.valid), pass.cluster.world.valid)
      && pass.secret == Emptying(old(pass.secret), pass.tm, pass.now)
    ensures BackoffsSent(pass.cluster.world, old(pass.cluster.sent), pass.cluster.sent, None)
  {
    hide Inv, Later, Cluster.Valid, SettledFrom, DrainedFrom, OnlyRevokes, WellShaped, Due, NoDuplicates;
    hide Asked, DueAccessors, AllScheduled, OldOrDue, ListsAllBut, GraceIsOver, Cancelled;
    hide DrainCalls, OnlyPlain, BackoffsSent, Emptying;
    ghost var before, w, log := pass.secret, pass.cluster.world, pass.cluster.log;
    ghost var undisturbed := pass.cluster.Calm() && pass.rv + 1 == |pass.cluster.world.hist|
                             && pass.accessor in pass.cluster.world.valid && GraceIsOver(pass.ledger, pass.now);
    stop := pass.ResolveUnresolved();
    UpkeepIsPlain(log, pass.cluster.log);
    if stop {
      return true;
    }
    ghost var sent := pass.cluster.sent;
    ghost var mid, v, settled := pass.ledger, pass.cluster.world, pass.cluster.log;
    ghost var cancel := pass.secret.cancelRevoke;
    pass.LedgerIsShaped();
    ShapedAreDistinct(mid, pass.accessor);
    pass.RevokeDue();
    DrainIsPlain(settled, pass.cluster.log, DueAccessors(Cancelled(mid, cancel), pass.now, pass.accessor),
                 cancel, pass.now);
    StillPlain(log, settled, pass.cluster.log);
    AheadIsLater(v, pass.cluster.world, pass.cluster.me);
    SentThen(v, pass.cluster.world, old(pass.cluster.sent), sent, pass.cluster.sent, None);
    LaterTransitive(w, v, pass.cluster.world);
    if undisturbed {
      FencedIfOpen(before, pass.tm, pass.now);
      NothingIsLeft(before, mid, pass.ledger, w.valid, pass.cluster.world, pass.now);
    }
    return false;
  }

  /** A version calls for a rotation at this instant: it asks for one or its token
      is old enough, the operator owns the credential, no swap is open, the ledger
      has room and the recorded backoff is over. */
  predicate CallsForRotation(s: Secret, created: Time, tm: TokenManagement, at: Time) {
    && tm.enabled && !tm.external && !tm.rotationPeriod.Malformed?
    && (s.rotateNow == Graceful || s.rotateNow == Immediate
        || (tm.autoRotate
            && at - created >= if tm.rotationPeriod.Blank? then 720 * HOUR else tm.rotationPeriod.span))
    && s.ledger.Entries? && (forall e | e in s.ledger.entries :: e.state == Scheduled) && |s.ledger.entries| < 15
    && (s.backoff == None || at >= s.backoff.value)
  }

  /** Some version calls for a rotation at this instant, by its token's age in Vault. */
  ghost predicate CalledForRotation(w: World, tm: TokenManagement, at: Time) {
    exists i | 0 <= i < |w.hist| ::
      Issued(w, Live(w.hist[i].secret))
      && CallsForRotation(w.hist[i].secret, w.created[Live(w.hist[i].secret)], tm, at)
  }

  lemma {:induction false} OwnedIfCalled(w: World, tm: TokenManagement, at: Time)
    ensures CalledForRotation(w, tm, at) ==> tm.enabled && !tm.external
  {
  }

  lemma {:induction false} CallIsThere(
      w: World, v: World, rv: nat, s: Secret, created: Time, tm: TokenManagement, at: Time)
    requires Later(w, v) && rv < |w.hist| && w.hist[rv].secret == s
    requires Issued(w, Live(s)) && created == w.created[Live(s)] && CallsForRotation(s, created, tm, at)
    ensures CalledForRotation(v, tm, at)
  {
    assert v.hist[rv] == w.hist[rv] && v.created[Live(s)] == w.created[Live(s)];
  }

  lemma {:induction false} PeriodIs(s: Secret, created: Time, tm: TokenManagement, period: Time, at: Time)
    requires SpanOf(tm.rotationPeriod, DEFAULT_PERIOD) == Some(period)
    ensures CallsForRotation(s, created, tm, at) <==>
      && (s.rotateNow == Graceful || s.rotateNow == Immediate || (tm.autoRotate && at - created >= period))
      && tm.enabled && !tm.external
      && s.ledger.Entries? && (forall e | e in s.ledger.entries :: e.state == Scheduled) && |s.ledger.entries| < 15
      && (s.backoff == None || at >= s.backoff.value)
  {
  }

  /** Settling and draining change nothing a rotation is decided on but the ledger. */
  lemma {:induction false} SameCall(before: Secret, created: Time, tm: TokenManagement, now: Time)
    requires before.ledger.Entries?
    ensures CallsForRotation(Emptying(before, tm, now), created, tm, now)
         == CallsForRotation(before.(ledger := Entries([])), created, tm, now)
  {
  }

  /** Rotate if due, as the log and the failures counted tell it. */
  method Rotate(pass: Rotation.RotationPass, created: Time, period: Time, backoffs: Backoff.Backoffs, key: string)
    returns (verdict: Verdict)
    requires pass.cluster.Valid() && Inv(pass.cluster.world) && pass.Mirrors(pass.cluster.world)
    requires pass.secret.token == pass.token && created == pass.cluster.world.created[pass.accessor]
    requires LastReading(pass.cluster.log) == Some(pass.now)
    requires SpanOf(pass.tm.rotationPeriod, DEFAULT_PERIOD) == Some(period)
    modifies pass, pass.cluster, backoffs
    ensures pass.cluster.Valid() && Inv(pass.cluster.world) && Later(old(pass.cluster.world), pass.cluster.world)
    ensures old(pass.cluster.log) <= pass.cluster.log
    ensures Attempts(pass.cluster.log) == Attempts(old(pass.cluster.log)) + MintOf(Ran(verdict, pass.now))
    ensures Counts(old(backoffs.states), backoffs.states, key, Ran(verdict, pass.now))
    ensures verdict.Rotated? ==> RotatedTo(pass.cluster.world, verdict.minted)
    ensures !verdict.Idle? ==> CalledForRotation(pass.cluster.world, pass.tm, pass.now)
    ensures !verdict.Idle? <==>
      && CallsForRotation(old(pass.secret), created, pass.tm, pass.now)
      && (key in old(backoffs.states) ==> pass.now >= old(backoffs.states)[key].until)
    ensures verdict.BadGrace? <==> !verdict.Idle? && pass.tm.gracePeriod.Malformed?
    ensures BackoffsSent(
      pass.cluster.world, old(pass.cluster.sent), pass.cluster.sent, StateUntil(backoffs.states, key))
    ensures Failed(Ran(verdict, pass.now)) ==>
      && key in backoffs.states
      && EndsBackedOff(pass.cluster.world, pass.cluster.log, pass.cluster.sent, pass.token, backoffs.states[key].until)
    ensures old(pass.cluster.Calm() && pass.rv + 1 == |pass.cluster.world.hist|
                && pass.accessor in pass.cluster.world.valid) ==>
      && |pass.cluster.world.hist| > 0 && old(pass.cluster.world.valid) <= pass.cluster.world.valid
      && old(pass.secret).ledger.Entries?
      && Left(old(pass.secret), pass.tm, pass.now, verdict, Current(pass.cluster.world))
  {
    hide Inv, Later, Cluster.Valid, RotatedFrom, RotationSince, Backoff.AfterFailure, Counts, MintOf, RotatedTo;
    hide Left, Attempts, LastReading, Decided, BackoffsSent, EndsBackedOff, CallsForRotation, CalledForRotation;
    ghost var w, rv, before, log := pass.cluster.world, pass.rv, pass.secret, pass.cluster.log;
    PeriodIs(before, created, pass.tm, period, pass.now);
    verdict := pass.RotateIfDue(created, period, backoffs, key);
    if verdict.Idle? || verdict.BadGrace? {
      LeftAlone(before, pass.tm, pass.now, verdict);
    } else {
      ghost var got :| RotationSince(log, pass.cluster.log, got, verdict.Rotated?);
      RotationIsOneAttempt(log, pass.cluster.log, got, verdict.Rotated?, pass.now);
    }
    if !verdict.Idle? {
      CallIsThere(w, pass.cluster.world, rv, before, created, pass.tm, pass.now);
    }
    if verdict.Rotated? {
      var grace := if pass.tm.gracePeriod.Blank? then 60 * MINUTE else pass.tm.gracePeriod.span;
      LeftByRotation(pass.cluster.world, pass.rv, before, pass.secret, pass.tm, verdict.minted, grace,
                     Stamp(pass.now, before.rotateNow.Immediate? || before.rotateNow.Graceful?, period, grace));
    }
    PassCounted(old(backoffs.states), backoffs.states, key, verdict, pass.now, Attempts(log),
                Attempts(pass.cluster.log));
  }

  /** Settle, drain and rotate, in this order. */
  method RunPass(pass: Rotation.RotationPass, created: Time, period: Time, backoffs: Backoff.Backoffs, key: string)
    returns (outcome: Outcome)
    requires pass.cluster.Valid() && Inv(pass.cluster.world) && pass.Mirrors(pass.cluster.world)
    requires pass.secret.token == pass.token && created == pass.cluster.world.created[pass.accessor]
    requires LastReading(pass.cluster.log) == Some(pass.now)
    requires SpanOf(pass.tm.rotationPeriod, DEFAULT_PERIOD) == Some(period)
    modifies pass, pass.cluster, backoffs
    ensures pass.cluster.Valid() && Inv(pass.cluster.world) && Later(old(pass.cluster.world), pass.cluster.world)
    ensures old(pass.cluster.log) <= pass.cluster.log
    ensures Attempts(pass.cluster.log) == Attempts(old(pass.cluster.log)) + MintOf(outcome)
    ensures Counts(old(backoffs.states), backoffs.states, key, outcome)
    ensures outcome.Stopped? || (outcome.Ran? && outcome.at == pass.now)
    ensures outcome.Ran? && outcome.verdict.Rotated? ==> RotatedTo(pass.cluster.world, outcome.verdict.minted)
    ensures outcome.Ran? && !outcome.verdict.Idle? ==> CalledForRotation(pass.cluster.world, pass.tm, outcome.at)
    ensures BackoffsSent(
      pass.cluster.world, old(pass.cluster.sent), pass.cluster.sent, StateUntil(backoffs.states, key))
    ensures Failed(outcome) ==>
      && key in backoffs.states
      && EndsBackedOff(pass.cluster.world, pass.cluster.log, pass.cluster.sent, pass.token, backoffs.states[key].until)
    ensures old(pass.cluster.Calm() && pass.rv + 1 == |pass.cluster.world.hist|
                && pass.accessor in pass.cluster.world.valid && GraceIsOver(pass.ledger, pass.now)) ==>
      && outcome.Ran? && |pass.cluster.world.hist| > 0 && Emptied(old(pass.secret), pass.cluster.world)
      && OnlyListedGone(old(pass.secret), old(pass.cluster.world.valid), pass.cluster.world.valid)
      && Left(Emptying(old(pass.secret), pass.tm, pass.now), pass.tm, pass.now, outcome.verdict,
              Current(pass.cluster.world))
      && (!outcome.verdict.Idle? <==>
            && CallsForRotation(old(pass.secret).(ledger := Entries([])), created, pass.tm, pass.now)
            && (key in old(backoffs.states) ==> pass.now >= old(backoffs.states)[key].until))
      && (outcome.verdict.BadGrace? <==> !outcome.verdict.Idle? && pass.tm.gracePeriod.Malformed?)
  {
    hide Inv, Later, Cluster.Valid, GraceIsOver, OnlyListedGone, RotatedTo, Counts, MintOf, SpanOf;
    hide Left, Emptied, Attempts, LastReading, BackoffsSent, EndsBackedOff, CallsForRotation, CalledForRotation;
    hide Emptying;
    ghost var before, rv, w, log := pass.secret, pass.rv, pass.cluster.world, pass.cluster.log;
    ghost var undisturbed := pass.cluster.Calm() && pass.rv + 1 == |pass.cluster.world.hist|
                             && pass.accessor in pass.cluster.world.valid && GraceIsOver(pass.ledger, pass.now);
    NothingCounted(backoffs.states, key);
    var stop := SettleAndDrain(pass);
    PlainChangesNothing(log, pass.cluster.log);
    if stop {
      SentWithout(pass.cluster.world, old(pass.cluster.sent), pass.cluster.sent);
      return Stopped;
    }
    ghost var u, sent := pass.cluster.world, pass.cluster.sent;
    CreatedStays(w, u, pass.accessor);
    var verdict := Rotate(pass, created, period, backoffs, key);
    LaterTransitive(w, u, pass.cluster.world);
    SentThen(u, pass.cluster.world, old(pass.cluster.sent), sent, pass.cluster.sent, StateUntil(backoffs.states, key));
    if undisturbed {
      StaysEmptied(w, rv, before, u, pass.cluster.world);
      SameCall(before, created, pass.tm, pass.now);
      StillOnlyListed(before, w.valid, u.valid, pass.cluster.world.valid);
    }
    return Ran(verdict, pass.now);
  }

  lemma {:induction false} ShapedAreDistinct(es: seq<Entry>, live: Accessor)
    requires WellShaped(es, live)
    ensures NoDuplicates(es)
  {
  }

  lemma {:induction false} StillOnlyListed(
      before: Secret, was: set<Accessor>, drained: set<Accessor>, remains: set<Accessor>)
    requires OnlyListedGone(before, was, drained) && drained <= remains
    ensures OnlyListedGone(before, was, remains)
  {
  }

  lemma {:induction false} CreatedStays(w: World, v: World, a: Accessor)
    requires Later(w, v) && Issued(w, a)
    ensures Issued(v, a) && v.created[a] == w.created[a]
  {
  }

  /** What stands for a Secret that was not read. */
  const PLACEHOLDER := Secret(Token(0), true, Entries([]), NotRequested, None, None, None, None)

  const DEFAULT_PERIOD: Time := 720 * HOUR

  /** Left alone, with a token Vault accepts, a period that parses and every grace
      period over. */
  predicate Undisturbed(cluster: Cluster, tm: TokenManagement)
    reads cluster
  {
    && cluster.Calm() && |cluster.world.hist| > 0
    && var w, s := cluster.world, Current(cluster.world);
       && !s.placeholder && Live(s) in w.valid && Issued(w, Live(s))
       && s.ledger.Entries? && GraceIsOver(s.ledger.entries, w.clock) && !tm.rotationPeriod.Malformed?
  }

  /** From one log to the next nothing was done but to read the Secret and the clock
      and to look up a token that a version held, not as a placeholder. */
  ghost predicate OnlyLooks(w: World, before: seq<Call>, after: seq<Call>) {
    && before <= after
    && forall i | |before| <= i < |after| ::
         || after[i].Read? || after[i].ReadClock?
         || (after[i].LookedUp?
             && exists v | v in w.hist :: !v.secret.placeholder && v.secret.token == after[i].token)
  }

  lemma {:induction false} NothingLooked(w: World, log: seq<Call>)
    ensures OnlyLooks(w, log, log)
  {
  }

  lemma {:induction false} OneReadIsPlain(w: World, log: seq<Call>, found: bool)
    ensures OnlyLooks(w, log, log + [Read(found)]) && OnlyPlain(log, log + [Read(found)])
  {
  }

  lemma {:induction false} LookupIsPlain(w: World, log: seq<Call>, c: Copy, accepted: bool)
    requires c.rv < |w.hist| && w.hist[c.rv].secret == c.secret && !c.secret.placeholder
    ensures OnlyLooks(w, log, log + [Read(true)] + [LookedUp(c.secret.token, accepted)])
    ensures OnlyPlain(log, log + [Read(true)] + [LookedUp(c.secret.token, accepted)])
  {
    assert w.hist[c.rv] in w.hist;
  }

  lemma {:induction false} ClockIsNoMore(w: World, log: seq<Call>, looked: seq<Call>, now: Time)
    requires OnlyLooks(w, log, looked)
    ensures OnlyLooks(w, log, looked + [ReadClock(now)])
  {
  }

  /** Read the Secret, look its token up, parse the period and read the clock; any
      of them may stop the call. */
  method LookUp(cluster: Cluster, tm: TokenManagement)
    returns (stop: Option<Outcome>, read: Copy, created: Time, period: Time, now: Time)
    requires cluster.Valid()
    modifies cluster
    ensures cluster.Valid() && Inv(cluster.world) && Later(old(cluster.world), cluster.world)
    ensures old(cluster.log) <= cluster.log && Attempts(cluster.log) == Attempts(old(cluster.log))
    // It asks Vault for no token but one that a version held in earnest.
    ensures OnlyLooks(cluster.world, old(cluster.log), cluster.log) && cluster.sent == old(cluster.sent)
    ensures stop.Some? ==> stop.value in {NothingToDo, ReadFailed, BadPeriod, LedgerUnreadable}
    ensures stop == Some(ReadFailed) ==> cluster.log == old(cluster.log) + [Read(false)]
    ensures stop == Some(BadPeriod) ==> tm.rotationPeriod.Malformed?
    ensures stop == Some(LedgerUnreadable) ==> exists v | v in cluster.world.hist :: v.secret.ledger.Unreadable?
    ensures stop.None? ==>
      && read.rv < |cluster.world.hist| && cluster.world.hist[read.rv].secret == read.secret
      && !read.secret.placeholder && read.secret.ledger.Entries? && Issued(cluster.world, Live(read.secret))
      && created == cluster.world.created[Live(read.secret)]
      && SpanOf(tm.rotationPeriod, DEFAULT_PERIOD) == Some(period)
      && cluster.log == old(cluster.log) + [Read(true), LookedUp(read.secret.token, true), ReadClock(now)]
      && LastReading(cluster.log) == Some(now)
      && old(cluster.world.clock) <= now <= cluster.world.clock
    ensures tm.rotationPeriod.Malformed? ==> stop.Some?
    ensures old(|cluster.world.hist| > 0 && Current(cluster.world).ledger.Unreadable?) ==> stop.Some?
    // Undisturbed, what stops it is the first of these that is so.
    ensures old(cluster.Calm() && |cluster.world.hist| > 0) ==>
      var w, s := old(cluster.world), old(Current(cluster.world));
      && cluster.Calm() && cluster.world == w && read == Copy(s, |w.hist| - 1)
      && (s.placeholder ==> stop == Some(NothingToDo) && cluster.log == old(cluster.log) + [Read(true)])
      && (!s.placeholder && Live(s) !in w.valid ==> stop == Some(NothingToDo))
      && (!s.placeholder && Live(s) in w.valid ==>
            && (tm.rotationPeriod.Malformed? ==> stop == Some(BadPeriod))
            && (!tm.rotationPeriod.Malformed? && s.ledger.Unreadable? ==> stop == Some(LedgerUnreadable))
            && (!tm.rotationPeriod.Malformed? && s.ledger.Entries? ==> stop == None && now == w.clock))
  {
    hide Inv, Later, Attempts, LastReading, Cluster.Valid, OnlyLooks, Plain, OnlyPlain, NextTurn;
    read, created, period, now := Copy(PLACEHOLDER, 0), 0, 0, 0;
    ghost var w, log := cluster.world, cluster.log;
    cluster.Reachable();
    var found := cluster.Get();
    OneReadIsPlain(cluster.world, log, found.Some?);
    PlainChangesNothing(log, cluster.log);
    if found.None? {
      return Some(ReadFailed), read, created, period, now;
    }
    read := found.value;
    ghost var v := cluster.world;
    ReadabilityAsRead(w, v, read);
    if read.secret.placeholder {
      return Some(NothingToDo), read, created, period, now;
    }
    VersionIsIssued(v, read.rv);
    var answer := cluster.LookupSelf(read.secret.token);
    LaterTransitive(w, v, cluster.world);
    CopyStays(v, cluster.world, read);
    LookupIsPlain(cluster.world, log, read, answer.Some?);
    PlainChangesNothing(log, cluster.log);
    if answer.None? {
      return Some(NothingToDo), read, created, period, now;
    }
    created := answer.value;
    var span := SpanOf(tm.rotationPeriod, DEFAULT_PERIOD);
    if span.None? {
      return Some(BadPeriod), read, created, period, now;
    }
    period := span.value;
    ghost var answered := cluster.log;
    now := cluster.Now();
    ClockWasRead(answered, now);
    ClockIsNoMore(cluster.world, log, answered, now);
    ClockMoves(w, cluster.world);
    if read.secret.ledger.Unreadable? {
      return Some(LedgerUnreadable), read, created, period, now;
    }
    return None, read, created, period, now;
  }

  method RotateIfDue(cluster: Cluster, tm: Option<TokenManagement>, backoffs: Backoff.Backoffs, key: string)
    returns (outcome: Outcome)
    requires cluster.Valid()
    modifies cluster, backoffs
    ensures cluster.Valid() && Inv(cluster.world) && Later(old(cluster.world), cluster.world)
    ensures old(cluster.log) <= cluster.log
    // It mints at most once, past the gate, as the clock was read during the call.
    ensures Attempts(cluster.log) == Attempts(old(cluster.log)) + MintOf(outcome)
    ensures Counts(old(backoffs.states), backoffs.states, key, outcome)
    ensures outcome.Ran? ==> old(cluster.world.clock) <= outcome.at <= cluster.world.clock
    // It acts only once Vault has answered for the token of the version it read.
    ensures outcome.Ran? || outcome.Stopped? ==>
      exists rv: nat, now, calls ::
        && rv < |cluster.world.hist| && !cluster.world.hist[rv].secret.placeholder
        && cluster.log ==
           old(cluster.log) + [Read(true), LookedUp(cluster.world.hist[rv].secret.token, true), ReadClock(now)] + calls
    ensures !outcome.Ran? && !outcome.Stopped? ==>
      OnlyLooks(cluster.world, old(cluster.log), cluster.log) && cluster.sent == old(cluster.sent)
    ensures outcome.Ran? && outcome.verdict.Rotated? ==> RotatedTo(cluster.world, outcome.verdict.minted)
    // It mints only where the operator owns the credential and a version calls for it.
    ensures outcome.Ran? && !outcome.verdict.Idle? ==>
      && tm.Some? && tm.value.enabled && !tm.value.external
      && CalledForRotation(cluster.world, tm.value, outcome.at)
    // No write says another backoff than the one counted to, and a rotation that fails says that.
    ensures BackoffsSent(cluster.world, old(cluster.sent), cluster.sent, StateUntil(backoffs.states, key))
    ensures Failed(outcome) ==>
      && key in backoffs.states
      && exists v | v in cluster.world.hist ::
           EndsBackedOff(cluster.world, cluster.log, cluster.sent, v.secret.token, backoffs.states[key].until)
    // A period that does not parse, or a ledger that does not, stops it before anything is done.
    ensures tm.Some? && tm.value.rotationPeriod.Malformed? ==> !outcome.Ran? && !outcome.Stopped?
    ensures old(|cluster.world.hist| > 0 && Current(cluster.world).ledger.Unreadable?) ==>
      !outcome.Ran? && !outcome.Stopped?
    ensures old(cluster.Calm() && |cluster.world.hist| > 0 && Current(cluster.world).ledger.Unreadable?) ==>
      cluster.world == old(cluster.world)
    ensures tm.None? ==>
      && outcome == NothingToDo && cluster.world == old(cluster.world) && cluster.log == old(cluster.log)
      && backoffs.states == old(backoffs.states)
    // A placeholder is left alone.
    ensures tm.Some? && old(cluster.Calm() && |cluster.world.hist| > 0 && Current(cluster.world).placeholder) ==>
      && outcome == NothingToDo && cluster.world == old(cluster.world)
      && cluster.log == old(cluster.log) + [Read(true)] && backoffs.states == old(backoffs.states)
    // One undisturbed call empties any reachable ledger, and rotates exactly when it may.
    ensures tm.Some? && old(Undisturbed(cluster, tm.value)) ==>
      var s, w, now := old(Current(cluster.world)), old(cluster.world), old(cluster.world.clock);
      && outcome.Ran? && |cluster.world.hist| > 0 && Emptied(s, cluster.world)
      && OnlyListedGone(s, w.valid, cluster.world.valid)
      && outcome.at == now
      && Left(Emptying(s, tm.value, now), tm.value, now, outcome.verdict, Current(cluster.world))
      && (!outcome.verdict.Idle? <==>
            && CallsForRotation(s.(ledger := Entries([])), w.created[Live(s)], tm.value, now)
            && (key in old(backoffs.states) ==> now >= old(backoffs.states)[key].until))
      && (outcome.verdict.BadGrace? <==> !outcome.verdict.Idle? && tm.value.gracePeriod.Malformed?)
  {
    hide Inv, Later, Cluster.Valid, RotatedTo, Emptied, Left, GraceIsOver, Attempts, LastReading, OnlyListedGone;
    hide Counts, MintOf, BackoffsSent, EndsBackedOff, OnlyLooks, CallsForRotation, CalledForRotation, Emptying;
    cluster.Reachable();
    NothingCounted(backoffs.states, key);
    NothingSent(cluster.world, cluster.sent);
    if tm.None? {
      NothingLooked(cluster.world, cluster.log);
      LaterItself(cluster.world);
      return NothingToDo;
    }
    ghost var w := cluster.world;
    var stop, read, created, period, now := LookUp(cluster, tm.value);
    NothingSent(cluster.world, cluster.sent);
    if stop.Some? {
      return stop.value;
    }
    ghost var v, looked := cluster.world, cluster.log;
    var pass := new Rotation.RotationPass(cluster, tm.value, read, now);
    outcome := RunPass(pass, created, period, backoffs, key);
    LaterTransitive(w, v, cluster.world);
    ClockMoves(v, cluster.world);
    CopyStays(v, cluster.world, read);
    OwnedIfCalled(cluster.world, tm.value, now);
    assert cluster.world.hist[read.rv] in cluster.world.hist;
    assert cluster.log == looked + cluster.log[|looked|..];
  }
}
