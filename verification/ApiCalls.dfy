/** Vault and the apiserver as one running pass meets them. Before each of its
    calls anybody else may take any number of steps, and the call may be
    answered by an error that is true or false. */
module ApiCalls {
  import opened Wrappers
  import opened Records
  import opened RevokeLedger
  import opened SecretHistory
  import opened Protocol
  import opened ProtocolInvariant
  import opened Safety

  /** How one call goes. Anything but Fine is an error answer; a lost reply
      hides that the call took effect. */
  datatype Reply = Fine | Failing | ReplyLost | Conflicting | Refusing

  /** What the others do first, how many versions behind a read is, and how the call goes. */
  datatype Turn = Turn(before: seq<Event>, behind: nat, reply: Reply)

  /** Nobody else acts, reads are current and the call succeeds. */
  const CALM := Turn([], 0, Fine)

  function NextTurn(schedule: seq<Turn>): Turn {
    if schedule == [] then CALM else schedule[0]
  }

  datatype Answer = Accepted | Conflict | Rejected | Uncertain

  /** A Secret as read or written, with its resourceVersion. */
  datatype Copy = Copy(secret: Secret, rv: nat)

  /** The calls a pass made and what it was told. */
  datatype Call =
    | Read(found: bool)
    | Wrote(how: Origin, answer: Answer)
    | LookedUp(token: Token, accepted: bool)
    | ReadClock(now: Time)
    | AskedToMint(got: Option<Accessor>)
    | AskedToRevoke(a: Accessor)
    | Verified(a: Accessor, gone: bool)

  predicate ByOthers(e: Event, me: PassId) {
    match e
    case Mint(who) => who != me
    case MintUnseen(who) => who != me
    case GiveUp(who, _) => who != me
    case Crash(who) => who != me
    case Send(who, _) => who != me
    case Revoke(who, _, _, _) => who != me
    case _ => true
  }

  /** A later state in which the pass still holds its mints. */
  ghost predicate Ahead(w: World, v: World, me: PassId) {
    && Later(w, v)
    && forall m | m in w.held && w.held[m] == me :: m in v.held && v.held[m] == me
  }

  lemma {:induction false} OthersStepAhead(w: World, e: Event, me: PassId)
    requires Inv(w) && ByOthers(e, me)
    ensures Ahead(w, Apply(w, e), me)
  {
    StepIsLater(w, e);
    hide Later, Preconditioned, MayRevoke, Chain;
  }

  lemma {:induction false} AheadTransitive(u: World, v: World, w: World, me: PassId)
    requires Ahead(u, v, me) && Ahead(v, w, me)
    ensures Ahead(u, w, me)
  {
    LaterTransitive(u, v, w);
  }

  lemma {:induction false} AheadIsLater(w: World, v: World, me: PassId)
    requires Ahead(w, v, me)
    ensures Later(w, v)
  {
  }

  lemma {:induction false} AheadItself(w: World, me: PassId)
    ensures Ahead(w, w, me)
  {
    LaterItself(w);
  }

  /** What a pass may send, it may still send after the others acted. */
  lemma {:induction false} CanSendLater(w: World, v: World, me: PassId, x: Write)
    requires Inv(w) && Ahead(w, v, me) && CanSend(w, me, x)
    ensures CanSend(v, me, x)
  {
    assert v.hist[..x.pre + 1] == w.hist[..x.pre + 1];
    hide LegalWrite, Chain, Accounted, Timely;
  }

  /** What an outside writer may send, it may still send after the others acted. */
  lemma {:induction false} CanSendOutsideLater(w: World, v: World, x: Write)
    requires Inv(w) && Later(w, v) && CanSendOutside(w, x)
    ensures CanSendOutside(v, x)
  {
    assert v.hist[..x.pre + 1] == w.hist[..x.pre + 1];
    hide LegalWrite, Chain, Accounted, Timely;
  }

  // ---- What each call does to the state ----

  lemma {:induction false} SendEffect(w: World, me: PassId, x: Write)
    requires Inv(w) && CanSend(w, me, x)
    ensures |w.hist| > 0
    ensures var v := Apply(w, Send(me, x));
      && Later(w, v) && x in v.inflight && (!x.how.Swap? ==> Ahead(w, v, me))
      && v.hist == w.hist && v.valid == w.valid && v.clock == w.clock && v.created == w.created
  {
    StepIsLater(w, Send(me, x));
  }

  lemma {:induction false} OutsideEffect(w: World, me: PassId, x: Write)
    requires Inv(w) && CanSendOutside(w, x)
    ensures |w.hist| > 0
    ensures var v := Apply(w, Outside(x));
      && Ahead(w, v, me) && x in v.inflight
      && v.hist == w.hist && v.valid == w.valid && v.clock == w.clock && v.created == w.created
  {
    StepIsLater(w, Outside(x));
  }

  lemma {:induction false} LandEffect(w: World, me: PassId, x: Write)
    requires Inv(w) && x in w.inflight
    ensures Ahead(w, Apply(w, Lose(x)), me) && Apply(w, Lose(x)).hist == w.hist
    ensures Ahead(w, Apply(w, Land(x)), me)
    ensures x.pre < |w.hist|
    ensures x.pre + 1 == |w.hist| ==>
      var v := Apply(w, Land(x));
      && v.hist == w.hist + [Version(x.secret, x.how)]
      && v.valid == w.valid && v.clock == w.clock && v.created == w.created
  {
    OthersStepAhead(w, Lose(x), me);
    OthersStepAhead(w, Land(x), me);
    assert Preconditioned(w, x);
  }

  lemma {:induction false} UpdateIsLater(u: World, v: World, w: World, z: World, me: PassId, swap: bool)
    requires Ahead(u, v, me) && Later(v, w) && (!swap ==> Ahead(v, w, me)) && Ahead(w, z, me)
    ensures Later(u, z) && (!swap ==> Ahead(u, z, me))
  {
    LaterTransitive(u, v, w);
    LaterTransitive(u, w, z);
  }

  lemma {:induction false} MintEffect(w: World, me: PassId)
    requires Inv(w)
    ensures |w.hist| > 0
    ensures var v := Apply(w, Mint(me)); var m := |w.created|;
      && Ahead(w, v, me) && v.hist == w.hist && v.clock == w.clock && v.valid == w.valid + {m}
      && |v.created| == m + 1 && m in v.held && v.held[m] == me && Unseen(v.hist, m)
      && v.created[m] == TruncateToSecond(w.clock)
    ensures Ahead(w, Apply(w, MintUnseen(me)), me)
    ensures Apply(w, MintUnseen(me)).valid == w.valid + {|w.created|}
  {
    StepIsLater(w, Mint(me));
    StepIsLater(w, MintUnseen(me));
    NewIdIsUnseen(w);
  }

  lemma {:induction false} MonotoneClock(w: World, v: World)
    requires Later(w, v)
    ensures TruncateToSecond(w.clock) <= TruncateToSecond(v.clock)
    ensures |w.created| <= |v.created|
  {
  }

  lemma {:induction false} MayRevokeWhenAhead(w: World, v: World, me: PassId, a: Accessor, cause: Cause)
    requires Ahead(w, v, me) && Issued(w, a) && MayRevoke(w, a, cause)
    ensures Issued(v, a) && MayRevoke(v, a, cause)
  {
    if cause.DueIn? {
      assert v.hist[cause.version] == w.hist[cause.version];
    }
  }

  lemma {:induction false} RevokeEffect(w: World, me: PassId, a: Accessor, cause: Cause, takes: bool)
    requires Inv(w) && Issued(w, a) && MayRevoke(w, a, cause)
    ensures |w.hist| > 0
    ensures var v := Apply(w, Revoke(me, a, cause, takes));
      && Ahead(w, v, me) && v.hist == w.hist && v.clock == w.clock && v.created == w.created
      && v.valid == w.valid - (if takes then {a} else {})
  {
    StepIsLater(w, Revoke(me, a, cause, takes));
  }

  class Cluster {
    const me: PassId
    var world: World
    var schedule: seq<Turn>
    var log: seq<Call>
    ghost var sent: seq<Write>       // the writes of this pass, in order
    ghost var origin: World
    ghost var events: seq<Event>

    /** The state is reached from an initial one by the events so far. */
    ghost predicate Valid()
      reads `origin, `events, `world
    {
      Initial(origin) && world == Run(origin, events)
    }

    /** Nothing goes wrong from here on, and nobody else acts. */
    predicate Calm()
      reads `schedule
    {
      schedule == []
    }

    lemma {:induction false} Reachable()
      requires Valid()
      ensures Inv(world)
    {
      InitialInv(origin);
      RunKeepsInv(origin, events);
    }

    constructor (me: PassId, world: World, schedule: seq<Turn>)
      requires Initial(world)
      ensures Valid() && this.me == me && this.world == world && this.schedule == schedule && log == [] && sent == []
    {
      this.me := me;
      this.world := world;
      this.schedule := schedule;
      log := [];
      sent := [];
      origin := world;
      events := [];
    }

    method Step(e: Event)
      requires Valid()
      modifies this`world, this`events
      ensures Valid() && world == Apply(old(world), e) && events == old(events) + [e]
      ensures Inv(old(world)) && Inv(world) && Later(old(world), world)
    {
      Reachable();
      StepIsLater(world, e);
      StepKeepsInv(world, e);
      hide Inv, Later;
      RunExtend(origin, events, e);
      world := Apply(world, e);
      events := events + [e];
    }

    /** Everybody else's turn before this pass's next call. */
    method Await() returns (turn: Turn)
      requires Valid()
      modifies this`world, this`events, this`schedule
      ensures Valid() && Inv(old(world)) && Inv(world) && Ahead(old(world), world, me)
      ensures old(events) <= events
      ensures turn == NextTurn(old(schedule)) && schedule == (if old(schedule) == [] then [] else old(schedule)[1..])
      ensures turn.before == [] ==> world == old(world)
      ensures old(Calm()) ==> Calm() && turn.reply == Fine && turn.behind == 0 && world == old(world)
    {
      Reachable();
      turn := CALM;
      if schedule != [] {
        turn, schedule := schedule[0], schedule[1..];
      }
      AheadItself(world, me);
      hide Inv, Ahead;
      for i := 0 to |turn.before|
        modifies this`world, this`events
        invariant Valid() && Inv(world) && Ahead(old(world), world, me)
        invariant old(events) <= events && (i == 0 ==> world == old(world))
        invariant old(Calm()) ==> Calm() && turn == CALM && world == old(world)
      {
        if ByOthers(turn.before[i], me) {
          OthersStepAhead(world, turn.before[i], me);
          AheadTransitive(old(world), world, Apply(world, turn.before[i]), me);
          Step(turn.before[i]);
        }
      }
    }

    /** A read returns any version there ever was, or fails. */
    method Get() returns (r: Option<Copy>)
      requires Valid()
      modifies this
      ensures Valid() && Inv(world) && Ahead(old(world), world, me) && old(events) <= events
      ensures r.Some? ==> r.value.rv < |world.hist| && world.hist[r.value.rv].secret == r.value.secret
      ensures log == old(log) + [Read(r.Some?)]
      ensures sent == old(sent)
      // Each version is read in some turn: the others may act first, and then it may be any number behind.
      ensures var turn := NextTurn(old(schedule));
        turn.before == [] && |old(world).hist| > 0 ==>
          && (r.None? <==> turn.reply != Fine)
          && var last := |old(world).hist| - 1;
             (r.Some? ==> r.value.rv == if turn.behind <= last then last - turn.behind else 0)
      ensures old(Calm()) ==>
        Calm() && world == old(world) && r == Some(Copy(Current(world), |world.hist| - 1))
    {
      hide Ahead, Cluster.Valid, Chain, FlightsAreLegal, IdsAreOld, UnsentStayOut, HeldAreNotStray, DrainsAreConfirmed;
      hide EveryTokenHasAFate, MintsAreAccounted, RotationsAreTimely;
      var turn := Await();
      if turn.reply != Fine {
        r := None;
      } else {
        var rv := |world.hist| - 1 - (if turn.behind < |world.hist| then turn.behind else |world.hist| - 1);
        r := Some(Copy(world.hist[rv].secret, rv));
      }
      log := log + [Read(r.Some?)];
    }

    /** A write with a precondition. Accepted means it landed at once; after any
        other answer it may have landed, land later, or never land. */
    method Update(rv: nat, secret: Secret, how: Origin) returns (answer: Answer)
      requires Valid() && CanSend(world, me, Write(rv, secret, how))
      modifies this
      ensures Valid() && Inv(world) && Later(old(world), world) && old(events) <= events
      ensures !how.Swap? ==> Ahead(old(world), world, me)
      ensures Send(me, Write(rv, secret, how)) in events[|old(events)|..]
      ensures answer.Accepted? ==> rv + 1 < |world.hist| && world.hist[rv + 1] == Version(secret, how)
      ensures log == old(log) + [Wrote(how, answer)]
      ensures sent == old(sent) + [Write(rv, secret, how)]
      ensures old(Calm() && rv + 1 == |world.hist|) ==>
        && Calm() && answer.Accepted? && world.hist == old(world.hist) + [Version(secret, how)]
        && world.valid == old(world.valid) && world.clock == old(world.clock)
        && world.created == old(world.created)
    {
      hide *;
      var x := Write(rv, secret, how);
      var turn := Await();
      ghost var awaited := world;
      CanSendLater(old(world), world, me, x);
      SendEffect(world, me, x);
      Step(Send(me, x));
      ghost var n := |events| - 1;
      ghost var flying := world;
      answer := Deliver(x, turn.reply);
      UpdateIsLater(old(world), awaited, flying, world, me, how.Swap?);
      assert events[|old(events)|..][n - |old(events)|] == events[n];
      log := log + [Wrote(how, answer)];
      sent := sent + [x];
    }

    /** A write of one of the other writers, with a precondition like any other. */
    method UpdateOutside(rv: nat, secret: Secret, how: Origin) returns (answer: Answer)
      requires Valid() && CanSendOutside(world, Write(rv, secret, how))
      modifies this
      ensures Valid() && Inv(world) && Ahead(old(world), world, me) && old(events) <= events
      ensures answer.Accepted? ==> rv + 1 < |world.hist| && world.hist[rv + 1] == Version(secret, how)
      ensures log == old(log) + [Wrote(how, answer)]
      ensures sent == old(sent)
      ensures old(Calm() && rv + 1 == |world.hist|) ==>
        && Calm() && answer.Accepted? && world.hist == old(world.hist) + [Version(secret, how)]
        && world.valid == old(world.valid) && world.clock == old(world.clock)
    {
      hide *;
      var x := Write(rv, secret, how);
      var turn := Await();
      ghost var awaited := world;
      AheadIsLater(old(world), world, me);
      CanSendOutsideLater(old(world), world, x);
      OutsideEffect(world, me, x);
      Step(Outside(x));
      ghost var flying := world;
      AheadTransitive(old(world), awaited, world, me);
      answer := Deliver(x, turn.reply);
      AheadTransitive(old(world), flying, world, me);
      log := log + [Wrote(how, answer)];
    }

    /** How a write that was sent is answered. */
    method Deliver(x: Write, reply: Reply) returns (answer: Answer)
      requires Valid() && Inv(world) && x in world.inflight
      modifies this`world, this`events
      ensures Valid() && Inv(world) && Ahead(old(world), world, me) && old(events) <= events
      ensures answer.Accepted? ==> x.pre + 1 < |world.hist| && world.hist[x.pre + 1] == Version(x.secret, x.how)
      ensures reply == Fine && x.pre + 1 == |old(world).hist| ==>
        && answer.Accepted? && world.hist == old(world.hist) + [Version(x.secret, x.how)]
        && world.valid == old(world.valid) && world.clock == old(world.clock)
        && world.created == old(world.created)
      // Only a fine reply tells the truth: after a lost one the write has landed if it
      // could, and after any other it stays in flight.
      ensures reply != Fine ==>
        answer == if reply == Conflicting then Conflict else if reply == Refusing then Rejected else Uncertain
      ensures reply == Fine && x.pre + 1 != |old(world).hist| ==> answer.Conflict? && x !in world.inflight
      ensures reply == ReplyLost && x.pre + 1 == |old(world).hist| ==>
        world.hist == old(world.hist) + [Version(x.secret, x.how)]
      ensures reply in {Failing, Conflicting, Refusing} ==> world == old(world)
    {
      AheadItself(world, me);
      LandEffect(world, me, x);
      hide Inv, Later, Ahead, CanSend, Apply, Effect, LegalWrite;
      var lands := x.pre + 1 == |world.hist|;
      if lands && (reply == Fine || reply == ReplyLost) {
        Step(Land(x));
      } else if reply == Fine {
        Step(Lose(x));
      }
      match reply
      case Fine => answer := if lands then Accepted else Conflict;
      case ReplyLost => answer := Uncertain;
      case Failing => answer := Uncertain;
      case Conflicting => answer := Conflict;
      case Refusing => answer := Rejected;
    }

    /** Look at the clock. */
    method Now() returns (now: Time)
      modifies this`log
      ensures now == world.clock && log == old(log) + [ReadClock(now)]
    {
      now := world.clock;
      log := log + [ReadClock(now)];
    }

    /** Vault answers for a token it knows: its creation time. */
    method LookupSelf(token: Token) returns (created: Option<Time>)
      requires Valid() && Issued(world, token.accessor)
      modifies this
      ensures Valid() && Inv(world) && Ahead(old(world), world, me) && old(events) <= events
      ensures created.Some? ==>
        && token.accessor in world.valid
        && Issued(world, token.accessor) && created.value == world.created[token.accessor]
      ensures log == old(log) + [LookedUp(token, created.Some?)]
      ensures sent == old(sent)
      ensures old(Calm()) ==> Calm() && world == old(world) && (created.Some? <==> token.accessor in world.valid)
    {
      var turn := Await();
      created := None;
      if turn.reply == Fine && token.accessor in world.valid {
        created := Some(world.created[token.accessor]);
      }
      log := log + [LookedUp(token, created.Some?)];
    }

    /** Vault mints a token for a caller it knows; the reply may be lost. */
    method CreateToken(caller: Accessor) returns (minted: Option<Accessor>)
      requires Valid()
      modifies this
      ensures Valid() && Inv(world) && Ahead(old(world), world, me) && old(events) <= events
      ensures minted.Some? ==>
        && |old(world.created)| <= minted.value < |world.created|
        && minted.value in world.held && world.held[minted.value] == me
        && Unseen(world.hist, minted.value) && TruncateToSecond(old(world.clock)) <= world.created[minted.value]
      ensures log == old(log) + [AskedToMint(minted)]
      ensures sent == old(sent)
      ensures old(Calm()) ==>
        && Calm() && world.hist == old(world.hist) && world.clock == old(world.clock)
        && (minted.Some? <==> caller in old(world.valid))
        && world.valid == old(world.valid) + (if minted.Some? then {minted.value} else {})
      // When only the reply is lost, a token was created all the same.
      ensures NextTurn(old(schedule)).before == [] && NextTurn(old(schedule)).reply == ReplyLost
              && caller in old(world.valid) ==>
        minted.None? && world.valid == old(world.valid) + {|old(world.created)|}
    {
      hide Inv, Later, Ahead, Apply, Effect, Valid, Unseen;
      var turn := Await();
      ghost var awaited := world;
      minted := None;
      MintEffect(world, me);
      AheadItself(world, me);
      AheadIsLater(old(world), world, me);
      MonotoneClock(old(world), world);
      if caller in world.valid && turn.reply != Failing {
        if turn.reply == Fine {
          minted := Some(|world.created|);
          Step(Mint(me));
        } else {
          Step(MintUnseen(me));
        }
      }
      AheadTransitive(old(world), awaited, world, me);
      log := log + [AskedToMint(minted)];
    }

    /** Revoke, then ask whether Vault still knows the accessor; only a clear
        answer that it does not confirms the revocation. */
    method RevokeAndVerify(caller: Accessor, a: Accessor, cause: Cause) returns (confirmed: bool)
      requires Valid() && Issued(world, a) && MayRevoke(world, a, cause)
      modifies this
      ensures Valid() && Inv(world) && Ahead(old(world), world, me) && old(events) <= events
      ensures confirmed ==> a !in world.valid
      ensures exists takes :: Revoke(me, a, cause, takes) in events[|old(events)|..]
      ensures sent == old(sent)
      ensures log == old(log) + [AskedToRevoke(a)] || log == old(log) + [AskedToRevoke(a), Verified(a, confirmed)]
      ensures confirmed ==> log == old(log) + [AskedToRevoke(a), Verified(a, true)]
      ensures old(Calm()) ==>
        && Calm() && world.hist == old(world.hist) && world.clock == old(world.clock)
        && world.created == old(world.created)
        && (caller in old(world.valid) && caller != a ==> confirmed && world.valid == old(world.valid) - {a})
      // When only the reply is lost, the token was revoked all the same.
      ensures NextTurn(old(schedule)).before == [] && NextTurn(old(schedule)).reply == ReplyLost
              && caller in old(world.valid) ==>
        !confirmed && world.valid == old(world.valid) - {a}
    {
      hide *;
      var turn := Await();
      ghost var awaited := world;
      MayRevokeWhenAhead(old(world), world, me, a, cause);
      var known := caller in world.valid;
      var takes := known && (turn.reply == Fine || turn.reply == ReplyLost);
      RevokeEffect(world, me, a, cause, takes);
      Step(Revoke(me, a, cause, takes));
      ghost var n := |events| - 1;
      ghost var told := world;
      AheadTransitive(old(world), awaited, world, me);
      log := log + [AskedToRevoke(a)];
      confirmed := false;
      if known && (turn.reply == Fine || turn.reply == Conflicting) {
        turn := Await();
        AheadTransitive(old(world), told, world, me);
        confirmed := turn.reply == Fine && caller in world.valid && a !in world.valid;
        log := log + [Verified(a, confirmed)];
      }
      assert events[|old(events)|..][n - |old(events)|] == events[n];
    }

    /** The pass gives up a mint whose swap it did not send. */
    method Abandon(m: Accessor)
      requires Valid() && m in world.held && world.held[m] == me
      modifies this`world, this`events
      ensures Valid() && Inv(world) && Later(old(world), world) && old(events) <= events
      ensures Issued(world, m) && m in world.stray && MayRevoke(world, m, GivenUp)
      ensures world.hist == old(world.hist) && world.clock == old(world.clock) && world.valid == old(world.valid)
    {
      Step(GiveUp(me, m));
    }
  }
}
