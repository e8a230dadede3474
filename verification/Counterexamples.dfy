/** Runs from an initial state in which a promise is not kept: for each of them
    the exact condition is proved elsewhere. */
module Counterexamples {
  import opened Wrappers
  import opened Records
  import opened RevokeLedger
  import opened SecretHistory
  import opened Protocol
  import opened ProtocolInvariant
  import opened Safety
  import opened PassSteps
  import opened Recovery

  /** The state after a write was sent with nothing else in flight, and landed. */
  function SentAndLanded(w: World, x: Write): World
    requires |w.hist| > 0
  {
    w.(hist := w.hist + [Version(x.secret, x.how)],
       loose := w.loose + LetLoose(Current(w), x.how),
       held := if x.how.Swap? then w.held - {x.how.minted} else w.held)
  }

  lemma {:induction false} SendThenLand(w0: World, es: seq<Event>, w: World, e: Event, x: Write)
    requires |w0.hist| > 0 && Run(w0, es) == w && |w.hist| > 0 && w.inflight == {} && x.pre + 1 == |w.hist|
    requires Enabled(w, e) && (e == Send(0, x) || (e == Outside(x) && !x.how.Swap?))
    ensures Run(w0, es + [e] + [Land(x)]) == SentAndLanded(w, x)
  {
    RunExtend(w0, es, e);
    RunExtend(w0, es + [e], Land(x));
    assert {} + {x} - {x} == {};
  }

  // ---- A cancelled token that recovery brings back ----

  const LONE_ENTRY := Entry(2, 0, Superseded, Scheduled, SwapId(1))
  const FIRST := Secret(Token(1), false, Entries([LONE_ENTRY]), NotRequested, None, None, None, None)
  const ASKED := FIRST.(cancelRevoke := Some(2))
  const SERVED := FIRST.(ledger := Entries([]))
  const REINSTALLED := SERVED.(token := Token(2))

  /** Accessor 2 is retired and due, accessor 1 is live. */
  const START := World([Version(FIRST, Created)], {}, [0, 0, 0], {0, 1, 2}, {}, {}, {}, map[], {}, {}, 0)

  const ASKING := Write(0, ASKED, Touch)
  const SERVING := Write(1, SERVED, Drain(Some(2), {}, 0))
  const REINSTALLING := Write(2, REINSTALLED, Install)

  /** Someone cancels the revocation of accessor 2, a pass serves the request, and
      recovery reinstalls the token, which the ledger no longer lists. */
  const CANCEL_THEN_RECOVER: seq<Event> :=
    [Outside(ASKING), Land(ASKING), Send(0, SERVING), Land(SERVING), Outside(REINSTALLING), Land(REINSTALLING)]

  const CREATED_FIRST := Version(FIRST, Created)
  const AFTER_ASKING := START.(hist := [CREATED_FIRST, Version(ASKED, Touch)])
  const AFTER_SERVING := START.(hist := AFTER_ASKING.hist + [Version(SERVED, SERVING.how)], loose := {2})
  const AFTER_RECOVERY := START.(hist := AFTER_SERVING.hist + [Version(REINSTALLED, Install)], loose := {1, 2})

  lemma {:induction false} TheRequest()
    ensures Initial(START) && Run(START, [Outside(ASKING)] + [Land(ASKING)]) == AFTER_ASKING
  {
    assert FIRST.ledger.entries[0] == LONE_ENTRY;
    assert START.hist[..1] == START.hist;
    assert [] + [Outside(ASKING)] == [Outside(ASKING)];
    SendThenLand(START, [], START, Outside(ASKING), ASKING);
  }

  lemma {:induction false} TheDrain(es: seq<Event>)
    requires Run(START, es) == AFTER_ASKING
    ensures Run(START, es + [Send(0, SERVING)] + [Land(SERVING)]) == AFTER_SERVING
  {
    assert Sift(Cancelled([LONE_ENTRY], Some(2)), DropGone({}, 1, 0)) == [] by {
      assert [LONE_ENTRY][1..] == [];
    }
    assert AFTER_ASKING.hist[..2] == AFTER_ASKING.hist;
    assert CanSend(AFTER_ASKING, 0, SERVING);
    SendThenLand(START, es, AFTER_ASKING, Send(0, SERVING), SERVING);
  }

  lemma {:induction false} TheRecovery(es: seq<Event>)
    requires Run(START, es) == AFTER_SERVING
    ensures Run(START, es + [Outside(REINSTALLING)] + [Land(REINSTALLING)]) == AFTER_RECOVERY
  {
    assert AFTER_SERVING.hist[..3] == AFTER_SERVING.hist;
    assert CanSendOutside(AFTER_SERVING, REINSTALLING);
    SendThenLand(START, es, AFTER_SERVING, Outside(REINSTALLING), REINSTALLING);
  }

  /** Then a pass that read the first version, before the request, still may
      revoke accessor 2, and the Secret is left with a token Vault rejects. */
  lemma {:induction false} StalePassRevokesTheLiveToken()
    ensures Initial(START)
    ensures var w := Run(START, CANCEL_THEN_RECOVER);
      && Live(Current(w)) == 2 && 2 in w.valid && w.hist[0].secret == FIRST
      && Enabled(w, Revoke(1, 2, DueIn(0), true))
      && 2 !in Apply(w, Revoke(1, 2, DueIn(0), true)).valid
      && !Clean(w.hist)
  {
    hide Run;
    var one := [Outside(ASKING)] + [Land(ASKING)];
    var two := one + [Send(0, SERVING)] + [Land(SERVING)];
    assert two + [Outside(REINSTALLING)] + [Land(REINSTALLING)] == CANCEL_THEN_RECOVER;
    TheRequest();
    TheDrain(one);
    TheRecovery(two);
    var h := AFTER_RECOVERY.hist;
    assert h[0] == CREATED_FIRST && Front(h)[0] == CREATED_FIRST;
    assert LONE_ENTRY in FIRST.ledger.entries && Due(LONE_ENTRY, 0) && Cancels(LONE_ENTRY, 2);
    assert Retires(Front(h)[0].secret, 2);
  }

  // ---- A token that is revoked between recovery's lookup and its read ----

  const REVOKING := Revoke(0, 2, DueIn(0), true)
  const DRAINING := Write(0, SERVED, Drain(None, {2}, 0))
  const INSTALLING := Write(1, REINSTALLED, Install)

  const AFTER_REVOKING := START.(valid := {0, 1}, revoked := {2})
  const AFTER_DRAINING := AFTER_REVOKING.(hist := [CREATED_FIRST, Version(SERVED, DRAINING.how)])
  const AFTER_INSTALLING := AFTER_DRAINING.(hist := AFTER_DRAINING.hist + [Version(REINSTALLED, Install)], loose := {1})

  /** Recovery looked token 2 up while Vault knew it. A pass then revokes it and
      drains its entry; recovery reads that version and installs the token. */
  const LOOKUP_THEN_REVOKE: seq<Event> :=
    [REVOKING, Send(0, DRAINING), Land(DRAINING), Outside(INSTALLING), Land(INSTALLING)]

  lemma {:induction false} TheRevocation()
    ensures Run(START, [REVOKING]) == AFTER_REVOKING
  {
    assert [] + [REVOKING] == [REVOKING];
    assert LONE_ENTRY in FIRST.ledger.entries && Due(LONE_ENTRY, 0);
    assert START.hist[0].secret == FIRST;
    assert MayRevoke(START, 2, DueIn(0));
    RunExtend(START, [], REVOKING);
    assert {0, 1, 2} - {2} == {0, 1};
  }

  lemma {:induction false} TheDrainOfTheRevoked(es: seq<Event>)
    requires Run(START, es) == AFTER_REVOKING
    ensures Run(START, es + [Send(0, DRAINING)] + [Land(DRAINING)]) == AFTER_DRAINING
  {
    assert Sift(Cancelled([LONE_ENTRY], None), DropGone({2}, 1, 0)) == [] by {
      assert [LONE_ENTRY][..0] == [];
    }
    assert AFTER_REVOKING.hist[..1] == AFTER_REVOKING.hist;
    assert FIRST.(cancelRevoke := None) == FIRST;
    assert CanSend(AFTER_REVOKING, 0, DRAINING);
    SendThenLand(START, es, AFTER_REVOKING, Send(0, DRAINING), DRAINING);
  }

  lemma {:induction false} TheLateInstall(es: seq<Event>)
    requires Run(START, es) == AFTER_DRAINING
    ensures Run(START, es + [Outside(INSTALLING)] + [Land(INSTALLING)]) == AFTER_INSTALLING
  {
    assert AFTER_DRAINING.hist[..2] == AFTER_DRAINING.hist;
    assert CanSendOutside(AFTER_DRAINING, INSTALLING);
    SendThenLand(START, es, AFTER_DRAINING, Outside(INSTALLING), INSTALLING);
  }

  /** The Secret is left with a token that was revoked and has not expired, though
      it was fit and known to Vault when it was looked up, no cancel request was
      ever made, and the ledger it was installed over does not list it. */
  lemma {:induction false} LookupBeforeReadIsTooEarly()
    ensures Initial(START) && 2 in START.valid && Fit(START.hist, 2)
    ensures var w := Run(START, LOOKUP_THEN_REVOKE);
      && |w.hist| == 3 && Live(Current(w)) == 2 && 2 !in w.valid && 2 !in w.expired
      && InstalledOver(w, 1, Token(2)) && !LetGo(w.hist, 2) && !Fit(w.hist[..2], 2) && !Clean(w.hist)
  {
    hide Run;
    StartIsInitial();
    TheRevocation();
    TheDrainOfTheRevoked([REVOKING]);
    var two := [REVOKING] + [Send(0, DRAINING)] + [Land(DRAINING)];
    TheLateInstall(two);
    assert two + [Outside(INSTALLING)] + [Land(INSTALLING)] == LOOKUP_THEN_REVOKE;
    var h := AFTER_INSTALLING.hist;
    assert h[0] == CREATED_FIRST && Front(h)[0] == CREATED_FIRST && h[..2] == AFTER_DRAINING.hist;
    assert LONE_ENTRY in FIRST.ledger.entries && Cancels(LONE_ENTRY, 2);
    assert Tracks(h[..2][0].secret, 2) && !Tracks(h[..2][1].secret, 2);
    assert Retires(Front(h)[0].secret, 2);
  }

  // ---- A token that is lost before it is recorded ----

  /** Vault knows the token, no ledger lists it, and no version of any run from
      here ever shows it. */
  ghost predicate LostForGood(w: World, a: Accessor)
    requires |w.hist| > 0
  {
    a in w.minted && a in w.valid && forall es :: Unseen(Run(w, es).hist, a)
  }

  /** The reply to the mint is lost. */
  lemma {:induction false} LostReply()
    ensures Initial(START) && LostForGood(Run(START, [MintUnseen(0)]), 3)
  {
    StartIsInitial();
    assert [] + [MintUnseen(0)] == [MintUnseen(0)];
    RunExtend(START, [], MintUnseen(0));
    MintIsLost([MintUnseen(0)]);
  }

  /** The pass crashes before it sends the write that records the mint. */
  lemma {:induction false} CrashBeforeTheRecord()
    ensures Initial(START) && LostForGood(Run(START, [Mint(0)] + [Crash(0)]), 3)
  {
    StartIsInitial();
    assert [] + [Mint(0)] == [Mint(0)];
    RunExtend(START, [], Mint(0));
    RunExtend(START, [Mint(0)], Crash(0));
    MintIsLost([Mint(0)] + [Crash(0)]);
  }

  lemma {:induction false} StartIsInitial()
    ensures Initial(START)
  {
    assert FIRST.ledger.entries[0] == LONE_ENTRY;
  }

  lemma {:induction false} MintIsLost(es: seq<Event>)
    requires Initial(START)
    requires var w := Run(START, es);
      w.hist == START.hist && w.inflight == {} && 3 in w.minted && 3 in w.valid && 3 in w.stray
    ensures LostForGood(Run(START, es), 3)
  {
    var w := Run(START, es);
    InitialInv(START);
    RunKeepsInv(START, es);
    assert w.hist[0] == CREATED_FIRST && |w.hist| == 1;
    assert Unseen(w.hist, 3);
    assert !RecordCanLand(w, 3);
    LostUnrecordedIff(w, 3);
  }

  // ---- A token that expires while live ----

  /** Nothing in the protocol keeps the live token from expiring. */
  lemma {:induction false} LiveTokenCanExpire()
    ensures Initial(START)
    ensures var w := Run(START, [Expire(1)]);
      && w.hist == START.hist && Live(Current(w)) !in w.valid && Live(Current(w)) in w.expired && w.revoked == {}
  {
    StartIsInitial();
    assert [] + [Expire(1)] == [Expire(1)];
    RunExtend(START, [], Expire(1));
  }

  // ---- A rotation that follows the one before at once ----

  /** What one undisturbed rotation does, and the state it leaves. */
  function Recording(w: World, notBefore: Time, reason: Reason, stamp: Stamp): Write
    requires |w.hist| > 0 && Current(w).ledger.Entries?
  {
    Write(|w.hist| - 1, WithLedger(Current(w), |w.created|, notBefore, reason),
          Record(|w.created|, notBefore, reason, stamp))
  }

  function Swapping(w: World, notBefore: Time, reason: Reason, stamp: Stamp): Write
    requires |w.hist| > 0 && Current(w).ledger.Entries?
  {
    var base := Current(w);
    Write(|w.hist|,
          Swapped(base, |w.created|, base.ledger.entries + [OldEntry(|w.created|, Live(base), notBefore, reason)]),
          Swap(|w.created|, stamp))
  }

  function RotationEvents(w: World, notBefore: Time, reason: Reason, stamp: Stamp): seq<Event>
    requires |w.hist| > 0 && Current(w).ledger.Entries?
  {
    var record, swap := Recording(w, notBefore, reason, stamp), Swapping(w, notBefore, reason, stamp);
    [Mint(0)] + [Send(0, record)] + [Land(record)] + [Send(0, swap)] + [Land(swap)]
  }

  function AfterRotation(w: World, notBefore: Time, reason: Reason, stamp: Stamp): World
    requires |w.hist| > 0 && Current(w).ledger.Entries?
  {
    var record, swap := Recording(w, notBefore, reason, stamp), Swapping(w, notBefore, reason, stamp);
    Issuing(w).(hist := w.hist + [Version(record.secret, record.how)] + [Version(swap.secret, swap.how)],
                minted := w.minted + {|w.created|})
  }

  /** The state after the mint and its Record. */
  function AfterRecord(w: World, notBefore: Time, reason: Reason, stamp: Stamp): World
    requires |w.hist| > 0 && Current(w).ledger.Entries?
  {
    SentAndLanded(Apply(w, Mint(0)), Recording(w, notBefore, reason, stamp))
  }

  lemma {:induction false} RecordPhase(
      w0: World, es: seq<Event>, w: World, notBefore: Time, reason: Reason, stamp: Stamp)
    requires |w0.hist| > 0 && Run(w0, es) == w && Inv(w) && w.inflight == {}
    requires Settled(Current(w)) && |Current(w).ledger.entries| < LEDGER_FULL && DecidedBy(stamp, notBefore, reason)
    requires OldEnough(w, Live(Current(w)), stamp) && stamp.now <= w.clock
    ensures var record := Recording(w, notBefore, reason, stamp);
      Run(w0, es + [Mint(0)] + [Send(0, record)] + [Land(record)]) == AfterRecord(w, notBefore, reason, stamp)
    ensures Foreign(Current(w).ledger.entries, |w.created|)
  {
    var record := Recording(w, notBefore, reason, stamp);
    RunExtend(w0, es, Mint(0));
    StepKeepsInv(w, Mint(0));
    RecordCanBeSent(w, notBefore, reason, stamp);
    MintChangesOnlyVault(w);
    hide Inv, CanSend, Settled, OldEnough, DecidedBy, Recorded, Run, Effect, Issuing;
    SendThenLand(w0, es + [Mint(0)], Apply(w, Mint(0)), Send(0, record), record);
  }

  lemma {:induction false} MintChangesOnlyVault(w: World)
    requires |w.hist| > 0
    ensures var v := Apply(w, Mint(0));
      v == Issuing(w).(minted := w.minted + {|w.created|}, held := w.held[|w.created| := 0])
      && v.hist == w.hist && v.inflight == w.inflight
  {
  }

  lemma {:induction false} Rotates(
      w0: World, es: seq<Event>, w: World, notBefore: Time, reason: Reason, stamp: Stamp)
    requires Inv(w0) && |w0.hist| > 0 && Run(w0, es) == w && Inv(w) && w.inflight == {} && w.held == map[]
    requires Settled(Current(w)) && |Current(w).ledger.entries| < LEDGER_FULL && DecidedBy(stamp, notBefore, reason)
    requires OldEnough(w, Live(Current(w)), stamp) && stamp.now <= w.clock
    ensures Run(w0, es + RotationEvents(w, notBefore, reason, stamp)) == AfterRotation(w, notBefore, reason, stamp)
  {
    var record, swap := Recording(w, notBefore, reason, stamp), Swapping(w, notBefore, reason, stamp);
    hide Inv, CanSend, Settled, OldEnough, DecidedBy, Run, Apply, Effect, Issuing, AfterRotation, AfterRecord;
    var u := AfterRecord(w, notBefore, reason, stamp);
    var recorded := es + [Mint(0)] + [Send(0, record)] + [Land(record)];
    RecordPhase(w0, es, w, notBefore, reason, stamp);
    RunKeepsInv(w0, recorded);
    AfterTheRecord(w, notBefore, reason, stamp);
    SwapCanBeSent(w, u, notBefore, reason, stamp);
    SendThenLand(w0, recorded, u, Send(0, swap), swap);
    OneByOne(es, Mint(0), Send(0, record), Land(record), Send(0, swap), Land(swap));
  }

  lemma {:induction false} OneByOne(es: seq<Event>, a: Event, b: Event, c: Event, d: Event, e: Event)
    ensures es + ([a] + [b] + [c] + [d] + [e]) == es + [a] + [b] + [c] + [d] + [e]
  {
  }

  lemma {:induction false} AfterTheRecord(w: World, notBefore: Time, reason: Reason, stamp: Stamp)
    requires |w.hist| > 0 && Current(w).ledger.Entries? && w.held == map[]
    ensures var u, swap := AfterRecord(w, notBefore, reason, stamp), Swapping(w, notBefore, reason, stamp);
      && |u.hist| == |w.hist| + 1 && u.inflight == w.inflight
      && SentAndLanded(u, swap) == AfterRotation(w, notBefore, reason, stamp)
  {
    MintChangesOnlyVault(w);
    hide Apply, Effect;
    assert map[][|w.created| := 0] - {|w.created|} == map[];
  }

  lemma {:induction false} RecordCanBeSent(w: World, notBefore: Time, reason: Reason, stamp: Stamp)
    requires Inv(w) && Inv(Apply(w, Mint(0))) && w.inflight == {}
    requires Settled(Current(w)) && |Current(w).ledger.entries| < LEDGER_FULL && DecidedBy(stamp, notBefore, reason)
    requires OldEnough(w, Live(Current(w)), stamp) && stamp.now <= w.clock
    ensures CanSend(Apply(w, Mint(0)), 0, Recording(w, notBefore, reason, stamp))
    ensures Foreign(Current(w).ledger.entries, |w.created|)
  {
    NewIdIsUnseen(w);
    assert w.hist[..|w.hist|] == w.hist;
    RecordIsLegal(Apply(w, Mint(0)), 0, |w.hist| - 1, Current(w), |w.created|, notBefore, reason, stamp);
  }

  lemma {:induction false} SwapCanBeSent(w: World, u: World, notBefore: Time, reason: Reason, stamp: Stamp)
    requires |w.hist| > 0 && Settled(Current(w)) && Foreign(Current(w).ledger.entries, |w.created|)
    requires Inv(u) && !reason.UnresolvedMint?
    requires u == AfterRecord(w, notBefore, reason, stamp)
    ensures CanSend(u, 0, Swapping(w, notBefore, reason, stamp))
  {
    var record := Recording(w, notBefore, reason, stamp);
    assert u.hist == w.hist + [Version(record.secret, record.how)];
    SwapIsLegal(u, 0, |w.hist|, Current(w), record.secret, |w.created|, notBefore, reason, stamp);
  }

  const PLAIN := Secret(Token(1), false, Entries([]), NotRequested, None, None, None, None)

  /** Tokens 0 and 1 are old, and 1 is live. */
  const LATER_ON := World([Version(PLAIN, Created)], {}, [0, 0], {0, 1}, {}, {}, {}, map[], {}, {}, 100 * SECOND)

  /** Not requested, with a period of ten seconds. */
  const UNFORCED := Stamp(100 * SECOND, false, 10 * SECOND, HOUR)

  const DUE_AT: Time := 100 * SECOND + HOUR
  const ROTATED_ONCE := AfterRotation(LATER_ON, DUE_AT, Superseded, UNFORCED)
  const RECOVERING := Write(2, Current(ROTATED_ONCE).(token := Token(0)), Install)
  const RECOVERED := SentAndLanded(ROTATED_ONCE, RECOVERING)

  lemma {:induction false} FirstRotation()
    ensures Initial(LATER_ON)
    ensures Run(LATER_ON, RotationEvents(LATER_ON, DUE_AT, Superseded, UNFORCED)) == ROTATED_ONCE
  {
    assert PLAIN.ledger.entries == [];
    InitialInv(LATER_ON);
    assert Run(LATER_ON, []) == LATER_ON;
    Rotates(LATER_ON, [], LATER_ON, DUE_AT, Superseded, UNFORCED);
    assert [] + RotationEvents(LATER_ON, DUE_AT, Superseded, UNFORCED)
           == RotationEvents(LATER_ON, DUE_AT, Superseded, UNFORCED);
  }

  lemma {:induction false} OldTokenIsRecovered(es: seq<Event>)
    requires Run(LATER_ON, es) == ROTATED_ONCE
    ensures Run(LATER_ON, es + [Outside(RECOVERING)] + [Land(RECOVERING)]) == RECOVERED
    ensures Settled(Current(RECOVERED)) && |Current(RECOVERED).ledger.entries| == 1
  {
    var entry := OldEntry(2, 1, DUE_AT, Superseded);
    assert [] + [entry] == [entry];
    assert Current(ROTATED_ONCE).ledger.entries == [entry];
    assert |ROTATED_ONCE.hist| == 3 && ROTATED_ONCE.hist[..3] == ROTATED_ONCE.hist;
    assert CanSendOutside(ROTATED_ONCE, RECOVERING);
    SendThenLand(LATER_ON, es, ROTATED_ONCE, Outside(RECOVERING), RECOVERING);
  }

  /** Recovery reinstalls a token that is older than the period right after a
      rotation. The next unforced rotation then follows at once. */
  lemma {:induction false} RecoveryUndercutsThePeriod() returns (es: seq<Event>)
    ensures Initial(LATER_ON)
    ensures var h := Run(LATER_ON, es).hist;
      && |h| == 6 && h[2].how == Swap(2, UNFORCED) && h[3].how.Install? && h[5].how == Swap(3, UNFORCED)
    ensures !SpacedFrom(UNFORCED.now, UNFORCED)
  {
    FirstRotation();
    var first := RotationEvents(LATER_ON, DUE_AT, Superseded, UNFORCED);
    OldTokenIsRecovered(first);
    es := first + [Outside(RECOVERING)] + [Land(RECOVERING)];
    InitialInv(LATER_ON);
    RunKeepsInv(LATER_ON, es);
    Rotates(LATER_ON, es, RECOVERED, DUE_AT, Superseded, UNFORCED);
    es := es + RotationEvents(RECOVERED, DUE_AT, Superseded, UNFORCED);
    hide Run, Inv;
    assert |RECOVERED.hist| == 4 && RECOVERED.hist[2].how == Swap(2, UNFORCED) && RECOVERED.hist[3].how.Install?;
  }
}
