/** What the protocol guarantees over whole runs: any number of passes and
    outside writers, late landings, lost writes, crashes and stale reads. */
module Safety {
  import opened Wrappers
  import opened Records
  import opened RevokeLedger
  import opened SecretHistory
  import opened HistoryTheorems
  import opened Protocol
  import opened ProtocolInvariant

  // ---- What only grows ----

  ghost predicate Later(w: World, v: World) {
    && w.hist <= v.hist && w.clock <= v.clock && w.created <= v.created
    && w.minted <= v.minted && w.stray <= v.stray && w.loose <= v.loose
    && (forall a | a in v.valid && a < |w.created| :: a in w.valid)
    && (forall a | a in v.held && a < |w.created| :: a in w.held && w.held[a] == v.held[a])
    && (forall a | a in v.stray && a < |w.created| :: a in w.stray || a in w.held)
  }

  lemma {:induction false} StepIsLater(w: World, e: Event)
    requires Inv(w)
    ensures Later(w, Apply(w, e))
  {
    hide Chain, LegalWrite, Accounted, Timely, Preconditioned, MayRevoke;
  }

  lemma {:induction false} LaterTransitive(u: World, v: World, w: World)
    requires Later(u, v) && Later(v, w)
    ensures Later(u, w)
  {
    hide Chain, LegalWrite;
  }

  lemma {:induction false} RunIsLater(w: World, es: seq<Event>)
    requires Inv(w)
    ensures Later(w, Run(w, es))
  {
    assert |w.hist| > 0;
    hide Inv, Later;
    if es != [] {
      var v := Run(w, es[..|es| - 1]);
      RunIsLater(w, es[..|es| - 1]);
      RunKeepsInv(w, es[..|es| - 1]);
      StepIsLater(v, es[|es| - 1]);
      LaterTransitive(w, v, Apply(v, es[|es| - 1]));
    } else {
      LaterItself(w);
    }
  }

  lemma {:induction false} LaterItself(w: World)
    ensures Later(w, w)
  {
  }

  lemma {:induction false} CleanPrefix(h: History, g: History)
    requires Chain(g) && Clean(g) && h <= g && |h| > 0
    ensures Clean(h)
  {
    ChainPrefix(g, |h|);
    assert g[..|h|] == h;
  }

  // ---- No revocation meets the live token ----

  /** Whatever the code's guard lets a pass revoke is not live, and is not live
      in any later state of any run. */
  lemma {:induction false} RevocableStaysOut(w: World, a: Accessor, cause: Cause, v: World)
    requires Inv(w) && MayRevoke(w, a, cause)
    requires Inv(v) && Later(w, v) && Clean(v.hist)
    ensures Live(Current(v)) != a
  {
    if cause.DueIn? {
      var i := cause.version;
      var e :| e in w.hist[i].secret.ledger.entries && e.accessor == a && Due(e, w.clock);
      assert v.hist[i] == w.hist[i];
      RetiredStaysOut(v.hist, i, e);
    }
  }

  /** The central theorem. In every interleaving, when a pass asks Vault to
      revoke an accessor, that accessor is neither the live one nor the one any
      write still able to land would install, and it is never live again. It
      holds of every run in which no outside writer reinstalls an accessor an
      earlier version had retired. */
  lemma {:induction false} LiveTokenIsNeverRevoked(
      w0: World, before: seq<Event>, who: PassId, a: Accessor, cause: Cause, takes: bool, after: seq<Event>)
    requires Initial(w0)
    requires Enabled(Run(w0, before), Revoke(who, a, cause, takes))
    requires Clean(Run(Apply(Run(w0, before), Revoke(who, a, cause, takes)), after).hist)
    ensures Live(Current(Run(w0, before))) != a
    ensures Live(Current(Run(Apply(Run(w0, before), Revoke(who, a, cause, takes)), after))) != a
    ensures forall x | CanLand(Run(w0, before), x) && Clean(Landed(Run(w0, before), x).hist) :: Live(x.secret) != a
  {
    assert |w0.hist| == 1;
    hide Initial, Inv, Later, Clean, Chain, MayRevoke, Run;
    InitialInv(w0);
    RunKeepsInv(w0, before);
    var w := Run(w0, before);
    assert MayRevoke(w, a, cause);
    var u := Apply(w, Revoke(who, a, cause, takes));
    StepKeepsInv(w, Revoke(who, a, cause, takes));
    StepIsLater(w, Revoke(who, a, cause, takes));
    RunKeepsInv(u, after);
    RunIsLater(u, after);
    var v := Run(u, after);
    LaterTransitive(w, u, v);
    CleanPrefix(w.hist, v.hist);
    LaterItself(w);
    RevocableStaysOut(w, a, cause, v);
    RevocableStaysOut(w, a, cause, w);
    forall x | CanLand(w, x) && Clean(Landed(w, x).hist)
      ensures Live(x.secret) != a
    {
      StepKeepsInv(w, Land(x));
      StepIsLater(w, Land(x));
      RevocableStaysOut(w, a, cause, Apply(w, Land(x)));
    }
  }

  /** The operator's own revocations never cost the Secret its token: in every
      state of every such run Vault accepts it, unless it expired. */
  lemma {:induction false} SecretHoldsAnAcceptedToken(w0: World, es: seq<Event>)
    requires Initial(w0) && Clean(Run(w0, es).hist)
    ensures Live(Current(Run(w0, es))) in Run(w0, es).valid + Run(w0, es).expired
  {
    InitialInv(w0);
    RunKeepsInv(w0, es);
    var w := Run(w0, es);
    var a := Live(Current(w));
    if a in w.revoked && a !in w.stray {
      var i :| 0 <= i < |w.hist| && Retires(w.hist[i].secret, a);
      var e :| e in w.hist[i].secret.ledger.entries && Cancels(e, a);
      RetiredStaysOut(w.hist, i, e);
    }
  }

  /** Exactly which installs by outside writers are harmless: the code's revoke
      guard can come to admit the token an install makes live, if and only if
      an earlier version had retired its accessor. */
  lemma {:induction false} InstallIsSafeIffNeverRetired(w: World, x: Write)
    requires Inv(w) && CanLand(w, x) && x.how.Install?
    ensures Retired(w.hist, Live(x.secret)) <==>
      exists elapsed: nat, cause :: MayRevoke(Apply(Landed(w, x), Tick(elapsed)), Live(x.secret), cause)
  {
    var a := Live(x.secret);
    var v := Landed(w, x);
    LandedHistory(w, x);
    if Retired(w.hist, a) {
      var i :| 0 <= i < |w.hist| && Retires(w.hist[i].secret, a);
      var e :| e in w.hist[i].secret.ledger.entries && Cancels(e, a);
      var elapsed: nat := if e.notBefore > w.clock then e.notBefore - w.clock else 0;
      var u := Apply(v, Tick(elapsed));
      assert u.hist[i] == w.hist[i] && Due(e, u.clock);
      assert MayRevoke(u, a, DueIn(i));
    }
    if elapsed: nat, cause :| MayRevoke(Apply(v, Tick(elapsed)), a, cause) {
      assert a !in v.stray;
      var i := cause.version;
      var e :| e in v.hist[i].secret.ledger.entries && e.accessor == a && Due(e, Apply(v, Tick(elapsed)).clock);
      assert v.hist[i] == w.hist[i];
      assert Cancels(e, a) && Retires(w.hist[i].secret, a);
    }
  }

  // ---- Fencing over whole runs ----

  /** Once a version with the swap unresolved follows another, no write in
      flight can land that swap, and no run from here contains it. */
  lemma {:induction false} FenceIsFinal(w: World, f: nat, minted: Accessor, es: seq<Event>)
    requires Inv(w) && 0 < f < |w.hist|
    requires Pending(w.hist[f - 1].secret, minted) && Pending(w.hist[f].secret, minted)
    ensures forall x | x in w.inflight && x.how.Swap? && x.how.minted == minted :: !CanLand(w, x)
    ensures forall v | v in Run(w, es).hist && v.how.Swap? :: v.how.minted != minted
  {
    forall x | x in w.inflight && x.how.Swap? && x.how.minted == minted
      ensures !CanLand(w, x)
    {
      if CanLand(w, x) {
        LandedHistory(w, x);
        assert Last(Landed(w, x).hist).how == x.how;
        FencedSwapNeverLands(Landed(w, x).hist, f, minted);
      }
    }
    RunKeepsInv(w, es);
    RunIsLater(w, es);
    FencedSwapNeverLands(Run(w, es).hist, f, minted);
  }

  /** While a version has nothing unresolved, no swap in flight is
      preconditioned on it: only another writer can replace its token. */
  lemma {:induction false} NoSwapMeetsASettledVersion(w: World, x: Write)
    requires Inv(w) && x in w.inflight && x.how.Swap?
    ensures Pending(w.hist[x.pre].secret, x.how.minted) && !Settled(w.hist[x.pre].secret)
  {
    SwapWasRecorded(w, x);
  }

  // ---- Accounting ----

  /** Every accessor a rotation minted and Vault still knows: while it occurs in
      no version it is held by the pass that minted it or was given up, and from
      then on it is live, in the current ledger, or let loose by a cancel request
      or another writer's install. One that is held or given up never was live. */
  lemma {:induction false} EveryMintIsAccountedFor(w0: World, es: seq<Event>, a: Accessor)
    requires Initial(w0) && a in Run(w0, es).minted && a in Run(w0, es).valid
    ensures var w := Run(w0, es);
      if Unseen(w.hist, a) then a in w.held || a in w.stray
      else a == Live(Current(w)) || Tracks(Current(w), a) || a in w.loose
    ensures var w := Run(w0, es);
      a in w.held || a in w.stray ==> forall v | v in w.hist :: Live(v.secret) != a
  {
    InitialInv(w0);
    RunKeepsInv(w0, es);
    assert Accounted(Run(w0, es), a);
  }

  /** Its mint's reply is lost, its pass gives it up or crashes before it sent the
      swap, a landing drain serves a cancel request for its scheduled entry, or a
      landing install replaces it while it is live and not listed. */
  predicate StopsTracking(w: World, e: Event, a: Accessor)
    requires |w.hist| > 0
  {
    match e
    case MintUnseen(_) => a == |w.created|
    case GiveUp(who, m) => a == m && a in w.held && w.held[a] == who
    case Crash(who) => a in w.held && w.held[a] == who
    case Land(x) =>
      CanLand(w, x) && (
        || (x.how.Drain? && x.how.cancel == Some(a) && Current(w).ledger.Entries?
            && exists d | d in Current(w).ledger.entries :: Cancels(d, a))
        || (x.how.Install? && a == Live(Current(w)) && !Tracks(Current(w), a)))
    case _ => false
  }

  /** A step takes a token out of tracking exactly then. */
  lemma {:induction false} TrackingIsLostIff(w: World, e: Event, a: Accessor)
    requires Inv(w) && a !in w.stray && a !in w.loose
    ensures (a in Apply(w, e).stray || a in Apply(w, e).loose) <==> StopsTracking(w, e, a)
  {
    assert |w.hist| > 0;
    hide Chain, Accounted, Timely, MayRevoke, LegalWrite;
  }

  predicate Untracked(w: World, a: Accessor) {
    a in w.stray || a in w.loose
  }

  ghost predicate SomeStepStopsTracking(w0: World, es: seq<Event>, a: Accessor)
    requires |w0.hist| > 0
  {
    exists i | 0 <= i < |es| :: StopsTracking(Run(w0, es[..i]), es[i], a)
  }

  /** Over a run: a token is out of tracking at its end exactly when some step of
      it took it out, and no later step brings it back. */
  lemma {:induction false} UntrackedIffSomeStep(w0: World, es: seq<Event>, a: Accessor)
    requires Initial(w0)
    ensures |w0.hist| > 0
    ensures Untracked(Run(w0, es), a) <==> SomeStepStopsTracking(w0, es, a)
  {
    InitialInv(w0);
    assert |w0.hist| == 1 && !Untracked(w0, a);
    hide Inv, StopsTracking, Untracked, SomeStepStopsTracking;
    if es == [] {
      NoStepYet(w0, a);
    } else {
      UntrackedIffSomeStep(w0, es[..|es| - 1], a);
      RunKeepsInv(w0, es[..|es| - 1]);
      UntrackedStep(Run(w0, es[..|es| - 1]), es[|es| - 1], a);
      SomeStepOrTheLast(w0, es, a);
    }
  }

  lemma {:induction false} NoStepYet(w0: World, a: Accessor)
    requires |w0.hist| > 0
    ensures !SomeStepStopsTracking(w0, [], a)
  {
  }

  lemma {:induction false} UntrackedStep(w: World, e: Event, a: Accessor)
    requires Inv(w)
    ensures |w.hist| > 0
    ensures Untracked(Apply(w, e), a) <==> Untracked(w, a) || StopsTracking(w, e, a)
  {
    assert |w.hist| > 0;
    StepIsLater(w, e);
    hide Inv, StopsTracking, Apply;
    if !Untracked(w, a) {
      TrackingIsLostIff(w, e, a);
    }
  }

  lemma {:induction false} SomeStepOrTheLast(w0: World, es: seq<Event>, a: Accessor)
    requires |w0.hist| > 0 && es != []
    ensures var n := |es| - 1;
      SomeStepStopsTracking(w0, es, a) <==>
        SomeStepStopsTracking(w0, es[..n], a) || StopsTracking(Run(w0, es[..n]), es[n], a)
  {
    hide StopsTracking, Run;
    var n := |es| - 1;
    assert forall i | 0 <= i < n :: es[..n][i] == es[i] && es[..n][..i] == es[..i];
    if i :| 0 <= i < n && StopsTracking(Run(w0, es[..n][..i]), es[..n][i], a) {
      assert StopsTracking(Run(w0, es[..i]), es[i], a);
    }
    if i :| 0 <= i < n && StopsTracking(Run(w0, es[..i]), es[i], a) {
      assert StopsTracking(Run(w0, es[..n][..i]), es[..n][i], a);
    }
  }

  /** A write in flight that records the mint can still land. */
  predicate RecordCanLand(w: World, a: Accessor) {
    exists x | x in w.inflight :: x.how.Record? && x.how.minted == a && x.pre + 1 == |w.hist|
  }

  /** An accessor no version shows, which no pass holds and no write can record. */
  ghost predicate OutOfReach(w: World, a: Accessor) {
    Issued(w, a) && a !in w.held && Unseen(w.hist, a) && !RecordCanLand(w, a)
  }

  /** It stays so until another writer installs it. */
  lemma {:induction false} OutOfReachStep(w: World, e: Event, a: Accessor)
    requires Inv(w) && OutOfReach(w, a)
    requires e.Land? && CanLand(w, e.write) ==> !(e.write.how.Install? && Live(e.write.secret) == a)
    ensures OutOfReach(Apply(w, e), a)
  {
    assert |w.hist| > 0;
    StepIsLater(w, e);
    if e.Land? && CanLand(w, e.write) {
      OutOfReachLanding(w, e.write, a);
    } else {
      hide Inv, Chain, LegalWrite, MayRevoke, Preconditioned, Unseen;
    }
  }

  lemma {:induction false} OutOfReachLanding(w: World, x: Write, a: Accessor)
    requires Inv(w) && OutOfReach(w, a) && CanLand(w, x) && !(x.how.Install? && Live(x.secret) == a)
    ensures OutOfReach(Landed(w, x), a)
  {
    LandedHistory(w, x);
    FlightsAreBehind(w);
    assert w.hist[|w.hist| - 1] == Last(w.hist);
    if x.how.Swap? {
      SwapWasRecorded(w, x);
    }
    hide Inv;
    UnseenAppend(w.hist, Version(x.secret, x.how), a);
    if x.secret.ledger.Entries? && !Foreign(x.secret.ledger.entries, a) {
      var d :| d in x.secret.ledger.entries && (d.accessor == a || d.swap == SwapId(a));
      SeenByRecord(w.hist, x.secret, x.how, a, d);
    }
  }

  lemma {:induction false} FlightsAreBehind(w: World)
    requires Inv(w)
    ensures forall x | x in w.inflight :: x.pre < |w.hist|
    ensures |w.hist| > 0 && Chain(w.hist)
  {
    assert forall x | x in w.inflight :: Preconditioned(w, x);
  }

  /** When a token that was minted is lost before it was recorded: given up,
      crashed over or never answered, and shown in no version, it is in no version
      of any run if and only if no write that records it can land any more. */
  lemma {:induction false} LostUnrecordedIff(w: World, a: Accessor)
    requires Inv(w) && a in w.stray && Unseen(w.hist, a)
    ensures !RecordCanLand(w, a) <==> forall es :: Unseen(Run(w, es).hist, a)
  {
    assert |w.hist| > 0;
    hide Inv, Unseen, OutOfReach, RecordCanLand, Run;
    if RecordCanLand(w, a) {
      var e := RecordLands(w, a);
      assert !Unseen(Run(w, [e]).hist, a);
    } else {
      StrayIsOutOfReach(w, a);
      forall es
        ensures Unseen(Run(w, es).hist, a)
      {
        StaysOutOfReach(w, es, a);
        NoVersionShowsIt(Run(w, es), a);
      }
    }
  }

  lemma {:induction false} RecordLands(w: World, a: Accessor) returns (e: Event)
    requires Inv(w) && RecordCanLand(w, a)
    ensures |w.hist| > 0 && !Unseen(Run(w, [e]).hist, a)
  {
    var x :| x in w.inflight && x.how.Record? && x.how.minted == a && x.pre + 1 == |w.hist|;
    e := Land(x);
    LandedHistory(w, x);
    hide Inv, Chain, LegalWrite, Unseen;
    assert Run(w, []) == w && [] + [e] == [e];
    RunExtend(w, [], e);
    assert Last(Landed(w, x).hist) == Version(x.secret, x.how);
    RecordIsSeen(Landed(w, x).hist);
  }

  lemma {:induction false} StrayIsOutOfReach(w: World, a: Accessor)
    requires Inv(w) && a in w.stray && Unseen(w.hist, a) && !RecordCanLand(w, a)
    ensures OutOfReach(w, a)
  {
  }

  lemma {:induction false} NoVersionShowsIt(w: World, a: Accessor)
    requires OutOfReach(w, a)
    ensures Unseen(w.hist, a)
  {
  }

  lemma {:induction false} RecordIsSeen(h: History)
    requires Chain(h) && Last(h).how.Record?
    ensures !Unseen(h, Last(h).how.minted)
  {
    var es := Last(Front(h)).secret.ledger.entries;
    assert |h| > 1;
    assert Last(h).secret.ledger.entries[|es|] == MintEntry(Last(h).how.minted);
    assert !Foreign(Last(h).secret.ledger.entries, Last(h).how.minted);
    assert h[|h| - 1] == Last(h);
  }

  lemma {:induction false} StaysOutOfReach(w: World, es: seq<Event>, a: Accessor)
    requires Inv(w) && OutOfReach(w, a) && a in w.stray
    ensures OutOfReach(Run(w, es), a)
  {
    assert |w.hist| > 0;
    hide Inv, OutOfReach, Later;
    if es != [] {
      var v, e := Run(w, es[..|es| - 1]), es[|es| - 1];
      StaysOutOfReach(w, es[..|es| - 1], a);
      RunKeepsInv(w, es[..|es| - 1]);
      RunIsLater(w, es[..|es| - 1]);
      if e.Land? && CanLand(v, e.write) {
        StrayIsNotInstalled(w, v, e.write, a);
      }
      OutOfReachStep(v, e, a);
    }
  }

  lemma {:induction false} StrayIsNotInstalled(w: World, v: World, x: Write, a: Accessor)
    requires Inv(v) && Later(w, v) && a in w.stray && CanLand(v, x)
    ensures Live(x.secret) != a
  {
  }

  // ---- Grace, cap and spacing ----

  /** In no clean run does a pass revoke the accessor a landed rotation replaced
      before that rotation's own now plus its grace period, however late its swap
      landed; only a requested, immediate rotation does without the grace period. */
  lemma {:induction false} GraceHoldsInEveryRun(w0: World, es: seq<Event>, k: nat, who: PassId, cause: Cause,
      takes: bool)
    requires Initial(w0) && Clean(Run(w0, es).hist)
    requires 0 < k < |Run(w0, es).hist| && Run(w0, es).hist[k].how.Swap?
    requires Enabled(Run(w0, es), Revoke(who, Live(Run(w0, es).hist[k - 1].secret), cause, takes))
    ensures Run(w0, es).hist[k - 1].how.Record? && Run(w0, es).hist[k - 1].how.stamp == Run(w0, es).hist[k].how.stamp
    ensures Run(w0, es).clock >= Run(w0, es).hist[k - 1].how.notBefore
    ensures var clock, stamp := Run(w0, es).clock, Run(w0, es).hist[k].how.stamp;
      match Run(w0, es).hist[k - 1].how.reason
      case Superseded => clock >= stamp.now + stamp.grace
      case _ => stamp.forced && clock >= stamp.now
  {
    InitialInv(w0);
    RunKeepsInv(w0, es);
    var w := Run(w0, es);
    var a := Live(w.hist[k - 1].secret);
    assert cause.DueIn?;
    var e :| e in w.hist[cause.version].secret.ledger.entries && e.accessor == a && Due(e, w.clock);
    GraceIsKept(w.hist, k, cause.version, e);
  }

  /** What the write sees of the history it is preconditioned on. */
  function BasisOf(w: World, x: Write): History
    requires x.pre < |w.hist|
  {
    w.hist[..x.pre + 1]
  }

  lemma {:induction false} FlightIsShaped(w: World, x: Write)
    requires Inv(w) && x in w.inflight
    ensures Shaped(x.secret)
    ensures x.how.Swap? ==> Settled(x.secret) && |x.secret.ledger.entries| < LEDGER_CAP
  {
    assert Preconditioned(w, x);
    var g := BasisOf(w, x);
    ChainPrefix(w.hist, x.pre + 1);
    EveryVersionIsShaped(g, |g| - 1);
    LegalWriteKeepsShape(g, x.secret, x.how);
  }

  /** Every version and every write in flight, in every state of every run, has
      at most one unresolved entry, lists no accessor twice, and lists the live
      one only as the token an unresolved swap would retire. */
  lemma {:induction false} LedgersAreShaped(w0: World, es: seq<Event>)
    requires Initial(w0)
    ensures forall v | v in Run(w0, es).hist :: Shaped(v.secret)
    ensures forall x | x in Run(w0, es).inflight :: Shaped(x.secret)
  {
    InitialInv(w0);
    RunKeepsInv(w0, es);
    var w := Run(w0, es);
    hide Inv, Shaped;
    forall v | v in w.hist
      ensures Shaped(v.secret)
    {
      var i :| 0 <= i < |w.hist| && w.hist[i] == v;
      VersionIsShaped(w, i);
    }
    forall x | x in w.inflight
      ensures Shaped(x.secret)
    {
      FlightIsShaped(w, x);
    }
  }

  lemma {:induction false} VersionIsShaped(w: World, i: nat)
    requires Inv(w) && i < |w.hist|
    ensures Shaped(w.hist[i].secret)
    ensures w.hist[i].how.Swap? ==>
      Settled(w.hist[i].secret) && |w.hist[i].secret.ledger.entries| < LEDGER_CAP
  {
    EveryVersionIsShaped(w.hist, i);
  }

  /** No version and no write in flight ever holds more than 16 entries,
      and a swap leaves room for one more. */
  lemma {:induction false} LedgerStaysWithinItsCap(w0: World, es: seq<Event>)
    requires Initial(w0)
    ensures forall v | v in Run(w0, es).hist && v.secret.ledger.Entries? ::
      |v.secret.ledger.entries| <= (if v.how.Swap? then 15 else 16)
    ensures forall x | x in Run(w0, es).inflight && x.secret.ledger.Entries? ::
      |x.secret.ledger.entries| <= (if x.how.Swap? then 15 else 16)
  {
    InitialInv(w0);
    RunKeepsInv(w0, es);
    var w := Run(w0, es);
    forall v | v in w.hist && v.secret.ledger.Entries?
      ensures |v.secret.ledger.entries| <= (if v.how.Swap? then 15 else 16)
    {
      var i :| 0 <= i < |w.hist| && w.hist[i] == v;
      EveryVersionIsShaped(w.hist, i);
    }
    forall x | x in w.inflight && x.secret.ledger.Entries?
      ensures |x.secret.ledger.entries| <= (if x.how.Swap? then 15 else 16)
    {
      FlightIsShaped(w, x);
    }
  }

  // ---- The token's history over a whole run ----

  /** The k-th version atomically rotates the token of the one before to one that
      never was live and, but for the version that recorded it, never was listed;
      the old one is scheduled for the instant its Record fixed, the new one is
      not listed and nothing is unresolved. */
  ghost predicate AtomicRotation(h: History, k: nat)
    requires 1 < k < |h|
  {
    var s, base := h[k].secret, h[k - 1];
    && (forall j | 0 <= j < k :: h[j].secret.token != s.token)
    && (forall j | 0 <= j < k - 1 :: !Tracks(h[j].secret, Live(s)))
    && Settled(s) && !Tracks(s, Live(s)) && base.how.Record?
    && OldEntry(Live(s), Live(base.secret), base.how.notBefore, base.how.reason) in s.ledger.entries
  }

  /** Over any run, a version keeps the token of the one before, installs another
      writer's with the ledger kept, or is an atomic rotation: whatever failed,
      is uncertain or was settled as lost changes nothing. */
  lemma {:induction false} TokensChangeAtomically(w0: World, es: seq<Event>, k: nat)
    requires Initial(w0) && 0 < k < |Run(w0, es).hist|
    ensures var h := Run(w0, es).hist;
      || h[k].secret.token == h[k - 1].secret.token
      || (h[k].how.Install? && h[k].secret.ledger == h[k - 1].secret.ledger)
      || (h[k].how.Swap? && k > 1 && AtomicRotation(h, k))
  {
    InitialInv(w0);
    RunKeepsInv(w0, es);
    var h := Run(w0, es).hist;
    ChainPrefix(h, k + 1);
    TokenStepAt(h, k);
  }

  lemma {:induction false} TokenStepAt(h: History, k: nat)
    requires 0 < k < |h| && Chain(h[..k + 1])
    ensures h[k].secret.token == h[k - 1].secret.token
         || (h[k].how.Install? && h[k].secret.ledger == h[k - 1].secret.ledger)
         || (h[k].how.Swap? && k > 1 && AtomicRotation(h, k))
  {
    var g := h[..k + 1];
    assert Last(g) == h[k] && Front(g) == h[..k] && Last(Front(g)) == h[k - 1];
    TokenStep(g);
    if h[k].how.Swap? {
      RecordLeavesPending(Front(g));
      assert Front(Front(g)) == h[..k - 1];
      NeverBefore(h, k, h[k].how.minted);
    }
  }

  lemma {:induction false} NeverBefore(h: History, k: nat, a: Accessor)
    requires 1 < k < |h| && Unseen(h[..k - 1], a)
    ensures forall j | 0 <= j < k - 1 :: Live(h[j].secret) != a && !Tracks(h[j].secret, a)
  {
    forall j | 0 <= j < k - 1
      ensures Live(h[j].secret) != a && !Tracks(h[j].secret, a)
    {
      assert h[..k - 1][j] == h[j];
    }
  }

  /** The gate lets an unforced rotation of a token created at this instant through. */
  predicate LetThrough(created: Time, s: Stamp) {
    !s.forced && s.now - created >= s.period
  }

  /** Decided at least its period after this instant, up to the second to which
      Vault truncates creation times. */
  predicate SpacedFrom(earlier: Time, s: Stamp) {
    s.now - earlier > s.period - SECOND
  }

  /** For a configured period, the gate spaces the unforced rotations of a token
      decided since an earlier decision if and only if the token was not created a
      second or more before that one, or the period is less than a second. */
  lemma {:induction false} GateSpacesIff(created: Time, earlier: Time, period: Time)
    ensures period < SECOND || created > earlier - SECOND <==>
      forall s | LetThrough(created, s) && s.period == period && s.now >= earlier :: SpacedFrom(earlier, s)
  {
    var s := Stamp(if created + period > earlier then created + period else earlier, false, period, 0);
    assert LetThrough(created, s);
  }

  /** An unforced landed rotation of such a token is spaced from any other landed
      rotation, whatever installs lie between them. */
  lemma {:induction false} RotationsOfYoungTokensAreSpaced(w0: World, es: seq<Event>, i: nat, j: nat)
    requires Initial(w0) && i < |Run(w0, es).hist| && 0 < j < |Run(w0, es).hist|
    requires Run(w0, es).hist[i].how.Swap? && Run(w0, es).hist[j].how.Swap? && !Run(w0, es).hist[j].how.stamp.forced
    requires Issued(Run(w0, es), Live(Run(w0, es).hist[j - 1].secret))
    requires Run(w0, es).created[Live(Run(w0, es).hist[j - 1].secret)] > Run(w0, es).hist[i].how.stamp.now - SECOND
    ensures SpacedFrom(Run(w0, es).hist[i].how.stamp.now, Run(w0, es).hist[j].how.stamp)
  {
    InitialInv(w0);
    RunKeepsInv(w0, es);
    var w := Run(w0, es);
    RecordBehind(w.hist, j);
    assert Timely(w, w.hist[j - 1].how, Live(w.hist[j - 1].secret));
  }

  /** A token that a landed rotation minted is young enough for that rotation. */
  lemma {:induction false} MintedTokensAreYoung(w: World, i: nat)
    requires Inv(w) && i < |w.hist| && w.hist[i].how.Swap?
    ensures Issued(w, w.hist[i].how.minted)
    ensures w.created[w.hist[i].how.minted] > w.hist[i].how.stamp.now - SECOND
  {
    RecordBehind(w.hist, i);
    assert Timely(w, w.hist[i - 1].how, Live(w.hist[i - 1].secret));
  }

  /** So is any token issued after it landed, as self-heal's are. */
  lemma {:induction false} FreshTokensAreYoung(w: World, i: nat)
    requires Inv(w) && i < |w.hist| && w.hist[i].how.Swap?
    ensures Issued(Apply(w, Issue), |w.created|)
    ensures Apply(w, Issue).created[|w.created|] > w.hist[i].how.stamp.now - SECOND
  {
    RecordBehind(w.hist, i);
    assert Timely(w, w.hist[i - 1].how, Live(w.hist[i - 1].secret));
  }

  /** Landed rotations with no other change of the token between them are spaced. */
  lemma {:induction false} UnforcedRotationsAreSpaced(w0: World, es: seq<Event>, i: nat, j: nat)
    requires Initial(w0) && i < j < |Run(w0, es).hist|
    requires Run(w0, es).hist[i].how.Swap? && Run(w0, es).hist[j].how.Swap? && !Run(w0, es).hist[j].how.stamp.forced
    requires forall k | i < k < j :: !Run(w0, es).hist[k].how.Swap? && !Run(w0, es).hist[k].how.Install?
    ensures SpacedFrom(Run(w0, es).hist[i].how.stamp.now, Run(w0, es).hist[j].how.stamp)
  {
    InitialInv(w0);
    RunKeepsInv(w0, es);
    var w := Run(w0, es);
    TokenIsKept(w.hist, i, j - 1);
    MintedTokensAreYoung(w, i);
    RotationsOfYoungTokensAreSpaced(w0, es, i, j);
  }

  lemma {:induction false} TokenIsKept(h: History, i: nat, j: nat)
    requires Chain(h) && i <= j < |h| && h[i].how.Swap?
    requires forall k | i < k <= j :: !h[k].how.Swap? && !h[k].how.Install?
    ensures Live(h[j].secret) == h[i].how.minted
    decreases j
  {
    if i == j {
      SwapInstalls(h, i);
    } else {
      TokenIsKept(h, i, j - 1);
      ChainPrefix(h, j + 1);
      assert Last(h[..j + 1]) == h[j] && Last(Front(h[..j + 1])) == h[j - 1];
      TokenStep(h[..j + 1]);
    }
  }

  lemma {:induction false} RecordBehind(h: History, k: nat)
    requires Chain(h) && k < |h| && h[k].how.Swap?
    ensures k > 0 && h[k - 1].how.Record?
    ensures h[k - 1].how.minted == h[k].how.minted && h[k - 1].how.stamp == h[k].how.stamp
  {
    ChainPrefix(h, k + 1);
    var g := h[..k + 1];
    assert Last(g) == h[k];
    assert |g| > 1;
    assert Last(Front(g)) == h[k - 1];
  }
}
