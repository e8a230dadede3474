/** The other writer that installs a token of its own choice: recovery from the
    transit backup. When its guard is enough, and a run in which it is not. */
module Recovery {
  import opened Wrappers
  import opened Records
  import opened RevokeLedger
  import opened SecretHistory
  import opened HistoryTheorems
  import opened Protocol
  import opened ProtocolInvariant
  import opened Safety
  import opened ApiCalls
  import Rotation = RotationPass

  // ---- What the guard on the ledger achieves ----

  /** A drain took the accessor out of the ledger. */
  predicate Drained(h: History, a: Accessor) {
    exists i | 0 < i < |h| :: h[i].how.Drain? && Tracks(h[i - 1].secret, a) && !Tracks(h[i].secret, a)
  }

  /** A drain served a cancel request for an accessor that was listed. */
  predicate LetGo(h: History, a: Accessor) {
    exists i | 0 < i < |h| :: h[i].how.Drain? && h[i].how.cancel == Some(a) && Tracks(h[i - 1].secret, a)
  }

  lemma {:induction false} DrainedLonger(h: History, a: Accessor)
    requires |h| > 1 && Drained(Front(h), a)
    ensures Drained(h, a)
  {
    var i :| 0 < i < |Front(h)| && Front(h)[i].how.Drain?
             && Tracks(Front(h)[i - 1].secret, a) && !Tracks(Front(h)[i].secret, a);
    assert h[i] == Front(h)[i] && h[i - 1] == Front(h)[i - 1];
  }

  /** An accessor that was ever retired is still listed and not live, or a drain
      took it out. */
  lemma {:induction false} RetiredIsListedOrDrained(h: History, a: Accessor)
    requires Chain(h) && Retired(h, a)
    ensures Drained(h, a) || (Tracks(Last(h).secret, a) && Live(Last(h).secret) != a)
  {
    hide LegalWrite, Drained, Tracks;
    var k :| 0 <= k < |h| && Retires(h[k].secret, a);
    if k < |h| - 1 {
      var f := Front(h);
      assert f[k] == h[k];
      assert Retired(f, a);
      RetiredIsListedOrDrained(f, a);
      if Drained(f, a) {
        DrainedLonger(h, a);
      } else {
        ListedStep(h, k, a);
      }
    } else {
      RetiresLists(h[k].secret, a);
    }
  }

  lemma {:induction false} RetiresLists(s: Secret, a: Accessor)
    requires Retires(s, a)
    ensures Tracks(s, a) && Live(s) != a
  {
  }

  lemma {:induction false} ListedStep(h: History, k: nat, a: Accessor)
    requires Chain(h) && k < |h| - 1 && Retires(h[k].secret, a)
    requires Tracks(Last(Front(h)).secret, a) && Live(Last(Front(h)).secret) != a
    ensures Drained(h, a) || (Tracks(Last(h).secret, a) && Live(Last(h).secret) != a)
  {
    var f := Front(h);
    var e :| e in Last(f).secret.ledger.entries && e.accessor == a;
    var d :| d in h[k].secret.ledger.entries && Cancels(d, a);
    assert f[k] == h[k] && Last(f) == h[|h| - 2] && Last(h) == h[|h| - 1];
    TokenStep(h);
    if Last(h).how.Swap? {
      MintedIsNotRetired(f, k, d);
    }
    if !Tracks(Last(h).secret, a) {
      EntryLeaves(h, e);
    }
  }

  /** Whatever a drain takes out was scheduled while another token was live. */
  lemma {:induction false} DrainedWasRetired(h: History, i: nat, a: Accessor)
    requires Chain(h) && 0 < i < |h| && h[i].how.Drain? && Tracks(h[i - 1].secret, a)
    ensures Retired(h, a)
  {
    DrainsSettled(h, i);
    EveryVersionIsShaped(h, i - 1);
    hide Chain, LegalWrite;
    var es := h[i - 1].secret.ledger.entries;
    SettledLedgerOmitsLive(es, Live(h[i - 1].secret));
    var e :| e in es && e.accessor == a;
    assert Cancels(e, a) && Retires(h[i - 1].secret, a);
  }

  lemma {:induction false} DrainsSettled(h: History, i: nat)
    requires Chain(h) && 0 < i < |h| && h[i].how.Drain?
    ensures Settled(h[i - 1].secret)
  {
    ChainPrefix(h, i + 1);
    var g := h[..i + 1];
    assert Last(g) == h[i] && Last(Front(g)) == h[i - 1];
  }

  /** An accessor the ledger does not list was retired before if and only if a
      drain took it out. */
  lemma {:induction false} RetiredIffDrained(h: History, a: Accessor)
    requires Chain(h) && !Tracks(Last(h).secret, a)
    ensures Retired(h, a) <==> Drained(h, a)
  {
    if Retired(h, a) {
      RetiredIsListedOrDrained(h, a);
    }
    if Drained(h, a) {
      var i :| 0 < i < |h| && h[i].how.Drain? && Tracks(h[i - 1].secret, a) && !Tracks(h[i].secret, a);
      DrainedWasRetired(h, i, a);
    }
  }

  /** A drain takes out what Vault confirmed gone or a cancel request named. */
  lemma {:induction false} DrainTakes(h: History, i: nat, a: Accessor)
    requires Chain(h) && 0 < i < |h| && h[i].how.Drain? && Tracks(h[i - 1].secret, a) && !Tracks(h[i].secret, a)
    ensures h[i].how.cancel == Some(a) || a in h[i].how.gone
  {
    hide Chain, LegalWrite;
    var g := h[..i + 1];
    ChainPrefix(h, i + 1);
    assert |g| > 1 && Last(g) == h[i] && Last(Front(g)) == h[i - 1];
    var e :| e in h[i - 1].secret.ledger.entries && e.accessor == a;
    EntryLeaves(g, e);
  }

  /** What left by a drain is unknown to Vault, or a cancel request let it go. */
  lemma {:induction false} DrainedIsGoneOrLetGo(w: World, a: Accessor)
    requires Inv(w) && Drained(w.hist, a)
    ensures a !in w.valid || LetGo(w.hist, a)
  {
    var i :| 0 < i < |w.hist| && w.hist[i].how.Drain?
             && Tracks(w.hist[i - 1].secret, a) && !Tracks(w.hist[i].secret, a);
    DrainIsConfirmed(w, i);
    hide Inv, Tracks;
    DrainTakes(w.hist, i, a);
  }

  lemma {:induction false} DrainIsConfirmed(w: World, i: nat)
    requires Inv(w) && i < |w.hist|
    ensures Confirmed(w, w.hist[i].how) && Chain(w.hist)
  {
  }

  /** No drain up to this version took the accessor out of the ledger: a matter of
      the version an install is preconditioned on, and so of the one it read. */
  predicate Fit(h: History, a: Accessor) {
    !Drained(h, a)
  }

  /** For a token that version does not list, and that Vault still knows when it is
      looked up after the read, this means that no cancel request let it go. */
  lemma {:induction false} KnownTokenIsFitIff(w: World, rv: nat, a: Accessor)
    requires Inv(w) && rv < |w.hist| && !Tracks(w.hist[rv].secret, a) && a in w.valid
    ensures Fit(w.hist[..rv + 1], a) <==> !LetGo(w.hist[..rv + 1], a)
  {
    hide Inv, Chain, Tracks, Retired;
    var h := w.hist[..rv + 1];
    DrainIsConfirmed(w, rv);
    ChainPrefix(w.hist, rv + 1);
    assert Last(h) == w.hist[rv];
    if Drained(h, a) {
      var i :| 0 < i < |h| && h[i].how.Drain? && Tracks(h[i - 1].secret, a) && !Tracks(h[i].secret, a);
      assert h[i] == w.hist[i];
      DrainIsConfirmed(w, i);
      DrainTakes(h, i, a);
    }
    if LetGo(h, a) {
      var i :| 0 < i < |h| && h[i].how.Drain? && h[i].how.cancel == Some(a) && Tracks(h[i - 1].secret, a);
      DrainedWasRetired(h, i, a);
      RetiredIffDrained(h, a);
    }
  }

  /** The guard on the ledger is enough exactly for fit tokens. */
  lemma {:induction false} GuardedInstallIsSafeIffFit(w: World, x: Write)
    requires Inv(w) && CanLand(w, x) && x.how.Install?
    ensures Retired(w.hist, Live(x.secret)) <==> !Fit(w.hist, Live(x.secret))
    ensures Clean(Landed(w, x).hist) <==> Clean(w.hist) && Fit(w.hist, Live(x.secret))
  {
    LandedHistory(w, x);
    assert !Tracks(Last(w.hist).secret, Live(x.secret));
    RetiredIffDrained(w.hist, Live(x.secret));
  }

  /** Every install among the events that lands, lands a fit token. */
  ghost predicate InstallsAreFit(w0: World, es: seq<Event>)
    requires |w0.hist| > 0
  {
    es != [] ==>
      var w, e := Run(w0, es[..|es| - 1]), es[|es| - 1];
      && InstallsAreFit(w0, es[..|es| - 1])
      && (e.Land? && CanLand(w, e.write) && e.write.how.Install? ==> Fit(w.hist, Live(e.write.secret)))
  }

  /** These are exactly the runs the safety theorems speak about. */
  lemma {:induction false} RunIsCleanIffInstallsAreFit(w0: World, es: seq<Event>)
    requires Initial(w0)
    ensures |w0.hist| > 0
    ensures Clean(Run(w0, es).hist) <==> InstallsAreFit(w0, es)
  {
    InitialInv(w0);
    assert |w0.hist| == 1;
    assert Clean(w0.hist);
    hide Inv, Fit, Clean;
    if es != [] {
      var w, e := Run(w0, es[..|es| - 1]), es[|es| - 1];
      RunIsCleanIffInstallsAreFit(w0, es[..|es| - 1]);
      RunKeepsInv(w0, es[..|es| - 1]);
      CleanStep(w, e);
    }
  }

  lemma {:induction false} CleanStep(w: World, e: Event)
    requires Inv(w)
    ensures |w.hist| > 0
    ensures Clean(Apply(w, e).hist) <==>
      Clean(w.hist)
      && (e.Land? && CanLand(w, e.write) && e.write.how.Install? ==> Fit(w.hist, Live(e.write.secret)))
  {
    if e.Land? && CanLand(w, e.write) {
      LandedHistory(w, e.write);
      if e.write.how.Install? {
        GuardedInstallIsSafeIffFit(w, e.write);
      }
    }
    hide Inv, Clean, Chain, LegalWrite, MayRevoke, Preconditioned, Fit;
  }

  /** The central theorem for such runs: a pass never revokes the live token, nor
      one that is live later in the run, nor one that a write still able to land
      would install. */
  lemma {:induction false} FitRunsNeverRevokeTheLiveToken(
      w0: World, before: seq<Event>, who: PassId, a: Accessor, cause: Cause, takes: bool, after: seq<Event>)
    requires Initial(w0) && InstallsAreFit(w0, before + [Revoke(who, a, cause, takes)] + after)
    requires Enabled(Run(w0, before), Revoke(who, a, cause, takes))
    ensures Live(Current(Run(w0, before))) != a
    ensures Live(Current(Run(w0, before + [Revoke(who, a, cause, takes)] + after))) != a
    ensures forall x | CanLand(Run(w0, before), x)
                       && (x.how.Install? ==> Fit(Run(w0, before).hist, Live(x.secret))) :: Live(x.secret) != a
  {
    hide Initial, Clean, InstallsAreFit, Inv, Fit, Run;
    var e := Revoke(who, a, cause, takes);
    RunIsCleanIffInstallsAreFit(w0, before + [e] + after);
    InitialInv(w0);
    RunKeepsInv(w0, before);
    RunConcat(w0, before + [e], after);
    RunExtend(w0, before, e);
    LiveTokenIsNeverRevoked(w0, before, who, a, cause, takes, after);
    EarlierIsClean(w0, before, [e] + after);
    assert before + [e] + after == before + ([e] + after);
    forall x | CanLand(Run(w0, before), x)
               && (x.how.Install? ==> Fit(Run(w0, before).hist, Live(x.secret)))
      ensures Live(x.secret) != a
    {
      CleanStep(Run(w0, before), Land(x));
    }
  }

  lemma {:induction false} EarlierIsClean(w0: World, es: seq<Event>, more: seq<Event>)
    requires Initial(w0) && |w0.hist| > 0
    ensures Clean(Run(w0, es + more).hist) ==> Clean(Run(w0, es).hist)
  {
    hide Inv, Clean, Chain;
    InitialInv(w0);
    RunKeepsInv(w0, es);
    RunConcat(w0, es, more);
    RunIsLater(Run(w0, es), more);
    RunKeepsInv(w0, es + more);
    ReachableChain(Run(w0, es));
    ReachableChain(Run(w0, es + more));
    if Clean(Run(w0, es + more).hist) {
      HistoryGrows(Run(w0, es), Run(w0, es + more));
      CleanPrefix(Run(w0, es).hist, Run(w0, es + more).hist);
    }
  }

  // ---- Recovery from the transit backup ----

  /** A token that is no pass's unsent mint; any the Secret ever held qualifies. */
  ghost predicate OnceDelivered(w: World, token: Token) {
    Issued(w, token.accessor) && token.accessor !in w.held && token.accessor !in w.stray
  }

  lemma {:induction false} InstalledTokensQualify(w: World, i: nat)
    requires Inv(w) && i < |w.hist|
    ensures OnceDelivered(w, w.hist[i].secret.token)
  {
    assert OldIds(w.hist[i].secret, |w.created|);
  }

  lemma {:induction false} DeliveredLater(w: World, v: World, token: Token)
    requires Later(w, v) && OnceDelivered(w, token)
    ensures OnceDelivered(v, token)
  {
  }

  /** The version an install left: its precondition's, with the token replaced,
      where the ledger did not list the new token. */
  ghost predicate InstalledOver(w: World, rv: nat, token: Token) {
    && rv + 1 < |w.hist| && w.hist[rv].secret.ledger.Entries? && !Tracks(w.hist[rv].secret, token.accessor)
    && w.hist[rv + 1] == Version(w.hist[rv].secret.(token := token, placeholder := false), Install)
  }

  lemma {:induction false} InstallIsLegal(w: World, c: Copy, token: Token)
    requires Inv(w) && c.rv < |w.hist| && w.hist[c.rv].secret == c.secret
    requires OnceDelivered(w, token) && !Tracks(c.secret, token.accessor)
    ensures CanSendOutside(w, Write(c.rv, c.secret.(token := token, placeholder := false), Install))
  {
    assert w.hist[..c.rv + 1][c.rv] == w.hist[c.rv];
  }

  lemma {:induction false} InstallLanded(w: World, v: World, me: PassId, c: Copy, token: Token)
    requires Ahead(w, v, me) && c.rv < |w.hist| && w.hist[c.rv].secret == c.secret
    requires c.secret.ledger.Entries? && !Tracks(c.secret, token.accessor) && c.rv + 1 < |v.hist|
    requires v.hist[c.rv + 1] == Version(c.secret.(token := token, placeholder := false), Install)
    ensures InstalledOver(v, c.rv, token)
  {
    assert v.hist[c.rv] == w.hist[c.rv];
  }

  method ListsAccessor(entries: seq<Entry>, a: Accessor) returns (listed: bool)
    ensures listed <==> Lists(entries, a)
  {
    for i := 0 to |entries|
      invariant forall j | 0 <= j < i :: entries[j].accessor != a
    {
      if entries[i].accessor == a {
        return true;
      }
    }
    return false;
  }

  /** Look the token up, then read the Secret, then write it, each only after the
      one before succeeded. */
  predicate InOrder(calls: seq<Call>, token: Token) {
    && 0 < |calls| <= 3
    && calls[0].LookedUp? && calls[0].token == token
    && (|calls| > 1 ==> calls[0].accepted && calls[1].Read?)
    && (|calls| > 2 ==> calls[1].found && calls[2].Wrote? && calls[2].how.Install?)
  }

  /** What decides whether an install of recovery left the history clean: that no
      drain before the version it read took its token out; and if Vault still
      knows the token, that no cancel request did. */
  ghost predicate CleanIffFit(w: World, rv: nat, token: Token) {
    && InstalledOver(w, rv, token)
    && (Clean(w.hist[..rv + 2]) <==> Clean(w.hist[..rv + 1]) && Fit(w.hist[..rv + 1], token.accessor))
    && (token.accessor in w.valid ==>
          (Fit(w.hist[..rv + 1], token.accessor) <==> !LetGo(w.hist[..rv + 1], token.accessor)))
  }

  /** It does so for every install there is, acknowledged or not. */
  lemma {:induction false} RecoveryIsCleanIffFit(w: World, rv: nat, token: Token)
    requires Inv(w) && InstalledOver(w, rv, token)
    ensures CleanIffFit(w, rv, token)
  {
    hide Inv, Chain, Tracks, LetGo, Drained;
    var h, g := w.hist[..rv + 1], w.hist[..rv + 2];
    ReachableChain(w);
    ChainPrefix(w.hist, rv + 1);
    ChainPrefix(w.hist, rv + 2);
    assert Front(g) == h && Last(g) == w.hist[rv + 1] && Last(h) == w.hist[rv];
    RetiredIffDrained(h, token.accessor);
    if token.accessor in w.valid {
      KnownTokenIsFitIff(w, rv, token.accessor);
    }
  }

  /** Reinstall the backed-up token if Vault accepts it and the ledger read in
      the same version the write is preconditioned on does not list it. */
  method RecoverFromBackup(cluster: Cluster, backed: Option<Token>) returns (healed: bool)
    requires cluster.Valid() && (backed.Some? ==> OnceDelivered(cluster.world, backed.value))
    modifies cluster
    ensures cluster.Valid() && Later(old(cluster.world), cluster.world)
    ensures healed ==> backed.Some? && exists rv :: CleanIffFit(cluster.world, rv, backed.value)
    ensures backed.None? ==> cluster.log == old(cluster.log)
    ensures backed.Some? ==>
      exists calls :: cluster.log == old(cluster.log) + calls && InOrder(calls, backed.value)
    ensures |cluster.world.hist| > 0
    ensures old(cluster.Calm() && |cluster.world.hist| > 0)
            && backed.Some? && backed.value.accessor in old(cluster.world.valid) ==>
      && (healed <==>
            && old(Current(cluster.world)).ledger.Entries?
            && forall e | e in old(Current(cluster.world)).ledger.entries :: e.accessor != backed.value.accessor)
      && Current(cluster.world) ==
           if healed then old(Current(cluster.world)).(token := backed.value, placeholder := false)
           else old(Current(cluster.world))
    ensures old(cluster.Calm()) && (backed.None? || backed.value.accessor !in old(cluster.world.valid)) ==>
      !healed && cluster.world == old(cluster.world)
  {
    hide Inv, Later, Ahead, Cluster.Valid, CanSendOutside, InstalledOver, CleanIffFit;
    ghost var w, log := cluster.world, cluster.log;
    cluster.Reachable();
    SomeVersion(w);
    LaterItself(w);
    if backed.None? {
      return false;
    }
    var info := cluster.LookupSelf(backed.value);
    AheadIsLater(w, cluster.world, cluster.me);
    SomeVersion(cluster.world);
    assert cluster.log == log + [LookedUp(backed.value, info.Some?)];
    if info.None? {
      return false;
    }
    ghost var v := cluster.world;
    var read := cluster.Get();
    AheadTransitive(w, v, cluster.world, cluster.me);
    AheadIsLater(w, cluster.world, cluster.me);
    SomeVersion(cluster.world);
    assert cluster.log == log + [LookedUp(backed.value, true), Read(read.Some?)];
    if read.None? || read.value.secret.ledger.Unreadable? {
      return false;
    }
    var listed := ListsAccessor(read.value.secret.ledger.entries, backed.value.accessor);
    if listed {
      return false;
    }
    var installing := read.value.secret.(token := backed.value, placeholder := false);
    v := cluster.world;
    DeliveredLater(w, v, backed.value);
    InstallIsLegal(v, read.value, backed.value);
    var answer := cluster.UpdateOutside(read.value.rv, installing, Install);
    AheadTransitive(w, v, cluster.world, cluster.me);
    AheadIsLater(w, cluster.world, cluster.me);
    SomeVersion(cluster.world);
    assert cluster.log == log + [LookedUp(backed.value, true), Read(true), Wrote(Install, answer)];
    if answer.Accepted? {
      InstallLanded(v, cluster.world, cluster.me, read.value, backed.value);
      RecoveryIsCleanIffFit(cluster.world, read.value.rv, backed.value);
    }
    return answer.Accepted?;
  }

  /** The Secret held the token once. */
  ghost predicate OnceHeld(w: World, token: Token) {
    exists i | 0 <= i < |w.hist| :: w.hist[i].secret.token == token
  }

  lemma {:induction false} OnceHeldLater(w: World, v: World, token: Token)
    requires Later(w, v) && OnceHeld(w, token)
    ensures OnceHeld(v, token)
  {
    var i :| 0 <= i < |w.hist| && w.hist[i].secret.token == token;
    assert v.hist[i] == w.hist[i];
  }

  /** The transit backup: the last token it was given. */
  class TransitBackup {
    var stored: Option<Token>

    ghost predicate Valid(w: World)
      reads this
    {
      stored.Some? ==> OnceHeld(w, stored.value)
    }

    constructor ()
      ensures stored == None
    {
      stored := None;
    }

    /** Store the token a pass minted, once its swap was accepted, best effort. */
    method StoreRotated(pass: Rotation.RotationPass, minted: Accessor, works: bool)
      requires pass.cluster.Valid() && pass.Mirrors(pass.cluster.world) && Valid(pass.cluster.world)
      requires pass.cluster.world.hist[pass.rv].how.Swap? && pass.cluster.world.hist[pass.rv].how.minted == minted
      modifies this
      ensures Valid(pass.cluster.world)
      ensures stored == if works then Some(Token(minted)) else old(stored)
    {
      pass.cluster.Reachable();
      ReachableChain(pass.cluster.world);
      SwapInstalls(pass.cluster.world.hist, pass.rv);
      assert pass.cluster.world.hist[pass.rv].secret.token == Token(minted);
      if works {
        stored := Some(Token(minted));
      }
    }

    /** Recovery from what is stored: it is never a mint whose swap was not sent. */
    method Recover(cluster: Cluster) returns (healed: bool)
      requires cluster.Valid() && Valid(cluster.world)
      modifies cluster
      ensures cluster.Valid() && Later(old(cluster.world), cluster.world) && Valid(cluster.world)
      ensures healed ==> stored.Some? && exists rv :: CleanIffFit(cluster.world, rv, stored.value)
      ensures stored.None? ==> !healed && cluster.log == old(cluster.log)
      ensures stored.Some? ==>
        exists calls :: cluster.log == old(cluster.log) + calls && InOrder(calls, stored.value)
      ensures |cluster.world.hist| > 0
      ensures old(cluster.Calm() && |cluster.world.hist| > 0)
              && stored.Some? && stored.value.accessor in old(cluster.world.valid) ==>
        && (healed <==>
              && old(Current(cluster.world)).ledger.Entries?
              && forall e | e in old(Current(cluster.world)).ledger.entries :: e.accessor != stored.value.accessor)
        && Current(cluster.world) ==
             if healed then old(Current(cluster.world)).(token := stored.value, placeholder := false)
             else old(Current(cluster.world))
    {
      hide Inv, Later, Cluster.Valid, CleanIffFit, OnceDelivered, InOrder;
      ghost var w := cluster.world;
      cluster.Reachable();
      if stored.Some? {
        ghost var i :| 0 <= i < |w.hist| && w.hist[i].secret.token == stored.value;
        InstalledTokensQualify(w, i);
      }
      healed := RecoverFromBackup(cluster, stored);
      if stored.Some? {
        OnceHeldLater(w, cluster.world, stored.value);
      }
    }
  }

  lemma {:induction false} SomeVersion(w: World)
    requires Inv(w)
    ensures |w.hist| > 0
  {
  }

  /** Whenever an install lands, however late, the ledger of its own version does
      not list the token, and is the ledger it replaced. */
  lemma {:induction false} InstallsAreNeverListed(w0: World, es: seq<Event>, i: nat)
    requires Initial(w0) && i < |Run(w0, es).hist| && Run(w0, es).hist[i].how.Install?
    ensures var h := Run(w0, es).hist;
      && !Tracks(h[i].secret, Live(h[i].secret)) && i > 0
      && h[i].secret.ledger == h[i - 1].secret.ledger && !Tracks(h[i - 1].secret, Live(h[i].secret))
  {
    InitialInv(w0);
    RunKeepsInv(w0, es);
    var h := Run(w0, es).hist;
    ChainPrefix(h, i + 1);
    var g := h[..i + 1];
    assert Last(g) == h[i] && |g| > 1 && Last(Front(g)) == h[i - 1];
  }

  /** Self-heal installs a token Vault issued just for it. Until its first install
      lands, however late and whether or not it expired, no version of any run
      shows it, so it is fit. */
  lemma {:induction false} FreshTokensAreFit(w: World, es: seq<Event>)
    requires Inv(w)
    requires forall v | v in Run(Apply(w, Issue), es).hist && v.how.Install? :: Live(v.secret) != |w.created|
    ensures Unseen(Run(Apply(w, Issue), es).hist, |w.created|)
    ensures Fit(Run(Apply(w, Issue), es).hist, |w.created|)
    ensures OnceDelivered(Apply(w, Issue), Token(|w.created|))
    ensures forall x | CanLand(Run(Apply(w, Issue), es), x) && x.how.Install? && Live(x.secret) == |w.created| ::
      Clean(Run(Apply(w, Issue), es).hist) ==> Clean(Landed(Run(Apply(w, Issue), es), x).hist)
  {
    hide Inv, OutOfReach, Unseen, Fit, Clean, OnceDelivered;
    IssuedIsOutOfReach(w);
    StepKeepsInv(w, Issue);
    OutOfReachUntilInstalled(Apply(w, Issue), es, |w.created|);
    NoVersionShowsIt(Run(Apply(w, Issue), es), |w.created|);
    UnseenIsFit(Run(Apply(w, Issue), es), |w.created|);
    IssuedIsDelivered(w);
    RunKeepsInv(Apply(w, Issue), es);
    forall x | CanLand(Run(Apply(w, Issue), es), x) && x.how.Install? && Live(x.secret) == |w.created|
      ensures Clean(Run(Apply(w, Issue), es).hist) ==> Clean(Landed(Run(Apply(w, Issue), es), x).hist)
    {
      GuardedInstallIsSafeIffFit(Run(Apply(w, Issue), es), x);
    }
  }

  lemma {:induction false} IssuedIsDelivered(w: World)
    requires Inv(w)
    ensures |w.hist| > 0 && OnceDelivered(Apply(w, Issue), Token(|w.created|))
  {
    assert IdsAreOld(w);
  }

  lemma {:induction false} UnseenIsFit(w: World, a: Accessor)
    requires Unseen(w.hist, a)
    ensures Fit(w.hist, a)
  {
  }

  lemma {:induction false} IssuedIsOutOfReach(w: World)
    requires Inv(w)
    ensures |w.hist| > 0 && OutOfReach(Apply(w, Issue), |w.created|)
  {
    NewIdIsUnseen(w);
    forall x | x in w.inflight && x.how.Record?
      ensures x.how.minted != |w.created|
    {
      assert Timely(w, x.how, Live(x.secret));
    }
    hide Chain, LegalWrite, Unseen, Preconditioned;
  }

  lemma {:induction false} OutOfReachUntilInstalled(w: World, es: seq<Event>, a: Accessor)
    requires Inv(w) && OutOfReach(w, a)
    requires |w.hist| > 0 && forall v | v in Run(w, es).hist && v.how.Install? :: Live(v.secret) != a
    ensures OutOfReach(Run(w, es), a)
  {
    hide Inv, OutOfReach, Later, Chain;
    if es != [] {
      var u, e := Run(w, es[..|es| - 1]), es[|es| - 1];
      RunKeepsInv(w, es[..|es| - 1]);
      StepIsLater(u, e);
      HistoryGrows(u, Apply(u, e));
      assert forall v | v in u.hist :: v in Run(w, es).hist;
      OutOfReachUntilInstalled(w, es[..|es| - 1], a);
      if e.Land? && CanLand(u, e.write) {
        assert Version(e.write.secret, e.write.how) in Run(w, es).hist;
      }
      OutOfReachStep(u, e, a);
    }
  }

  lemma {:induction false} HistoryGrows(u: World, v: World)
    requires Later(u, v)
    ensures u.hist <= v.hist
  {
  }
}
