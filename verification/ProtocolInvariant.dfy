/** Every step of the protocol keeps the invariant, so it holds in every state
    of every interleaving. */
module ProtocolInvariant {
  import opened Wrappers
  import opened Records
  import opened RevokeLedger
  import opened SecretHistory
  import opened HistoryTheorems
  import opened Protocol

  lemma {:induction false} InitialInv(w: World)
    requires Initial(w)
    ensures Inv(w)
  {
  }

  lemma {:induction false} ReachableChain(w: World)
    requires Inv(w)
    ensures Chain(w.hist) && |w.hist| > 0
  {
  }

  // ---- Sending ----

  lemma {:induction false} LegalWriteKeepsIds(h: History, s: Secret, how: Origin, n: nat)
    requires |h| > 0 && LegalWrite(h, s, how) && OldIds(Last(h).secret, n)
    requires Live(s) < n && (how.Record? ==> how.minted < n)
    ensures OldIds(s, n)
  {
    if s.ledger.Entries? {
      var base := Last(h).secret;
      forall e | e in s.ledger.entries
        ensures e.accessor < n && e.swap.minted < n
      {
        match how
        case Swap(m, _) => var d := SiftSource(base.ledger.entries, DropMint(SwapId(m)), e);
        case Settle(m, now) => var d := SiftSource(base.ledger.entries, SettleSwap(SwapId(m), now, Live(base)), e);
        case Drain(cancel, gone, now) =>
          var d := SiftSource(Cancelled(base.ledger.entries, cancel), DropGone(gone, Live(base), now), e);
        case _ =>
      }
    }
  }

  /** Nothing that was accounted for is lost when only holders change. */
  lemma {:induction false} AccountsMove(w: World, v: World)
    requires |w.hist| > 0 && MintsAreAccounted(w) && v.hist == w.hist && v.minted <= w.minted && w.loose <= v.loose
    requires forall a | a in v.valid && a in v.minted :: a in w.valid
    requires forall a | a in w.held || a in w.stray :: a in v.held || a in v.stray || !Unseen(w.hist, a)
    ensures MintsAreAccounted(v)
  {
    hide Unseen, Tracks;
    forall a | a in v.minted && a in v.valid
      ensures Accounted(v, a)
    {
      assert Accounted(w, a);
    }
  }

  lemma {:induction false} AddFlightKeepsInv(w: World, x: Write)
    requires Inv(w) && Preconditioned(w, x)
    requires Issued(w, Live(x.secret)) && Live(x.secret) !in w.held && Live(x.secret) !in w.stray
    requires x.how.Drain? ==> forall a | a in x.how.gone :: Issued(w, a) && a !in w.valid
    requires Timely(w, x.how, Live(x.secret))
    ensures Inv(w.(inflight := w.inflight + {x}))
  {
    LegalWriteKeepsIds(w.hist[..x.pre + 1], x.secret, x.how, |w.created|);
    hide Chain, LegalWrite, OldIds, Accounted, Timely;
    AccountsMove(w, w.(inflight := w.inflight + {x}));
  }

  /** The version a write is preconditioned on shows whose token it carries. */
  lemma {:induction false} TokenOfWrite(w: World, x: Write)
    requires Preconditioned(w, x)
    ensures x.how.Swap? ==> x.secret.token == Token(x.how.minted)
    ensures !x.how.Swap? && !x.how.Install? ==> x.secret.token == w.hist[x.pre].secret.token
  {
  }

  /** A swap in flight is preconditioned on the version that recorded its
      rotation, where its minted entry is unresolved. */
  lemma {:induction false} SwapWasRecorded(w: World, x: Write)
    requires Chain(w.hist) && Preconditioned(w, x) && x.how.Swap?
    ensures Pending(w.hist[x.pre].secret, x.how.minted) && !Unseen(w.hist, x.how.minted)
    ensures x.pre > 0 && Unseen(w.hist[..x.pre], x.how.minted)
  {
    var g := w.hist[..x.pre + 1];
    ChainPrefix(w.hist, x.pre + 1);
    RecordLeavesPending(g);
    assert Front(g) == w.hist[..x.pre] && Last(g) == w.hist[x.pre];
    var u :| u in Last(g).secret.ledger.entries && IsUnresolvedMint(u, SwapId(x.how.minted));
    assert !Foreign(w.hist[x.pre].secret.ledger.entries, x.how.minted);
  }

  /** A mint that the history shows needs no holder. */
  lemma {:induction false} ReleaseKeepsInv(w: World, m: Accessor)
    requires Inv(w) && m in w.held && !Unseen(w.hist, m)
    ensures Inv(w.(held := w.held - {m}))
  {
    hide Chain, LegalWrite, OldIds, Accounted, Timely, Unseen;
    var v := w.(held := w.held - {m});
    TimelyDependsOnCreated(w, v);
    AccountsMove(w, v);
  }

  lemma {:induction false} SendKeepsInv(w: World, who: PassId, x: Write)
    requires Inv(w) && CanSend(w, who, x)
    ensures Inv(Effect(w, Send(who, x)))
  {
    TokenOfWrite(w, x);
    if x.how.Swap? {
      hide Chain, LegalWrite, OldIds, Accounted, Unseen, UnsentStayOut, IdsAreOld;
      var m := x.how.minted;
      SwapWasRecorded(w, x);
      MintIsIssued(w, m);
      ReleaseKeepsInv(w, m);
      AddFlightKeepsInv(w.(held := w.held - {m}), x);
    } else {
      assert OldIds(w.hist[x.pre].secret, |w.created|);
      hide Chain, LegalWrite, OldIds, Accounted;
      AddFlightKeepsInv(w, x);
    }
  }

  lemma {:induction false} OutsideKeepsInv(w: World, x: Write)
    requires Inv(w) && CanSendOutside(w, x)
    ensures Inv(w.(inflight := w.inflight + {x}))
  {
    hide Inv;
    AddFlightKeepsInv(w, x);
  }

  lemma {:induction false} MintIsIssued(w: World, m: Accessor)
    requires IdsAreOld(w) && HeldAreNotStray(w) && m in w.held
    ensures Issued(w, m) && m !in w.stray
  {
  }

  // ---- Landing ----

  lemma {:induction false} LandedHistory(w: World, x: Write)
    requires Inv(w) && CanLand(w, x)
    ensures Landed(w, x).hist == w.hist + [Version(x.secret, x.how)]
    ensures LegalWrite(w.hist, x.secret, x.how) && Chain(Landed(w, x).hist)
    ensures Clean(Landed(w, x).hist) <==> Clean(w.hist) && (x.how.Install? ==> !Retired(w.hist, Live(x.secret)))
  {
    assert w.hist[..x.pre + 1] == w.hist;
    ChainExtend(w.hist, x.secret, x.how);
  }

  lemma {:induction false} LandedFlights(w: World, x: Write)
    requires Inv(w) && CanLand(w, x)
    ensures FlightsAreLegal(Landed(w, x)) && DrainsAreConfirmed(Landed(w, x)) && IdsAreOld(Landed(w, x))
    ensures UnsentStayOut(Landed(w, x)) && RotationsAreTimely(Landed(w, x))
  {
    var v := Landed(w, x);
    hide Chain, LegalWrite, OldIds, Accounted, Timely;
    forall y | y in v.inflight
      ensures Preconditioned(v, y)
    {
      assert Preconditioned(w, y);
      assert v.hist[..y.pre + 1] == w.hist[..y.pre + 1];
    }
    assert RotationsAreTimely(v) by {
      TimelyDependsOnCreated(w, v);
    }
  }

  lemma {:induction false} TimelyDependsOnCreated(w: World, v: World)
    requires v.created == w.created && w.clock <= v.clock
    ensures forall how, a | Timely(w, how, a) :: Timely(v, how, a)
  {
  }

  lemma {:induction false} RetiredGrows(h: History, g: History, a: Accessor)
    requires h <= g && Retired(h, a)
    ensures Retired(g, a)
  {
    var i :| 0 <= i < |h| && Retires(h[i].secret, a);
    assert g[i] == h[i];
  }

  lemma {:induction false} LandedFates(w: World, x: Write)
    requires Inv(w) && CanLand(w, x)
    ensures EveryTokenHasAFate(Landed(w, x))
  {
    var v := Landed(w, x);
    hide Chain, LegalWrite, OldIds, Accounted, Timely, Retired;
    forall a | a in v.revoked
      ensures a in v.stray || Retired(v.hist, a)
    {
      if a !in w.stray {
        RetiredGrows(w.hist, v.hist, a);
      }
    }
  }

  lemma {:induction false} LandedAccounts(w: World, x: Write, a: Accessor)
    requires Inv(w) && CanLand(w, x) && a in w.minted && a in w.valid
    ensures Accounted(Landed(w, x), a)
  {
    var v := Landed(w, x);
    LandedHistory(w, x);
    assert Front(v.hist) == w.hist;
    assert Accounted(w, a);
    UnseenAppend(w.hist, Last(v.hist), a);
    if Unseen(w.hist, a) {
      FirstSeen(w, x, a);
    } else {
      StillAccounted(w, x, a);
    }
  }

  lemma {:induction false} UnseenAppend(h: History, last: Version, a: Accessor)
    ensures Unseen(h + [last], a) <==>
      Unseen(h, a) && Live(last.secret) != a
      && (last.secret.ledger.Entries? ==> Foreign(last.secret.ledger.entries, a))
  {
    var g := h + [last];
    assert g[|h|] == last;
    assert forall i | 0 <= i < |h| :: g[i] == h[i];
  }

  /** A minted accessor first occurs in the version its own Record makes. */
  lemma {:induction false} FirstSeen(w: World, x: Write, a: Accessor)
    requires Inv(w) && CanLand(w, x) && Unseen(w.hist, a) && (a in w.held || a in w.stray)
    ensures Accounted(Landed(w, x), a)
  {
    var v := Landed(w, x);
    LandedHistory(w, x);
    UnseenAppend(w.hist, Version(x.secret, x.how), a);
    assert Live(x.secret) != a && Chain(w.hist);
    hide Inv, Chain, Tracks;
    if x.secret.ledger.Entries? && !Foreign(x.secret.ledger.entries, a) {
      var d :| d in x.secret.ledger.entries && (d.accessor == a || d.swap == SwapId(a));
      SeenByRecord(w.hist, x.secret, x.how, a, d);
    }
  }

  /** A write shows an accessor for the first time only by installing it or by
      recording its mint. */
  lemma {:induction false} SeenByRecord(h: History, s: Secret, how: Origin, a: Accessor, d: Entry)
    requires Chain(h) && LegalWrite(h, s, how) && Unseen(h, a)
    requires s.ledger.Entries? && d in s.ledger.entries && (d.accessor == a || d.swap == SwapId(a))
    ensures how.Record? && how.minted == a && Tracks(s, a)
  {
    assert h[|h| - 1] == Last(h);
    if how.Record? {
      var es := Last(h).secret.ledger.entries;
      assert Foreign(es, a);
      assert s.ledger.entries[|es|] == MintEntry(how.minted);
      assert MintEntry(how.minted) in s.ledger.entries;
    } else {
      var e := EntrySource(h, s, how, d);
    }
  }

  lemma {:induction false} StillAccounted(w: World, x: Write, a: Accessor)
    requires Inv(w) && CanLand(w, x) && a in w.valid && !Unseen(w.hist, a)
    requires a == Live(Current(w)) || Tracks(Current(w), a) || a in w.loose
    ensures Accounted(Landed(w, x), a)
  {
    var v := Landed(w, x);
    LandedHistory(w, x);
    var h := v.hist;
    assert Front(h) == w.hist && Last(h) == Version(x.secret, x.how);
    UnseenAppend(w.hist, Last(h), a);
    TokenStep(h);
    if a == Live(Current(w)) && a != Live(x.secret) && a !in v.loose {
      if x.how.Swap? {
        assert Lists(x.secret.ledger.entries, ReplacedEntry(h).accessor);
      }
    } else if Tracks(Current(w), a) && !Tracks(x.secret, a) {
      var e :| e in Current(w).ledger.entries && e.accessor == a;
      EntryLeaves(h, e);
    }
  }

  lemma {:induction false} LandKeepsInv(w: World, x: Write)
    requires Inv(w) && CanLand(w, x)
    ensures Inv(Landed(w, x))
  {
    LandedHistory(w, x);
    LandedFlights(w, x);
    LandedFates(w, x);
    forall a | a in w.minted && a in w.valid
      ensures Accounted(Landed(w, x), a)
    {
      LandedAccounts(w, x, a);
    }
    hide Chain, LegalWrite, OldIds, Accounted, Timely;
  }

  // ---- Vault, the clock, and passes that end ----

  /** What becomes of the state when Vault issues an accessor: perhaps to a pass. */
  predicate Issues(w: World, r: World) {
    var n, v := |w.created|, Issuing(w);
    || r == v
    || r == v.(minted := v.minted + {n}, stray := v.stray + {n})
    || (n in r.held && r == v.(minted := v.minted + {n}, held := v.held[n := r.held[n]]))
  }

  lemma {:induction false} IssuingAccounts(w: World, r: World)
    requires Inv(w) && Issues(w, r)
    ensures MintsAreAccounted(r)
  {
    NewIdIsUnseen(w);
    hide Unseen, Chain, LegalWrite, OldIds, Timely;
    forall a | a in r.minted && a in r.valid
      ensures Accounted(r, a)
    {
      assert a != |w.created| ==> Accounted(w, a);
    }
  }

  lemma {:induction false} IssuingIds(w: World, r: World)
    requires Inv(w) && Issues(w, r)
    ensures IdsAreOld(r) && UnsentStayOut(r) && HeldAreNotStray(r)
  {
    NewIdIsUnseen(w);
    OldIdsGrow(w, r);
    hide Chain, LegalWrite, OldIds, Timely, Accounted, Unseen, Confirmed;
  }

  lemma {:induction false} IssuingFates(w: World, r: World)
    requires Inv(w) && Issues(w, r)
    ensures EveryTokenHasAFate(r) && DrainsAreConfirmed(r) && FlightsAreLegal(r)
  {
    hide Chain, LegalWrite, OldIds, Timely, Accounted, Unseen, UnsentStayOut, Retired;
  }

  lemma {:induction false} IssuingKeepsInv(w: World, r: World)
    requires Inv(w) && Issues(w, r)
    ensures Inv(r)
  {
    TimelyGrows(w, r);
    IssuingIds(w, r);
    IssuingFates(w, r);
    IssuingAccounts(w, r);
    hide Chain, FlightsAreLegal, IdsAreOld, UnsentStayOut, HeldAreNotStray, DrainsAreConfirmed, EveryTokenHasAFate;
    hide MintsAreAccounted, RotationsAreTimely;
  }

  lemma {:induction false} NewIdIsUnseen(w: World)
    requires IdsAreOld(w)
    ensures Unseen(w.hist, |w.created|)
    ensures forall x | x in w.inflight :: Live(x.secret) != |w.created|
    ensures forall i | 0 <= i < |w.hist| :: Live(w.hist[i].secret) != |w.created|
  {
  }

  lemma {:induction false} TimelyGrows(w: World, v: World)
    requires RotationsAreTimely(w) && w.created <= v.created && w.clock <= v.clock
    requires v.hist == w.hist && v.inflight == w.inflight
    ensures RotationsAreTimely(v)
  {
  }

  lemma {:induction false} OldIdsGrow(w: World, v: World)
    requires IdsAreOld(w) && w.created <= v.created && v.hist == w.hist && v.inflight == w.inflight
    ensures forall i | 0 <= i < |v.hist| :: OldIds(v.hist[i].secret, |v.created|)
    ensures forall x | x in v.inflight :: OldIds(x.secret, |v.created|)
  {
  }

  lemma {:induction false} LettingGoKeepsInv(w: World, dropped: set<Accessor>)
    requires Inv(w) && forall a | a in dropped :: a in w.held
    ensures Inv(w.(held := w.held - dropped, stray := w.stray + dropped))
  {
    hide Chain, LegalWrite, OldIds, Accounted, Timely;
    var v := w.(held := w.held - dropped, stray := w.stray + dropped);
    TimelyDependsOnCreated(w, v);
    AccountsMove(w, v);
  }

  lemma {:induction false} RevokeKeepsInv(w: World, a: Accessor, cause: Cause)
    requires Inv(w) && Issued(w, a) && MayRevoke(w, a, cause)
    ensures Inv(w.(valid := w.valid - {a}, revoked := w.revoked + {a}))
  {
    var v := w.(valid := w.valid - {a}, revoked := w.revoked + {a});
    if cause.DueIn? {
      var i := cause.version;
      var e :| e in w.hist[i].secret.ledger.entries && e.accessor == a && Due(e, w.clock);
      assert Cancels(e, a) && Retires(w.hist[i].secret, a);
    }
    assert a in w.stray || Retired(w.hist, a);
    hide Chain, LegalWrite, OldIds, Accounted, Timely;
    TimelyDependsOnCreated(w, v);
    AccountsMove(w, v);
  }

  lemma {:induction false} ExpireKeepsInv(w: World, a: Accessor)
    requires Inv(w) && a in w.valid
    ensures Inv(w.(valid := w.valid - {a}, expired := w.expired + {a}))
  {
    hide Chain, LegalWrite, OldIds, Accounted, Timely;
    var v := w.(valid := w.valid - {a}, expired := w.expired + {a});
    TimelyDependsOnCreated(w, v);
    AccountsMove(w, v);
  }

  lemma {:induction false} TickKeepsInv(w: World, elapsed: nat)
    requires Inv(w)
    ensures Inv(w.(clock := w.clock + elapsed))
  {
    hide Chain, LegalWrite, OldIds, Accounted, Timely;
    var v := w.(clock := w.clock + elapsed);
    TimelyDependsOnCreated(w, v);
    AccountsMove(w, v);
  }

  lemma {:induction false} LoseKeepsInv(w: World, x: Write)
    requires Inv(w)
    ensures Inv(w.(inflight := w.inflight - {x}))
  {
    hide Chain, LegalWrite, OldIds, Accounted, Timely;
    var v := w.(inflight := w.inflight - {x});
    TimelyDependsOnCreated(w, v);
    AccountsMove(w, v);
  }

  lemma {:induction false} StepKeepsInv(w: World, e: Event)
    requires Inv(w)
    ensures Inv(Apply(w, e))
  {
    assert |w.hist| > 0;
    hide Inv, CanSend, MayRevoke, Preconditioned, LegalWrite;
    if Enabled(w, e) {
      match e
      case Land(x) => LandKeepsInv(w, x);
      case Lose(x) => LoseKeepsInv(w, x);
      case Tick(d) => TickKeepsInv(w, d);
      case Expire(a) => ExpireKeepsInv(w, a);
      case Issue => IssuingKeepsInv(w, Effect(w, e));
      case Outside(x) => OutsideKeepsInv(w, x);
      case Mint(who) => IssuingKeepsInv(w, Effect(w, e));
      case MintUnseen(who) => IssuingKeepsInv(w, Effect(w, e));
      case GiveUp(_, a) => LettingGoKeepsInv(w, {a});
      case Crash(who) => LettingGoKeepsInv(w, HeldBy(w, who));
      case Send(who, x) => SendKeepsInv(w, who, x);
      case Revoke(_, a, cause, takes) => if takes { RevokeKeepsInv(w, a, cause); }
    }
  }

  /** The invariant holds in every state of every interleaving. */
  lemma {:induction false} RunKeepsInv(w: World, es: seq<Event>)
    requires Inv(w)
    ensures Inv(Run(w, es))
  {
    assert |w.hist| > 0;
    hide Inv;
    if es != [] {
      RunKeepsInv(w, es[..|es| - 1]);
      StepKeepsInv(Run(w, es[..|es| - 1]), es[|es| - 1]);
    }
  }
}
