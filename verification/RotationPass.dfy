/** One pass of the operator: what it does between looking the current token up
    and returning, call by call. Everything it relies on holds however the other
    passes and writers interleave with its calls. */
module RotationPass {
  import opened Wrappers
  import opened Records
  import opened RevokeLedger
  import opened SecretHistory
  import opened Protocol
  import opened ProtocolInvariant
  import opened Safety
  import opened ApiCalls
  import opened PassSteps
  import Backoff

  class RotationPass {
    const cluster: Cluster
    const tm: TokenManagement
    const token: Token
    const accessor: Accessor
    const now: Time

    var secret: Secret
    var rv: nat
    var ledger: seq<Entry>

    /** The pass's copy of the Secret is a version that really existed, and its
        ledger is that version's. */
    ghost predicate Mirrors(w: World)
      reads `secret, `rv, `ledger
    {
      && rv < |w.hist| && w.hist[rv].secret == secret && secret.ledger == Entries(ledger)
      && accessor == token.accessor && Issued(w, accessor) && now <= w.clock
    }

    constructor (cluster: Cluster, tm: TokenManagement, copy: Copy, now: Time)
      requires cluster.Valid() && copy.rv < |cluster.world.hist|
      requires cluster.world.hist[copy.rv].secret == copy.secret && copy.secret.ledger.Entries?
      requires Issued(cluster.world, Live(copy.secret)) && now <= cluster.world.clock
      ensures Mirrors(cluster.world) && this.cluster == cluster && this.tm == tm && this.now == now
      ensures secret == copy.secret && rv == copy.rv && token == copy.secret.token
    {
      this.cluster := cluster;
      this.tm := tm;
      this.token := copy.secret.token;
      this.accessor := copy.secret.token.accessor;
      this.now := now;
      this.secret := copy.secret;
      this.rv := copy.rv;
      this.ledger := copy.secret.ledger.entries;
    }

    /** Any later state keeps the pass's copy a version that existed. */
    lemma {:induction false} Onward(u: World, w: World)
      requires Ahead(u, w, cluster.me) && Ahead(w, cluster.world, cluster.me) && Mirrors(w)
      ensures Mirrors(cluster.world) && Ahead(u, cluster.world, cluster.me)
    {
      AheadTransitive(u, w, cluster.world, cluster.me);
      assert cluster.world.hist[rv] == w.hist[rv];
    }

    lemma {:induction false} FenceLanded(w: World, copy: Copy, fencing: Secret, minted: Accessor)
      requires cluster.Valid() && Inv(cluster.world) && Ahead(w, cluster.world, cluster.me)
      requires copy.rv < |w.hist| && w.hist[copy.rv].secret == copy.secret && Pending(copy.secret, minted)
      requires fencing == copy.secret.(fence := Some(now))
      requires copy.rv + 1 < |cluster.world.hist| && cluster.world.hist[copy.rv + 1] == Version(fencing, Touch)
      ensures Fenced(cluster.world, Copy(fencing, copy.rv + 1), minted, now) && NeverLands(cluster.world, minted)
    {
      assert cluster.world.hist[copy.rv] == w.hist[copy.rv];
      FencedNeverLands(cluster.world, Copy(fencing, copy.rv + 1), minted, now);
    }

    /** One attempt to settle whether a swap landed; none when the write only
        met a conflict. */
    method FenceOnce(swap: SwapId) returns (outcome: Option<FenceOutcome>, copy: Copy)
      requires cluster.Valid() && Mirrors(cluster.world)
      modifies cluster
      ensures cluster.Valid() && Inv(cluster.world) && Mirrors(cluster.world)
      ensures Ahead(old(cluster.world), cluster.world, cluster.me) && old(cluster.events) <= cluster.events
      ensures outcome == Some(NotLanded) ==>
        Fenced(cluster.world, copy, swap.minted, now) && NeverLands(cluster.world, swap.minted)
      ensures outcome == Some(HasLanded) ==> Cleared(cluster.world, copy, swap.minted)
      ensures outcome == Some(StillUnknown) ==> exists calls ::
        cluster.log == old(cluster.log) + calls && EndsInDoubt(calls)
      ensures OnlyUpkeep(old(cluster.log), cluster.log)
      ensures |old(cluster.log)| < |cluster.log| && cluster.log[|old(cluster.log)|].Read?
      ensures outcome.None? ==> cluster.log == old(cluster.log) + [Read(true), Wrote(Touch, Conflict)]
      ensures old(cluster.Calm() && Current(cluster.world).ledger.Entries?) ==>
        && cluster.Calm() && cluster.world.valid == old(cluster.world.valid)
        && cluster.world.clock == old(cluster.world.clock)
        && if Pending(old(Current(cluster.world)), swap.minted)
           then outcome == Some(NotLanded) && copy == FencedCopy(old(cluster.world), now)
             && cluster.world.hist == old(cluster.world.hist) + [Version(copy.secret, Touch)]
           else outcome == Some(HasLanded) && cluster.world.hist == old(cluster.world.hist)
      ensures BackoffsSent(cluster.world, old(cluster.sent), cluster.sent, None)
    {
      hide BackoffsSent, Inv, Later, Ahead, Fenced, NeverLands, Mirrors, Cluster.Valid, CanSend, EndsInDoubt;
      ghost var w, sent := cluster.world, cluster.sent;
      var read := cluster.Get();
      AheadItself(w, cluster.me);
      Onward(w, w);
      NothingSent(cluster.world, sent);
      if read.None? {
        DoubtfulEnd([Read(false)]);
        return Some(StillUnknown), Copy(secret, rv);
      }
      copy := read.value;
      if copy.secret.ledger.Unreadable? {
        DoubtfulEnd([Read(true)]);
        return Some(StillUnknown), copy;
      }
      if !HasUnresolvedMint(copy.secret.ledger.entries, swap) {
        return Some(HasLanded), copy;
      }
      var fencing := copy.secret.(fence := Some(now));
      ghost var v := cluster.world;
      TouchIsLegal(v, cluster.me, copy, fencing);
      var answer := cluster.Update(copy.rv, fencing, Touch);
      Onward(w, v);
      AheadIsLater(v, cluster.world, cluster.me);
      OneSent(v, cluster.world, sent, Write(copy.rv, fencing, Touch), None);
      if answer.Accepted? {
        FenceLanded(v, copy, fencing, swap.minted);
        return Some(NotLanded), Copy(fencing, copy.rv + 1);
      }
      if !answer.Conflict? {
        DoubtfulEnd([Read(true), Wrote(Touch, answer)]);
        return Some(StillUnknown), copy;
      }
      return None, copy;
    }

    /** Settle whether a swap landed: a write preconditioned on the version just
        read moves the Secret past the one the swap is preconditioned on. */
    method Fence(swap: SwapId) returns (outcome: FenceOutcome, copy: Copy)
      requires cluster.Valid() && Mirrors(cluster.world)
      modifies cluster
      ensures cluster.Valid() && Inv(cluster.world) && Mirrors(cluster.world)
      ensures Ahead(old(cluster.world), cluster.world, cluster.me) && old(cluster.events) <= cluster.events
      ensures OnlyUpkeep(old(cluster.log), cluster.log)
      ensures |old(cluster.log)| < |cluster.log| && cluster.log[|old(cluster.log)|].Read?
      ensures outcome.NotLanded? ==>
        Fenced(cluster.world, copy, swap.minted, now) && NeverLands(cluster.world, swap.minted)
      ensures outcome.HasLanded? ==> Cleared(cluster.world, copy, swap.minted)
      ensures outcome.StillUnknown? ==> exists calls ::
        cluster.log == old(cluster.log) + calls && (EndsInDoubt(calls) || OnlyConflicts(calls, 3))
      ensures old(cluster.Calm() && Current(cluster.world).ledger.Entries?) ==>
        && cluster.Calm() && cluster.world.valid == old(cluster.world.valid)
        && cluster.world.clock == old(cluster.world.clock)
        && if Pending(old(Current(cluster.world)), swap.minted)
           then outcome.NotLanded? && copy == FencedCopy(old(cluster.world), now)
             && cluster.world.hist == old(cluster.world.hist) + [Version(copy.secret, Touch)]
           else outcome.HasLanded? && cluster.world.hist == old(cluster.world.hist)
      ensures BackoffsSent(cluster.world, old(cluster.sent), cluster.sent, None)
    {
      hide BackoffsSent, Inv, Later, Ahead, Fenced, NeverLands, Cluster.Valid, Cleared, Pending;
      AheadItself(cluster.world, cluster.me);
      NothingSent(cluster.world, cluster.sent);
      copy := Copy(secret, rv);
      ghost var calls: seq<Call> := [];
      for attempt := 0 to FENCE_ATTEMPTS
        invariant cluster.Valid() && Mirrors(cluster.world) && (attempt > 0 ==> Inv(cluster.world))
        invariant Ahead(old(cluster.world), cluster.world, cluster.me)
        invariant old(cluster.events) <= cluster.events && cluster.log == old(cluster.log) + calls
        invariant BackoffsSent(cluster.world, old(cluster.sent), cluster.sent, None)
        invariant OnlyConflicts(calls, attempt) && OnlyUpkeep(old(cluster.log), cluster.log)
        invariant attempt > 0 ==> |old(cluster.log)| < |cluster.log| && cluster.log[|old(cluster.log)|].Read?
        invariant old(cluster.Calm() && Current(cluster.world).ledger.Entries?) ==>
          attempt == 0 && cluster.Calm() && cluster.world == old(cluster.world)
      {
        ghost var w, log, sent := cluster.world, cluster.log, cluster.sent;
        var settled, c := FenceOnce(swap);
        copy := c;
        AheadTransitive(old(cluster.world), w, cluster.world, cluster.me);
        AheadIsLater(w, cluster.world, cluster.me);
        SentThen(w, cluster.world, old(cluster.sent), sent, cluster.sent, None);
        if settled.Some? {
          if settled == Some(StillUnknown) {
            ghost var last :| cluster.log == log + last && EndsInDoubt(last);
            DoubtAfter(calls, last);
            assert cluster.log == old(cluster.log) + (calls + last);
          }
          return settled.value, copy;
        }
        calls := calls + [Read(true), Wrote(Touch, Conflict)];
      }
      return StillUnknown, copy;
    }

    /** Settle one swap. If it never landed, its minted token is scheduled for
        now, and the token it would have replaced leaves the ledger only if it is
        still the live one. */
    method ResolveSwap(swap: SwapId) returns (stop: bool)
      requires cluster.Valid() && Mirrors(cluster.world) && secret.token == token
      modifies this, cluster
      ensures cluster.Valid() && Inv(cluster.world) && Mirrors(cluster.world) && secret.token == token
      ensures Ahead(old(cluster.world), cluster.world, cluster.me) && old(cluster.events) <= cluster.events
      ensures OnlyUpkeep(old(cluster.log), cluster.log)
      ensures |old(cluster.log)| < |cluster.log| && cluster.log[|old(cluster.log)|].Read?
      ensures stop ==> secret == old(secret) && rv == old(rv) && ledger == old(ledger)
      ensures !stop ==> AllScheduled(ledger) && SettledFrom(cluster.world, rv, secret, swap.minted, now, accessor)
      ensures old(cluster.Calm() && rv + 1 == |cluster.world.hist| && Pending(secret, swap.minted)) ==>
        && !stop && cluster.Calm() && |cluster.world.hist| == |old(cluster.world.hist)| + 2
        && rv + 1 == |cluster.world.hist|
        && cluster.world.hist[|old(cluster.world.hist)|].secret == old(secret).(fence := Some(now))
        && cluster.world.valid == old(cluster.world.valid) && cluster.world.clock == old(cluster.world.clock)
      ensures BackoffsSent(cluster.world, old(cluster.sent), cluster.sent, None)
    {
      hide BackoffsSent, Inv, Later, Ahead, Fenced, NeverLands, Cluster.Valid, CanSend, SettledFrom, Cleared;
      hide OnlyConflicts, EndsInDoubt;
      ghost var w := cluster.world;
      var outcome, copy := Fence(swap);
      if outcome != NotLanded || copy.secret.token != token || copy.secret.ledger.Unreadable? {
        return true;
      }
      ghost var v, sent := cluster.world, cluster.sent;
      SettleIsLegal(v, cluster.me, copy, swap.minted, now);
      var kept := SettleEntries(copy.secret.ledger.entries, swap, now, accessor);
      var settled := copy.secret.(ledger := Entries(kept));
      var answer := cluster.Update(copy.rv, settled, Settle(swap.minted, now));
      Onward(w, v);
      AheadIsLater(v, cluster.world, cluster.me);
      FencedCopyIsThere(v, copy, swap.minted, now);
      OneSent(v, cluster.world, sent, Write(copy.rv, settled, Settle(swap.minted, now)), None);
      SentThen(v, cluster.world, old(cluster.sent), sent, cluster.sent, None);
      if !answer.Accepted? {
        return true;
      }
      SettledFromFence(v, cluster.world, cluster.me, copy, swap.minted, now, settled);
      secret, rv, ledger := settled, copy.rv + 1, kept;
      return false;
    }

    /** Fence every minted token whose swap has an unknown outcome. */
    method ResolveUnresolved() returns (stop: bool)
      requires cluster.Valid() && Mirrors(cluster.world) && secret.token == token
      modifies this, cluster
      ensures cluster.Valid() && Inv(cluster.world) && Mirrors(cluster.world) && secret.token == token
      ensures Ahead(old(cluster.world), cluster.world, cluster.me) && old(cluster.events) <= cluster.events
      ensures !stop ==> AllScheduled(ledger)
      ensures OnlyUpkeep(old(cluster.log), cluster.log)
      ensures old(AllScheduled(ledger)) ==>
        !stop && cluster.log == old(cluster.log) && cluster.world == old(cluster.world) && secret == old(secret)
      ensures stop ==> secret == old(secret) && rv == old(rv)
      ensures !stop && !old(AllScheduled(ledger)) ==>
        exists m :: Pending(old(secret), m) && SettledFrom(cluster.world, rv, secret, m, now, accessor)
      ensures old(cluster.Calm() && rv + 1 == |cluster.world.hist|) ==>
        && !stop && cluster.Calm() && rv + 1 == |cluster.world.hist|
        && OldOrDue(ledger, old(ledger), now) && ListsAllBut(ledger, old(ledger), accessor)
        && secret == old(secret).(ledger := Entries(ledger),
             fence := if old(AllScheduled(ledger)) then old(secret).fence else Some(now))
        && cluster.world.valid == old(cluster.world.valid) && cluster.world.clock == old(cluster.world.clock)
      ensures BackoffsSent(cluster.world, old(cluster.sent), cluster.sent, None)
    {
      hide BackoffsSent, Inv, Later, Ahead, Fenced, NeverLands, Cluster.Valid, CanSend, SettledFrom, Cleared;
      hide OnlyConflicts, EndsInDoubt;
      cluster.Reachable();
      VersionShape(cluster.world, rv);
      AtMostOneSwap(ledger);
      AheadItself(cluster.world, cluster.me);
      NothingSent(cluster.world, cluster.sent);
      var swaps := UnresolvedSwaps(ledger);
      if swaps == [] {
        return false;
      }
      assert |swaps| == 1;
      for i := 0 to |swaps|
        invariant i == 0 ==> cluster.world == old(cluster.world) && secret == old(secret) && rv == old(rv)
        invariant i == 0 ==> cluster.Calm() == old(cluster.Calm()) && ledger == old(ledger)
        invariant cluster.Valid() && Inv(cluster.world) && Mirrors(cluster.world) && secret.token == token
        invariant Ahead(old(cluster.world), cluster.world, cluster.me) && old(cluster.events) <= cluster.events
        invariant OnlyUpkeep(old(cluster.log), cluster.log)
        invariant i == 0 ==> cluster.sent == old(cluster.sent)
        invariant BackoffsSent(cluster.world, old(cluster.sent), cluster.sent, None)
        invariant i == 1 ==>
          AllScheduled(ledger) && SettledFrom(cluster.world, rv, secret, swaps[0].minted, now, accessor)
        invariant i == 1 && old(cluster.Calm() && rv + 1 == |cluster.world.hist|) ==>
          && cluster.Calm() && rv + 1 == |cluster.world.hist|
          && OldOrDue(ledger, old(ledger), now) && ListsAllBut(ledger, old(ledger), accessor)
          && secret == old(secret).(ledger := Entries(ledger), fence := Some(now))
          && cluster.world.valid == old(cluster.world.valid) && cluster.world.clock == old(cluster.world.clock)
      {
        stop := ResolveSwap(swaps[i]);
        if stop {
          return true;
        }
        if old(cluster.Calm() && rv + 1 == |cluster.world.hist|) {
          SettledLeavesOldOrDue(cluster.world, rv, secret, swaps[i].minted, now, accessor, old(secret));
        }
      }
      return false;
    }

    lemma {:induction false} LedgerIsShaped()
      requires Inv(cluster.world) && Mirrors(cluster.world) && secret.token == token
      ensures WellShaped(ledger, accessor) && secret.ledger == Entries(ledger)
    {
      VersionShape(cluster.world, rv);
    }

    /** In a pass whose ledger is settled no entry is the live token's: the branch
        that skips one is never taken. */
    lemma {:induction false} NothingScheduledIsLive()
      requires Inv(cluster.world) && Mirrors(cluster.world) && secret.token == token && AllScheduled(ledger)
      ensures !Lists(ledger, accessor)
    {
      LedgerIsShaped();
      SettledLedgerOmitsLive(ledger, accessor);
    }

    /** Nor can a swap in flight, of any pass, land on the version it holds. */
    lemma {:induction false} NoSwapIsPending(x: Write)
      requires Inv(cluster.world) && Mirrors(cluster.world) && AllScheduled(ledger)
      requires x in cluster.world.inflight && x.pre == rv
      ensures x.how.Install? || x.secret.token == secret.token
    {
      assert Preconditioned(cluster.world, x);
      if x.how.Swap? {
        NoSwapMeetsASettledVersion(cluster.world, x);
      }
    }

    /** What a due entry of the pass's version lets it ask of Vault. */
    lemma {:induction false} DueMayBeRevoked(e: Entry)
      requires Inv(cluster.world) && Mirrors(cluster.world) && secret.token == token
      requires e in ledger && Due(e, now) && e.accessor != accessor
      ensures Issued(cluster.world, e.accessor) && MayRevoke(cluster.world, e.accessor, DueIn(rv))
    {
      assert OldIds(cluster.world.hist[rv].secret, |cluster.world.created|);
    }

    /** Ask Vault to revoke one due entry's accessor. */
    method RevokeEntry(e: Entry, ghost gone: set<Accessor>) returns (confirmed: bool)
      requires cluster.Valid() && Inv(cluster.world) && Mirrors(cluster.world) && secret.token == token
      requires e in ledger && Due(e, now) && e.accessor != accessor && AllGone(cluster.world, gone)
      modifies cluster
      ensures cluster.Valid() && Inv(cluster.world) && Mirrors(cluster.world)
      ensures Ahead(old(cluster.world), cluster.world, cluster.me) && old(cluster.events) <= cluster.events
      ensures AllGone(cluster.world, if confirmed then gone + {e.accessor} else gone)
      ensures exists more :: cluster.log == old(cluster.log) + more && AsksFor(more, e.accessor)
      ensures old(cluster.Calm() && accessor in cluster.world.valid) ==>
        && cluster.Calm() && cluster.world.hist == old(cluster.world.hist)
        && cluster.world.clock == old(cluster.world.clock) && accessor in cluster.world.valid && confirmed
        && cluster.world.valid == old(cluster.world.valid) - {e.accessor}
      ensures cluster.sent == old(cluster.sent)
    {
      hide Inv, Later, Ahead, Cluster.Valid, MayRevoke, AllGone, Mirrors;
      ghost var w, log := cluster.world, cluster.log;
      DueMayBeRevoked(e);
      confirmed := cluster.RevokeAndVerify(accessor, e.accessor, DueIn(rv));
      AheadItself(w, cluster.me);
      Onward(w, w);
      StillGone(w, cluster.world, cluster.me, gone);
      if confirmed {
        OneMoreGone(w, cluster.world, cluster.me, gone, e.accessor);
      }
      assert AsksFor([AskedToRevoke(e.accessor)], e.accessor);
      assert AsksFor([AskedToRevoke(e.accessor), Verified(e.accessor, confirmed)], e.accessor);
    }

    /** Revoke every due entry of the ledger but the live accessor's, in ledger
        order, and keep those Vault does not confirm. */
    method RevokeEntries(entries: seq<Entry>) returns (kept: seq<Entry>, gone: set<Accessor>)
      requires cluster.Valid() && Inv(cluster.world) && Mirrors(cluster.world) && secret.token == token
      requires NoDuplicates(entries) && forall e | e in entries :: e in ledger
      modifies cluster
      ensures cluster.Valid() && Inv(cluster.world) && Mirrors(cluster.world)
      ensures Ahead(old(cluster.world), cluster.world, cluster.me) && old(cluster.events) <= cluster.events
      ensures kept == Sift(entries, DropGone(gone, accessor, now)) && AllGone(cluster.world, gone)
      ensures exists calls ::
        && cluster.log == old(cluster.log) + calls
        && OnlyRevokes(calls) && Asked(calls) == DueAccessors(entries, now, accessor)
      ensures old(cluster.Calm() && accessor in cluster.world.valid) ==>
        && cluster.Calm() && cluster.world.hist == old(cluster.world.hist)
        && cluster.world.clock == old(cluster.world.clock) && accessor in cluster.world.valid
        && DueAreGone(entries, gone, accessor, now)
      ensures cluster.sent == old(cluster.sent)
      ensures forall a | a in gone :: exists e | e in entries :: e.accessor == a && Due(e, now) && a != accessor
      ensures old(cluster.Calm() && accessor in cluster.world.valid) ==>
        cluster.world.valid == old(cluster.world.valid) - gone
      // Without a due entry Vault is not asked anything.
      ensures (forall e | e in entries :: e.accessor == accessor || e.state.Unresolved? || now < e.notBefore) ==>
        && cluster.world == old(cluster.world) && cluster.log == old(cluster.log) && gone == {}
        && cluster.Calm() == old(cluster.Calm())
    {
      hide Inv, Later, Ahead, Cluster.Valid, Mirrors, AllGone, Sift, NoDuplicates, AmongFirst, AsksFor, Asked;
      hide OnlyRevokes, GoneWereDue, NothingDue, DueAccessors, Issued;
      ghost var calls: seq<Call> := [];
      AheadItself(cluster.world, cluster.me);
      kept, gone := [], {};
      NothingYet(cluster.world, entries, accessor, now);
      NoneGone(entries, accessor, now);
      for i := 0 to |entries|
        invariant cluster.Valid() && Inv(cluster.world) && Mirrors(cluster.world)
        invariant Ahead(old(cluster.world), cluster.world, cluster.me) && old(cluster.events) <= cluster.events
        invariant kept == Sift(entries[..i], DropGone(gone, accessor, now)) && AllGone(cluster.world, gone)
        invariant AmongFirst(entries, i, gone) && cluster.sent == old(cluster.sent)
        invariant GoneWereDue(entries, gone, accessor, now)
        invariant old(cluster.Calm() && accessor in cluster.world.valid) ==>
          cluster.world.valid == old(cluster.world.valid) - gone
        invariant NothingDue(entries, accessor, now) ==>
          && cluster.world == old(cluster.world) && cluster.log == old(cluster.log) && gone == {}
          && cluster.Calm() == old(cluster.Calm())
        invariant cluster.log == old(cluster.log) + calls
        invariant OnlyRevokes(calls) && Asked(calls) == DueAccessors(entries[..i], now, accessor)
        invariant old(cluster.Calm() && accessor in cluster.world.valid) ==>
          && cluster.Calm() && cluster.world.hist == old(cluster.world.hist)
          && cluster.world.clock == old(cluster.world.clock) && accessor in cluster.world.valid
          && DueAreGone(entries[..i], gone, accessor, now)
      {
        var e := entries[i];
        assert entries[..i + 1] == entries[..i] + [e];
        DueExtend(entries[..i], e, now, accessor);
        SiftExtend(entries[..i], e, DropGone(gone, accessor, now));
        NotYetGone(entries, i, gone);
        if e.state != Scheduled || now < e.notBefore {
          kept := kept + [e];
          continue;
        }
        if e.accessor == accessor {
          continue;
        }
        DueEntry(entries, e, accessor, now);
        ghost var w, log := cluster.world, cluster.log;
        var confirmed := RevokeEntry(e, gone);
        AheadTransitive(old(cluster.world), w, cluster.world, cluster.me);
        ghost var more :| cluster.log == log + more && AsksFor(more, e.accessor);
        AskedOnce(calls, e.accessor, more);
        calls := calls + more;
        if !confirmed {
          kept := kept + [e];
          continue;
        }
        ConfirmOneMore(entries, i, gone, accessor, now);
        SiftExtend(entries[..i], e, DropGone(gone + {e.accessor}, accessor, now));
        OneMoreWasDue(entries, gone, e, accessor, now);
        gone := gone + {e.accessor};
      }
      assert entries[..|entries|] == entries;
      WhatWasDone(entries, gone, accessor, now);
    }

    /** Record a drain in one write; if that fails, what was revoked is found
        gone again next time. */
    method RecordDrain(kept: seq<Entry>, gone: set<Accessor>)
      requires cluster.Valid() && Inv(cluster.world) && Mirrors(cluster.world) && secret.token == token
      requires AllScheduled(ledger) && AllGone(cluster.world, gone)
      requires kept == Sift(Cancelled(ledger, secret.cancelRevoke), DropGone(gone, accessor, now))
      modifies this, cluster
      ensures cluster.Valid() && Inv(cluster.world) && Mirrors(cluster.world) && secret.token == token
      ensures Ahead(old(cluster.world), cluster.world, cluster.me) && old(cluster.events) <= cluster.events
      ensures AllScheduled(ledger)
      ensures exists answer ::
        cluster.log == old(cluster.log) + [Wrote(Drain(old(secret.cancelRevoke), gone, now), answer)]
      ensures (secret == old(secret) && rv == old(rv) && ledger == old(ledger))
           || (rv == old(rv) + 1 && DrainedFrom(cluster.world, rv, secret, old(secret), tm, now))
      ensures old(cluster.Calm() && rv + 1 == |cluster.world.hist|) ==>
        && cluster.Calm() && rv + 1 == |cluster.world.hist|
        && cluster.world.clock == old(cluster.world.clock) && cluster.world.valid == old(cluster.world.valid)
        && ledger == kept && secret == Tidied(old(secret), tm, kept)
      ensures BackoffsSent(cluster.world, old(cluster.sent), cluster.sent, None)
    {
      hide BackoffsSent, Inv, Later, Ahead, Cluster.Valid, DrainedFrom, CanSend, Sift, Cancelled, AllGone;
      ghost var w := cluster.world;
      var drained := Tidied(secret, tm, kept);
      DrainIsLegal(w, cluster.me, rv, drained, gone, tm, now);
      var answer := cluster.Update(rv, drained, Drain(secret.cancelRevoke, gone, now));
      AheadItself(w, cluster.me);
      Onward(w, w);
      AheadIsLater(w, cluster.world, cluster.me);
      OneSent(w, cluster.world, old(cluster.sent), Write(rv, drained, Drain(secret.cancelRevoke, gone, now)), None);
      if answer.Accepted? {
        DrainLeaves(cluster.world, rv, drained, secret, gone, tm, now);
        secret, rv, ledger := drained, rv + 1, kept;
      }
    }

    /** Serve a cancel request, revoke what is due and keep the annotations
        truthful, in one write. */
    method RevokeDue()
      requires cluster.Valid() && Inv(cluster.world) && Mirrors(cluster.world) && secret.token == token
      requires AllScheduled(ledger)
      modifies this, cluster
      ensures cluster.Valid() && Inv(cluster.world) && Mirrors(cluster.world) && secret.token == token
      ensures Ahead(old(cluster.world), cluster.world, cluster.me) && old(cluster.events) <= cluster.events
      ensures AllScheduled(ledger)
      ensures (secret == old(secret) && rv == old(rv))
           || (rv == old(rv) + 1 && DrainedFrom(cluster.world, rv, secret, old(secret), tm, now))
      ensures DrainCalls(old(cluster.log), cluster.log,
        DueAccessors(Cancelled(old(ledger), old(secret.cancelRevoke)), now, accessor), old(secret.cancelRevoke), now)
      ensures old(cluster.Calm() && rv + 1 == |cluster.world.hist| && accessor in cluster.world.valid) ==>
        && cluster.Calm() && rv + 1 == |cluster.world.hist| && accessor in cluster.world.valid
        && cluster.world.clock == old(cluster.world.clock)
        && (forall e | e in ledger :: e in old(ledger) && !Due(e, now))
        && secret == Tidied(old(secret), tm, ledger)
        && (forall e | e in Cancelled(old(ledger), old(secret.cancelRevoke)) && Due(e, now) && e.accessor != accessor ::
              e.accessor !in cluster.world.valid)
      ensures BackoffsSent(cluster.world, old(cluster.sent), cluster.sent, None)
      ensures old(cluster.Calm() && rv + 1 == |cluster.world.hist| && accessor in cluster.world.valid) ==>
        forall a | a in old(cluster.world.valid) && a !in cluster.world.valid ::
          a != accessor && old(secret.cancelRevoke) != Some(a)
          && exists e | e in old(ledger) :: e.accessor == a && Due(e, now)
      // It writes nothing when nothing is cancelled or due and the annotations are true already.
      ensures old(secret.cancelRevoke).None? && (forall e | e in old(ledger) :: now < e.notBefore)
              && old(secret.autoRotate) == (if tm.autoRotate then Some(tm.rotationPeriod) else None) ==>
        && cluster.world == old(cluster.world) && cluster.log == old(cluster.log) && cluster.sent == old(cluster.sent)
        && secret == old(secret) && rv == old(rv) && ledger == old(ledger)
    {
      hide BackoffsSent, Inv, Later, Ahead, Cluster.Valid, Mirrors, DrainedFrom, CanSend, Sift, NoDuplicates;
      hide Asked, DueAccessors, AllGone, OnlyRevokes, DueAreGone;
      ghost var w := cluster.world;
      LedgerIsShaped();
      var cancel := secret.cancelRevoke;
      var changed := cancel.Some?;
      var entries := ledger;
      if cancel.Some? {
        entries := DropCancelled(ledger, cancel.value);
      }
      CancelledKeepsDistinct(ledger, cancel);
      CancelledIsNotLeft(ledger, cancel);
      var kept, gone := RevokeEntries(entries);
      WhatIsKept(cluster.world, entries, gone, accessor, now);
      changed := changed || |kept| < |entries| || secret.autoRotate != Tidied(secret, tm, kept).autoRotate;
      NothingSent(cluster.world, cluster.sent);
      if !changed {
        return;
      }
      ghost var v := cluster.world;
      RecordDrain(kept, gone);
      AheadTransitive(w, v, cluster.world, cluster.me);
    }

    /** Any later state keeps the pass's copy a version that existed. */
    lemma {:induction false} StillMirrors(w: World)
      requires Later(w, cluster.world) && Mirrors(w)
      ensures Mirrors(cluster.world)
    {
      assert cluster.world.hist[rv] == w.hist[rv];
    }

    /** Mint a replacement and check that Vault accepts it. */
    method MintToken() returns (minted: Option<Accessor>, accepted: bool)
      requires cluster.Valid() && Mirrors(cluster.world)
      modifies cluster
      ensures cluster.Valid() && Inv(cluster.world) && Mirrors(cluster.world)
      ensures Ahead(old(cluster.world), cluster.world, cluster.me) && old(cluster.events) <= cluster.events
      ensures minted.None? ==> !accepted && cluster.log == old(cluster.log) + [AskedToMint(None)]
      ensures minted.Some? ==>
        && FreshMint(cluster.world, cluster.me, rv, now, minted.value)
        && |old(cluster.world.created)| <= minted.value
        && cluster.log == old(cluster.log) + [AskedToMint(minted), LookedUp(Token(minted.value), accepted)]
      ensures old(cluster.Calm() && accessor in cluster.world.valid) ==>
        && cluster.Calm() && minted.Some? && accepted && cluster.world.hist == old(cluster.world.hist)
        && cluster.world.valid == old(cluster.world.valid) + {minted.value}
        && cluster.world.clock == old(cluster.world.clock)
      ensures old(cluster.Calm() && accessor !in cluster.world.valid) ==>
        minted.None? && cluster.Calm() && cluster.world.hist == old(cluster.world.hist)
      ensures cluster.sent == old(cluster.sent)
    {
      hide Inv, Later, Ahead, Cluster.Valid, FreshMint, Unseen;
      ghost var w := cluster.world;
      minted := cluster.CreateToken(accessor);
      accepted := false;
      AheadItself(w, cluster.me);
      Onward(w, w);
      if minted.Some? {
        ghost var v := cluster.world;
        MintIsFresh(w, v, cluster.me, rv, now, minted.value);
        var created := cluster.LookupSelf(Token(minted.value));
        accepted := created.Some?;
        FreshLater(v, cluster.world, cluster.me, rv, now, minted.value);
        Onward(w, v);
      }
    }

    /** Give up a mint whose swap was not sent, and ask Vault to revoke it. */
    method GiveUpMint(m: Accessor)
      requires cluster.Valid() && Mirrors(cluster.world)
      requires m in cluster.world.held && cluster.world.held[m] == cluster.me
      modifies cluster
      ensures cluster.Valid() && Inv(cluster.world) && Mirrors(cluster.world)
      ensures Later(old(cluster.world), cluster.world) && old(cluster.events) <= cluster.events
      ensures m in cluster.world.stray
      ensures exists more :: cluster.log == old(cluster.log) + more && AsksFor(more, m)
      ensures cluster.sent == old(cluster.sent)
    {
      hide Inv, Cluster.Valid, MayRevoke, Mirrors;
      ghost var w := cluster.world;
      cluster.Abandon(m);
      ghost var v := cluster.world;
      var confirmed := cluster.RevokeAndVerify(accessor, m, GivenUp);
      LaterTransitive(w, v, cluster.world);
      StillMirrors(w);
      assert AsksFor([AskedToRevoke(m)], m);
      assert AsksFor([AskedToRevoke(m), Verified(m, confirmed)], m);
    }

    /** Write both tokens of the rotation into the ledger. */
    method RecordMint(m: Accessor, notBefore: Time, reason: Reason, stamp: Stamp) returns (answer: Answer)
      requires cluster.Valid() && Inv(cluster.world) && Mirrors(cluster.world) && secret.token == token
      requires AllScheduled(ledger) && |ledger| < LEDGER_FULL && DecidedBy(stamp, notBefore, reason)
      requires FreshMint(cluster.world, cluster.me, rv, now, m)
      requires OldEnough(cluster.world, accessor, stamp) && stamp.now == now
      modifies this, cluster
      ensures cluster.Valid() && Inv(cluster.world) && Mirrors(cluster.world) && secret.token == token
      ensures Ahead(old(cluster.world), cluster.world, cluster.me) && old(cluster.events) <= cluster.events
      ensures cluster.log == old(cluster.log) + [Wrote(Record(m, notBefore, reason, stamp), answer)]
      ensures m in cluster.world.held && cluster.world.held[m] == cluster.me
      ensures answer.Accepted? ==>
        && rv == old(rv) + 1 && RecordedFrom(cluster.world, rv, old(secret), secret, m, notBefore, reason, stamp)
        && secret == old(secret).(ledger := Entries(old(ledger)
             + [Entry(m, 0, UnresolvedMint, Unresolved, SwapId(m)),
                Entry(accessor, notBefore, reason, Scheduled, SwapId(m))]))
      ensures !answer.Accepted? ==> secret == old(secret) && rv == old(rv) && ledger == old(ledger)
      ensures old(cluster.Calm() && rv + 1 == |cluster.world.hist|) ==>
        && cluster.Calm() && answer.Accepted? && rv + 1 == |cluster.world.hist|
        && cluster.world.valid == old(cluster.world.valid) && cluster.world.clock == old(cluster.world.clock)
      ensures BackoffsSent(cluster.world, old(cluster.sent), cluster.sent, None)
    {
      hide BackoffsSent, Inv, Later, Cluster.Valid, CanSend, Unseen, OldEnough;
      ghost var w := cluster.world;
      var recorded := Recorded(ledger, m, accessor, notBefore, reason);
      var withLedger := secret.(ledger := Entries(recorded));
      RecordIsLegal(w, cluster.me, rv, secret, m, notBefore, reason, stamp);
      answer := cluster.Update(rv, withLedger, Record(m, notBefore, reason, stamp));
      AheadItself(w, cluster.me);
      Onward(w, w);
      AheadIsLater(w, cluster.world, cluster.me);
      OneSent(w, cluster.world, old(cluster.sent), Write(rv, withLedger, Record(m, notBefore, reason, stamp)), None);
      if answer.Accepted? {
        secret, rv, ledger := withLedger, rv + 1, recorded;
      }
    }

    /** Swap the Secret, preconditioned on the version that recorded the mint. */
    method SendSwap(ghost before: Secret, m: Accessor, ghost notBefore: Time, ghost reason: Reason, stamp: Stamp)
      returns (answer: Answer)
      requires cluster.Valid() && Inv(cluster.world) && Mirrors(cluster.world)
      requires RecordedFrom(cluster.world, rv, before, secret, m, notBefore, reason, stamp) && !reason.UnresolvedMint?
      requires m in cluster.world.held && cluster.world.held[m] == cluster.me
      modifies this, cluster
      ensures cluster.Valid() && Inv(cluster.world) && Mirrors(cluster.world)
      ensures Later(old(cluster.world), cluster.world) && old(cluster.events) <= cluster.events
      ensures cluster.log == old(cluster.log) + [Wrote(Swap(m, stamp), answer)]
      ensures answer.Accepted? ==>
        rv == old(rv) + 1 && RotatedFrom(cluster.world, rv, before, secret, m, notBefore, reason, stamp)
      ensures !answer.Accepted? ==>
        secret == old(secret) && rv == old(rv) && ledger == old(ledger) && Tracks(secret, m)
      ensures old(cluster.Calm() && rv + 1 == |cluster.world.hist|) ==>
        && cluster.Calm() && answer.Accepted? && rv + 1 == |cluster.world.hist|
        && cluster.world.valid == old(cluster.world.valid) && cluster.world.clock == old(cluster.world.clock)
      ensures BackoffsSent(cluster.world, old(cluster.sent), cluster.sent, None)
    {
      hide BackoffsSent, Inv, Later, Cluster.Valid, CanSend, Tracks, HasUnresolvedMint, Recorded, Sift;
      ghost var w := cluster.world;
      SwapIsLegal(w, cluster.me, rv, before, secret, m, notBefore, reason, stamp);
      var installed := InstalledEntries(ledger, SwapId(m));
      var swapped := Swapped(secret, m, installed);
      answer := cluster.Update(rv, swapped, Swap(m, stamp));
      StillMirrors(w);
      OneSent(w, cluster.world, old(cluster.sent), Write(rv, swapped, Swap(m, stamp)), None);
      RecordedLater(w, cluster.world, rv, before, secret, m, notBefore, reason, stamp);
      if answer.Accepted? {
        secret, rv, ledger := swapped, rv + 1, installed;
      }
    }

    /** Record the backoff on the Secret, unless another token is in it by now. */
    method PersistBackoff(until: Time)
      requires cluster.Valid() && Mirrors(cluster.world)
      modifies cluster
      ensures cluster.Valid() && Inv(cluster.world) && Mirrors(cluster.world)
      ensures Ahead(old(cluster.world), cluster.world, cluster.me) && old(cluster.events) <= cluster.events
      ensures OnlyUpkeep(old(cluster.log), cluster.log) && BacksOff(old(cluster.log), cluster.log)
      // Nothing is sent only if the read failed or found another token.
      ensures cluster.sent == old(cluster.sent) ==>
        || cluster.log == old(cluster.log) + [Read(false)]
        || (cluster.log == old(cluster.log) + [Read(true)]
            && exists v | v in cluster.world.hist :: v.secret.token != token)
      ensures cluster.sent != old(cluster.sent) ==>
        exists i | 0 <= i < |cluster.world.hist| && cluster.world.hist[i].secret.token == token ::
          cluster.sent == old(cluster.sent)
            + [Write(i, cluster.world.hist[i].secret.(backoff := Some(TruncateToSecond(until))), Touch)]
      ensures BackoffsSent(cluster.world, old(cluster.sent), cluster.sent, Some(until))
      ensures EndsBackedOff(cluster.world, cluster.log, cluster.sent, token, until)
      ensures old(cluster.Calm() && Current(cluster.world).token == token) ==>
        Current(cluster.world) == old(Current(cluster.world)).(backoff := Some(TruncateToSecond(until)))
      ensures old(cluster.Calm() && Current(cluster.world).token != token) ==> cluster.world == old(cluster.world)
    {
      hide BackoffsSent, Inv, Later, Ahead, Mirrors, Cluster.Valid, CanSend;
      ghost var w, sent := cluster.world, cluster.sent;
      var read := cluster.Get();
      AheadItself(w, cluster.me);
      Onward(w, w);
      NothingSent(cluster.world, sent);
      if read.None? {
        return;
      }
      if read.value.secret.token != token {
        assert cluster.world.hist[read.value.rv] in cluster.world.hist;
        return;
      }
      var backedOff := read.value.secret.(backoff := Some(TruncateToSecond(until)));
      ghost var v := cluster.world;
      TouchIsLegal(v, cluster.me, read.value, backedOff);
      var answer := cluster.Update(read.value.rv, backedOff, Touch);
      Onward(w, v);
      AheadIsLater(v, cluster.world, cluster.me);
      VersionStays(v, cluster.world, read.value.rv);
      OneSent(v, cluster.world, sent, Write(read.value.rv, backedOff, Touch), Some(until));
    }

    /** Start or extend the backoff, in memory and on the Secret. */
    method Fail(backoffs: Backoff.Backoffs, key: string)
      requires cluster.Valid() && Mirrors(cluster.world)
      modifies cluster, backoffs
      ensures cluster.Valid() && Inv(cluster.world) && Mirrors(cluster.world)
      ensures Ahead(old(cluster.world), cluster.world, cluster.me) && old(cluster.events) <= cluster.events
      ensures OnlyUpkeep(old(cluster.log), cluster.log) && BacksOff(old(cluster.log), cluster.log)
      ensures backoffs.states == old(backoffs.states)[key := Backoff.AfterFailure(old(backoffs.StateOf(key)), now)]
      ensures BackoffsSent(cluster.world, old(cluster.sent), cluster.sent, Some(backoffs.states[key].until))
      ensures EndsBackedOff(cluster.world, cluster.log, cluster.sent, token, backoffs.states[key].until)
      ensures cluster.sent == old(cluster.sent) ==>
        || cluster.log == old(cluster.log) + [Read(false)]
        || (cluster.log == old(cluster.log) + [Read(true)]
            && exists v | v in cluster.world.hist :: v.secret.token != token)
      ensures cluster.sent != old(cluster.sent) ==>
        exists i | 0 <= i < |cluster.world.hist| && cluster.world.hist[i].secret.token == token ::
          cluster.sent == old(cluster.sent)
            + [Write(i, cluster.world.hist[i].secret.(backoff := Some(TruncateToSecond(backoffs.states[key].until))),
                     Touch)]
      ensures |cluster.world.hist| > 0
      ensures old(cluster.Calm() && |cluster.world.hist| > 0 && Current(cluster.world).token == token) ==>
        Current(cluster.world)
        == old(Current(cluster.world)).(backoff := Some(TruncateToSecond(backoffs.states[key].until)))
    {
      hide BackoffsSent, Inv, Later, Ahead, Cluster.Valid, OnlyUpkeep, Backoff.AfterFailure, BacksOff, EndsBackedOff;
      var until := backoffs.Extend(key, now);
      PersistBackoff(until);
    }

    /** Give up a mint whose swap was not sent, and back off. */
    method FailUnsent(m: Accessor, ghost log: seq<Call>, ghost calls: seq<Call>, backoffs: Backoff.Backoffs,
        key: string)
      requires cluster.Valid() && Mirrors(cluster.world)
      requires m in cluster.world.held && cluster.world.held[m] == cluster.me
      requires Unsent(calls, m) && cluster.log == log + calls
      modifies cluster, backoffs
      ensures cluster.Valid() && Inv(cluster.world) && Mirrors(cluster.world)
      ensures Later(old(cluster.world), cluster.world) && old(cluster.events) <= cluster.events
      ensures m in cluster.world.stray && RotationSince(log, cluster.log, Some(m), false)
      ensures AskedToRevoke(m) in cluster.log[|log|..] && NoRotationWrites(old(cluster.log), cluster.log)
      ensures backoffs.states == old(backoffs.states)[key := Backoff.AfterFailure(old(backoffs.StateOf(key)), now)]
      ensures BackoffsSent(cluster.world, old(cluster.sent), cluster.sent, Some(backoffs.states[key].until))
      ensures EndsBackedOff(cluster.world, cluster.log, cluster.sent, token, backoffs.states[key].until)
    {
      hide Inv, Mirrors, Cluster.Valid, OneRotation, SwapAccepted, AsksFor, Backoff.AfterFailure, Later;
      hide RotationSince, BacksOff, BackoffsSent, EndsBackedOff;
      ghost var w := cluster.world;
      GiveUpMint(m);
      ghost var v := cluster.world;
      ghost var more :| cluster.log == old(cluster.log) + more && AsksFor(more, m);
      ThenGivenUp(m, calls, more);
      Fail(backoffs, key);
      LaterTransitive(w, v, cluster.world);
      StrayForever(v, cluster.world, m);
      assert log + (calls + more) == log + calls + more == old(cluster.log) + more;
      RevocationIsAsked(log, calls, more, cluster.log, m);
      GivenUpWritesNothing(old(cluster.log), more, cluster.log, m);
      ThenUpkeep(log, calls + more, cluster.log, Some(m));
    }

    /** The swap was not accepted: if the answer was definite, settle it at once,
        and back off either way. Its mint stays listed. */
    method FailSent(m: Accessor, answer: Answer, ghost log: seq<Call>, ghost calls: seq<Call>,
        backoffs: Backoff.Backoffs, key: string)
      requires cluster.Valid() && Mirrors(cluster.world) && secret.token == token && Tracks(secret, m)
      requires OneRotation(calls) && calls[0] == AskedToMint(Some(m)) && cluster.log == log + calls
      requires !SwapAccepted(calls)
      modifies this, cluster, backoffs
      ensures cluster.Valid() && Inv(cluster.world) && Mirrors(cluster.world) && secret.token == token
      ensures Later(old(cluster.world), cluster.world) && old(cluster.events) <= cluster.events
      ensures Tracks(secret, m) && RotationSince(log, cluster.log, Some(m), false)
      ensures NoRotationWrites(old(cluster.log), cluster.log)
      ensures answer.Conflict? || answer.Rejected? ==> FencedBefore(old(cluster.log), cluster.log)
      ensures !answer.Conflict? && !answer.Rejected? ==>
        secret == old(secret) && rv == old(rv) && BacksOff(old(cluster.log), cluster.log)
      ensures old(cluster.Calm() && rv + 1 == |cluster.world.hist| && Pending(secret, m))
              && (answer.Conflict? || answer.Rejected?) ==>
        Settled(secret) && exists e | e in secret.ledger.entries :: e.accessor == m && Due(e, now)
      ensures backoffs.states == old(backoffs.states)[key := Backoff.AfterFailure(old(backoffs.StateOf(key)), now)]
      ensures BackoffsSent(cluster.world, old(cluster.sent), cluster.sent, Some(backoffs.states[key].until))
      ensures EndsBackedOff(cluster.world, cluster.log, cluster.sent, token, backoffs.states[key].until)
    {
      hide Inv, Cluster.Valid, OneRotation, SwapAccepted, Backoff.AfterFailure, Later, RotationSince, FencedBefore;
      hide BacksOff, BackoffsSent, EndsBackedOff;
      hide Tracks, SettledFrom, Pending, AllScheduled, Due;
      ghost var w := cluster.world;
      ghost var v := w;
      LaterItself(w);
      NothingSent(w, cluster.sent);
      if answer.Conflict? || answer.Rejected? {
        var stop := ResolveSwap(SwapId(m));
        v := cluster.world;
        if !stop {
          SettledKeepsTheMint(cluster.world, rv, secret, m, now, accessor);
        }
      }
      ghost var settled, sent := cluster.log, cluster.sent;
      Fail(backoffs, key);
      AheadIsLater(v, cluster.world, cluster.me);
      SentThen(v, cluster.world, old(cluster.sent), sent, cluster.sent, Some(backoffs.states[key].until));
      LaterTransitive(w, v, cluster.world);
      if answer.Conflict? || answer.Rejected? {
        UpkeepTwice(log + calls, settled, cluster.log);
        FencedThenBackedOff(log + calls, settled, cluster.log);
      }
      ThenUpkeep(log, calls, cluster.log, Some(m));
    }

    /** Record a mint that Vault accepts, and only then swap the Secret. */
    method RecordAndSwap(m: Accessor, notBefore: Time, reason: Reason, stamp: Stamp, ghost log: seq<Call>,
        backoffs: Backoff.Backoffs, key: string)
      returns (verdict: Verdict)
      requires cluster.Valid() && Inv(cluster.world) && Mirrors(cluster.world) && secret.token == token
      requires AllScheduled(ledger) && |ledger| < LEDGER_FULL && FreshMint(cluster.world, cluster.me, rv, now, m)
      requires OldEnough(cluster.world, accessor, stamp) && stamp.now == now && DecidedBy(stamp, notBefore, reason)
      requires cluster.log == log + ([AskedToMint(Some(m))] + [LookedUp(Token(m), true)])
      modifies this, cluster, backoffs
      ensures cluster.Valid() && Inv(cluster.world) && Mirrors(cluster.world)
      ensures Later(old(cluster.world), cluster.world) && old(cluster.events) <= cluster.events
      ensures RotationSince(log, cluster.log, Some(m), verdict.Rotated?)
      ensures Decided(log, cluster.log, notBefore, reason, stamp)
      ensures match verdict
        case RecordFailed =>
          && m in cluster.world.stray && AskedToRevoke(m) in cluster.log[|log|..]
          && secret == old(secret) && rv == old(rv)
        case SwapFailed => Tracks(secret, m)
        case Rotated(minted) =>
          && minted == m && rv == old(rv) + 2
          && RotatedFrom(cluster.world, rv, old(secret), secret, m, notBefore, reason, stamp)
        case _ => false
      ensures backoffs.states ==
        if verdict.Rotated? then old(backoffs.states) - {key}
        else old(backoffs.states)[key := Backoff.AfterFailure(old(backoffs.StateOf(key)), now)]
      ensures BackoffsSent(cluster.world, old(cluster.sent), cluster.sent,
        if verdict.Rotated? then None else Some(backoffs.states[key].until))
      ensures !verdict.Rotated? ==>
        EndsBackedOff(cluster.world, cluster.log, cluster.sent, token, backoffs.states[key].until)
      ensures !verdict.Rotated? ==> secret.token == token
      ensures old(cluster.Calm() && rv + 1 == |cluster.world.hist|) ==>
        && cluster.Calm() && verdict.Rotated? && rv + 1 == |cluster.world.hist|
        && cluster.world.valid == old(cluster.world.valid) && cluster.world.clock == old(cluster.world.clock)
    {
      hide Inv, Later, Mirrors, Cluster.Valid, Unseen, OldEnough, OneRotation, OnlyUpkeep, RecordedFrom, RotatedFrom;
      hide RotationSince, Unsent, Tracks, AllScheduled, Backoff.AfterFailure, Decided, BacksOff, FencedBefore;
      hide AllDecided, NoRotationWrites, SwapAccepted, BackoffsSent, EndsBackedOff;
      ghost var w := cluster.world;
      ghost var calls := [AskedToMint(Some(m))] + [LookedUp(Token(m), true)];
      ghost var recording := Record(m, notBefore, reason, stamp);
      var answer := RecordMint(m, notBefore, reason, stamp);
      SwapIsUnsent(m, true, recording, answer);
      RotationDecides(m, true, notBefore, reason, stamp, answer, Accepted);
      calls := calls + [Wrote(recording, answer)];
      assert cluster.log == log + calls;
      ghost var v := cluster.world;
      ghost var sent := cluster.sent;
      AheadIsLater(w, v, cluster.me);
      if answer != Accepted {
        FailUnsent(m, log, calls, backoffs, key);
        SentThen(v, cluster.world, old(cluster.sent), sent, cluster.sent, Some(backoffs.states[key].until));
        StillDecided(log, calls, cluster.log, notBefore, reason, stamp);
        LaterTransitive(w, v, cluster.world);
        return RecordFailed;
      }
      answer := SendSwap(old(secret), m, notBefore, reason, stamp);
      SwapWasSent(m, recording, stamp, answer);
      RotationDecides(m, true, notBefore, reason, stamp, Accepted, answer);
      calls := calls + [Wrote(Swap(m, stamp), answer)];
      assert cluster.log == log + calls;
      LaterTransitive(w, v, cluster.world);
      SentThen(v, cluster.world, old(cluster.sent), sent, cluster.sent, None);
      v, sent := cluster.world, cluster.sent;
      if answer != Accepted {
        FailSent(m, answer, log, calls, backoffs, key);
        SentThen(v, cluster.world, old(cluster.sent), sent, cluster.sent, Some(backoffs.states[key].until));
        StillDecided(log, calls, cluster.log, notBefore, reason, stamp);
        LaterTransitive(w, v, cluster.world);
        return SwapFailed;
      }
      RotationDone(log, calls, Some(m));
      NothingFollowed(cluster.log);
      StillDecided(log, calls, cluster.log, notBefore, reason, stamp);
      backoffs.Clear(key);
      return Rotated(m);
    }

    /** Mint the replacement, record both tokens, and only then swap the Secret. */
    method MintAndSwap(immediate: bool, grace: Time, stamp: Stamp, backoffs: Backoff.Backoffs, key: string)
      returns (verdict: Verdict)
      requires cluster.Valid() && Inv(cluster.world) && Mirrors(cluster.world) && secret.token == token
      requires AllScheduled(ledger) && |ledger| < LEDGER_FULL
      requires OldEnough(cluster.world, accessor, stamp) && stamp.now == now && stamp.grace == grace
      requires immediate ==> stamp.forced
      modifies this, cluster, backoffs
      ensures cluster.Valid() && Inv(cluster.world) && Mirrors(cluster.world)
      ensures Later(old(cluster.world), cluster.world) && old(cluster.events) <= cluster.events
      ensures match verdict
        case MintFailed =>
          || RotationSince(old(cluster.log), cluster.log, None, false)
          || exists m | m in cluster.world.stray ::
               && RotationSince(old(cluster.log), cluster.log, Some(m), false)
               && AskedToRevoke(m) in cluster.log[|old(cluster.log)|..]
        case RecordFailed =>
          exists m | m in cluster.world.stray ::
            && RotationSince(old(cluster.log), cluster.log, Some(m), false)
            && AskedToRevoke(m) in cluster.log[|old(cluster.log)|..]
        case SwapFailed => exists m | Tracks(secret, m) :: RotationSince(old(cluster.log), cluster.log, Some(m), false)
        case Rotated(m) =>
          && |old(cluster.world.created)| <= m && RotationSince(old(cluster.log), cluster.log, Some(m), true)
          && rv == old(rv) + 2
          && RotatedFrom(cluster.world, rv, old(secret), secret, m,
               if immediate then now else now + grace, if immediate then Forced else Superseded, stamp)
        case _ => false
      ensures backoffs.states ==
        if verdict.Rotated? then old(backoffs.states) - {key}
        else old(backoffs.states)[key := Backoff.AfterFailure(old(backoffs.StateOf(key)), now)]
      ensures BackoffsSent(cluster.world, old(cluster.sent), cluster.sent,
        if verdict.Rotated? then None else Some(backoffs.states[key].until))
      ensures !verdict.Rotated? ==>
        EndsBackedOff(cluster.world, cluster.log, cluster.sent, token, backoffs.states[key].until)
      ensures !verdict.Rotated? ==> secret.token == token
      ensures verdict.MintFailed? || verdict.RecordFailed? ==> secret == old(secret) && rv == old(rv)
      ensures Decided(old(cluster.log), cluster.log,
        if immediate then now else now + grace, if immediate then Forced else Superseded, stamp)
      ensures old(cluster.Calm() && rv + 1 == |cluster.world.hist| && accessor in cluster.world.valid) ==>
        && cluster.Calm() && verdict.Rotated? && rv + 1 == |cluster.world.hist|
        && cluster.world.valid == old(cluster.world.valid) + {verdict.minted}
        && cluster.world.clock == old(cluster.world.clock)
      // To a token Vault no longer knows it gives no replacement, and that is recorded.
      ensures old(cluster.Calm() && |cluster.world.hist| > 0 && Current(cluster.world).token == token
                  && accessor !in cluster.world.valid) ==>
        && verdict.MintFailed? && |cluster.world.hist| > 0
        && Current(cluster.world)
           == old(Current(cluster.world)).(backoff := Some(TruncateToSecond(backoffs.states[key].until)))
    {
      hide Inv, Later, Mirrors, Cluster.Valid, Unseen, OldEnough, OneRotation, OnlyUpkeep, RotatedFrom;
      hide RotationSince, Unsent, Tracks, AllScheduled, Backoff.AfterFailure, Decided, BacksOff, AllDecided;
      hide NoRotationWrites, BackoffsSent, EndsBackedOff;
      ghost var w, log := cluster.world, cluster.log;
      var notBefore := now + grace;
      var reason := Superseded;
      if immediate {
        notBefore, reason := now, Forced;
      }
      var minted, accepted := MintToken();
      ghost var v := cluster.world;
      if minted.None? {
        Fail(backoffs, key);
        NothingMinted(log, cluster.log);
        NothingDecided(log, cluster.log, notBefore, reason, stamp);
        LaterTransitive(w, v, cluster.world);
        return MintFailed;
      }
      var m := minted.value;
      ghost var calls := [AskedToMint(Some(m))] + [LookedUp(Token(m), accepted)];
      assert cluster.log == log + calls;
      if !accepted {
        SwapIsUnsent(m, accepted, Record(m, notBefore, reason, stamp), Accepted);
        RotationDecides(m, accepted, notBefore, reason, stamp, Accepted, Accepted);
        FailUnsent(m, log, calls, backoffs, key);
        StillDecided(log, calls, cluster.log, notBefore, reason, stamp);
        LaterTransitive(w, v, cluster.world);
        return MintFailed;
      }
      OldEnoughLater(w, v, accessor, stamp);
      verdict := RecordAndSwap(m, notBefore, reason, stamp, log, backoffs, key);
      LaterTransitive(w, v, cluster.world);
    }

    /** Rotate when the token is old enough or a rotation is requested, and the
        operator owns the credential. */
    method RotateIfDue(created: Time, period: Time, backoffs: Backoff.Backoffs, key: string) returns (verdict: Verdict)
      requires cluster.Valid() && Inv(cluster.world) && Mirrors(cluster.world) && secret.token == token
      requires created == cluster.world.created[accessor]
      modifies this, cluster, backoffs
      ensures cluster.Valid() && Inv(cluster.world) && Mirrors(cluster.world)
      ensures Later(old(cluster.world), cluster.world) && old(cluster.events) <= cluster.events
      ensures old(cluster.log) <= cluster.log
      // It mints only for a credential the operator owns, when a rotation is
      // requested or due, with a settled ledger that has room, past every backoff.
      ensures !verdict.Idle? <==>
        && (old(secret).rotateNow == Graceful || old(secret).rotateNow == Immediate
            || (tm.autoRotate && now - created >= period))
        && tm.enabled && !tm.external
        && (forall e | e in old(ledger) :: e.state == Scheduled) && |old(ledger)| < 15
        && (old(secret).backoff == None || now >= old(secret).backoff.value)
        && (key in old(backoffs.states) ==> now >= old(backoffs.states)[key].until)
      ensures verdict.BadGrace? <==> !verdict.Idle? && tm.gracePeriod.Malformed?
      // A failed rotation ends by recording on the Secret the instant it counted to,
      // and no write of the pass says another.
      ensures BackoffsSent(cluster.world, old(cluster.sent), cluster.sent,
        if key in backoffs.states then Some(backoffs.states[key].until) else None)
      ensures !verdict.Idle? && !verdict.BadGrace? && !verdict.Rotated? ==>
        && key in backoffs.states
        && EndsBackedOff(cluster.world, cluster.log, cluster.sent, token, backoffs.states[key].until)
      ensures old(cluster.Calm() && |cluster.world.hist| > 0 && Current(cluster.world).token == token
                  && accessor !in cluster.world.valid) && !verdict.Idle? && !verdict.BadGrace? ==>
        && verdict.MintFailed? && |cluster.world.hist| > 0 && key in backoffs.states
        && Current(cluster.world)
           == old(Current(cluster.world)).(backoff := Some(TruncateToSecond(backoffs.states[key].until)))
      ensures verdict.Idle? || verdict.BadGrace? ==>
        && cluster.world == old(cluster.world) && cluster.log == old(cluster.log)
        && cluster.Calm() == old(cluster.Calm())
        && secret == old(secret) && rv == old(rv) && ledger == old(ledger) && backoffs.states == old(backoffs.states)
      ensures !verdict.Idle? && !verdict.BadGrace? ==>
        && (exists got :: RotationSince(old(cluster.log), cluster.log, got, verdict.Rotated?))
        && backoffs.states == (
             if verdict.Rotated? then old(backoffs.states) - {key}
             else old(backoffs.states)[key := Backoff.AfterFailure(old(backoffs.StateOf(key)), now)])
      // What it decides: the instant the replaced token may be revoked, and why.
      ensures !verdict.Idle? && !verdict.BadGrace? ==>
        var immediate := old(secret).rotateNow.Immediate?;
        var grace := if tm.gracePeriod.Blank? then 60 * MINUTE else tm.gracePeriod.span;
        var instant, reason := if immediate then now else now + grace, if immediate then Forced else Superseded;
        var stamp := Stamp(now, immediate || old(secret).rotateNow.Graceful?, period, grace);
        && Decided(old(cluster.log), cluster.log, instant, reason, stamp)
        && (verdict.Rotated? ==>
              && |old(cluster.world.created)| <= verdict.minted && rv == old(rv) + 2
              && RotatedFrom(cluster.world, rv, old(secret), secret, verdict.minted, instant, reason, stamp))
      ensures old(cluster.Calm() && rv + 1 == |cluster.world.hist| && accessor in cluster.world.valid) ==>
        && cluster.Calm() && rv + 1 == |cluster.world.hist|
        && (verdict.Idle? || verdict.BadGrace? || verdict.Rotated?)
        && cluster.world.valid == old(cluster.world.valid) + (if verdict.Rotated? then {verdict.minted} else {})
    {
      hide Inv, Cluster.Valid, OneRotation, SwapAccepted, RotatedFrom, Backoff.AfterFailure, Tracks;
      hide Later, Decided, BackoffsSent, EndsBackedOff;
      LaterItself(cluster.world);
      NothingSent(cluster.world, cluster.sent);
      var forced := RotationForced(secret);
      if !forced && (!tm.autoRotate || now - created < period) {
        return Idle;
      }
      if !tm.enabled || tm.external {
        return Idle;
      }
      if !AllScheduled(ledger) || |ledger| >= LEDGER_FULL {
        return Idle;
      }
      var until := backoffs.Until(key, secret.backoff);
      if until.Some? && now < until.value {
        return Idle;
      }
      var grace := SpanOf(tm.gracePeriod, HOUR);
      if grace.None? {
        return BadGrace;
      }
      verdict := MintAndSwap(secret.rotateNow.Immediate?, grace.value,
                              Stamp(now, forced, period, grace.value), backoffs, key);
    }
  }
}
