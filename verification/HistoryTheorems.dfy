/** What holds of every history of the admin Secret, whatever writes raced. A
    theorem about the last version of every history is one about every version. */
module HistoryTheorems {
  import opened Wrappers
  import opened Records
  import opened RevokeLedger
  import opened SecretHistory

  /** Settling a swap changes no entry that is scheduled already: the only
      minted entry with that identifier is the unresolved one. */
  lemma {:induction false} SettleChangesOnlyTheMint(es: seq<Entry>, live: Accessor, minted: Accessor, now: Time,
      e: Entry)
    requires WellShaped(es, live) && HasUnresolvedMint(es, SwapId(minted))
    requires e in es && e.state.Scheduled?
    ensures SettleSwap(SwapId(minted), now, live)(e) in {None, Some(e)}
  {
    var u :| u in es && IsUnresolvedMint(u, SwapId(minted));
    if e.swap == SwapId(minted) && e.reason.UnresolvedMint? {
      OneEntryEach(es, e, u);
    }
  }

  /** Where an entry of the next version comes from, unless a rotation is being
      recorded: an entry of this one for the same accessor. An entry that is
      scheduled here stays as it is, and nothing becomes unresolved. */
  lemma {:induction false} EntrySource(h: History, s: Secret, how: Origin, d: Entry) returns (e: Entry)
    requires Chain(h) && LegalWrite(h, s, how) && !how.Record?
    requires s.ledger.Entries? && d in s.ledger.entries
    ensures Last(h).secret.ledger.Entries? && e in Last(h).secret.ledger.entries
    ensures e.accessor == d.accessor && e.swap == d.swap
    ensures e.state.Scheduled? || d.state.Unresolved? ==> e == d
  {
    var base := Last(h).secret;
    EveryVersionIsShaped(h, |h| - 1);
    match how
    case Touch => e := d;
    case Install => e := d;
    case Swap(m, stamp) => e := SiftSource(base.ledger.entries, DropMint(SwapId(m)), d);
    case Settle(m, now) =>
      e := SiftSource(base.ledger.entries, SettleSwap(SwapId(m), now, Live(base)), d);
      if e.state.Scheduled? {
        SettleChangesOnlyTheMint(base.ledger.entries, Live(base), m, now, e);
      }
    case Drain(cancel, gone, now) =>
      e := SiftSource(Cancelled(base.ledger.entries, cancel), DropGone(gone, Live(base), now), d);
  }

  // ---- A retired accessor stays out of the Secret ----

  /** The accessor of e is not live, and if it is listed, then by e. */
  predicate StaysOut(s: Secret, e: Entry) {
    && Live(s) != e.accessor
    && (s.ledger.Entries? ==> forall d | d in s.ledger.entries && d.accessor == e.accessor :: d == e)
  }

  /** e schedules an accessor for revocation while another token is live. */
  predicate RetiresBy(s: Secret, e: Entry) {
    s.ledger.Entries? && e in s.ledger.entries && e.state.Scheduled? && e.accessor != Live(s)
  }

  /** Once a version schedules an accessor for revocation while another token
      is live, no later version holds its token, and as long as it stays listed
      its entry never changes: nothing brings its revocation forward. */
  lemma {:induction false} RetiredStaysOut(h: History, i: nat, e: Entry)
    requires Chain(h) && Clean(h) && i < |h| && RetiresBy(h[i].secret, e)
    ensures StaysOut(Last(h).secret, e)
  {
    if i < |h| - 1 {
      RetiredStaysOut(Front(h), i, e);
      StaysOutStep(Front(h), i, e, Last(h).secret, Last(h).how);
    } else {
      EveryVersionIsShaped(h, i);
      forall d | d in h[i].secret.ledger.entries && d.accessor == e.accessor
        ensures d == e
      {
        OneEntryEach(h[i].secret.ledger.entries, d, e);
      }
    }
  }

  lemma {:induction false} StaysOutStep(h: History, i: nat, e: Entry, s: Secret, how: Origin)
    requires Chain(h) && LegalWrite(h, s, how) && (how.Install? ==> !Retired(h, Live(s)))
    requires i < |h| && RetiresBy(h[i].secret, e) && StaysOut(Last(h).secret, e)
    ensures StaysOut(s, e)
  {
    if how.Record? {
      assert Foreign(h[i].secret.ledger.entries, how.minted);
    } else if s.ledger.Entries? {
      forall d | d in s.ledger.entries && d.accessor == e.accessor
        ensures d == e
      {
        var b := EntrySource(h, s, how, d);
      }
    }
    if how.Swap? {
      MintedIsNotRetired(h, i, e);
    } else if how.Install? {
      assert Cancels(e, e.accessor) && Retires(h[i].secret, e.accessor);
    }
  }

  /** The token a swap installs was never retired before. */
  lemma {:induction false} MintedIsNotRetired(h: History, i: nat, e: Entry)
    requires Chain(h) && Last(h).how.Record? && i < |h| && RetiresBy(h[i].secret, e)
    ensures e.accessor != Last(h).how.minted
  {
    RecordLeavesPending(h);
    EveryVersionIsShaped(h, |h| - 1);
    var m := Last(h).how.minted;
    if i < |h| - 1 {
      assert Foreign(Front(h)[i].secret.ledger.entries, m);
    } else {
      var u :| u in h[i].secret.ledger.entries && IsUnresolvedMint(u, SwapId(m));
      if e.accessor == m {
        OneEntryEach(h[i].secret.ledger.entries, e, u);
      }
    }
  }

  /** Keeping retired accessors out of the Secret is exactly a matter of what
      other writers reinstall: the operator's own writes never break it. */
  lemma {:induction false} RetiredStaysOutIffClean(h: History)
    requires Chain(h)
    ensures Clean(h) <==>
      forall i, j, a | 0 <= i <= j < |h| && Retires(h[i].secret, a) :: Live(h[j].secret) != a
  {
    if Clean(h) {
      forall i, j, a | 0 <= i <= j < |h| && Retires(h[i].secret, a)
        ensures Live(h[j].secret) != a
      {
        var e :| e in h[i].secret.ledger.entries && Cancels(e, a);
        ChainPrefix(h, j + 1);
        RetiredStaysOut(h[..j + 1], i, e);
      }
    } else {
      var i, j := ReinstallBreaksIt(h);
      assert Retires(h[i].secret, Live(h[j].secret));
    }
  }

  lemma {:induction false} ReinstallBreaksIt(h: History) returns (i: nat, j: nat)
    requires Chain(h) && !Clean(h)
    ensures i <= j < |h| && Retires(h[i].secret, Live(h[j].secret))
  {
    if Clean(Front(h)) {
      j := |h| - 1;
      i :| i < j && Retires(Front(h)[i].secret, Live(h[j].secret));
    } else {
      i, j := ReinstallBreaksIt(Front(h));
    }
  }

  // ---- Fencing ----

  /** Before its Record an accessor is not pending, and a landed swap has ended it. */
  lemma {:induction false} NotPendingOnceLanded(h: History, k: nat)
    requires Chain(h) && k < |h| && h[k].how.Swap?
    ensures !Pending(Last(h).secret, h[k].how.minted)
  {
    var m := h[k].how.minted;
    if k < |h| - 1 {
      NotPendingOnceLanded(Front(h), k);
      if Pending(Last(h).secret, m) {
        var u :| u in Last(h).secret.ledger.entries && IsUnresolvedMint(u, SwapId(m));
        SwapInstalls(h, k);
        if !Last(h).how.Record? {
          var e := EntrySource(Front(h), Last(h).secret, Last(h).how, u);
        }
      }
    } else {
      EveryVersionIsShaped(h, k);
    }
  }

  lemma {:induction false} SwapInstalls(h: History, k: nat)
    requires Chain(h) && k < |h| && h[k].how.Swap?
    ensures Live(h[k].secret) == h[k].how.minted
  {
    if k < |h| - 1 {
      SwapInstalls(Front(h), k);
    }
  }

  /** A swap lands only on the very version that recorded it: its minted entry
      is unresolved there, in no version before it and in none after. */
  lemma {:induction false} SwapLandsAtOnce(h: History, k: nat, j: nat)
    requires Chain(h) && k < |h| && j < |h| && h[k].how.Swap?
    ensures Pending(h[j].secret, h[k].how.minted) <==> j == k - 1
  {
    var m := h[k].how.minted;
    if j < k {
      ChainPrefix(h, k + 1);
      var g := h[..k + 1];
      assert Front(g) == h[..k] && Last(g) == h[k];
      RecordLeavesPending(h[..k]);
      if j < k - 1 {
        assert Front(h[..k])[j] == h[j];
      }
    } else {
      ChainPrefix(h, j + 1);
      NotPendingOnceLanded(h[..j + 1], k);
    }
  }

  /** Two successive versions with the swap unresolved: it has not landed, and
      no history that continues this one contains it. */
  lemma {:induction false} FencedSwapNeverLands(h: History, f: nat, minted: Accessor)
    requires Chain(h) && 0 < f < |h|
    requires Pending(h[f - 1].secret, minted) && Pending(h[f].secret, minted)
    ensures forall k | 0 <= k < |h| && h[k].how.Swap? :: h[k].how.minted != minted
  {
    forall k | 0 <= k < |h| && h[k].how.Swap?
      ensures h[k].how.minted != minted
    {
      SwapLandsAtOnce(h, k, f - 1);
      SwapLandsAtOnce(h, k, f);
    }
  }

  // ---- The token's history ----

  /** The old entry of the rotation recorded in the version before the last. */
  function ReplacedEntry(h: History): Entry
    requires |h| > 1 && Last(h).how.Swap? && Last(Front(h)).how.Record?
  {
    var r := Last(Front(h));
    OldEntry(Last(h).how.minted, Live(r.secret), r.how.notBefore, r.how.reason)
  }

  /** The Secret changes its token in exactly two ways: another writer installs
      one and keeps the ledger, or a rotation replaces the live token by one
      that never occurred before, and in that same version the old one is
      scheduled, nothing is unresolved and the new one is not listed. */
  lemma {:induction false} TokenStep(h: History)
    requires Chain(h) && |h| > 1
    ensures Last(h).secret.token != Last(Front(h)).secret.token ==> Last(h).how.Install? || Last(h).how.Swap?
    ensures Last(h).how.Install? ==> Last(h).secret.ledger == Last(Front(h)).secret.ledger
    ensures Last(h).how.Swap? ==>
      && Last(Front(h)).how.Record? && Last(Front(h)).how.stamp == Last(h).how.stamp
      && Last(h).secret.token == Token(Last(h).how.minted)
      && Unseen(Front(Front(h)), Last(h).how.minted) && Live(Last(Front(h)).secret) != Last(h).how.minted
      && Settled(Last(h).secret) && !Tracks(Last(h).secret, Last(h).how.minted)
      && ReplacedEntry(h) in Last(h).secret.ledger.entries
  {
    if Last(h).how.Swap? {
      var m, f := Last(h).how.minted, Front(h);
      RecordLeavesPending(f);
      EveryVersionIsShaped(f, |f| - 1);
      var es := Last(f).secret.ledger.entries;
      InstalledShape(es, m, Live(Last(f).secret));
      assert es[|es| - 1] == ReplacedEntry(h);
      SiftKeeps(es, DropMint(SwapId(m)), ReplacedEntry(h));
      assert Last(Front(f)) in Front(f);
    }
  }

  /** A rotation's token is installed by at most one swap. */
  lemma {:induction false} SwapsInstallDistinctTokens(h: History, j: nat, k: nat)
    requires Chain(h) && j < k < |h| && h[j].how.Swap? && h[k].how.Swap?
    ensures h[j].how.minted != h[k].how.minted
  {
    SwapLandsAtOnce(h, j, k - 1);
    SwapLandsAtOnce(h, k, k - 1);
  }

  // ---- How an entry leaves ----

  /** An accessor leaves the ledger in one of four ways: its revocation was
      confirmed once it was due, a cancel request named it, its own swap landed,
      or it is the still live token of a swap that never landed. */
  lemma {:induction false} EntryLeaves(h: History, e: Entry)
    requires Chain(h) && |h| > 1
    requires Last(Front(h)).secret.ledger.Entries? && e in Last(Front(h)).secret.ledger.entries
    requires !Tracks(Last(h).secret, e.accessor)
    ensures match Last(h).how
      case Drain(cancel, gone, now) =>
        e.state.Scheduled? && (cancel == Some(e.accessor) || (Due(e, now) && e.accessor in gone))
      case Swap(m, stamp) => e == MintEntry(m) && Live(Last(h).secret) == m
      case Settle(m, now) => e.swap == SwapId(m) && e.accessor == Live(Last(h).secret)
      case _ => false
  {
    var f := Front(h);
    var base, s := Last(f).secret, Last(h).secret;
    var es := base.ledger.entries;
    EveryVersionIsShaped(f, |f| - 1);
    match Last(h).how
    case Touch =>
    case Install =>
    case Record(m, notBefore, reason, stamp) =>
    case Swap(m, stamp) =>
      if DropMint(SwapId(m))(e).Some? {
        SiftKeeps(es, DropMint(SwapId(m)), e);
      } else {
        RecordLeavesPending(f);
        MintEntryIsUnique(f, e);
      }
    case Settle(m, now) =>
      if SettleSwap(SwapId(m), now, Live(base))(e).Some? {
        SiftKeeps(es, SettleSwap(SwapId(m), now, Live(base)), e);
      }
    case Drain(cancel, gone, now) =>
      SettledLedgerOmitsLive(es, Live(base));
      if e in Cancelled(es, cancel) {
        if DropGone(gone, Live(base), now)(e).Some? {
          SiftKeeps(Cancelled(es, cancel), DropGone(gone, Live(base), now), e);
        }
      } else if cancel.Some? {
        CancelledExactly(es, cancel.value);
      }
  }

  lemma {:induction false} MintEntryIsUnique(h: History, e: Entry)
    requires Chain(h) && Last(h).how.Record? && Last(h).secret.ledger.Entries?
    requires e in Last(h).secret.ledger.entries && e.accessor == Last(h).how.minted
    ensures e == MintEntry(Last(h).how.minted)
  {
    RecordLeavesPending(h);
    EveryVersionIsShaped(h, |h| - 1);
    var es := Last(Front(h)).secret.ledger.entries;
    assert Last(h).secret.ledger.entries[|es|] == MintEntry(Last(h).how.minted);
    OneEntryEach(Last(h).secret.ledger.entries, e, MintEntry(Last(h).how.minted));
  }

  // ---- The grace period ----

  /** After a rotation landed, every version from which the code could revoke
      the replaced accessor came after it and carries the instant that rotation
      decided on: its own now and the grace period later, or at once if an
      immediate rotation was requested. */
  lemma {:induction false} GraceIsKept(h: History, k: nat, i: nat, e: Entry)
    requires Chain(h) && Clean(h) && 0 < k < |h| && h[k].how.Swap?
    requires i < |h| && RetiresBy(h[i].secret, e) && e.accessor == Live(h[k - 1].secret)
    ensures i >= k && h[k - 1].how.Record? && h[k - 1].how.stamp == h[k].how.stamp
    ensures e.notBefore == h[k - 1].how.notBefore && e.reason == h[k - 1].how.reason
    ensures DecidedBy(h[k].how.stamp, e.notBefore, e.reason)
  {
    hide Chain, Clean, LegalWrite;
    var g := h[..k + 1];
    ChainPrefix(h, k + 1);
    assert Front(g) == h[..k] && Last(g) == h[k] && Last(Front(g)) == h[k - 1];
    TokenStep(g);
    ChainPrefix(h, k);
    RecordIsDecided(h[..k]);
    if i < k {
      assert h[..k][i] == h[i];
      RetiredStaysOut(h[..k], i, e);
    } else {
      var f := h[..i + 1];
      ChainPrefix(h, i + 1);
      assert f[k] == h[k] && Last(f) == h[i];
      RetiredStaysOut(f, k, ReplacedEntry(g));
    }
  }

  lemma {:induction false} RecordIsDecided(h: History)
    requires Chain(h) && Last(h).how.Record?
    ensures DecidedBy(Last(h).how.stamp, Last(h).how.notBefore, Last(h).how.reason)
  {
  }
}
