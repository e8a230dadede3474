/** Every version the admin Secret ever had. A write is preconditioned on one
    version, so whether it is one the code can send depends only on the
    history up to that version; that history never changes. */
module SecretHistory {
  import opened Wrappers
  import opened Records
  import opened RevokeLedger

  /** What a rotation decided before it minted. */
  datatype Stamp = Stamp(now: Time, forced: bool, period: Time, grace: Time)

  /** When the replaced token may be revoked: after the grace period, or at once
      for an immediate rotation, which is always a requested one. */
  predicate DecidedBy(stamp: Stamp, notBefore: Time, reason: Reason) {
    match reason
    case Superseded => notBefore == stamp.now + stamp.grace
    case Forced => stamp.forced && notBefore == stamp.now
    case UnresolvedMint => false
  }

  /** Which write of the code made a version. */
  datatype Origin =
    | Created
    | Touch                                                   // annotations only: fence, renewal, backoff, requests
    | Record(minted: Accessor, notBefore: Time, reason: Reason, stamp: Stamp)
    | Swap(minted: Accessor, stamp: Stamp)
    | Settle(minted: Accessor, now: Time)
    | Drain(cancel: Option<Accessor>, gone: set<Accessor>, now: Time)
    | Install                                                 // another writer replaces the token

  datatype Version = Version(secret: Secret, how: Origin)

  /** Versions are numbered by their position: the resourceVersion. */
  type History = seq<Version>

  function Live(s: Secret): Accessor {
    s.token.accessor
  }

  predicate Tracks(s: Secret, a: Accessor) {
    s.ledger.Entries? && Lists(s.ledger.entries, a)
  }

  predicate Pending(s: Secret, minted: Accessor) {
    s.ledger.Entries? && HasUnresolvedMint(s.ledger.entries, SwapId(minted))
  }

  predicate Settled(s: Secret) {
    s.ledger.Entries? && AllScheduled(s.ledger.entries)
  }

  predicate Shaped(s: Secret) {
    s.ledger.Entries? ==> WellShaped(s.ledger.entries, Live(s))
  }

  /** The accessor has nowhere occurred in the history. */
  predicate Unseen(h: History, a: Accessor) {
    forall i | 0 <= i < |h| ::
      Live(h[i].secret) != a && (h[i].secret.ledger.Entries? ==> Foreign(h[i].secret.ledger.entries, a))
  }

  /** The accessor is scheduled for revocation while another token is live. */
  predicate Retires(s: Secret, a: Accessor) {
    s.ledger.Entries? && Live(s) != a && exists e | e in s.ledger.entries :: Cancels(e, a)
  }

  predicate Retired(h: History, a: Accessor) {
    exists i | 0 <= i < |h| :: Retires(h[i].secret, a)
  }

  function Last(h: History): Version
    requires |h| > 0
  {
    h[|h| - 1]
  }

  function Front(h: History): History
    requires |h| > 0
  {
    h[..|h| - 1]
  }

  /** A write that the code can send when its precondition is the last version of h. */
  predicate LegalWrite(h: History, s: Secret, how: Origin)
    requires |h| > 0
  {
    var base := Last(h).secret;
    match how
    case Created => false
    case Touch => s.token == base.token && s.ledger == base.ledger
    case Record(m, notBefore, reason, stamp) =>
      && Settled(base) && |base.ledger.entries| < LEDGER_FULL && Unseen(h, m) && DecidedBy(stamp, notBefore, reason)
      && s.token == base.token
      && s.ledger == Entries(Recorded(base.ledger.entries, m, Live(base), notBefore, reason))
    case Swap(m, stamp) =>
      && Last(h).how.Record? && Last(h).how.minted == m && Last(h).how.stamp == stamp
      && base.ledger.Entries? && s.token == Token(m)
      && s.ledger == Entries(Sift(base.ledger.entries, DropMint(SwapId(m))))
    case Settle(m, now) =>
      && |h| > 1 && Pending(Last(Front(h)).secret, m) && Pending(base, m)
      && s.token == base.token
      && s.ledger == Entries(Sift(base.ledger.entries, SettleSwap(SwapId(m), now, Live(base))))
    case Drain(cancel, gone, now) =>
      && Settled(base) && s.token == base.token
      && s.ledger == Entries(Sift(Cancelled(base.ledger.entries, cancel), DropGone(gone, Live(base), now)))
    case Install => s.ledger == base.ledger && !Tracks(base, Live(s))
  }

  predicate FirstVersion(v: Version) {
    v.how.Created? && Shaped(v.secret) && (v.secret.ledger.Entries? ==> AllScheduled(v.secret.ledger.entries))
  }

  /** A history the code's writes can produce, whatever their interleaving. */
  ghost predicate Chain(h: History) {
    if |h| <= 1 then |h| == 1 && FirstVersion(h[0])
    else Chain(Front(h)) && LegalWrite(Front(h), Last(h).secret, Last(h).how)
  }

  /** No outside writer reinstalled an accessor that an earlier version had retired. */
  ghost predicate Clean(h: History) {
    |h| > 1 ==> Clean(Front(h)) && (Last(h).how.Install? ==> !Retired(Front(h), Live(Last(h).secret)))
  }

  /** Every earlier history is a history too. */
  lemma {:induction false} ChainPrefix(h: History, k: nat)
    requires Chain(h) && 0 < k <= |h|
    ensures Chain(h[..k])
    ensures Clean(h) ==> Clean(h[..k])
    decreases |h|
  {
    if k < |h| {
      ChainPrefix(Front(h), k);
      assert Front(h)[..k] == h[..k];
    } else {
      assert h[..k] == h;
    }
  }

  lemma {:induction false} ChainExtend(h: History, s: Secret, how: Origin)
    requires Chain(h) && LegalWrite(h, s, how)
    ensures Chain(h + [Version(s, how)])
    ensures Clean(h + [Version(s, how)]) <==> Clean(h) && (how.Install? ==> !Retired(h, Live(s)))
  {
    assert Front(h + [Version(s, how)]) == h;
  }

  /** No write makes a ledger readable or unreadable. */
  lemma {:induction false} ReadabilityIsKept(h: History, i: nat)
    requires Chain(h) && i < |h|
    ensures h[i].secret.ledger.Unreadable? <==> h[0].secret.ledger.Unreadable?
  {
    if |h| > 1 {
      ReadabilityIsKept(Front(h), if i < |h| - 1 then i else i - 1);
    }
  }

  /** The version a Record made still has its minted entry unresolved, and that
      accessor occurs in no version before. */
  lemma {:induction false} RecordLeavesPending(h: History)
    requires Chain(h) && Last(h).how.Record?
    ensures |h| > 1 && Unseen(Front(h), Last(h).how.minted) && Pending(Last(h).secret, Last(h).how.minted)
  {
    assert |h| > 1;
    var es := Last(Front(h)).secret.ledger.entries;
    var m := Last(h).how.minted;
    assert Last(h).secret.ledger.entries[|es|] == MintEntry(m);
    assert IsUnresolvedMint(MintEntry(m), SwapId(m));
  }

  lemma {:induction false} LegalWriteKeepsShape(h: History, s: Secret, how: Origin)
    requires Chain(h) && LegalWrite(h, s, how) && Shaped(Last(h).secret)
    ensures Shaped(s)
    ensures how.Swap? ==> Settled(s) && |s.ledger.entries| < LEDGER_CAP
    ensures how.Settle? || how.Drain? ==> Settled(s)
  {
    var base := Last(h).secret;
    match how
    case Touch =>
    case Record(m, notBefore, reason, stamp) =>
      assert Last(h) in h;
      RecordedShape(base.ledger.entries, m, Live(base), notBefore, reason);
    case Swap(m, stamp) =>
      RecordLeavesPending(h);
      InstalledShape(base.ledger.entries, m, Live(base));
      SwapShrinks(base.ledger.entries, m);
    case Settle(m, now) =>
      SettledShape(base.ledger.entries, m, now, Live(base));
    case Drain(cancel, gone, now) =>
      DrainedShape(base.ledger.entries, cancel, gone, now, Live(base));
    case Install =>
  }

  lemma {:induction false} SwapShrinks(es: seq<Entry>, minted: Accessor)
    requires HasUnresolvedMint(es, SwapId(minted))
    ensures |Sift(es, DropMint(SwapId(minted)))| < |es|
  {
    var n := |es| - 1;
    if !(es[n].swap == SwapId(minted) && es[n].reason.UnresolvedMint?) {
      var m :| m in es && IsUnresolvedMint(m, SwapId(minted));
      assert m in es[..n];
      SwapShrinks(es[..n], minted);
    }
  }

  /** Every version of every history has a well-shaped ledger: at most one
      unresolved entry, no accessor twice, the live accessor only as the old
      entry of the unresolved swap, and at most LEDGER_CAP entries. A version
      made by a landed swap has nothing unresolved and holds fewer. */
  lemma {:induction false} EveryVersionIsShaped(h: History, i: nat)
    requires Chain(h) && i < |h|
    ensures Shaped(h[i].secret)
    ensures h[i].how.Swap? ==> Settled(h[i].secret) && |h[i].secret.ledger.entries| < LEDGER_CAP
  {
    if |h| > 1 {
      if i < |h| - 1 {
        EveryVersionIsShaped(Front(h), i);
      } else {
        EveryVersionIsShaped(Front(h), i - 1);
        LegalWriteKeepsShape(Front(h), h[i].secret, h[i].how);
      }
    }
  }
}
