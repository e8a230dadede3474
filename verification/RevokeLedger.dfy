/** The revoke ledger as a sequence of entries: how each writer edits it and
    the shape every edit keeps. */
module RevokeLedger {
  import opened Wrappers
  import opened Records

  /** No two entries track one accessor. */
  predicate NoDuplicates(es: seq<Entry>) {
    forall i, j | 0 <= i < j < |es| :: es[i].accessor != es[j].accessor
  }

  /** The minted entry of a swap whose outcome is unknown. */
  predicate IsUnresolvedMint(e: Entry, swap: SwapId) {
    e.swap == swap && e.reason.UnresolvedMint? && e.state.Unresolved?
  }

  predicate HasUnresolvedMint(es: seq<Entry>, swap: SwapId) {
    exists e | e in es :: IsUnresolvedMint(e, swap)
  }

  predicate AllScheduled(es: seq<Entry>) {
    forall e | e in es :: e.state.Scheduled?
  }

  /** Keep, change or drop each entry, in order. */
  function Sift(es: seq<Entry>, f: Entry -> Option<Entry>): (r: seq<Entry>)
    ensures |r| <= |es|
  {
    if es == [] then []
    else
      var rest := Sift(es[..|es| - 1], f);
      match f(es[|es| - 1])
      case None => rest
      case Some(e) => rest + [e]
  }

  predicate KeepsAccessors(f: Entry -> Option<Entry>, es: seq<Entry>) {
    forall e | e in es :: f(e).Some? ==> f(e).value.accessor == e.accessor
  }

  lemma {:induction false} SiftExtend(es: seq<Entry>, e: Entry, f: Entry -> Option<Entry>)
    ensures Sift(es + [e], f) == Sift(es, f) + (if f(e).Some? then [f(e).value] else [])
  {
    assert (es + [e])[..|es|] == es;
  }

  lemma {:induction false} SiftKeeps(es: seq<Entry>, f: Entry -> Option<Entry>, e: Entry)
    requires e in es && f(e).Some?
    ensures f(e).value in Sift(es, f)
  {
    var n := |es| - 1;
    if e != es[n] {
      assert e in es[..n];
      SiftKeeps(es[..n], f, e);
    }
  }

  lemma {:induction false} SiftSource(es: seq<Entry>, f: Entry -> Option<Entry>, r: Entry) returns (e: Entry)
    requires r in Sift(es, f)
    ensures e in es && f(e) == Some(r)
  {
    var n := |es| - 1;
    if f(es[n]) == Some(r) {
      e := es[n];
    } else {
      e := SiftSource(es[..n], f, r);
    }
  }

  lemma {:induction false} SiftKeepsDistinct(es: seq<Entry>, f: Entry -> Option<Entry>)
    requires NoDuplicates(es) && KeepsAccessors(f, es)
    ensures NoDuplicates(Sift(es, f))
  {
    if es != [] {
      var n := |es| - 1;
      SiftKeepsDistinct(es[..n], f);
      if f(es[n]).Some? {
        forall r | r in Sift(es[..n], f)
          ensures r.accessor != es[n].accessor
        {
          var e := SiftSource(es[..n], f, r);
        }
      }
    }
  }

  /** Two rules that agree on the entries sift them alike. */
  lemma {:induction false} SiftSame(es: seq<Entry>, f: Entry -> Option<Entry>, g: Entry -> Option<Entry>)
    requires forall e | e in es :: f(e) == g(e)
    ensures Sift(es, f) == Sift(es, g)
  {
    if es != [] {
      SiftSame(es[..|es| - 1], f, g);
    }
  }

  /** With distinct accessors, an accessor names at most one entry. */
  lemma {:induction false} OneEntryEach(es: seq<Entry>, a: Entry, b: Entry)
    requires NoDuplicates(es) && a in es && b in es && a.accessor == b.accessor
    ensures a == b
  {
    var i :| 0 <= i < |es| && es[i] == a;
    var j :| 0 <= j < |es| && es[j] == b;
    assert i == j;
  }

  /** The entry for a freshly minted token whose swap is still to be sent. */
  function MintEntry(minted: Accessor): Entry {
    Entry(minted, 0, UnresolvedMint, Unresolved, SwapId(minted))
  }

  function OldEntry(minted: Accessor, retired: Accessor, notBefore: Time, reason: Reason): Entry {
    Entry(retired, notBefore, reason, Scheduled, SwapId(minted))
  }

  /** The ledger a rotation writes before its swap. */
  function Recorded(es: seq<Entry>, minted: Accessor, retired: Accessor, notBefore: Time, reason: Reason): seq<Entry> {
    es + [MintEntry(minted), OldEntry(minted, retired, notBefore, reason)]
  }

  /** Rule of the swap: the minted entry goes. */
  function DropMint(swap: SwapId): Entry -> Option<Entry> {
    (e: Entry) => if e.swap == swap && e.reason.UnresolvedMint? then None else Some(e)
  }

  /** Rule of a swap that never landed: its minted entry is due now, and the
      token it would have replaced goes if it is the live one. */
  function SettleSwap(swap: SwapId, now: Time, live: Accessor): Entry -> Option<Entry> {
    (e: Entry) =>
      if e.swap != swap then Some(e)
      else if e.reason.UnresolvedMint? then Some(e.(state := Scheduled, notBefore := now))
      else if e.accessor == live then None
      else Some(e)
  }

  predicate Due(e: Entry, now: Time) {
    e.state.Scheduled? && e.notBefore <= now
  }

  /** Rule of a drain: due entries go once their accessor is gone from Vault,
      or when it is the live one. */
  function DropGone(gone: set<Accessor>, live: Accessor, now: Time): Entry -> Option<Entry> {
    (e: Entry) => if Due(e, now) && (e.accessor == live || e.accessor in gone) then None else Some(e)
  }

  predicate Cancels(e: Entry, accessor: Accessor) {
    e.accessor == accessor && e.state.Scheduled?
  }

  /** The ledger with the first scheduled entry for the cancelled accessor taken out. */
  function Cancelled(es: seq<Entry>, cancel: Option<Accessor>): (r: seq<Entry>)
    ensures |r| <= |es|
    ensures forall e | e in r :: e in es
  {
    if cancel.None? || es == [] then es
    else if Cancels(es[0], cancel.value) then es[1..]
    else [es[0]] + Cancelled(es[1..], cancel)
  }

  lemma {:induction false} CancelledKeepsDistinct(es: seq<Entry>, cancel: Option<Accessor>)
    requires NoDuplicates(es)
    ensures NoDuplicates(Cancelled(es, cancel))
  {
    if cancel.Some? && es != [] && !Cancels(es[0], cancel.value) {
      CancelledKeepsDistinct(es[1..], cancel);
      forall e | e in Cancelled(es[1..], cancel)
        ensures e.accessor != es[0].accessor
      {
        var j :| 0 <= j < |es[1..]| && es[1..][j] == e;
      }
    }
  }

  /** A cancel request takes out the scheduled entry it names and no other. */
  lemma {:induction false} CancelledExactly(es: seq<Entry>, cancel: Accessor)
    requires NoDuplicates(es)
    ensures forall e :: e in Cancelled(es, Some(cancel)) <==> e in es && !(e.accessor == cancel && e.state == Scheduled)
  {
    if es != [] {
      var rest := es[1..];
      assert es == [es[0]] + rest;
      CancelledExactly(rest, cancel);
      if Cancels(es[0], cancel) {
        forall e | e in rest
          ensures e.accessor != cancel
        {
          var j :| 0 <= j < |rest| && rest[j] == e;
          assert rest[j] == es[j + 1];
        }
      }
    }
  }

  /** The position of the first entry the cancel request names. */
  lemma {:induction false} CancelledAt(es: seq<Entry>, cancel: Accessor, i: nat)
    requires i < |es| && Cancels(es[i], cancel)
    requires forall j | 0 <= j < i :: !Cancels(es[j], cancel)
    ensures Cancelled(es, Some(cancel)) == es[..i] + es[i + 1..]
  {
    if i > 0 {
      CancelledAt(es[1..], cancel, i - 1);
      assert es[..i] == [es[0]] + es[1..][..i - 1];
      assert es[i + 1..] == es[1..][i..];
    }
  }

  lemma {:induction false} CancelledNothing(es: seq<Entry>, cancel: Accessor)
    requires forall e | e in es :: !Cancels(e, cancel)
    ensures Cancelled(es, Some(cancel)) == es
  {
    if es != [] {
      CancelledNothing(es[1..], cancel);
    }
  }

  // ---- The shape every version's ledger has ----

  /** Only a minted entry is ever unresolved, and a minted entry carries the
      identifier of the rotation that minted it. */
  predicate UnresolvedAreMints(es: seq<Entry>) {
    forall e | e in es ::
      && (e.state.Unresolved? ==> e.reason.UnresolvedMint?)
      && (e.reason.UnresolvedMint? ==> e.swap == SwapId(e.accessor))
  }

  predicate OneUnresolved(es: seq<Entry>) {
    forall e, d | e in es && d in es && e.state.Unresolved? && d.state.Unresolved? :: e == d
  }

  /** The live accessor is listed only as the token a still unresolved swap would retire. */
  predicate LiveOnlyAsOld(es: seq<Entry>, live: Accessor) {
    forall e | e in es && e.accessor == live ::
      e.state.Scheduled? && !e.reason.UnresolvedMint? && HasUnresolvedMint(es, e.swap)
  }

  predicate WellShaped(es: seq<Entry>, live: Accessor) {
    && NoDuplicates(es)
    && UnresolvedAreMints(es)
    && OneUnresolved(es)
    && LiveOnlyAsOld(es, live)
    && |es| <= LEDGER_CAP
  }

  predicate Lists(es: seq<Entry>, a: Accessor) {
    exists e | e in es :: e.accessor == a
  }

  /** Neither the accessor nor the swap named after it occurs. */
  predicate Foreign(es: seq<Entry>, a: Accessor) {
    forall e | e in es :: e.accessor != a && e.swap != SwapId(a)
  }

  /** Whoever is live while nothing is unresolved is not listed, so a scheduled
      revocation can never meet the live token. */
  lemma {:induction false} SettledLedgerOmitsLive(es: seq<Entry>, live: Accessor)
    requires WellShaped(es, live) && AllScheduled(es)
    ensures !Lists(es, live)
  {
  }

  lemma {:induction false} RecordedShape(es: seq<Entry>, minted: Accessor, live: Accessor, notBefore: Time,
      reason: Reason)
    requires WellShaped(es, live) && AllScheduled(es) && Foreign(es, minted) && minted != live
    requires |es| < LEDGER_FULL && !reason.UnresolvedMint?
    ensures WellShaped(Recorded(es, minted, live, notBefore, reason), live)
    ensures HasUnresolvedMint(Recorded(es, minted, live, notBefore, reason), SwapId(minted))
  {
    var r := Recorded(es, minted, live, notBefore, reason);
    assert r[|es|] == MintEntry(minted) && r[|es| + 1] == OldEntry(minted, live, notBefore, reason);
    assert IsUnresolvedMint(r[|es|], SwapId(minted));
    SettledLedgerOmitsLive(es, live);
    forall e | e in r && e.accessor == live
      ensures e == OldEntry(minted, live, notBefore, reason)
    {
      assert e in es ==> Lists(es, live);
    }
  }

  /** Dropping the minted entry while installing its token leaves a ledger in
      which nothing is unresolved. */
  lemma {:induction false} InstalledShape(es: seq<Entry>, minted: Accessor, live: Accessor)
    requires WellShaped(es, live) && HasUnresolvedMint(es, SwapId(minted))
    ensures WellShaped(Sift(es, DropMint(SwapId(minted))), minted)
    ensures AllScheduled(Sift(es, DropMint(SwapId(minted))))
    ensures !Lists(Sift(es, DropMint(SwapId(minted))), minted)
  {
    var f := DropMint(SwapId(minted));
    var r := Sift(es, f);
    SiftKeepsDistinct(es, f);
    var m :| m in es && IsUnresolvedMint(m, SwapId(minted));
    assert m.accessor == minted;
    forall x | x in r
      ensures x in es && x.state.Scheduled? && x.accessor != minted
    {
      var e := SiftSource(es, f, x);
      assert e.state.Unresolved? ==> e == m;
      if x.accessor == minted {
        OneEntryEach(es, x, m);
      }
    }
  }

  lemma {:induction false} SettledShape(es: seq<Entry>, minted: Accessor, now: Time, live: Accessor)
    requires WellShaped(es, live) && HasUnresolvedMint(es, SwapId(minted))
    ensures WellShaped(Sift(es, SettleSwap(SwapId(minted), now, live)), live)
    ensures AllScheduled(Sift(es, SettleSwap(SwapId(minted), now, live)))
  {
    var f := SettleSwap(SwapId(minted), now, live);
    var r := Sift(es, f);
    SiftKeepsDistinct(es, f);
    var m :| m in es && IsUnresolvedMint(m, SwapId(minted));
    forall x | x in r
      ensures x.state.Scheduled? && x.accessor != live
      ensures x.reason.UnresolvedMint? ==> x.swap == SwapId(x.accessor)
    {
      var e := SiftSource(es, f, x);
      assert e.state.Unresolved? ==> e == m;
      assert forall u | u in es && IsUnresolvedMint(u, e.swap) :: u == m;
    }
  }

  lemma {:induction false} DrainedShape(es: seq<Entry>, cancel: Option<Accessor>, gone: set<Accessor>, now: Time,
      live: Accessor)
    requires WellShaped(es, live) && AllScheduled(es)
    ensures WellShaped(Sift(Cancelled(es, cancel), DropGone(gone, live, now)), live)
    ensures AllScheduled(Sift(Cancelled(es, cancel), DropGone(gone, live, now)))
  {
    var kept := Cancelled(es, cancel);
    var f := DropGone(gone, live, now);
    CancelledKeepsDistinct(es, cancel);
    SiftKeepsDistinct(kept, f);
    SettledLedgerOmitsLive(es, live);
    forall x | x in Sift(kept, f)
      ensures x in es && x.accessor != live
    {
      var e := SiftSource(kept, f, x);
      assert Lists(es, x.accessor);
    }
  }
}
