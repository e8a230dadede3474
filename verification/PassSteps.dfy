/** What a pass may rely on between its calls, whatever the other passes and
    writers do meanwhile, and the pure parts of what it computes. */
module PassSteps {
  import opened Wrappers
  import opened Records
  import opened RevokeLedger
  import opened SecretHistory
  import opened HistoryTheorems
  import opened Protocol
  import opened ProtocolInvariant
  import opened Safety
  import opened ApiCalls
  import Backoff

  /** spec.tokenManagement. */
  datatype TokenManagement = TokenManagement(
    enabled: bool, external: bool, autoRotate: bool, rotationPeriod: Setting, gracePeriod: Setting)

  const FENCE_ATTEMPTS: nat := 3

  datatype FenceOutcome = StillUnknown | HasLanded | NotLanded

  /** No run from w ever contains a swap to this token. */
  ghost predicate NeverLands(w: World, minted: Accessor)
    requires |w.hist| > 0
  {
    forall es, v | v in Run(w, es).hist && v.how.Swap? :: v.how.minted != minted
  }

  /** A version made by a fence for the swap: it and the one before have it unresolved. */
  ghost predicate Fenced(w: World, c: Copy, minted: Accessor, now: Time) {
    && 0 < c.rv < |w.hist| && w.hist[c.rv] == Version(c.secret, Touch)
    && Pending(w.hist[c.rv - 1].secret, minted) && Pending(c.secret, minted)
    && c.secret == w.hist[c.rv - 1].secret.(fence := Some(now))
  }

  /** What an undisturbed fence leaves. */
  function FencedCopy(w: World, now: Time): Copy
    requires |w.hist| > 0
  {
    Copy(Current(w).(fence := Some(now)), |w.hist|)
  }

  lemma {:induction false} FencedNeverLands(w: World, c: Copy, minted: Accessor, now: Time)
    requires Inv(w) && Fenced(w, c, minted, now)
    ensures NeverLands(w, minted)
  {
    forall es, v | v in Run(w, es).hist && v.how.Swap?
      ensures v.how.minted != minted
    {
      FenceIsFinal(w, c.rv, minted, es);
    }
  }

  lemma {:induction false} FencedLater(w: World, v: World, me: PassId, c: Copy, minted: Accessor, now: Time)
    requires Ahead(w, v, me) && Fenced(w, c, minted, now)
    ensures Fenced(v, c, minted, now)
  {
    assert v.hist[c.rv] == w.hist[c.rv] && v.hist[c.rv - 1] == w.hist[c.rv - 1];
  }

  /** A readable version without the swap's unresolved entry. */
  ghost predicate Cleared(w: World, c: Copy, minted: Accessor) {
    && c.rv < |w.hist| && w.hist[c.rv].secret == c.secret
    && c.secret.ledger.Entries? && !Pending(c.secret, minted)
  }

  /** The last call is a failed or useless read, or a write that met neither
      success nor a plain conflict. */
  predicate EndsInDoubt(calls: seq<Call>) {
    calls != [] &&
    match calls[|calls| - 1]
    case Read(_) => true
    case Wrote(_, answer) => answer in {Rejected, Uncertain}
    case _ => false
  }

  lemma {:induction false} DoubtfulEnd(calls: seq<Call>)
    requires calls != []
    requires calls[|calls| - 1].Read?
          || (calls[|calls| - 1].Wrote? && calls[|calls| - 1].answer in {Rejected, Uncertain})
    ensures EndsInDoubt(calls)
  {
  }

  lemma {:induction false} DoubtAfter(calls: seq<Call>, last: seq<Call>)
    requires EndsInDoubt(last)
    ensures EndsInDoubt(calls + last)
  {
  }

  /** From one log to the next a pass only read the Secret, fenced it, settled a
      swap or recorded a backoff: nothing was minted, revoked or swapped. */
  predicate OnlyUpkeep(before: seq<Call>, after: seq<Call>) {
    && before <= after
    && forall i | |before| <= i < |after| ::
         after[i].Read? || (after[i].Wrote? && (after[i].how.Touch? || after[i].how.Settle?))
  }

  predicate OnlyConflicts(calls: seq<Call>, attempts: nat) {
    && |calls| == 2 * attempts
    && forall i | 0 <= i < attempts :: calls[2 * i] == Read(true) && calls[2 * i + 1] == Wrote(Touch, Conflict)
  }

  lemma {:induction false} TouchIsLegal(w: World, me: PassId, c: Copy, s: Secret)
    requires Inv(w) && c.rv < |w.hist| && w.hist[c.rv].secret == c.secret
    requires s.token == c.secret.token && s.ledger == c.secret.ledger
    ensures CanSend(w, me, Write(c.rv, s, Touch))
  {
    assert w.hist[..c.rv + 1][c.rv] == w.hist[c.rv];
  }

  /** The version a settled swap left: made from a fenced version by recording
      that the swap never landed. */
  ghost predicate SettledFrom(w: World, rv: nat, s: Secret, minted: Accessor, now: Time, live: Accessor) {
    && 1 < rv < |w.hist| && w.hist[rv] == Version(s, Settle(minted, now))
    && Fenced(w, Copy(w.hist[rv - 1].secret, rv - 1), minted, now)
    && s == w.hist[rv - 1].secret.(
         ledger := Entries(Sift(w.hist[rv - 1].secret.ledger.entries, SettleSwap(SwapId(minted), now, live))))
  }

  lemma {:induction false} SettleIsLegal(w: World, me: PassId, c: Copy, minted: Accessor, now: Time)
    requires Inv(w) && Fenced(w, c, minted, now) && now <= w.clock
    ensures c.secret.ledger.Entries?
    ensures var kept := Sift(c.secret.ledger.entries, SettleSwap(SwapId(minted), now, Live(c.secret)));
      && CanSend(w, me, Write(c.rv, c.secret.(ledger := Entries(kept)), Settle(minted, now)))
      && AllScheduled(kept)
  {
    var h := w.hist[..c.rv + 1];
    assert Last(h) == w.hist[c.rv] && Last(Front(h)) == w.hist[c.rv - 1];
    EveryVersionIsShaped(w.hist, c.rv);
    SettledShape(c.secret.ledger.entries, minted, now, Live(c.secret));
  }

  lemma {:induction false} SettledFromFence(w: World, v: World, me: PassId, c: Copy, minted: Accessor, now: Time,
      s: Secret)
    requires Ahead(w, v, me) && Fenced(w, c, minted, now) && c.secret.ledger.Entries?
    requires s == c.secret.(
      ledger := Entries(Sift(c.secret.ledger.entries, SettleSwap(SwapId(minted), now, Live(c.secret)))))
    requires c.rv + 1 < |v.hist| && v.hist[c.rv + 1] == Version(s, Settle(minted, now))
    ensures SettledFrom(v, c.rv + 1, s, minted, now, Live(c.secret))
  {
    FencedLater(w, v, me, c, minted, now);
  }

  /** Rebuild the ledger for a swap that never landed. */
  method SettleEntries(entries: seq<Entry>, swap: SwapId, now: Time, live: Accessor) returns (kept: seq<Entry>)
    ensures kept == Sift(entries, SettleSwap(swap, now, live))
  {
    kept := [];
    for i := 0 to |entries|
      invariant kept == Sift(entries[..i], SettleSwap(swap, now, live))
    {
      var e := entries[i];
      SiftExtend(entries[..i], e, SettleSwap(swap, now, live));
      assert entries[..i + 1] == entries[..i] + [e];
      if e.swap == swap {
        if e.reason.UnresolvedMint? {
          e := e.(state := Scheduled, notBefore := now);
        } else if e.accessor == live {
          continue;
        }
      }
      kept := kept + [e];
    }
    assert entries[..|entries|] == entries;
  }

  /** The swaps whose minted entry is unresolved, in ledger order. */
  function SwapsOf(es: seq<Entry>): seq<SwapId> {
    if es == [] then []
    else
      var e := es[|es| - 1];
      SwapsOf(es[..|es| - 1]) + (if IsUnresolvedMint(e, e.swap) then [e.swap] else [])
  }

  method UnresolvedSwaps(entries: seq<Entry>) returns (swaps: seq<SwapId>)
    ensures swaps == SwapsOf(entries)
  {
    swaps := [];
    for i := 0 to |entries|
      invariant swaps == SwapsOf(entries[..i])
    {
      assert entries[..i + 1][..i] == entries[..i];
      if entries[i].reason.UnresolvedMint? && entries[i].state.Unresolved? {
        swaps := swaps + [entries[i].swap];
      }
    }
    assert entries[..|entries|] == entries;
  }

  /** A well-shaped ledger asks for at most one fence, and for none only when
      everything in it is scheduled. */
  lemma {:induction false} AtMostOneSwap(es: seq<Entry>)
    requires NoDuplicates(es) && UnresolvedAreMints(es) && OneUnresolved(es)
    ensures |SwapsOf(es)| <= 1
    ensures SwapsOf(es) == [] <==> AllScheduled(es)
    ensures SwapsOf(es) != [] ==> HasUnresolvedMint(es, SwapsOf(es)[0])
  {
    if es != [] {
      var n := |es| - 1;
      var e, front := es[n], es[..n];
      assert forall d | d in front :: d in es && d.accessor != e.accessor;
      assert es == front + [e];
      AtMostOneSwap(front);
      if IsUnresolvedMint(e, e.swap) {
        assert AllScheduled(front);
      }
    }
  }

  lemma {:induction false} VersionShape(w: World, i: nat)
    requires Inv(w) && i < |w.hist| && w.hist[i].secret.ledger.Entries?
    ensures WellShaped(w.hist[i].secret.ledger.entries, Live(w.hist[i].secret))
  {
    EveryVersionIsShaped(w.hist, i);
  }

  /** Each entry left is one that was there, or is due. */
  predicate OldOrDue(es: seq<Entry>, before: seq<Entry>, now: Time) {
    forall e | e in es :: Lists(before, e.accessor) && (e in before || Due(e, now))
  }

  /** Every accessor listed before is still listed, except perhaps the live one. */
  predicate ListsAllBut(es: seq<Entry>, before: seq<Entry>, live: Accessor) {
    forall e | e in before && e.accessor != live :: Lists(es, e.accessor)
  }

  lemma {:induction false} SettledLeavesOldOrDue(w: World, rv: nat, s: Secret, minted: Accessor, now: Time,
      live: Accessor, before: Secret)
    requires SettledFrom(w, rv, s, minted, now, live) && w.hist[rv - 1].secret == before.(fence := Some(now))
    ensures before.ledger.Entries? && s.ledger.Entries?
    ensures OldOrDue(s.ledger.entries, before.ledger.entries, now)
    ensures ListsAllBut(s.ledger.entries, before.ledger.entries, live)
    ensures s == before.(ledger := s.ledger, fence := Some(now))
  {
    forall d | d in s.ledger.entries
      ensures Lists(before.ledger.entries, d.accessor) && (d in before.ledger.entries || Due(d, now))
    {
      var e := SiftSource(before.ledger.entries, SettleSwap(SwapId(minted), now, live), d);
    }
    forall e | e in before.ledger.entries && e.accessor != live
      ensures Lists(s.ledger.entries, e.accessor)
    {
      SiftKeeps(before.ledger.entries, SettleSwap(SwapId(minted), now, live), e);
    }
  }

  /** The accessors a drain asks Vault to revoke: the due ones, never the live one. */
  function DueAccessors(es: seq<Entry>, now: Time, live: Accessor): seq<Accessor> {
    if es == [] then []
    else
      var e := es[|es| - 1];
      DueAccessors(es[..|es| - 1], now, live) + (if Due(e, now) && e.accessor != live then [e.accessor] else [])
  }

  lemma {:induction false} DueExtend(es: seq<Entry>, e: Entry, now: Time, live: Accessor)
    ensures DueAccessors(es + [e], now, live)
         == DueAccessors(es, now, live) + (if Due(e, now) && e.accessor != live then [e.accessor] else [])
  {
    assert (es + [e])[..|es|] == es;
  }

  /** The accessors these calls asked Vault to revoke. */
  function Asked(calls: seq<Call>): seq<Accessor> {
    if calls == [] then []
    else
      var c := calls[|calls| - 1];
      Asked(calls[..|calls| - 1]) + (if c.AskedToRevoke? then [c.a] else [])
  }

  predicate OnlyRevokes(calls: seq<Call>) {
    forall c | c in calls :: c.AskedToRevoke? || c.Verified?
  }

  /** The calls of one revocation. */
  predicate AsksFor(calls: seq<Call>, a: Accessor) {
    || calls == [AskedToRevoke(a)]
    || (|calls| == 2 && calls[0] == AskedToRevoke(a) && calls[1].Verified?)
  }

  lemma {:induction false} AskedOnce(calls: seq<Call>, a: Accessor, more: seq<Call>)
    requires AsksFor(more, a) && OnlyRevokes(calls)
    ensures Asked(calls + more) == Asked(calls) + [a] && OnlyRevokes(calls + more)
  {
    var one := calls + [AskedToRevoke(a)];
    assert one[..|calls|] == calls;
    if |more| == 2 {
      assert (calls + more)[..|calls| + 1] == one;
    } else {
      assert calls + more == one;
    }
  }

  /** Take the entry a cancel request names out of the ledger. */
  method DropCancelled(entries: seq<Entry>, cancel: Accessor) returns (left: seq<Entry>)
    ensures left == Cancelled(entries, Some(cancel))
  {
    left := entries;
    for i := 0 to |entries|
      invariant left == entries
      invariant forall j | 0 <= j < i :: !Cancels(entries[j], cancel)
    {
      if entries[i].accessor == cancel && entries[i].state.Scheduled? {
        CancelledAt(entries, cancel, i);
        left := entries[..i] + entries[i + 1..];
        return;
      }
    }
    CancelledNothing(entries, cancel);
  }

  /** Confirming one more accessor does not change how earlier entries fared. */
  lemma {:induction false} ConfirmOneMore(es: seq<Entry>, i: nat, gone: set<Accessor>, live: Accessor, now: Time)
    requires NoDuplicates(es) && i < |es|
    ensures Sift(es[..i], DropGone(gone + {es[i].accessor}, live, now)) == Sift(es[..i], DropGone(gone, live, now))
  {
    SiftSame(es[..i], DropGone(gone + {es[i].accessor}, live, now), DropGone(gone, live, now));
  }

  ghost predicate AllGone(w: World, gone: set<Accessor>) {
    forall a | a in gone :: Issued(w, a) && a !in w.valid
  }

  lemma {:induction false} StillGone(w: World, v: World, me: PassId, gone: set<Accessor>)
    requires Ahead(w, v, me) && AllGone(w, gone)
    ensures AllGone(v, gone)
  {
  }

  lemma {:induction false} OneMoreGone(w: World, v: World, me: PassId, gone: set<Accessor>, a: Accessor)
    requires AllGone(v, gone) && Issued(w, a) && Ahead(w, v, me) && a !in v.valid
    ensures AllGone(v, gone + {a})
  {
  }

  /** Every confirmed accessor is one of the first i entries'. */
  predicate AmongFirst(es: seq<Entry>, i: nat, gone: set<Accessor>) {
    i <= |es| && forall a | a in gone :: Lists(es[..i], a)
  }

  lemma {:induction false} NothingYet(w: World, es: seq<Entry>, live: Accessor, now: Time)
    ensures AllGone(w, {}) && AmongFirst(es, 0, {}) && Asked([]) == [] && OnlyRevokes([])
    ensures Sift(es[..0], DropGone({}, live, now)) == [] && DueAccessors(es[..0], now, live) == []
  {
  }

  /** With distinct accessors the next entry's is not among the confirmed ones. */
  lemma {:induction false} NotYetGone(es: seq<Entry>, i: nat, gone: set<Accessor>)
    requires NoDuplicates(es) && i < |es| && AmongFirst(es, i, gone)
    ensures es[i].accessor !in gone
    ensures AmongFirst(es, i + 1, gone) && AmongFirst(es, i + 1, gone + {es[i].accessor})
  {
    assert es[..i + 1] == es[..i] + [es[i]];
    assert forall d | d in es[..i] :: d in es[..i + 1];
    assert es[i] in es[..i + 1];
  }

  predicate GoneWereDue(es: seq<Entry>, gone: set<Accessor>, live: Accessor, now: Time) {
    forall a | a in gone :: exists e | e in es :: e.accessor == a && Due(e, now) && a != live
  }

  predicate NothingDue(es: seq<Entry>, live: Accessor, now: Time) {
    forall e | e in es :: e.accessor == live || e.state.Unresolved? || now < e.notBefore
  }

  lemma {:induction false} NoneGone(es: seq<Entry>, live: Accessor, now: Time)
    ensures GoneWereDue(es, {}, live, now)
  {
  }

  lemma {:induction false} DueEntry(es: seq<Entry>, e: Entry, live: Accessor, now: Time)
    requires e in es && e.accessor != live && e.state.Scheduled? && now >= e.notBefore
    ensures !NothingDue(es, live, now) && Due(e, now)
  {
  }

  lemma {:induction false} OneMoreWasDue(es: seq<Entry>, gone: set<Accessor>, e: Entry, live: Accessor, now: Time)
    requires GoneWereDue(es, gone, live, now) && e in es && Due(e, now) && e.accessor != live
    ensures GoneWereDue(es, gone + {e.accessor}, live, now)
  {
  }

  lemma {:induction false} WhatWasDone(es: seq<Entry>, gone: set<Accessor>, live: Accessor, now: Time)
    requires GoneWereDue(es, gone, live, now)
    ensures forall a | a in gone :: exists e | e in es :: e.accessor == a && Due(e, now) && a != live
    ensures (forall e | e in es :: e.accessor == live || e.state.Unresolved? || now < e.notBefore) ==>
      NothingDue(es, live, now)
  {
  }

  /** Whom a cancel request named is not left among the scheduled. */
  lemma {:induction false} CancelledIsNotLeft(es: seq<Entry>, cancel: Option<Accessor>)
    requires NoDuplicates(es) && AllScheduled(es)
    ensures forall e | e in Cancelled(es, cancel) :: e in es && Some(e.accessor) != cancel
    ensures cancel.None? ==> Cancelled(es, cancel) == es
  {
    if cancel.Some? {
      CancelledExactly(es, cancel.value);
    }
  }

  /** Due entries among these whose accessor is not the live one are all gone. */
  predicate DueAreGone(es: seq<Entry>, gone: set<Accessor>, live: Accessor, now: Time) {
    forall e | e in es && Due(e, now) && e.accessor != live :: e.accessor in gone
  }

  lemma {:induction false} NothingDropped(es: seq<Entry>, gone: set<Accessor>, live: Accessor, now: Time)
    requires |Sift(es, DropGone(gone, live, now))| == |es|
    ensures Sift(es, DropGone(gone, live, now)) == es
  {
    if es != [] {
      NothingDropped(es[..|es| - 1], gone, live, now);
    }
  }

  lemma {:induction false} KeptAreNotDue(es: seq<Entry>, gone: set<Accessor>, live: Accessor, now: Time)
    requires DueAreGone(es, gone, live, now)
    ensures forall e | e in Sift(es, DropGone(gone, live, now)) :: e in es && !Due(e, now)
  {
    forall e | e in Sift(es, DropGone(gone, live, now))
      ensures e in es && !Due(e, now)
    {
      var d := SiftSource(es, DropGone(gone, live, now), e);
    }
  }

  /** What a drain keeps of the ledger: all of it unless something was cancelled or
      confirmed gone, and nothing due once everything due is gone. */
  lemma {:induction false} WhatIsKept(w: World, es: seq<Entry>, gone: set<Accessor>, live: Accessor, now: Time)
    requires AllGone(w, gone)
    ensures var kept := Sift(es, DropGone(gone, live, now));
      && (|kept| >= |es| ==> kept == es)
      && (gone == {} && (forall e | e in es :: now < e.notBefore) ==> kept == es)
      && (DueAreGone(es, gone, live, now) ==> forall e | e in kept :: e in es && !Due(e, now))
      && (DueAreGone(es, gone, live, now) ==>
            forall e | e in es && Due(e, now) && e.accessor != live :: e.accessor !in w.valid)
  {
    var f := DropGone(gone, live, now);
    if |Sift(es, f)| >= |es| {
      NothingDropped(es, gone, live, now);
    }
    if gone == {} && forall e | e in es :: now < e.notBefore {
      SiftAll(es, f);
    }
    if DueAreGone(es, gone, live, now) {
      KeptAreNotDue(es, gone, live, now);
    }
  }

  /** The annotations a drain leaves: the request is served, and the auto-rotate
      ones say what the spec says. */
  function Tidied(s: Secret, tm: TokenManagement, kept: seq<Entry>): Secret {
    s.(ledger := Entries(kept), cancelRevoke := None,
       autoRotate := if tm.autoRotate then Some(tm.rotationPeriod) else None)
  }

  /** The version a drain left. */
  ghost predicate DrainedFrom(w: World, rv: nat, s: Secret, before: Secret, tm: TokenManagement, now: Time) {
    && 0 < rv < |w.hist| && w.hist[rv - 1].secret == before && w.hist[rv].secret == s && before.ledger.Entries?
    && w.hist[rv].how.Drain? && w.hist[rv].how.cancel == before.cancelRevoke && w.hist[rv].how.now == now
    && s == Tidied(before, tm,
         Sift(Cancelled(before.ledger.entries, before.cancelRevoke), DropGone(w.hist[rv].how.gone, Live(before), now)))
  }

  lemma {:induction false} DrainIsLegal(w: World, me: PassId, rv: nat, s: Secret, gone: set<Accessor>,
      tm: TokenManagement, now: Time)
    requires Inv(w) && rv < |w.hist| && Settled(w.hist[rv].secret) && AllGone(w, gone) && now <= w.clock
    requires s == Tidied(w.hist[rv].secret, tm,
      Sift(Cancelled(w.hist[rv].secret.ledger.entries, w.hist[rv].secret.cancelRevoke),
           DropGone(gone, Live(w.hist[rv].secret), now)))
    ensures CanSend(w, me, Write(rv, s, Drain(w.hist[rv].secret.cancelRevoke, gone, now)))
    ensures AllScheduled(s.ledger.entries)
  {
    var base := w.hist[rv].secret;
    assert Last(w.hist[..rv + 1]) == w.hist[rv];
    EveryVersionIsShaped(w.hist, rv);
    DrainedShape(base.ledger.entries, base.cancelRevoke, gone, now, Live(base));
  }

  lemma {:induction false} DrainLeaves(
      w: World, rv: nat, s: Secret, before: Secret, gone: set<Accessor>, tm: TokenManagement, now: Time)
    requires rv + 1 < |w.hist| && w.hist[rv].secret == before && before.ledger.Entries?
    requires w.hist[rv + 1] == Version(s, Drain(before.cancelRevoke, gone, now))
    requires s == Tidied(before, tm,
      Sift(Cancelled(before.ledger.entries, before.cancelRevoke), DropGone(gone, Live(before), now)))
    ensures DrainedFrom(w, rv + 1, s, before, tm, now)
  {
  }

  // ---- What writes say about the backoff ----

  /** A swap clears the backoff; any other write keeps the one of the version it
      was made from, unless it is there to record this instant. */
  predicate CarriesBackoff(w: World, x: Write, until: Option<Time>) {
    && x.pre < |w.hist|
    && if x.how.Swap? then x.secret.backoff == None
       else || x.secret.backoff == w.hist[x.pre].secret.backoff
            || (x.how.Touch? && until.Some? && x.secret.backoff == Some(TruncateToSecond(until.value)))
  }

  /** All the writes sent from the one log to the other do so. */
  predicate BackoffsSent(w: World, before: seq<Write>, after: seq<Write>, until: Option<Time>) {
    before <= after && forall i | |before| <= i < |after| :: CarriesBackoff(w, after[i], until)
  }

  /** The last call was the write that records this instant, unless the read before
      it failed or found another token. */
  ghost predicate EndsBackedOff(w: World, calls: seq<Call>, sent: seq<Write>, token: Token, until: Time) {
    && calls != []
    && match calls[|calls| - 1]
       case Read(found) => found ==> exists v | v in w.hist :: v.secret.token != token
       case Wrote(how, _) =>
         && how.Touch? && sent != [] && sent[|sent| - 1].how.Touch? && sent[|sent| - 1].secret.token == token
         && sent[|sent| - 1].secret.backoff == Some(TruncateToSecond(until))
       case _ => false
  }

  lemma {:induction false} VersionStays(v: World, w: World, rv: nat)
    requires Later(v, w) && rv < |v.hist|
    ensures rv < |w.hist| && w.hist[rv] == v.hist[rv]
  {
  }

  lemma {:induction false} FencedCopyIsThere(w: World, c: Copy, minted: Accessor, now: Time)
    requires Fenced(w, c, minted, now)
    ensures c.rv < |w.hist| && w.hist[c.rv].secret == c.secret
  {
  }

  lemma {:induction false} NothingSent(w: World, sent: seq<Write>)
    ensures forall until :: BackoffsSent(w, sent, sent, until)
  {
  }

  lemma {:induction false} OneSent(v: World, w: World, sent: seq<Write>, x: Write, until: Option<Time>)
    requires Later(v, w) && CarriesBackoff(v, x, until)
    ensures BackoffsSent(w, sent, sent + [x], until)
  {
    assert v.hist[x.pre] == w.hist[x.pre];
  }

  lemma {:induction false} SentThen(
      v: World, w: World, a: seq<Write>, b: seq<Write>, c: seq<Write>, until: Option<Time>)
    requires Later(v, w) && BackoffsSent(v, a, b, None) && BackoffsSent(w, b, c, until)
    ensures BackoffsSent(w, a, c, until)
  {
    forall i | |a| <= i < |c|
      ensures CarriesBackoff(w, c[i], until)
    {
      if i < |b| {
        assert CarriesBackoff(v, b[i], None) && b[i] == c[i] && v.hist[b[i].pre] == w.hist[b[i].pre];
      }
    }
  }

  lemma {:induction false} StillSent(
      v: World, w: World, a: seq<Write>, b: seq<Write>, until: Option<Time>)
    requires Later(v, w) && BackoffsSent(v, a, b, until)
    ensures BackoffsSent(w, a, b, until)
  {
    forall i | |a| <= i < |b|
      ensures CarriesBackoff(w, b[i], until)
    {
      assert CarriesBackoff(v, b[i], until) && v.hist[b[i].pre] == w.hist[b[i].pre];
    }
  }

  /** Saying when to resume allows more than saying nothing. */
  lemma {:induction false} SentWithout(w: World, a: seq<Write>, b: seq<Write>)
    requires BackoffsSent(w, a, b, None)
    ensures forall until :: BackoffsSent(w, a, b, until)
  {
    assert forall i | |a| <= i < |b| :: CarriesBackoff(w, b[i], None);
  }

  // ---- Rotating ----

  /** A duration setting, its default when blank; none when it does not parse. */
  function SpanOf(s: Setting, default: Time): Option<Time> {
    match s
    case Blank => Some(default)
    case Malformed => None
    case Lasting(span) => Some(span)
  }

  predicate RotationForced(s: Secret) {
    s.rotateNow.Graceful? || s.rotateNow.Immediate?
  }

  /** A mint this pass holds, unknown to the history up to the pass's version. */
  ghost predicate FreshMint(w: World, me: PassId, rv: nat, now: Time, m: Accessor) {
    && rv < |w.hist| && Unseen(w.hist[..rv + 1], m)
    && m in w.held && w.held[m] == me && Issued(w, m) && TruncateToSecond(now) <= w.created[m]
  }

  lemma {:induction false} FreshLater(w: World, v: World, me: PassId, rv: nat, now: Time, m: Accessor)
    requires Ahead(w, v, me) && FreshMint(w, me, rv, now, m)
    ensures FreshMint(v, me, rv, now, m)
  {
    assert v.hist[..rv + 1] == w.hist[..rv + 1];
  }

  lemma {:induction false} MintIsFresh(w: World, v: World, me: PassId, rv: nat, now: Time, m: Accessor)
    requires Later(w, v) && now <= w.clock && rv < |v.hist| && Unseen(v.hist, m)
    requires m in v.held && v.held[m] == me && Issued(v, m) && TruncateToSecond(w.clock) <= v.created[m]
    ensures FreshMint(v, me, rv, now, m)
  {
  }

  /** An unforced rotation is decided on a token at least a period old. */
  ghost predicate OldEnough(w: World, a: Accessor, stamp: Stamp) {
    Issued(w, a) && (stamp.forced || stamp.now - w.created[a] >= stamp.period)
  }

  lemma {:induction false} OldEnoughLater(w: World, v: World, a: Accessor, stamp: Stamp)
    requires Later(w, v) && OldEnough(w, a, stamp)
    ensures OldEnough(v, a, stamp)
  {
  }

  /** The Secret with the rotation recorded in its ledger. */
  function WithLedger(s: Secret, m: Accessor, notBefore: Time, reason: Reason): Secret
    requires s.ledger.Entries?
  {
    s.(ledger := Entries(Recorded(s.ledger.entries, m, Live(s), notBefore, reason)))
  }

  /** The Secret with the minted token installed. */
  function Swapped(s: Secret, m: Accessor, installed: seq<Entry>): Secret {
    s.(token := Token(m), ledger := Entries(installed), rotateNow := NotRequested, backoff := None)
  }

  lemma {:induction false} RecordIsLegal(
      w: World, me: PassId, rv: nat, s: Secret, m: Accessor, notBefore: Time, reason: Reason, stamp: Stamp)
    requires Inv(w) && rv < |w.hist| && w.hist[rv].secret == s && Settled(s)
    requires |s.ledger.entries| < LEDGER_FULL && DecidedBy(stamp, notBefore, reason)
    requires FreshMint(w, me, rv, stamp.now, m) && OldEnough(w, Live(s), stamp) && stamp.now <= w.clock
    ensures CanSend(w, me, Write(rv, WithLedger(s, m, notBefore, reason), Record(m, notBefore, reason, stamp)))
    ensures Foreign(s.ledger.entries, m)
  {
    assert w.hist[..rv + 1][rv] == w.hist[rv];
  }

  /** The version a Record made. */
  ghost predicate RecordedFrom(
      w: World, rv: nat, before: Secret, s: Secret, m: Accessor, notBefore: Time, reason: Reason, stamp: Stamp) {
    && 0 < rv < |w.hist| && w.hist[rv - 1].secret == before && before.ledger.Entries?
    && Foreign(before.ledger.entries, m)
    && s == WithLedger(before, m, notBefore, reason)
    && w.hist[rv] == Version(s, Record(m, notBefore, reason, stamp))
  }

  /** Leaving the minted entry out restores the ledger as it was and the old entry after it. */
  lemma {:induction false} Installed(es: seq<Entry>, m: Accessor, retired: Accessor, notBefore: Time, reason: Reason)
    requires Foreign(es, m) && !reason.UnresolvedMint?
    ensures Sift(Recorded(es, m, retired, notBefore, reason), DropMint(SwapId(m)))
            == es + [OldEntry(m, retired, notBefore, reason)]
  {
    var f := DropMint(SwapId(m));
    SiftAll(es, f);
    assert Recorded(es, m, retired, notBefore, reason)
           == (es + [MintEntry(m)]) + [OldEntry(m, retired, notBefore, reason)];
    SiftExtend(es, MintEntry(m), f);
    SiftExtend(es + [MintEntry(m)], OldEntry(m, retired, notBefore, reason), f);
  }

  lemma {:induction false} SiftAll(es: seq<Entry>, f: Entry -> Option<Entry>)
    requires forall e | e in es :: f(e) == Some(e)
    ensures Sift(es, f) == es
  {
    if es != [] {
      SiftAll(es[..|es| - 1], f);
    }
  }

  /** The ledger without the entry of the swap being sent. */
  method InstalledEntries(recorded: seq<Entry>, swap: SwapId) returns (installed: seq<Entry>)
    ensures installed == Sift(recorded, DropMint(swap))
  {
    installed := [];
    for i := 0 to |recorded|
      invariant installed == Sift(recorded[..i], DropMint(swap))
    {
      var e := recorded[i];
      SiftExtend(recorded[..i], e, DropMint(swap));
      assert recorded[..i + 1] == recorded[..i] + [e];
      if e.swap != swap || !e.reason.UnresolvedMint? {
        installed := installed + [e];
      }
    }
    assert recorded[..|recorded|] == recorded;
  }

  lemma {:induction false} SwapIsLegal(
      w: World, me: PassId, rv: nat, before: Secret, s: Secret, m: Accessor, notBefore: Time,
      reason: Reason, stamp: Stamp)
    requires Inv(w) && RecordedFrom(w, rv, before, s, m, notBefore, reason, stamp) && !reason.UnresolvedMint?
    requires m in w.held && w.held[m] == me
    ensures var installed := Sift(s.ledger.entries, DropMint(SwapId(m)));
      && CanSend(w, me, Write(rv, Swapped(s, m, installed), Swap(m, stamp)))
      && installed == before.ledger.entries + [OldEntry(m, Live(before), notBefore, reason)]
    ensures Pending(s, m) && Tracks(s, m)
  {
    assert Last(w.hist[..rv + 1]) == w.hist[rv];
    Installed(before.ledger.entries, m, Live(before), notBefore, reason);
    assert s.ledger.entries[|before.ledger.entries|] == MintEntry(m);
    assert IsUnresolvedMint(MintEntry(m), SwapId(m));
  }

  /** The version a rotation left: it and the one before are the two writes of
      the rotation, and the token it replaced is scheduled in the same version. */
  ghost predicate RotatedFrom(
      w: World, rv: nat, before: Secret, s: Secret, m: Accessor, notBefore: Time, reason: Reason, stamp: Stamp) {
    && 1 < rv < |w.hist| && before.ledger.Entries?
    && RecordedFrom(w, rv - 1, before, w.hist[rv - 1].secret, m, notBefore, reason, stamp)
    && w.hist[rv] == Version(s, Swap(m, stamp))
    && s == Swapped(before, m, before.ledger.entries + [OldEntry(m, Live(before), notBefore, reason)])
  }

  lemma {:induction false} StrayForever(w: World, v: World, m: Accessor)
    requires Later(w, v) && m in w.stray
    ensures m in v.stray
  {
  }

  lemma {:induction false} RecordedLater(
      w: World, v: World, rv: nat, before: Secret, s: Secret, m: Accessor, notBefore: Time,
      reason: Reason, stamp: Stamp)
    requires Later(w, v) && RecordedFrom(w, rv, before, s, m, notBefore, reason, stamp)
    ensures RecordedFrom(v, rv, before, s, m, notBefore, reason, stamp)
  {
    assert v.hist[rv] == w.hist[rv] && v.hist[rv - 1] == w.hist[rv - 1];
  }

  /** A swap that was settled as not landed leaves its mint listed, and due. */
  lemma {:induction false} SettledKeepsTheMint(w: World, rv: nat, s: Secret, m: Accessor, now: Time, live: Accessor)
    requires Inv(w) && SettledFrom(w, rv, s, m, now, live)
    ensures Tracks(s, m) && exists e | e in s.ledger.entries :: e.accessor == m && Due(e, now)
    ensures Entry(m, now, UnresolvedMint, Scheduled, SwapId(m)) in s.ledger.entries
  {
    var es := w.hist[rv - 1].secret.ledger.entries;
    EveryVersionIsShaped(w.hist, rv - 1);
    var u :| u in es && IsUnresolvedMint(u, SwapId(m));
    SiftKeeps(es, SettleSwap(SwapId(m), now, live), u);
  }

  predicate IsSwap(c: Call) {
    c.Wrote? && c.how.Swap?
  }

  /** What a pass that mints may do at its i-th call. */
  predicate InRotation(calls: seq<Call>, i: nat)
    requires 0 < i < |calls|
  {
    match calls[i]
    case AskedToMint(_) => false
    case ReadClock(_) => false
    case AskedToRevoke(a) => calls[0] == AskedToMint(Some(a)) && forall j | 0 < j < |calls| :: !IsSwap(calls[j])
    case Wrote(Swap(m, _), _) =>
      && calls[0] == AskedToMint(Some(m)) && calls[i - 1].Wrote?
      && calls[i - 1].how.Record? && calls[i - 1].how.minted == m && calls[i - 1].answer.Accepted?
    case _ => true
  }

  /** The calls of a pass from its mint on: it mints once, it sends the swap only
      right after the write that records the mint was accepted, and it revokes
      nothing but a mint whose swap it never sends. */
  predicate OneRotation(calls: seq<Call>) {
    calls != [] && calls[0].AskedToMint? && forall i | 0 < i < |calls| :: InRotation(calls, i)
  }

  /** A rotation's calls up to the write that records it. */
  predicate Unsent(calls: seq<Call>, m: Accessor) {
    && OneRotation(calls) && calls[0] == AskedToMint(Some(m))
    && forall i | 0 < i < |calls| :: !IsSwap(calls[i]) && !calls[i].AskedToRevoke?
  }

  lemma {:induction false} ThenGivenUp(m: Accessor, first: seq<Call>, more: seq<Call>)
    requires AsksFor(more, m) && Unsent(first, m)
    ensures OneRotation(first + more) && (first + more)[0] == first[0] && !SwapAccepted(first + more)
  {
    var calls := first + more;
    forall i | 0 < i < |calls|
      ensures !IsSwap(calls[i]) && InRotation(calls, i)
    {
      assert i < |first| ==> InRotation(first, i);
      assert i >= |first| ==> calls[i] == more[i - |first|];
    }
  }

  lemma {:induction false} SwapIsUnsent(m: Accessor, accepted: bool, how: Origin, answer: Answer)
    requires how.Record?
    ensures Unsent([AskedToMint(Some(m))] + [LookedUp(Token(m), accepted)], m)
    ensures Unsent([AskedToMint(Some(m))] + [LookedUp(Token(m), accepted)] + [Wrote(how, answer)], m)
  {
  }

  lemma {:induction false} SwapWasSent(m: Accessor, how: Origin, stamp: Stamp, answer: Answer)
    requires how.Record? && how.minted == m
    ensures var calls :=
      [AskedToMint(Some(m))] + [LookedUp(Token(m), true)] + [Wrote(how, Accepted)] + [Wrote(Swap(m, stamp), answer)];
      OneRotation(calls) && (SwapAccepted(calls) <==> answer.Accepted?)
  {
    var calls :=
      [AskedToMint(Some(m))] + [LookedUp(Token(m), true)] + [Wrote(how, Accepted)] + [Wrote(Swap(m, stamp), answer)];
    assert calls[3] in calls;
  }

  predicate SwapAccepted(calls: seq<Call>) {
    exists c | c in calls :: IsSwap(c) && c.answer.Accepted?
  }

  /** Since the first log the pass made one rotation, which minted this, and its
      swap was accepted or not. */
  predicate RotationSince(before: seq<Call>, after: seq<Call>, got: Option<Accessor>, done: bool) {
    && before <= after && |before| < |after| && after[|before|] == AskedToMint(got)
    && OneRotation(after[|before|..]) && (done <==> SwapAccepted(after[|before|..]))
  }

  /** The calls of one drain: these revocations, and at most one write after them. */
  ghost predicate DrainCalls(
      before: seq<Call>, after: seq<Call>, due: seq<Accessor>, cancel: Option<Accessor>, now: Time) {
    exists calls ::
      && OnlyRevokes(calls) && Asked(calls) == due
      && (after == before + calls
          || exists gone, answer :: after == before + calls + [Wrote(Drain(cancel, gone, now), answer)])
  }

  lemma {:induction false} RevocationIsAsked(
      log: seq<Call>, calls: seq<Call>, more: seq<Call>, after: seq<Call>, m: Accessor)
    requires AsksFor(more, m) && log + calls + more <= after
    ensures AskedToRevoke(m) in after[|log|..]
  {
    assert after[|log|..][|calls|] == after[|log| + |calls|] == (log + calls + more)[|log| + |calls|] == more[0];
  }

  predicate NoRotationWrites(before: seq<Call>, after: seq<Call>) {
    && before <= after
    && forall i | |before| <= i < |after| && after[i].Wrote? :: after[i].how.Touch? || after[i].how.Settle?
  }

  lemma {:induction false} GivenUpWritesNothing(before: seq<Call>, more: seq<Call>, after: seq<Call>, m: Accessor)
    requires AsksFor(more, m) && OnlyUpkeep(before + more, after)
    ensures NoRotationWrites(before, after)
  {
    assert forall i | |before| <= i < |before| + |more| :: after[i] == (before + more)[i] == more[i - |before|];
  }

  /** The writes of one rotation carry what it decided, sent or not, landed or not. */
  predicate Decided(before: seq<Call>, after: seq<Call>, notBefore: Time, reason: Reason, stamp: Stamp) {
    && before <= after
    && forall i | |before| <= i < |after| && after[i].Wrote? ::
         match after[i].how
         case Record(_, instant, why, s) => instant == notBefore && why == reason && s == stamp
         case Swap(_, s) => s == stamp
         case _ => true
  }

  predicate AllDecided(calls: seq<Call>, notBefore: Time, reason: Reason, stamp: Stamp) {
    forall c | c in calls && c.Wrote? ::
      || (c.how.Record? && c.how.notBefore == notBefore && c.how.reason == reason && c.how.stamp == stamp)
      || (c.how.Swap? && c.how.stamp == stamp)
  }

  lemma {:induction false} RotationDecides(
      m: Accessor, accepted: bool, notBefore: Time, reason: Reason, stamp: Stamp, first: Answer, second: Answer)
    ensures var asked := [AskedToMint(Some(m))] + [LookedUp(Token(m), accepted)];
      var recorded := asked + [Wrote(Record(m, notBefore, reason, stamp), first)];
      && AllDecided(asked, notBefore, reason, stamp) && AllDecided(recorded, notBefore, reason, stamp)
      && AllDecided(recorded + [Wrote(Swap(m, stamp), second)], notBefore, reason, stamp)
  {
  }

  lemma {:induction false} StillDecided(
      before: seq<Call>, calls: seq<Call>, after: seq<Call>, notBefore: Time, reason: Reason, stamp: Stamp)
    requires NoRotationWrites(before + calls, after) && AllDecided(calls, notBefore, reason, stamp)
    ensures Decided(before, after, notBefore, reason, stamp)
  {
    assert forall i | |before| <= i < |before| + |calls| :: after[i] == (before + calls)[i] == calls[i - |before|];
  }

  lemma {:induction false} NothingDecided(
      before: seq<Call>, after: seq<Call>, notBefore: Time, reason: Reason, stamp: Stamp)
    requires OnlyUpkeep(before + [AskedToMint(None)], after)
    ensures Decided(before, after, notBefore, reason, stamp)
  {
    StillDecided(before, [AskedToMint(None)], after, notBefore, reason, stamp);
  }

  lemma {:induction false} NothingFollowed(log: seq<Call>)
    ensures NoRotationWrites(log, log)
  {
  }

  /** What backing off does to the Secret: one read, and perhaps a write. */
  predicate BacksOff(before: seq<Call>, after: seq<Call>) {
    && before <= after && |before| < |after| <= |before| + 2 && after[|before|].Read?
    && (|after| == |before| + 2 ==> after[|before| + 1].Wrote?)
  }

  /** A fence began with a read before the one that backing off makes. */
  predicate FencedBefore(before: seq<Call>, after: seq<Call>) {
    before <= after && |before| < |after| && after[|before|].Read?
    && exists i | |before| < i < |after| :: after[i].Read?
  }

  lemma {:induction false} FencedThenBackedOff(before: seq<Call>, mid: seq<Call>, after: seq<Call>)
    requires before <= mid && |before| < |mid| && mid[|before|].Read? && BacksOff(mid, after)
    ensures FencedBefore(before, after)
  {
  }

  /** Upkeep after a rotation's calls adds nothing to it. */
  lemma {:induction false} ThenUpkeep(before: seq<Call>, calls: seq<Call>, after: seq<Call>, got: Option<Accessor>)
    requires OneRotation(calls) && calls[0] == AskedToMint(got) && OnlyUpkeep(before + calls, after)
    ensures RotationSince(before, after, got, SwapAccepted(calls))
  {
    var all := after[|before|..];
    assert forall i | 0 <= i < |calls| :: all[i] == (before + calls)[|before| + i] == calls[i];
    assert forall i | |calls| <= i < |all| :: all[i] == after[|before| + i] && !IsSwap(all[i]);
    assert all[0] == after[|before|];
    forall i | 0 < i < |all|
      ensures InRotation(all, i)
    {
      if i < |calls| {
        assert InRotation(calls, i);
      }
    }
    if SwapAccepted(calls) {
      var c :| c in calls && IsSwap(c) && c.answer.Accepted?;
      assert c in all;
    }
  }

  lemma {:induction false} NothingMinted(before: seq<Call>, after: seq<Call>)
    requires OnlyUpkeep(before + [AskedToMint(None)], after)
    ensures RotationSince(before, after, None, false)
  {
    assert OneRotation([AskedToMint(None)]);
    ThenUpkeep(before, [AskedToMint(None)], after, None);
  }

  lemma {:induction false} RotationDone(before: seq<Call>, calls: seq<Call>, got: Option<Accessor>)
    requires OneRotation(calls) && calls[0] == AskedToMint(got)
    ensures RotationSince(before, before + calls, got, SwapAccepted(calls))
  {
    ThenUpkeep(before, calls, before + calls, got);
  }

  lemma {:induction false} UpkeepTwice(first: seq<Call>, second: seq<Call>, third: seq<Call>)
    requires OnlyUpkeep(first, second) && OnlyUpkeep(second, third)
    ensures OnlyUpkeep(first, first) && OnlyUpkeep(first, third)
  {
  }

  /** How a pass ends: nothing is due or allowed, the grace period does not parse,
      the rotation failed at one of its three steps, or it is done. */
  datatype Verdict = Idle | BadGrace | MintFailed | RecordFailed | SwapFailed | Rotated(minted: Accessor)
}
