/** The rotation protocol as a state machine over three parties: the apiserver
    holding the Secret and the writes in flight, Vault, and any number of
    passes and outside writers, interleaved in every order. */
module Protocol {
  import opened Wrappers
  import opened Records
  import opened RevokeLedger
  import opened SecretHistory

  type PassId = nat

  /** A write sent to the apiserver: a whole Secret and the version it is
      preconditioned on. It may land long after its sender heard an error. */
  datatype Write = Write(pre: nat, secret: Secret, how: Origin)

  /** Why a pass asks Vault to revoke an accessor: it is due in a version the
      pass read or wrote, or it is a mint the pass gave up before any swap. */
  datatype Cause = DueIn(version: nat) | GivenUp

  datatype World = World(
    hist: History,
    inflight: set<Write>,
    created: seq<Time>,             // creation time of every accessor ever issued
    valid: set<Accessor>,           // what Vault still knows
    expired: set<Accessor>,
    revoked: set<Accessor>,         // by the operator
    minted: set<Accessor>,          // by rotations
    held: map<Accessor, PassId>,    // minted, swap not yet sent, its pass still running
    stray: set<Accessor>,           // minted, given up before any swap was sent
    loose: set<Accessor>,           // left valid by a cancel request or an outside install
    clock: Time)

  datatype Event =
    | Land(write: Write)
    | Lose(write: Write)
    | Tick(elapsed: nat)
    | Expire(a: Accessor)
    | Issue                                            // Vault gives an outside writer a token
    | Outside(write: Write)                            // an outside writer sends a write
    | Mint(who: PassId)
    | MintUnseen(who: PassId)                          // Vault creates a token, the reply is lost
    | GiveUp(who: PassId, a: Accessor)
    | Crash(who: PassId)
    | Send(who: PassId, write: Write)
    | Revoke(who: PassId, a: Accessor, cause: Cause, takes: bool)

  function Current(w: World): Secret
    requires |w.hist| > 0
  {
    w.hist[|w.hist| - 1].secret
  }

  predicate Issued(w: World, a: Accessor) {
    a < |w.created|
  }

  predicate Preconditioned(w: World, x: Write) {
    x.pre < |w.hist| && LegalWrite(w.hist[..x.pre + 1], x.secret, x.how)
  }

  /** Only the write preconditioned on the current version can land. */
  predicate CanLand(w: World, x: Write) {
    x in w.inflight && x.pre + 1 == |w.hist|
  }

  /** What a pass may send, given what it holds. */
  predicate CanSend(w: World, who: PassId, x: Write) {
    && Preconditioned(w, x)
    && match x.how
       case Touch => true
       case Record(m, _, _, stamp) =>
         && m in w.held && w.held[m] == who && Issued(w, m)
         && stamp.now <= w.clock && TruncateToSecond(stamp.now) <= w.created[m]
         && Issued(w, Live(x.secret))
         && (stamp.forced || stamp.now - w.created[Live(x.secret)] >= stamp.period)
       case Swap(m, _) => m in w.held && w.held[m] == who
       case Settle(_, now) => now <= w.clock
       case Drain(_, gone, now) => now <= w.clock && forall a | a in gone :: Issued(w, a) && a !in w.valid
       case _ => false
  }

  /** Outside writers either keep token and ledger, or install a token that is
      not the operator's own undelivered mint: nobody else ever saw that one. */
  predicate CanSendOutside(w: World, x: Write) {
    && Preconditioned(w, x) && (x.how.Touch? || x.how.Install?)
    && Issued(w, Live(x.secret)) && Live(x.secret) !in w.held && Live(x.secret) !in w.stray
  }

  /** The guard of the code's revoke: the accessor is due in some version, and
      that version's own token has another accessor. */
  predicate MayRevoke(w: World, a: Accessor, cause: Cause) {
    match cause
    case GivenUp => a in w.stray
    case DueIn(i) =>
      && i < |w.hist| && w.hist[i].secret.ledger.Entries? && a != Live(w.hist[i].secret)
      && exists e | e in w.hist[i].secret.ledger.entries :: e.accessor == a && Due(e, w.clock)
  }

  predicate Enabled(w: World, e: Event)
    requires |w.hist| > 0
  {
    match e
    case Land(x) => CanLand(w, x)
    case Lose(x) => x in w.inflight
    case Tick(_) => true
    case Expire(a) => a in w.valid
    case Issue => true
    case Outside(x) => CanSendOutside(w, x)
    case Mint(_) => true
    case MintUnseen(_) => true
    case GiveUp(who, a) => a in w.held && w.held[a] == who
    case Crash(_) => true
    case Send(who, x) => CanSend(w, who, x)
    case Revoke(_, a, cause, _) => Issued(w, a) && MayRevoke(w, a, cause)
  }

  /** Accessors that stop being tracked without being revoked when x lands. */
  function LetLoose(base: Secret, how: Origin): set<Accessor> {
    match how
    case Install => if Tracks(base, Live(base)) then {} else {Live(base)}
    case Drain(Some(c), _, _) =>
      if base.ledger.Entries? && exists e | e in base.ledger.entries :: Cancels(e, c) then {c} else {}
    case _ => {}
  }

  function Landed(w: World, x: Write): World
    requires CanLand(w, x)
  {
    w.(hist := w.hist + [Version(x.secret, x.how)],
       inflight := w.inflight - {x},
       loose := w.loose + LetLoose(Current(w), x.how))
  }

  function HeldBy(w: World, who: PassId): set<Accessor> {
    set a | a in w.held && w.held[a] == who
  }

  function Issuing(w: World): World {
    w.(created := w.created + [TruncateToSecond(w.clock)], valid := w.valid + {|w.created|})
  }

  function Effect(w: World, e: Event): World
    requires |w.hist| > 0 && Enabled(w, e)
  {
    match e
    case Land(x) => Landed(w, x)
    case Lose(x) => w.(inflight := w.inflight - {x})
    case Tick(d) => w.(clock := w.clock + d)
    case Expire(a) => w.(valid := w.valid - {a}, expired := w.expired + {a})
    case Issue => Issuing(w)
    case Outside(x) => w.(inflight := w.inflight + {x})
    case Mint(who) =>
      Issuing(w).(minted := w.minted + {|w.created|}, held := w.held[|w.created| := who])
    case MintUnseen(_) =>
      Issuing(w).(minted := w.minted + {|w.created|}, stray := w.stray + {|w.created|})
    case GiveUp(_, a) => w.(held := w.held - {a}, stray := w.stray + {a})
    case Crash(who) => w.(held := w.held - HeldBy(w, who), stray := w.stray + HeldBy(w, who))
    case Send(_, x) =>
      w.(inflight := w.inflight + {x},
         held := if x.how.Swap? then w.held - {x.how.minted} else w.held)
    case Revoke(_, a, _, takes) =>
      if takes then w.(valid := w.valid - {a}, revoked := w.revoked + {a}) else w
  }

  /** One step; an event that cannot happen here changes nothing. */
  function Apply(w: World, e: Event): World
    requires |w.hist| > 0
    ensures |Apply(w, e).hist| > 0
  {
    if Enabled(w, e) then Effect(w, e) else w
  }

  /** Every interleaving from w is Run(w, es) for some events. */
  function Run(w: World, es: seq<Event>): (r: World)
    requires |w.hist| > 0
    ensures |r.hist| > 0
  {
    if es == [] then w else Apply(Run(w, es[..|es| - 1]), es[|es| - 1])
  }

  lemma {:induction false} RunExtend(w: World, es: seq<Event>, e: Event)
    requires |w.hist| > 0
    ensures Run(w, es + [e]) == Apply(Run(w, es), e)
  {
    assert (es + [e])[..|es|] == es;
  }

  lemma {:induction false} RunConcat(w: World, es: seq<Event>, fs: seq<Event>)
    requires |w.hist| > 0
    ensures Run(w, es + fs) == Run(Run(w, es), fs)
  {
    if fs == [] {
      assert es + fs == es;
    } else {
      var n := |fs| - 1;
      assert es + fs == (es + fs[..n]) + [fs[n]];
      RunExtend(w, es + fs[..n], fs[n]);
      RunConcat(w, es, fs[..n]);
    }
  }

  // ---- The invariant of every reachable state ----

  /** Every identifier in the Secret was issued before. */
  predicate OldIds(s: Secret, n: nat) {
    && Live(s) < n
    && (s.ledger.Entries? ==> forall e | e in s.ledger.entries :: e.accessor < n && e.swap.minted < n)
  }

  ghost predicate IdsAreOld(w: World) {
    var n := |w.created|;
    && (forall i | 0 <= i < |w.hist| :: OldIds(w.hist[i].secret, n))
    && (forall x | x in w.inflight :: OldIds(x.secret, n))
    && (forall a | a in w.valid || a in w.minted || a in w.held || a in w.stray :: a < n)
  }

  ghost predicate FlightsAreLegal(w: World) {
    forall x | x in w.inflight :: Preconditioned(w, x)
  }

  /** No version and no write in flight holds a token whose swap was not sent. */
  ghost predicate UnsentStayOut(w: World) {
    forall m | m in w.held || m in w.stray ::
      && m in w.minted
      && (forall i | 0 <= i < |w.hist| :: Live(w.hist[i].secret) != m)
      && (forall x | x in w.inflight :: Live(x.secret) != m)
  }

  ghost predicate HeldAreNotStray(w: World) {
    forall m | m in w.held :: m !in w.stray
  }

  predicate Confirmed(w: World, how: Origin) {
    how.Drain? ==> forall a | a in how.gone :: a < |w.created| && a !in w.valid
  }

  /** What a drain dropped as gone stays unknown to Vault. */
  ghost predicate DrainsAreConfirmed(w: World) {
    && (forall i | 0 <= i < |w.hist| :: Confirmed(w, w.hist[i].how))
    && (forall x | x in w.inflight :: Confirmed(w, x.how))
  }

  ghost predicate EveryTokenHasAFate(w: World) {
    && (forall a | 0 <= a < |w.created| :: a in w.valid || a in w.expired || a in w.revoked)
    && (forall a | a in w.revoked :: a in w.stray || Retired(w.hist, a))
  }

  /** Where a rotation-minted token that Vault still knows can be. */
  ghost predicate Accounted(w: World, a: Accessor)
    requires |w.hist| > 0
  {
    if Unseen(w.hist, a) then a in w.held || a in w.stray
    else a == Live(Current(w)) || Tracks(Current(w), a) || a in w.loose
  }

  ghost predicate MintsAreAccounted(w: World)
    requires |w.hist| > 0
  {
    forall a | a in w.minted && a in w.valid :: Accounted(w, a)
  }

  /** A rotation's decision was taken before its mint, and an unforced one on a
      token old enough. */
  predicate Timely(w: World, how: Origin, replaced: Accessor) {
    how.Record? ==>
      && how.minted < |w.created| && replaced < |w.created|
      && how.stamp.now <= w.clock && TruncateToSecond(how.stamp.now) <= w.created[how.minted]
      && (how.stamp.forced || how.stamp.now - w.created[replaced] >= how.stamp.period)
  }

  ghost predicate RotationsAreTimely(w: World) {
    && (forall i | 0 <= i < |w.hist| :: Timely(w, w.hist[i].how, Live(w.hist[i].secret)))
    && (forall x | x in w.inflight :: Timely(w, x.how, Live(x.secret)))
  }

  ghost predicate Inv(w: World) {
    && |w.hist| > 0 && Chain(w.hist)
    && FlightsAreLegal(w)
    && IdsAreOld(w)
    && UnsentStayOut(w)
    && HeldAreNotStray(w)
    && DrainsAreConfirmed(w)
    && EveryTokenHasAFate(w)
    && MintsAreAccounted(w)
    && RotationsAreTimely(w)
  }

  /** A first version, nothing in flight, no rotation yet. */
  ghost predicate Initial(w: World) {
    && |w.hist| == 1 && FirstVersion(w.hist[0]) && OldIds(w.hist[0].secret, |w.created|)
    && w.inflight == {} && w.revoked == {} && w.minted == {} && w.held == map[] && w.stray == {} && w.loose == {}
    && (forall a | a in w.valid :: a < |w.created|)
    && (forall a | 0 <= a < |w.created| :: a in w.valid || a in w.expired)
  }
}
