/** The values the operator reads and writes: the admin Secret, its revoke
    ledger, and the tokens and accessors Vault hands out. */
module Records {
  import opened Wrappers

  /** Instants and durations, in nanoseconds. */
  type Time = int

  const SECOND: int := 1_000_000_000
  const MINUTE: int := 60 * SECOND
  const HOUR: int := 60 * MINUTE

  /** Vault reports creation times in whole seconds. */
  function TruncateToSecond(t: Time): (r: Time)
    ensures r % 1_000_000_000 == 0 && r <= t < r + 1_000_000_000
  {
    t - t % SECOND
  }

  type Accessor = nat

  /** Vault gives every token one accessor and never gives it to another. */
  datatype Token = Token(accessor: Accessor)

  /** One rotation's fresh random identifier, named here by the accessor that
      rotation mints: both are drawn once per rotation and never again. */
  datatype SwapId = SwapId(minted: Accessor)

  const LEDGER_CAP: nat := 16
  const LEDGER_FULL: nat := LEDGER_CAP - 1

  datatype Reason = Superseded | Forced | UnresolvedMint

  datatype EntryState = Scheduled | Unresolved

  datatype Entry = Entry(accessor: Accessor, notBefore: Time, reason: Reason, state: EntryState, swap: SwapId)

  /** The ledger annotation: readable entries, or text that does not parse. */
  datatype Ledger = Entries(entries: seq<Entry>) | Unreadable

  /** The rotate-now annotation: absent, "true", "immediate", or anything else. */
  datatype RotateNow = NotRequested | Graceful | Immediate | Garbled

  /** A duration setting: blank (the default applies), text that does not
      parse, or a value. */
  datatype Setting = Blank | Malformed | Lasting(span: Time)

  /** The admin Secret, without its resourceVersion. */
  datatype Secret = Secret(
    token: Token,
    placeholder: bool,              // empty or a recognised placeholder
    ledger: Ledger,
    rotateNow: RotateNow,
    cancelRevoke: Option<Accessor>,
    fence: Option<Time>,
    backoff: Option<Time>,
    autoRotate: Option<Setting>)    // the auto-rotate and rotation-period annotations
}
