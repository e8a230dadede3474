# Vault admin-token rotation, recovery and stored-key unsealing

This project models three parts of the Vault transit-unseal operator and proves what they promise.

**Admin-token rotation.** The operator keeps one admin token in a Kubernetes Secret. To rotate it, a
pass mints a replacement in Vault, writes both tokens into a *revoke ledger* kept on the Secret, and
only then swaps the token. Every write names the resourceVersion it replaces. A write may be answered
by an error and still land later, a reply may be lost, a pass may crash, reads may be stale and any
number of passes and other writers may run at once. A later pass *fences* the Secret to settle a swap
whose outcome is unknown.

- `Wrappers`, `Records`, `RevokeLedger`: the values, and how each writer edits the ledger.
- `SecretHistory`, `HistoryTheorems`: the Secret as the list of all versions it ever had. Whether the
  code can send a write depends only on the history up to the version the write is preconditioned on,
  so a theorem about every history is one about every interleaving.
- `Protocol`, `ProtocolInvariant`, `Safety`: the state machine of apiserver, Vault, passes and outside
  writers. A run is any sequence of events; one that cannot happen changes nothing.
- `ApiCalls`: the calls of one pass as methods of a class over that state machine. Before each call a
  schedule lets everybody else take any steps, and says how the call is answered.
- `PassSteps`, `RotationPass`, `Manager`: the pass itself, call by call and branch by branch, with its
  fields `secret` and `ledger` reassigned as writes succeed.
- `Backoff`: the waits after failed rotations; `MintLog` and `Reconciles` tie them to the mints that the
  log of one process shows.
- `Recovery`: storing and reinstalling a token through the transit backup.
- `Counterexamples`: runs from an initial state in which a promise is not kept.

**Stored-key unsealing.** `KeyFile` is the parser of the key shares, `Unsealer` the loop that submits
them to a server that counts them.

## What was found

1. *"Never revokes the token the Secret holds" needs a condition.* The revoke guard looks at the
   version a pass holds. If recovery reinstalls an accessor that an earlier version had scheduled, a
   pass still working from that earlier version (another pass, or the same process on a stale cached
   read) revokes the live token. The rotation's own writes never cause this. The exact condition is
   that every install is of a *fit* token: one that no drain took out of the ledger before the version
   the install read (`Recovery.Fit`, `Recovery.GuardedInstallIsSafeIffFit`,
   `Recovery.RunIsCleanIffInstallsAreFit`). For a token that is looked up after that read and that
   Vault still knows, this is the same as that no cancel-revoke request took it out
   (`Recovery.KnownTokenIsFitIff`). Recovery's own check is not enough for two reasons. It ignores
   cancelled tokens (`Counterexamples.StalePassRevokesTheLiveToken`), and it looks the token up
   before it reads the Secret (`pkg/token/manager_simple.go:302-316`), so a token that is revoked and
   drained in between is installed dead (`Counterexamples.LookupBeforeReadIsTooEarly`).
2. *"Every token is recorded before it can be lost"* (`pkg/token/rotate.go:430`) does not cover a mint
   whose reply was lost, nor a crash between the mint and the ledger write
   (`Counterexamples.LostReply`, `Counterexamples.CrashBeforeTheRecord`). Such a token is in no
   version of any later run if and only if no write that records it can still land
   (`Safety.LostUnrecordedIff`).
3. *Scheduled rotations may follow each other within the period* when recovery reinstalls a token
   older than the period right after a rotation (`Counterexamples.RecoveryUndercutsThePeriod`). The
   age gate, with a period of at least a second, spaces rotations exactly when the token being replaced
   was not created a second or more before the earlier decision (`Safety.GateSpacesIff`), which holds
   of tokens rotations minted and of those self-heal installs.
4. A rotation period that does not parse returns before anything is settled or revoked
   (`pkg/token/rotate.go:90-93`, `Manager.RotateIfDue`), though "revocations already scheduled always
   complete" (`api/v1alpha1/vaulttransitunseal_types.go:344-345`).
5. `Unseal` reports progress 0 after a failure even if its reset failed
   (`Unsealer.ReportedProgressCanBeWrong`), and it does not reset when the very first submission
   fails, so a first share whose answer was lost stays counted
   (`Unsealer.LostFirstAnswerStaysCounted`). `Unsealer.FailureLeavesACleanSlate` says exactly when no
   progress is left.
6. `ParseKeys` equals the `tr -d '\n\r'` of the job it replaces on exactly the files described by
   `KeyFile.OneShare`: white space at either end of the share makes them differ
   (`KeyFile.SameAsDeletingIffOneShare`, `KeyFile.SpaceBeforeTheShare`).

## Model

| member | source | states |
|---|---|---|
| Safety.LiveTokenIsNeverRevoked | pkg/token/rotate.go:30-45 | in every interleaving, an accessor the guard lets a pass revoke is not live, is not what any write able to land would install, and is never live again, provided no outside writer reinstalls a retired accessor |
| Recovery.FitRunsNeverRevokeTheLiveToken | pkg/token/rotate.go:315-328 | the same, for live tokens and for what a write still able to land would install, in every run whose landed installs are of fit tokens |
| Safety.SecretHoldsAnAcceptedToken | pkg/token/rotate.go:30-45 | in every state of every such run Vault accepts the Secret's token, unless it expired |
| Counterexamples.LiveTokenCanExpire | pkg/token/rotate.go:71-89 | a run in which it does expire: the live token is unknown to Vault though nothing was revoked |
| Safety.InstallIsSafeIffNeverRetired | pkg/token/manager_simple.go:322-336 | an install by another writer can come to be revoked while live if and only if an earlier version had retired its accessor |
| HistoryTheorems.RetiredStaysOutIffClean | pkg/token/manager_simple.go:322-336 | retired accessors stay out of the Secret in a history if and only if no install brings one back |
| HistoryTheorems.RetiredStaysOut | pkg/token/rotate.go:309-323 | once an accessor is scheduled while another is live, no later version holds it, and its entry never changes while listed |
| ProtocolInvariant.RunKeepsInv | pkg/token/rotate.go:30-132 | all nine parts of the protocol invariant hold after every sequence of events |
| Safety.FenceIsFinal | pkg/token/rotate.go:235-269 | once two successive versions have a swap unresolved, no write in flight can land it and no run from there contains it |
| HistoryTheorems.FencedSwapNeverLands | pkg/token/rotate.go:235-269 | such a history contains no swap to that token, before or after |
| HistoryTheorems.SwapLandsAtOnce | pkg/token/rotate.go:463-498 | a landed swap's minted entry is unresolved in the version just before it and in no other version |
| HistoryTheorems.NotPendingOnceLanded | pkg/token/rotate.go:490-498 | after a swap landed its minted entry is never unresolved again |
| Safety.NoSwapMeetsASettledVersion | pkg/token/rotate.go:164-180 | every swap in flight is preconditioned on a version that still has its own unresolved entry |
| Safety.TokensChangeAtomically | pkg/token/rotate.go:444-505 | over any run the token changes only by another writer's install or by one atomic step to a token never seen live or listed before, with the old one scheduled and nothing unresolved in that same version |
| HistoryTheorems.TokenStep | pkg/token/rotate.go:463-505 | the one-step form: what the version after a swap holds, and what each other write keeps |
| HistoryTheorems.SwapsInstallDistinctTokens | pkg/token/rotate.go:444-498 | two landed swaps never install the same token |
| Safety.EveryMintIsAccountedFor | pkg/token/rotate.go:428-477 | a minted accessor Vault still knows is held by its pass or given up while no version shows it, and from then on live, listed, or let loose by a cancel request or another writer; a held or given-up one never was live |
| Safety.TrackingIsLostIff | pkg/token/rotate.go:288-308 | a step takes a token out of tracking exactly when the mint's reply is lost, its pass gives it up or crashes, a drain serves a cancel request for its scheduled entry, or an install replaces it while live |
| Safety.UntrackedIffSomeStep | pkg/token/rotate.go:288-308 | over any run a token is out of tracking exactly when some step of it did that |
| Safety.LostUnrecordedIff | pkg/token/rotate.go:428-477 | a token minted and lost before it was recorded is in no version of any later run if and only if no write that records it can land |
| Counterexamples.LostReply | pkg/token/rotate.go:428-432 | a mint whose reply is lost stays valid and is never recorded |
| Counterexamples.CrashBeforeTheRecord | pkg/token/rotate.go:428-465 | so does one whose pass crashes before it sends the ledger write |
| Safety.LedgersAreShaped | pkg/token/rotate.go:459-465 | every version and every write in flight has at most one unresolved entry, no accessor twice, and the live one only as the token an unresolved swap would retire |
| SecretHistory.EveryVersionIsShaped | pkg/token/rotate.go:463-496 | the same for every version of every history; a landed swap leaves nothing unresolved and a free place |
| Safety.LedgerStaysWithinItsCap | pkg/token/ledger.go:47-54 | no version and no write in flight exceeds 16 entries, and none a swap made exceeds 15 |
| HistoryTheorems.EntryLeaves | pkg/token/rotate.go:288-349 | an accessor leaves the ledger only confirmed gone when due, cancelled while scheduled, by its own landed swap, or as the live token of a swap that never landed |
| HistoryTheorems.GraceIsKept | pkg/token/rotate.go:445-455 | every version from which a rotated-out accessor could be revoked follows the swap and carries the instant its rotation decided: now plus grace, or now if requested as immediate |
| Safety.GraceHoldsInEveryRun | pkg/token/rotate.go:309-311 | no pass revokes a rotated-out accessor before its rotation's now plus the grace period, however late the swap landed; only a requested immediate rotation does without |
| Safety.RotationsOfYoungTokensAreSpaced | pkg/token/rotate.go:386-388 | an unforced rotation is decided more than its period minus one second after any other landed one, whatever installs lie between, if the token it replaces was not created a second or more before that one's decision |
| Safety.GateSpacesIff | pkg/token/rotate.go:386-388 | for any configured period, that condition (or a period under a second) is exact for the later decisions the age gate lets through |
| Safety.MintedTokensAreYoung | pkg/token/rotate.go:386-388 | it holds of the token a landed rotation minted |
| Safety.FreshTokensAreYoung | pkg/token/manager_simple.go:912-916 | and of any token issued after it landed, as self-heal's are |
| Safety.UnforcedRotationsAreSpaced | pkg/token/rotate.go:386-388 | so landed rotations with no other change of the token between them are spaced |
| Counterexamples.RecoveryUndercutsThePeriod | pkg/token/manager_simple.go:337-353 | a run in which an older token is reinstalled and two unforced rotations are decided at the same instant |
| RevokeLedger.RecordedShape | pkg/token/rotate.go:463-464 | recording a fresh mint and the live token keeps the ledger well-shaped and leaves the swap unresolved |
| RevokeLedger.InstalledShape | pkg/token/rotate.go:490-496 | the swap's ledger is well-shaped for the new token, fully scheduled, and does not list it |
| RevokeLedger.SettledShape | pkg/token/rotate.go:209-222 | settling a swap that never landed leaves a well-shaped, fully scheduled ledger |
| RevokeLedger.DrainedShape | pkg/token/rotate.go:288-344 | cancelling and dropping entries keeps a settled ledger well-shaped and settled |
| RevokeLedger.CancelledExactly | pkg/token/rotate.go:288-307 | a cancel request removes the scheduled entry it names and no other |
| RevokeLedger.SettledLedgerOmitsLive | pkg/token/rotate.go:315-323 | in a well-shaped ledger with everything scheduled the live accessor is not listed |
| ApiCalls.Cluster.Get | pkg/token/rotate.go:577-585 | a read returns some version that existed, any number behind the current one, or fails |
| ApiCalls.Cluster.Update | pkg/token/rotate.go:553-559 | an accepted write is the version after its precondition; after any other answer it may have landed, land later, or never land |
| ApiCalls.Cluster.Deliver | pkg/token/ledger.go:125-136 | how a sent write is answered: only a fine reply tells the truth; after a lost one the write landed if it could, after any other, definite or not, it is still in flight |
| ApiCalls.Cluster.LookupSelf | pkg/token/rotate.go:71-89 | a lookup answers only for a token Vault knows at that moment, with its creation time |
| ApiCalls.Cluster.Now | pkg/token/rotate.go:587-592 | a look at the clock, which the log keeps |
| ApiCalls.Cluster.CreateToken | pkg/token/manager_simple.go:966-985 | a mint that is answered gives this pass an accessor that occurs nowhere |
| ApiCalls.Cluster.RevokeAndVerify | pkg/token/ledger.go:164-179 | the revocation is asked for, and confirmed only if Vault no longer knows the accessor |
| PassSteps.SettleEntries | pkg/token/rotate.go:209-222 | the loop that rebuilds a settled ledger computes the settling rule on every entry in order |
| PassSteps.UnresolvedSwaps | pkg/token/rotate.go:167-173 | the swaps to fence are those of the unresolved minted entries, in order |
| PassSteps.AtMostOneSwap | pkg/token/rotate.go:167-180 | a well-shaped ledger has at most one swap to fence, and none exactly when all is scheduled |
| PassSteps.DropCancelled | pkg/token/rotate.go:288-296 | the loop takes out the first scheduled entry of the named accessor |
| PassSteps.InstalledEntries | pkg/token/rotate.go:490-496 | the loop drops exactly the swap's minted entry |
| PassSteps.Installed | pkg/token/rotate.go:463-496 | what it leaves is the ledger before the rotation followed by the old token's entry |
| RotationPass.RotationPass.constructor | pkg/token/rotate.go:113-124 | the pass starts mirroring the version it read |
| RotationPass.RotationPass.FenceOnce | pkg/token/rotate.go:240-266 | one attempt: not-landed means the swap lands in no run from here, landed means a version without its unresolved entry; unknown only after a failed or useless call |
| RotationPass.RotationPass.Fence | pkg/token/rotate.go:239-269 | the same over at most three attempts, each further one only after a conflict; undisturbed it gives the right answer |
| RotationPass.RotationPass.ResolveSwap | pkg/token/rotate.go:186-233 | either the copy is unchanged, or it is the settled version written over the fenced one, on the token that was looked up |
| RotationPass.RotationPass.ResolveUnresolved | pkg/token/rotate.go:167-180 | unless it stops the ledger is fully scheduled; it makes no call when it already was; undisturbed it never stops and loses no accessor but the live one |
| RotationPass.RotationPass.NoSwapIsPending | pkg/token/rotate.go:164-180 | then no swap in flight, of any pass, can change the token of the version the pass holds |
| RotationPass.RotationPass.NothingScheduledIsLive | pkg/token/rotate.go:315-323 | the branch that skips the live accessor is never taken |
| RotationPass.RotationPass.RevokeEntries | pkg/token/rotate.go:309-334 | revocations are asked for exactly the due entries but the live one, in order; kept is everything but the confirmed ones; undisturbed Vault loses those and no other |
| RotationPass.RotationPass.RecordDrain | pkg/token/rotate.go:343-349 | the drain is one write; unless it is accepted the copy stays as it was |
| RotationPass.RotationPass.RevokeDue | pkg/token/rotate.go:283-350 | cancel, revoke and annotate in one write; undisturbed nothing due is left in the ledger or in Vault, and nothing else left Vault; no call at all when nothing is cancelled or due and the annotations are true |
| RotationPass.RotationPass.MintToken | pkg/token/manager_simple.go:966-994 | the mint and the lookup that validates it |
| RotationPass.RotationPass.GiveUpMint | pkg/token/rotate.go:434-439 | a mint whose swap was not sent is given up for good and Vault is asked to revoke it |
| RotationPass.RotationPass.RecordMint | pkg/token/rotate.go:444-477 | both entries are written over the mirrored version, after what it lists, and the copy follows only if accepted |
| RotationPass.RotationPass.SendSwap | pkg/token/rotate.go:479-505 | the swap is preconditioned on the recorded version; accepted, the copy is the rotated Secret |
| RotationPass.RotationPass.FailUnsent | pkg/token/rotate.go:465-475 | Vault is asked to revoke the mint, which is never installed, and the backoff is extended |
| RotationPass.RotationPass.FailSent | pkg/token/rotate.go:498-504 | after a swap that was not accepted the mint stays listed and is not revoked; a definite answer is fenced at once, and undisturbed leaves the mint due; an uncertain one leaves the copy alone |
| RotationPass.RotationPass.RecordAndSwap | pkg/token/rotate.go:444-514 | from an accepted mint on: what is written carries the decided instant, landed or not, and how each failure leaves copy, mint and backoff |
| RotationPass.RotationPass.MintAndSwap | pkg/token/rotate.go:431-514 | one mint; every Record asked for carries now plus grace (or now); the swap is sent only straight after its Record was accepted; exactly a mint whose swap is never sent is revoked; a failure ends by sending the instant it counted to, and no write carries another; undisturbed it rotates, or records the backoff if Vault no longer knows the live token |
| RotationPass.RotationPass.RotateIfDue | pkg/token/rotate.go:378-426 | it mints exactly when a rotation is requested or due, owned, settled, with room and out of both backoffs, and the grace period parses, and every Record it asks for carries the configured grace or an hour; otherwise nothing changes; a failure ends by sending the instant it counted to |
| RotationPass.RotationPass.PersistBackoff | pkg/token/rotate.go:645-667 | what is written is the version read with this instant, in whole seconds; nothing is only if the read failed or found another token |
| RotationPass.RotationPass.Fail | pkg/token/rotate.go:543-551 | one more failure is counted, and the instant it comes to is what is written to the Secret; undisturbed the Secret says it |
| Manager.LookUp | pkg/token/rotate.go:51-111 | no placeholder's token is looked up; undisturbed, which of a placeholder, an unknown token, a malformed period and an unreadable ledger stops the call, and that nothing else does; what it goes on with is a version that existed, its token's lookup and the clock |
| Manager.SettleAndDrain | pkg/token/rotate.go:127-130 | undisturbed and with every grace period over, any reachable ledger becomes empty and the annotations true; of what Vault knew exactly what it listed is gone, but for the live token and a cancelled one |
| Manager.RunPass | pkg/token/rotate.go:113-132 | then it rotates exactly when the drained version calls for it, leaving the whole Secret as described with the replaced token's entry alone; it mints at most once, past the gate, where some version calls for it, and counts a failure |
| Manager.RotateIfDue | pkg/token/rotate.go:46-132 | the whole call: it acts only after Vault answered for the token of a version it read that is no placeholder, not on an unreadable ledger or period; disturbed or not it mints at most once, for a credential the operator owns, where some version calls for it, past the gate, at the clock read during the call, and counts or forgets failures, and no write carries another backoff than the one counted to; one undisturbed call converges |
| Reconciles.RotateRepeatedly | pkg/token/rotate.go:417-419 | over any calls of one process, with others acting and settings changing: of the mints in the log, at the clock as last read before each, every streak of failing ones passed the gate and is spaced, and all lie within the run in order; the gate stays closed for exactly the wait the last streak came to, never more than an hour, and not after a success |
| MintLog.RotationIsOneAttempt | pkg/token/rotate.go:94-124 | a rotation adds one mint to the log's attempts, at the pass's reading of the clock, that succeeded if its swap was accepted |
| MintLog.PlainChangesNothing | pkg/token/rotate.go:127-130 | settling, draining and backing off add none |
| Backoff.Backoffs.Until | pkg/token/rotate.go:605-615 | the later of the instant in memory and the recorded one |
| Backoff.Backoffs.Extend | pkg/token/rotate.go:617-637 | the n-th failure in a row holds mints back for 2^(n-1) minutes up to the sixth, then for an hour; the doubling never reaches two hours |
| Backoff.HeldBackAnHourAtMost | pkg/token/rotate.go:18-23 | after any run of failures the gate opens exactly the wait for their number after the last, and so within the hour |
| Backoff.WaitIs | pkg/token/rotate.go:617-637 | the capped doubling in closed form |
| Backoff.Backoffs.Clear | pkg/token/rotate.go:639-643 | the key's failures are forgotten, the others' kept |
| Backoff.FailuresAreSpaced | pkg/token/rotate.go:417-419 | the last of a run of gated failing mints comes no earlier than the sum of the waits between them |
| Backoff.FailingRunExtends | pkg/token/rotate.go:617-637 | a failure past the gate extends the run and its state |
| Backoff.FailingRunsAreSpaced | pkg/token/rotate.go:417-419 | whatever was counted before, any two failures of a run are apart by the first waits between them, and by an hour for each beyond the sixth |
| Backoff.WindowIsARun | pkg/token/rotate.go:417-419 | any stretch of a run of failures is one, from the state before it |
| Backoff.WindowsAreSpaced | pkg/token/rotate.go:417-419 | between any two failures of a run lie exactly the waits that were counted there |
| Backoff.FirstWaits | pkg/token/rotate.go:18-23 | the first k waits sum to 2^k - 1 minutes up to six, then an hour more each |
| Backoff.MintsInAnyWindow | pkg/token/rotate.go:417-419 | seven failing mints and one for each further hour bound every window of a run |
| Recovery.RecoverFromBackup | pkg/token/manager_simple.go:269-362 | the backed-up token is looked up, and then installed over the very version whose ledger did not list it; undisturbed, exactly then; and which of these installs keep the history clean |
| Recovery.RecoveryIsCleanIffFit | pkg/token/manager_simple.go:316-353 | an install of recovery, acknowledged or not, keeps the history clean exactly when no drain before the version it read took its token out |
| Recovery.KnownTokenIsFitIff | pkg/token/manager_simple.go:302-336 | for an unlisted token Vault still knows after the read, exactly when no cancel request did |
| Recovery.TransitBackup.StoreRotated | pkg/token/rotate.go:505-540 | once a swap was accepted, what is stored is the token it minted, which the Secret held |
| Recovery.TransitBackup.Recover | pkg/token/backup.go:23-36 | so recovery from it never installs a mint whose swap was not sent; undisturbed it installs what is stored, if Vault knows it, exactly when the ledger does not list it |
| Recovery.InstalledTokensQualify | pkg/token/backup.go:23-36 | any token the Secret ever held may be recovered |
| Recovery.ListsAccessor | pkg/token/ledger.go:105-113 | the loop answers whether any entry has the accessor |
| Recovery.InstallsAreNeverListed | pkg/token/manager_simple.go:322-353 | whenever an install lands, however late, its version's ledger is the one it replaced and does not list the token |
| Recovery.RetiredIsListedOrDrained | pkg/token/manager_simple.go:322-336 | an accessor ever retired is listed and not live, or a drain took it out |
| Recovery.RetiredIffDrained | pkg/token/manager_simple.go:322-336 | an accessor the ledger does not list was retired if and only if a drain took it out |
| Recovery.DrainedIsGoneOrLetGo | pkg/token/rotate.go:288-334 | what a drain took out is unknown to Vault or a cancel request let it go |
| Recovery.GuardedInstallIsSafeIffFit | pkg/token/manager_simple.go:322-336 | the ledger guard suffices for an install if and only if its token is fit at the version it replaces |
| Recovery.RunIsCleanIffInstallsAreFit | pkg/token/manager_simple.go:322-336 | a run satisfies the condition of the safety theorems if and only if every install that lands is of a fit token |
| Counterexamples.StalePassRevokesTheLiveToken | pkg/token/manager_simple.go:322-336 | a run from an initial state in which a cancelled, recovered token is revoked while live |
| Counterexamples.LookupBeforeReadIsTooEarly | pkg/token/manager_simple.go:302-336 | a run in which a token known at recovery's lookup is revoked and drained before its read, and installed all the same |
| Recovery.FreshTokensAreFit | pkg/token/manager_simple.go:912-946 | in any run, a token Vault issued for self-heal occurs nowhere until its first install lands, expired or not, and that install is of a fit token |
| KeyFile.ParseKeys | pkg/storedkey/keys.go:25-38 | the loop computes the keys of the lines in order |
| KeyFile.KeysAreClean | pkg/storedkey/keys.go:14-16 | every key is non-empty, free of CR and LF, and trimmed |
| KeyFile.ParseOfJoin | pkg/storedkey/keys.go:25-38 | parsing the newline-join of such keys returns them |
| KeyFile.ParseJoinParse | pkg/storedkey/keys.go:25-38 | parse, join and parse again is parse |
| KeyFile.CarriageReturnsDoNotMatter | pkg/storedkey/keys.go:14-16 | deleting every carriage return changes no key |
| KeyFile.LineEndsDoNotMatter | pkg/storedkey/keys.go:14-16 | a file with Windows line ends parses alike |
| KeyFile.BlankLinesDoNotMatter | pkg/storedkey/keys.go:14-16 | blank lines before, between and after shares change no key |
| KeyFile.NewlineAtAnEnd | pkg/storedkey/keys.go:14-16 | with or without a trailing newline a file parses alike |
| KeyFile.ContentIsKept | pkg/storedkey/keys.go:25-38 | everything but white space is kept, in order |
| KeyFile.SharesAreKept | pkg/storedkey/keys.go:31 | a share of printable characters, padding and all, is its own only key |
| KeyFile.FilesOfSharesAreKept | pkg/storedkey/keys.go:25-38 | a file of such shares, one a line, parses to them |
| KeyFile.SpaceAroundAShareGoes | pkg/storedkey/keys.go:31 | spaces and tabs around one go and nothing of it does |
| KeyFile.SameAsDeletingIffOneShare | pkg/storedkey/keys.go:18-23 | parsing gives the one string that deleting CR and LF gives if and only if the file is one share with newlines around it |
| KeyFile.SpaceBeforeTheShare | pkg/storedkey/keys.go:18-23 | a share with a space before it is one where they differ |
| Unsealer.Unseal | pkg/storedkey/unsealer.go:43-78 | which prefix of the shares is submitted, and the server's state and the result in each outcome |
| Unsealer.SealedWhileTooFew | pkg/storedkey/unsealer.go:30-38 | while shares are answered the server stays sealed exactly while too few count |
| Unsealer.ShortestPrefixOpens | pkg/storedkey/unsealer.go:30-38 | the prefix that opens is the shortest that does |
| Unsealer.MissingSharesOpen | pkg/storedkey/unsealer.go:53-77 | when every share counts it is as long as the number missing; fewer only add to the progress |
| Unsealer.FailureLeavesACleanSlate | pkg/storedkey/unsealer.go:55-63 | exactly when a failed call leaves no progress: after an accepted share, if the reset worked, the set was forgotten or completed, or nothing counted; at the first share, exactly when the server is as it was |
| Unsealer.ReportedProgressCanBeWrong | pkg/storedkey/unsealer.go:56-61 | a call that reports progress 0 while the server's is 1 |
| Unsealer.LostFirstAnswerStaysCounted | pkg/storedkey/unsealer.go:54-63 | a failed first share that stays counted |

## Left out

- Safety.LiveTokenIsNeverRevoked: states the promise for histories that are `Clean`, because it is false for the others (finding 1); `Recovery.RunIsCleanIffInstallsAreFit` says exactly which runs these are.
- Safety.EveryMintIsAccountedFor: a mint given up after a failed revocation, a lost reply or a crash is in no ledger, as in the code (finding 2).
- HTTP, TLS, client plumbing, metrics, events and logs: a call is modelled by its possible outcomes.
- The JSON text of the ledger: readable entries, or text that does not parse.
- Random swap identifiers and tokens: fresh values; a rotation's identifier is named by the accessor it mints.
- Tokens and accessors correspond one to one; trimming of the token text and the placeholder test are flags of the Secret.
- Clocks: one monotone clock is read by Vault and by every pass; skew between them is not modelled.
- A Secret that is deleted and recreated without its annotations (`pkg/secrets/recovery.go`), and hand edits of the ledger: outside the other writers the theorems speak of.
- A missing Secret: a read that fails, with no difference made.
- The lifecycle annotations other than auto-rotate, rotate-now, cancel-revoke, fence and backoff: bookkeeping.
- Renewal, initial token creation, root-token replacement, policies: other writers that keep token and ledger, or not part of the protocol.
- Malformed Vault answers (no data, no accessor, no creation time): failed lookups.
- Crashes are events of the state machine; a method of `RotationPass` runs to its end, and what holds in the middle of one is what holds of every run.
- The mutex around the backoff map: each method of `Backoffs` is one step.
- Bytes that are not UTF-8 in the stored keys: the parser works on Unicode characters.
- Combining the shares: the server only counts them, or refuses.
