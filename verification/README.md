# Stellance verification

A Dafny model of the parts of Stellance that hold or account for money and sessions, with machine-checked
proofs. `dafny verify dfyconfig.toml` checks all of it. Nothing here is executed.

Three systems are modelled, and joined where the program joins them:

1. **The on-chain escrow** (`EscrowSpec`, `EscrowContract`, `EscrowRules`, `EscrowSafety`, `EscrowEvents`,
   `SplitArithmetic`, over `TokenLedger`). One invocation is a function of the whole chain state; the contract's
   entry points are also written out as a class that updates the entry map, the ledger and the log, and each method
   is proved equal to that function. `EscrowRules` says, without it, when each call answers what, whose signature it
   needs and what exactly it leaves behind. The safety results are about every run of calls on every escrow,
   interleaved with any other token traffic.
2. **The backend's contract lifecycle over that chain** (`Backend` for the data and single accesses).
   `PaymentBacking`, `PayoutBooks`, `Reconciliation`, `SingleRelease` and `Interleavings` let any number of requests
   overlap, lose replies and die between accesses. `Lockstep`, `DbEdits`, `LockstepRuns`, `LockstepCreate`,
   `LockstepTheorems`, `Fulfilment` and `Standstill` run one request at a time and relate every row to its chain
   entry; `Reachability` proves that this is one schedule of the interleaved system. `ContractsService` is the
   service's own statement-by-statement form, proved to do what the lockstep request does. `RequestAuthority` and
   `RequestEffects` say who may make each request, whose word stands behind every payment, and exactly what each
   request writes and pays. `Rounding`, `KeyEncoding`, `Polling` and `Earnings` cover the float amounts, the escrow
   key, the confirmation loop and the earnings report.
3. **Refresh-token rotation** (`TokenDb`, `TokenRotation`, `SessionRules`, `TokenStore`, `AuthService`): the
   concurrent protocol, what each of its accesses does row by row, the in-memory store on the heap with its two
   indexes per table, and the service that runs on the store. The scheme is the one of section 4.14.2 of RFC 9700.

## Assumptions

- The token is a well-behaved SEP-41 ledger: a transfer fails on a shortage of balance or allowance and on
  nothing else, and moves exactly its amount. Minting, approvals and transfers by others are unrestricted steps.
- The escrow contract's own address signs nothing, so it is never a client. It may be a freelancer or an admin.
- Rounding is any `real -> real` function with a relative error of at most 2^-53 at zero and in the range used
  (IEEE 754-2019, section 4.3.1). Amounts are stroops; a decimal column holds them exactly.
- Fresh ids and hashes are fresh; hashes are injective.
- Lockstep only: the hash given to `confirm-fund` is that of this contract's funding event, the funding call on
  the chain is the one the backend built, a contract's amounts satisfy (n+1)·S < 2^51 stroops, chain replies are
  truthful, and the parties' only direct call is `dispute`. The interleaved results assume none of these.
  `Fulfilment` exhibits whole runs that meet all of them.

## Where the code and its documentation differ, and what is false

- `docs/escrow-flow.md` lines 24 and 118 say `create` makes an ACTIVE contract; the code makes a PENDING one and
  `confirm-fund` activates it. The model follows the code.
- `docs/escrow-flow.md` says a dispute takes no on-chain action and that cancelling a funded contract needs
  mutual agreement. The code calls `dispute` on the chain first, and lets only an admin cancel after funding.
- `dispute` signs with the platform's key, which `lib.rs:502` rejects unless the platform is itself a party.
  `LockstepTheorems.DisputeOpens` proves exactly when a dispute through the backend opens: the signer is a
  party's wallet and no party disputed on the chain before. For the platform's key that is never, unless it is itself
  a party's wallet, so the model gives the request an explicit signer, and the resolution results rest on that.
- "If this throws, the milestone stays IN_REVIEW and the client can retry" (contracts.service.ts:282) is unsafe: an
  approval repeated after a lost reply releases a milestone twice, and so do two overlapping approvals whose replies
  all arrive (`Interleavings.PaidTwice`, `Interleavings.PaidTwiceTruthfully`; `Reachability` runs both from
  deployment). `SingleRelease.ReleasedOnce` says exactly when a milestone is released at most once: each release of it
  is made while no row names it, no request carries it and no release of it has been forgotten.
- "Any payment record has an on-chain event" (README.md:127) holds in every interleaving
  (`PaymentBacking.LedgerBacking`). Its converse, that every payout has a record, fails, and
  `PayoutBooks.BooksComplete` says precisely when it holds.
- The lifecycle's edges, the funding hash written once and the rising milestones hold only while requests do not
  overlap: `Interleavings.LifecycleExactly` lists the stale writes that break them, and nothing else does.
  PAID and CANCELLED in particular are final only then. `Interleavings.PaidUndone` and
  `Interleavings.CancelledUndone` give the exact accesses that break each, two runs do so, and
  `Interleavings.PaidForGood` and `Interleavings.CancelledForGood` say when no continuation can.
- The comment at escrow.service.ts:227-232 has a party dispute on the chain and the backend then update its row. The
  `dispute` request instead calls the chain again, which rejects it, so such a dispute leaves an ACTIVE row over a
  Disputed entry. In lockstep runs no request of the backend ever changes that row or entry again
  (`Standstill.FrozenForGood`), and
  `Standstill.FinishableExactly` says exactly which active contracts can still be completed or cancelled.
- A cancellation marks its job OPEN, but a job has one contract for life: no new `create` or job cancellation is
  admitted for it ever after (`Interleavings.JobSpent`). A job cancellation admitted before the contract was created
  is still written afterwards and cancels a job that has one (`Interleavings.ContractOnCancelledJob`), so that a
  cancelled job never has a contract holds in lockstep and fails under overlap; `Interleavings.JobDropped` and
  `Interleavings.JobSafeForGood` say exactly when.
- A contract cancelled after its funding reached the chain but before it was confirmed leaves its whole total in
  escrow (`Standstill.Strands`). In lockstep runs no request of the backend ever pays it out or refunds it
  (`Standstill.LeftForGood`); `Standstill.LeftExactly` says exactly which cancelled contracts leave money. The parties
  can still act on the chain themselves.
- `fund` accepts the escrow contract itself as admin. Such an entry, once disputed, is frozen for good:
  `EscrowSafety.AdminCanFinish` is an equivalence and `EscrowSafety.SelfAdminFreezes` the run-long consequence.

## Model

| member | source | states |
|---|---|---|
| `TokenLedger.TransferFromMoves` | stellance/Contracts/src/lib.rs:240-245 | a SEP-41 `transfer_from` moves one amount between two accounts, spends that much allowance, and touches no other balance or allowance |
| `TokenLedger.UnsignedNeverLoses` | stellance/Contracts/src/lib.rs:240-245 | no traffic of others can lower the balance of an address that signs nothing and approved nobody, nor give anyone an allowance on it |
| `EscrowSpec.AcceptConserves` | stellance/Contracts/src/lib.rs:303-337 | an accepted call on an entry pays out exactly what the entry stops holding, leaves the parties, token and total alone, and keeps `0 <= released < total` while live |
| `EscrowSpec.PayBothMoves` | stellance/Contracts/src/lib.rs:601-617 | once a balance covers both shares of a split the second transfer cannot fail after the first, and together they move the shares and nothing else, even to coinciding parties |
| `EscrowContract.StellanceEscrow.Fund` | stellance/Contracts/src/lib.rs:214-271 | keeps solvency; the new state and the outcome are the specified ones; anything but Ok leaves the state untouched |
| `EscrowContract.StellanceEscrow.ReleaseMilestone` | stellance/Contracts/src/lib.rs:283-352 | keeps solvency and matches the specified call; succeeds only for the client's or the admin's own signature; once the transfer was made no error is returned, so nothing needs the host's rollback |
| `EscrowContract.StellanceEscrow.Release` | stellance/Contracts/src/lib.rs:362-413 | keeps solvency and matches the specified call; the whole remainder goes to the freelancer on the client's or the admin's own signature, or nothing changes |
| `EscrowContract.StellanceEscrow.Refund` | stellance/Contracts/src/lib.rs:424-473 | keeps solvency and matches the specified call; the remainder returns to the client on the freelancer's or the admin's own signature, or nothing changes |
| `EscrowContract.StellanceEscrow.Dispute` | stellance/Contracts/src/lib.rs:484-520 | keeps solvency and matches the specified call; freezes the entry on a party's own signature without moving a token, or changes nothing |
| `EscrowContract.StellanceEscrow.ResolveDispute` | stellance/Contracts/src/lib.rs:539-641 | keeps solvency and matches the specified call for all three decisions, on the admin's own signature alone; both transfers of a split happen or neither, without the host's rollback |
| `EscrowRules.AnswersExactly` | stellance/Contracts/src/lib.rs:294-319 | in every reachable state each answer to a signed call on an existing entry, Ok and every error, is given exactly when its status, its caller among the parties that entry point listens to, and its amounts say so; any answer but Ok changes nothing |
| `EscrowRules.FundExactly` | stellance/Contracts/src/lib.rs:224-271 | funding answers by amount, id and what the client holds and has approved, in that order; it writes exactly the entry and the event asked for and moves exactly the amount, out of the balance and the allowance |
| `EscrowRules.EffectsExactly` | stellance/Contracts/src/lib.rs:283-641 | each successful call changes its own entry, one event and the two parties' balances by exactly the stated amounts, a split by the floor and the rest, and nothing else |
| `EscrowRules.FreelancerCanReturn` | stellance/Contracts/src/lib.rs:424-473 | a funded entry can be given up by its freelancer's signature alone, and the client then gets all that is left |
| `EscrowSafety.StepSurplus` | stellance/Contracts/src/lib.rs:214-641 | any call on any escrow, or any other token traffic, changes the contract's surplus over its obligations by exactly what it was given, which is never negative |
| `EscrowSafety.SolvencyOverRuns` | stellance/Contracts/src/lib.rs:240-257 | after any run, for every token, the contract's balance is at least the sum of what all live entries in it are still owed, and exceeds it by exactly what it started with plus the gifts received |
| `EscrowSafety.ExactlyBacked` | stellance/Contracts/src/lib.rs:240-257 | with no direct deposits and no party that is the contract itself, the balance equals that sum |
| `EscrowSafety.AcceptedGoesThrough` | stellance/Contracts/src/lib.rs:563-626 | in every reachable state the guards are the only reason a signed call fails; an accepted one always completes, payouts included |
| `EscrowSafety.ClientCanFinish` | stellance/Contracts/src/lib.rs:362-413 | a funded entry can be paid out by its client alone |
| `EscrowSafety.DisputedNeedsAdmin` | stellance/Contracts/src/lib.rs:555-561 | a disputed entry changes only by a resolution its own admin signed |
| `EscrowSafety.AdminCanFinish` | stellance/Contracts/src/lib.rs:539-561 | some step settles a disputed entry if and only if its admin is not the escrow contract; full release and full refund then always succeed |
| `EscrowSafety.SelfAdminFreezes` | stellance/Contracts/src/lib.rs:247-255 | a disputed entry whose admin is the contract never changes again |
| `EscrowSafety.SelfAdminReachable` | stellance/Contracts/src/lib.rs:247-255 | such an entry is two calls by its client away from deployment |
| `EscrowSafety.StepPotential` | stellance/Contracts/src/lib.rs:299-337 | every successful call on an entry strictly lowers its remaining calls' bound; nothing else touches it |
| `EscrowSafety.BoundedRuns` | stellance/Contracts/src/lib.rs:234-236 | one contract id admits at most total + 2 successful calls in any run |
| `EscrowSafety.TerminalForever` | stellance/Contracts/src/lib.rs:299-301 | a released, refunded or resolved entry never changes and accepts no call again |
| `EscrowEvents.LogTellsAll` | stellance/Contracts/src/lib.rs:265-268 | folding the events alone rebuilds every entry but its admin; what each escrow paid either side plus what it still holds is its total; every balance is its start plus others' traffic plus what the events say, split shares included |
| `EscrowEvents.AdminNotLogged` | stellance/Contracts/src/lib.rs:265-268 | the admin cannot be rebuilt: two chains with one log can differ in it |
| `EscrowEvents.NoSelfRefund` | stellance/Contracts/src/lib.rs:442-444 | in any run in which neither an entry's freelancer nor its admin signs, nothing of it returns to the client |
| `EscrowEvents.NoSelfPayment` | stellance/Contracts/src/lib.rs:303-305 | in any run in which neither an entry's client nor its admin signs, nothing of it is paid or counted as released to the freelancer |
| `SplitArithmetic.SplitShares` | stellance/Contracts/src/lib.rs:592-602 | the shares sum to the remainder, the freelancer's is the floor of its part, and the split overflows exactly when the product exceeds the i128 maximum |
| `SplitArithmetic.SplitMonotone` | stellance/Contracts/src/lib.rs:597-602 | more basis points never pay the freelancer less or the client more, and never succeed where fewer overflow |
| `SplitArithmetic.SplitEnds` | stellance/Contracts/src/lib.rs:565-602 | zero basis points pay what a refund pays, and ten thousand what a release pays unless the product overflows |
| `KeyEncoding.KeyRoundTrip` | stellance/backend/src/escrow/escrow.service.ts:90-92 | canonical UUID text (section 4 of RFC 9562) becomes 32 Symbol-safe characters from which reinserting the hyphens gives it back |
| `KeyEncoding.KeyInjective` | stellance/backend/src/escrow/escrow.service.ts:90-92 | two contracts never share an escrow entry |
| `Rounding.FundingCoversReleases` | stellance/backend/src/contracts/contracts.service.ts:62-116 | the rounded float sum that is funded equals the sum of the separately rounded releases, each exact, whenever (n+1)·S < 2^51 |
| `Rounding.ReleaseExact` | stellance/backend/src/contracts/contracts.service.ts:283-285 | one milestone's conversion through the float loses no stroop below 2^50 |
| `Rounding.FundingOvershoots` | stellance/backend/src/contracts/contracts.service.ts:62-116 | beyond the bound a permitted rounding funds a single milestone with one stroop more than it releases |
| `Polling.AwaitTransaction` | stellance/backend/src/escrow/escrow.service.ts:367-383 | reports success if and only if the first settled status within twenty-one looks is a success |
| `Polling.LateMeansLost` | stellance/backend/src/escrow/escrow.service.ts:367-383 | a transaction that takes effect is reported as failed exactly when it needs more looks than that, the lost reply of the interleaved model |
| `PaymentBacking.CallEffect` | stellance/backend/src/escrow/escrow.service.ts:328-386 | a request's chain call changes the chain as its invocation does or not at all, and a request goes on only after one that took effect |
| `PaymentBacking.StepKeeps` | stellance/backend/src/contracts/contracts.service.ts:281-309 | no access of any request, lost reply, crash or direct chain call breaks the backing of any payment row, or removes a row |
| `PaymentBacking.LedgerBacking` | README.md:127 | in every interleaving each payment row names an event of its own on its contract's key, a milestone row for exactly the amount released, and the milestone rows of a key never exceed its entry's released amount |
| `PaymentBacking.BackedToTheStroop` | stellance/backend/src/contracts/contracts.service.ts:283-309 | a backed milestone row's own amount is what was released |
| `Reconciliation.StepLeaks` | stellance/backend/src/contracts/contracts.service.ts:286-309 | milestone releases of a key minus milestone rows minus those in flight is changed only by a lost reply, a refused row, a dying request that holds a hash, or a direct milestone release, and by exactly that amount |
| `Reconciliation.ReleasesAddUp` | stellance/backend/src/contracts/contracts.service.ts:286-309 | over whole runs the milestone rows and the requests in flight add up to the milestone releases if and only if none of those losses happened, and never to more |
| `PayoutBooks.StepMisses` | stellance/backend/src/contracts/contracts.service.ts:281-503 | of all payouts of a key, by milestone, release, refund or resolution, a step adds to those no row names and no request carries exactly the one it loses, and never finds one again |
| `PayoutBooks.BooksComplete` | stellance/backend/src/contracts/contracts.service.ts:281-503 | in every run each payout on a key is named by a row or carried by a request still to write one if and only if no reply to an effective payout was lost, no row refused, no request died with a payout in hand and nobody called a payout directly |
| `SingleRelease.StepReleases` | stellance/backend/src/contracts/contracts.service.ts:277-309 | a step moves the releases of a milestone that somebody knows of by what it releases less what it forgets |
| `SingleRelease.ReleasedHowOften` | stellance/backend/src/contracts/contracts.service.ts:277-309 | after any run from deployment a milestone was released once if a row names it, once per request carrying it and once per release forgotten |
| `SingleRelease.ReleasedOnce` | stellance/backend/src/contracts/contracts.service.ts:281-289 | a milestone is released at most once in a run if and only if each release of it finds it unrecorded, carried by nobody and never forgotten |
| `SingleRelease.RepeatsExactly` | stellance/backend/src/contracts/contracts.service.ts:281-289 | the check before one release: it would be a repeat exactly when the milestone is recorded, carried or was forgotten |
| `Interleavings.PaidUndone` | stellance/backend/src/contracts/contracts.service.ts:237-240 | a paid milestone loses that status exactly when a submission admitted earlier is written |
| `Interleavings.CancelledUndone` | stellance/backend/src/contracts/contracts.service.ts:152-160 | a cancelled contract leaves that status exactly when a confirmation, completion, dispute or non-refund resolution admitted earlier is written |
| `Interleavings.LifecycleExactly` | stellance/backend/src/contracts/contracts.service.ts:135-503 | a step of any interleaving leaves the lifecycle (edges, hash written once, rising milestones, rows kept) if and only if it runs one of the listed stale writes |
| `Interleavings.PaidForGood` | stellance/backend/src/contracts/contracts.service.ts:235-240 | a paid milestone is paid in every continuation if and only if no submission of it is in flight |
| `Interleavings.CancelledForGood` | stellance/backend/src/contracts/contracts.service.ts:152-160 | a cancelled contract with no confirmation, approval, dispute or resolution of it in flight is cancelled in every continuation |
| `Interleavings.CancelledExactly` | stellance/backend/src/contracts/contracts.service.ts:152-160 | with only direct writes in flight for it, a cancelled contract stays cancelled in every continuation if and only if none of them revives it |
| `Interleavings.JobSpent` | stellance/backend/src/jobs/jobs.service.ts:177-199 | once a job has had a contract, no new request contracts it again or cancels it in any continuation, although a cancellation of the contract marks it open |
| `Interleavings.JobDropped` | stellance/backend/src/jobs/jobs.service.ts:195-198 | a job becomes cancelled, with or without a contract, exactly when an admitted cancellation of it is written |
| `Interleavings.JobSafeForGood` | stellance/backend/src/jobs/jobs.service.ts:177-199 | a job with a contract is never cancelled in any continuation if and only if no cancellation of it is in flight |
| `Interleavings.ContractOnCancelledJob` | stellance/backend/src/jobs/jobs.service.ts:177-199 | from any state in which a contract can be created, an overlapping cancellation of its job ends with a pending contract on a cancelled job |
| `Interleavings.CancelledThenActive` | stellance/backend/src/contracts/contracts.service.ts:135-160 | from any pending contract, an overlapping confirmation and cancellation end with an active contract on a job marked open |
| `Interleavings.PaidThenInReview` | stellance/backend/src/contracts/contracts.service.ts:235-240 | from any active contract with an untouched milestone, two overlapping submissions and an approval end with a recorded, paid milestone back in review |
| `Interleavings.PaidTwice` | stellance/backend/src/contracts/contracts.service.ts:281-289 | one run in which a lost reply does it: the same milestone is released twice and recorded once (`SingleRelease.ReleasedOnce` says exactly when) |
| `Interleavings.PaidTwiceTruthfully` | stellance/backend/src/contracts/contracts.service.ts:265-289 | another with every reply truthful and every request alive: two overlapping approvals release the same milestone twice |
| `DbEdits.EditKeeps` | stellance/backend/src/contracts/contracts.service.ts:292-309 | rewriting one contract's rows so that it agrees with its entry keeps every other contract's agreement, the unique columns, the job rule and the lifecycle |
| `LockstepCreate.CreateKeeps` | stellance/backend/src/contracts/contracts.service.ts:38-88 | creating a contract keeps agreement everywhere and starts the new one level: all unpaid, nothing recorded, no entry under its key |
| `LockstepCreate.CreateFunding` | stellance/backend/src/contracts/contracts.service.ts:100-118 | the funding transaction built for it is for exactly its milestones' total |
| `LockstepCreate.JobKeeps` | stellance/backend/src/jobs/jobs.service.ts:177-199 | creating or cancelling a job never leaves a cancelled job with a contract |
| `LockstepCreate.PartyDisputeKeeps` | stellance/Contracts/src/lib.rs:484-520 | a party's direct dispute, whatever the database says at the time, makes nothing the database says false |
| `LockstepRuns.ConfirmKeeps` | stellance/backend/src/contracts/contracts.service.ts:135-160 | confirming a contract's own funding keeps the whole agreement and moves rows only along lifecycle edges |
| `LockstepRuns.SubmitKeeps` | stellance/backend/src/contracts/contracts.service.ts:221-240 | submitting a milestone keeps the whole agreement and moves rows only along lifecycle edges |
| `LockstepRuns.ApproveKeeps` | stellance/backend/src/contracts/contracts.service.ts:265-311 | an approval keeps database, chain and unpaid milestones level, and completes the contract exactly when the entry is fully released |
| `LockstepRuns.DisputeKeeps` | stellance/backend/src/contracts/contracts.service.ts:347-366 | a dispute through the backend, whoever signs it, keeps the whole agreement and moves rows only along lifecycle edges |
| `LockstepRuns.ResolveKeeps` | stellance/backend/src/contracts/contracts.service.ts:391-433 | a resolution ends both sides in matching final states, or changes neither |
| `LockstepRuns.CancelFunded` | stellance/backend/src/contracts/contracts.service.ts:463-503 | cancelling a confirmed contract keeps the whole agreement and moves rows only along lifecycle edges |
| `LockstepRuns.CancelUnfunded` | stellance/backend/src/contracts/contracts.service.ts:463-503 | cancelling an unconfirmed contract keeps the whole agreement and moves rows only along lifecycle edges |
| `LockstepTheorems.StepKeeps` | stellance/backend/src/contracts/contracts.service.ts:38-503 | every request, funding, party dispute or token traffic keeps the whole agreement between database and chain, and moves rows only along lifecycle edges |
| `LockstepTheorems.LockstepAgreement` | stellance/backend/src/contracts/contracts.service.ts:543-591 | in every lockstep state a contract's row agrees with its entry: for ACTIVE and DISPUTED contracts the remainder computed from the payments, the unpaid milestones and the chain's remainder are one number, the other statuses have the matching final or untouched entry, and the entry names the wallets of the contract's own parties and its milestones' sum |
| `LockstepTheorems.NeverOverdraws` | stellance/backend/src/contracts/contracts.service.ts:277-289 | no unpaid milestone of an active contract exceeds what its entry has left |
| `LockstepTheorems.ApprovalPays` | stellance/backend/src/contracts/contracts.service.ts:265-311 | approving a milestone in review pays and records it, to the stroop, if the entry is funded, and changes nothing on either side if a party disputed on the chain |
| `LockstepTheorems.DisputeOpens` | stellance/backend/src/escrow/escrow.service.ts:284-297 | a dispute through the backend opens exactly when its signer is one of the parties' wallets and the entry is funded; otherwise nothing changes |
| `LockstepTheorems.ResolutionSettles` | stellance/backend/src/contracts/contracts.service.ts:391-433 | resolving a disputed contract fails only on a split beyond 10000 basis points, and records the chain's whole remainder |
| `LockstepTheorems.ConfirmationActivates` | stellance/backend/src/contracts/contracts.service.ts:135-160 | confirming a contract's own funding always succeeds, changes only its status and hash, and puts both sides' remainders at its whole total |
| `LockstepTheorems.CancellationRefunds` | stellance/backend/src/contracts/contracts.service.ts:463-503 | an admin's cancellation of a confirmed contract goes through exactly when the entry is funded: it refunds and records the whole remainder and marks the job open; otherwise nothing changes |
| `LockstepTheorems.CancellationReopens` | stellance/backend/src/contracts/contracts.service.ts:463-503 | cancelling a pending contract marks its job open and touches no payment, milestone or entry |
| `LockstepTheorems.Lifecycle` | stellance/backend/src/contracts/contracts.service.ts:64-88 | along any run statuses follow the edges and never return, the funding hash is written once, PAID means a row names the milestone, a cancelled job has no contract and an open job's contract is cancelled |
| `Fulfilment.Opens` | stellance/backend/src/contracts/contracts.service.ts:38-160 | creating, funding and confirming a contract its client can pay for makes it active over a funded entry of exactly the agreed total between its own two parties' wallets, with nothing released, in three fair steps |
| `Fulfilment.Completes` | stellance/backend/src/contracts/contracts.service.ts:221-338 | from any reachable state, submissions by its freelancer and approvals by its client alone bring an active, undisputed contract to completion with its whole total released |
| `Fulfilment.Fulfils` | stellance/backend/src/contracts/contracts.service.ts:38-338 | from any reachable state a contract its client can pay for can be opened and then, by its two parties' work alone, paid until the freelancer's entry has released the sum agreed |
| `Fulfilment.Posted` | stellance/backend/src/jobs/jobs.service.ts:45-56 | right after deployment a client with the money only has to post the job for that to apply |
| `Standstill.FrozenForGood` | stellance/backend/src/escrow/escrow.service.ts:274-288 | once a party has disputed on the chain, no fair run ever changes that active contract's row or entry |
| `Standstill.DisputeFreezes` | stellance/Contracts/src/lib.rs:484-520 | one direct dispute by either party leads there from any active, undisputed contract |
| `Standstill.SelfAdminNeverFinishes` | stellance/backend/src/escrow/escrow.service.ts:328-338 | where the platform's key is the escrow contract's own address, no confirmed contract is ever completed or cancelled |
| `Standstill.FinishableExactly` | stellance/backend/src/contracts/contracts.service.ts:265-503 | some fair run completes or cancels an active contract if and only if no party has disputed on the chain and the platform's key can sign |
| `Standstill.Strands` | stellance/backend/src/contracts/contracts.service.ts:463-503 | any contract a client can pay for can be created, funded and cancelled before confirmation, which leaves its whole total in a live entry |
| `Standstill.LeftExactly` | stellance/backend/src/contracts/contracts.service.ts:463-503 | a cancelled contract leaves money in escrow if and only if it has no hash and its key has an entry; it is then the whole total |
| `Standstill.LeftForGood` | stellance/backend/src/contracts/contracts.service.ts:463-503 | in every fair run that contract's row stays and its entry stays live and unreleased, changing at most from Funded to Disputed |
| `Reachability.LockstepIsOneSchedule` | stellance/backend/src/contracts/contracts.service.ts:38-503 | every fair lockstep run is a run of the interleaved system, access by access, with nobody else about |
| `Reachability.PaidTwiceFromDeployment` | stellance/backend/src/contracts/contracts.service.ts:281-289 | both double payments are reached from deployment by a client with the money |
| `RequestAuthority.AdmitsExactly` | stellance/backend/src/contracts/contracts.service.ts:38-475 | each of the nine requests passes its guards if and only if its caller is the one it is for (the job's or the contract's client, the contract's freelancer, either party, or an admin) and what it is about stands where the request needs it; it then goes on to the one access stated |
| `RequestAuthority.StrangersChangeNothing` | stellance/backend/src/contracts/contracts.service.ts:38-475 | a request by anybody else, or at another time, changes neither database nor chain served alone, and nothing at all in the interleaved system |
| `RequestAuthority.CallsAreAsked` | stellance/backend/src/contracts/contracts.service.ts:265-289 | a chain call enters the interleaved system only by the arrival of the request for it: a release by the approval of the contract's own client for that milestone's amount, a resolution by an admin's, a refund or a dispute by someone entitled to it |
| `RequestAuthority.PaymentsWereAsked` | stellance/backend/src/contracts/contracts.service.ts:265-309 | in every interleaved run from deployment each milestone's payment row was asked for by the contract's own client, for that amount, while the milestone was in review; every other row by an admin |
| `RequestAuthority.PartiesStay` | stellance/backend/src/contracts/contracts.service.ts:64-75 | the job, client and freelancer of a contract are those of its creation in every run |
| `RequestAuthority.DisputeWaitsForAdmin` | stellance/backend/src/contracts/contracts.service.ts:397-402 | no fair lockstep run without an admin's request changes the row or the entry of a disputed contract |
| `RequestEffects.PostingExactly` | stellance/backend/src/jobs/jobs.service.ts:45-56 | posting a job adds it, open and the caller's own, and changes nothing else |
| `RequestEffects.WithdrawalExactly` | stellance/backend/src/jobs/jobs.service.ts:177-199 | a job becomes cancelled exactly when its client or an admin asks, it is not finished or cancelled and no contract has it; nothing else changes |
| `RequestEffects.CreationExactly` | stellance/backend/src/contracts/contracts.service.ts:38-88 | a creation writes the pending row, one TODO milestone per amount asked for and the job's status, all or none, exactly when the caller's own open job never had a contract; every other row stays |
| `RequestEffects.ConfirmationExactly` | stellance/backend/src/contracts/contracts.service.ts:135-160 | a confirmation stores its hash and activates, exactly for the client of an unconfirmed pending or active contract and a hash no other contract has |
| `RequestEffects.SubmissionExactly` | stellance/backend/src/contracts/contracts.service.ts:221-240 | a submission moves one TODO milestone into review, exactly for the freelancer of an active contract, and changes nothing else |
| `RequestEffects.ApprovalExactly` | stellance/backend/src/contracts/contracts.service.ts:265-311 | over a funded entry an approval moves exactly the milestone's amount from escrow to the freelancer, adds its one row, marks it PAID and completes the contract exactly with its last milestone; over a disputed one it changes nothing |
| `RequestEffects.DisputeExactly` | stellance/backend/src/contracts/contracts.service.ts:347-366 | a dispute freezes row and entry exactly when a party's wallet signs it and nobody disputed before, and moves no token |
| `RequestEffects.ResolutionExactly` | stellance/backend/src/contracts/contracts.service.ts:391-433 | unless a split goes beyond 10000 basis points, a resolution pays out the whole remainder as decided, adds one row for it, and sets only the contract's status; otherwise nothing changes |
| `RequestEffects.CancellationExactly` | stellance/backend/src/contracts/contracts.service.ts:463-503 | over a funded entry an admin's cancellation refunds the whole remainder to the client, adds one row for it, cancels the contract and opens its job, and changes nothing else; otherwise nothing changes |
| `ContractsService.ContractsService.CreateJob` | stellance/backend/src/jobs/jobs.service.ts:45-56 | does what the lockstep request does, and answers success exactly when the database changed |
| `ContractsService.ContractsService.CancelJob` | stellance/backend/src/jobs/jobs.service.ts:177-199 | does what the lockstep request does, refusing a job with a contract; answers success exactly when the database changed, and only to the job's client or an admin |
| `ContractsService.ContractsService.Create` | stellance/backend/src/contracts/contracts.service.ts:38-88 | the row-by-row insertion adds exactly the milestones asked for, and the whole does what the lockstep request does; answers success exactly when the database changed, and only to the job's client |
| `ContractsService.ContractsService.ConfirmFund` | stellance/backend/src/contracts/contracts.service.ts:135-160 | does what the lockstep request does, refusing a hash another contract has; answers success exactly when the database changed, and only to the client |
| `ContractsService.ContractsService.SubmitMilestone` | stellance/backend/src/contracts/contracts.service.ts:221-240 | does what the lockstep request does; answers success exactly when the database changed, and only to the freelancer |
| `ContractsService.ContractsService.ApproveMilestone` | stellance/backend/src/contracts/contracts.service.ts:265-311 | guards, chain call, transaction and completion check together do what the lockstep request does; answers success exactly when the database changed, and only to the client |
| `ContractsService.ContractsService.PayMilestone` | stellance/backend/src/contracts/contracts.service.ts:292-309 | the transaction writes both rows or, on a refused payment, neither |
| `ContractsService.ContractsService.MaybeCompleteContract` | stellance/backend/src/contracts/contracts.service.ts:543-552 | the loop over the milestones completes the contract exactly when every one of them is paid |
| `ContractsService.ContractsService.RemainingAmount` | stellance/backend/src/contracts/contracts.service.ts:572-591 | the two loops compute milestones minus payments of this contract alone, never below zero |
| `ContractsService.ContractsService.Dispute` | stellance/backend/src/contracts/contracts.service.ts:347-366 | guards, chain call and status change together do what the lockstep request does; answers success exactly when the database changed, and only to a party |
| `ContractsService.ContractsService.ResolveDispute` | stellance/backend/src/contracts/contracts.service.ts:391-433 | guards, chain call, remainder loop and transaction together do what the lockstep request does; answers success exactly when the database changed, and only to an admin |
| `ContractsService.ContractsService.Cancel` | stellance/backend/src/contracts/contracts.service.ts:463-503 | guards, optional refund, remainder loop and transaction together do what the lockstep request does; answers success exactly when the database changed, and only to an admin, or to the client before confirmation |
| `TokenDb.RotationOutcome` | stellance/backend/src/auth/auth.service.ts:147-171 | the create-and-claim transaction commits both rows, or fails on a taken hash or an already revoked token and writes neither |
| `TokenDb.UpdatesExactly` | stellance/backend/src/test-utils/prisma.mock.ts:182-207 | an update writes exactly the given fields of exactly the rows that carry every field of the filter, leaves every other field, row and user alone, and counts those rows |
| `TokenRotation.StepKeeps` | stellance/backend/src/auth/auth.service.ts:68-222 | every access of any overlapping requests keeps the replacement links one chain per login of one user and version, and never un-revokes or removes a row |
| `TokenRotation.RootIsLogin` | stellance/backend/src/auth/auth.service.ts:89-98 | every row belongs to exactly one login's chain and shares its user, version and newest row |
| `TokenRotation.OneLivePerLogin` | stellance/backend/src/auth/auth.service.ts:159-166 | two unrevoked rows of one login are the same row, the newest |
| `TokenRotation.RotationIsSafe` | stellance/backend/src/auth/auth.service.ts:106-177 | both in every interleaving from deployment on, and no token is ever exchanged twice |
| `TokenRotation.VersionFence` | stellance/backend/src/auth/auth.service.ts:136-138 | once the version is raised no refresh that reads later succeeds on an older row, and no older row is usable, not even one still to be written by a request in flight |
| `TokenRotation.ReuseRaisesAlarm` | stellance/backend/src/auth/auth.service.ts:124-130 | presenting an exchanged token, or losing the race for one, turns the request into a logout of the whole user |
| `TokenRotation.AlarmKillsChain` | stellance/backend/src/auth/auth.service.ts:212-222 | after the first of its two steps alone, nothing in the chain of any of the user's tokens is ever usable again |
| `SessionRules.BumpExactly` | stellance/backend/src/auth/auth.service.ts:214-217 | a logout's first access raises that user's version by one and touches no other user and no row, or drops out when the user is gone |
| `SessionRules.RevokeAllExactly` | stellance/backend/src/auth/auth.service.ts:218-221 | its second access marks every live row of that user revoked as of now, and leaves every other row, every other field and every user as they were |
| `SessionRules.RevokeOneExactly` | stellance/backend/src/auth/auth.service.ts:200-209 | revoking one token marks its live row revoked as of now, and leaves every other row, every other field and every user as they were |
| `SessionRules.RevocationLasts` | stellance/backend/src/auth/auth.service.ts:196-210 | a revoked token is over: its row is revoked as of then and replaced by nothing, and in every continuation no refresh is granted on it, neither one that had read it before nor one that reads it later |
| `SessionRules.RevokedNeverExchanged` | stellance/backend/src/auth/auth.service.ts:159-170 | however it came to be revoked, a revoked row is never exchanged again in any continuation |
| `SessionRules.ReadExactly` | stellance/backend/src/auth/auth.service.ts:111-138 | a refresh that reads a row goes on exactly when the row is unrevoked, unexpired and of its user's version, raises the alarm exactly when it was exchanged before, and ends otherwise |
| `SessionRules.ExchangeExactly` | stellance/backend/src/auth/auth.service.ts:147-177 | the refresh that finds its row unrevoked still writes the successor and claims the row, naming it; one that finds it revoked changes nothing and raises the alarm |
| `SessionRules.LoginExactly` | stellance/backend/src/auth/auth.service.ts:68-98 | a login adds one live row of the user and version it read, and nothing else, unless the secret is in use |
| `TokenStore.PrismaServiceMock.CreateUser` | stellance/backend/src/test-utils/prisma.mock.ts:83-100 | the user indexes still agree afterwards exactly when the email was new |
| `TokenStore.PrismaServiceMock.FindUser` | stellance/backend/src/test-utils/prisma.mock.ts:73-81 | finds by id if one is given, else by email, else nothing, and the same user either way |
| `TokenStore.PrismaServiceMock.BumpUser` | stellance/backend/src/test-utils/prisma.mock.ts:102-123 | raises exactly one user's version by the amount in both indexes, or fails for an unknown user and changes nothing |
| `TokenStore.PrismaServiceMock.CreateToken` | stellance/backend/src/test-utils/prisma.mock.ts:127-154 | adds exactly that row to both indexes, or refuses a hash some row has and changes nothing |
| `TokenStore.PrismaServiceMock.FindToken` | stellance/backend/src/test-utils/prisma.mock.ts:156-169 | finds the one row with the hash, if there is one, and its user |
| `TokenStore.PrismaServiceMock.UpdateTokens` | stellance/backend/src/test-utils/prisma.mock.ts:171-214 | the loop gives exactly the rows that carry every field of the filter, id, user, hash and revocation, exactly the fields given, in both indexes, and returns their number; no other row or user changes |
| `TokenStore.PrismaServiceMock.Transaction` | stellance/backend/src/test-utils/prisma.mock.ts:217-232 | runs the statements, or on a throw restores the earlier contents from a shallow snapshot |
| `AuthService.RefreshAlone` | stellance/backend/src/auth/auth.service.ts:106-177 | the protocol's own steps for one refresh, run alone, come to the stated result |
| `AuthService.AuthService.Login` | stellance/backend/src/auth/auth.service.ts:68-104 | on the store, adds the row with the version read earlier, as the protocol's login step does, or fails on a secret in use |
| `AuthService.AuthService.Refresh` | stellance/backend/src/auth/auth.service.ts:106-177 | on the store, leaves what the protocol's steps leave; grants exactly on a live, unexpired row of its user's version with an unused secret, answers each failed check in the order of the source, and changes only the two rows, or on a reuse logs that user out |
| `AuthService.AuthService.RevokeRefreshToken` | stellance/backend/src/auth/auth.service.ts:196-210 | on the store, marks the live row with that hash revoked as of now and changes nothing else, as the protocol's conditional revocation does |
| `AuthService.AuthService.LogoutAll` | stellance/backend/src/auth/auth.service.ts:212-222 | raises that user's version by one and marks that user's live rows revoked as of now, leaving every other user's rows and versions alone; changes nothing when the user is gone |
| `Earnings.GetEarnings` | stellance/backend/src/payments/payments.service.ts:289-342 | the one-pass map equals filtering by contract and summing; every contract with a payment appears once, in the order of its first payment; the groups add up to the total and the count |

## Left out

- Interleavings.CancelledExactly: requests that have still to call the chain or to read are excluded, because whether they come to write depends on what the chain accepts by then; so is a confirmation whose hash another contract holds for now, which a second stale confirmation could free. `Interleavings.CancelledForGood` covers both one way.
- Rounding.FundingCoversReleases: proved up to (n+1)·S < 2^51 stroops; beyond that the two roundings can differ, as `Rounding.FundingOvershoots` shows, and lockstep agreement is not claimed there.
- LockstepTheorems.LockstepAgreement: assumes what "Assumptions" lists under lockstep, above all that the hash given to `confirm-fund` is this contract's own funding, which the code does not check.
- ContractsService.ContractsService.ApproveMilestone: chain replies are truthful in the class form; lost replies and crashes are in `PaymentBacking` and `Reconciliation`. The APPROVED status, which exists only inside the transaction, is not stored.
- Reconciliation.StepLeaks: amounts are reckoned for milestone releases alone, because a settlement's row holds what the database thought was left; settlements are accounted event by event in `PayoutBooks`.
- TokenStore.PrismaServiceMock.Transaction: a transaction is a list of statements run without interruption; other requests that interleave with the mock's asynchronous callback are not modelled.
- TokenRotation.VersionFence: speaks of refresh tokens only; an access token outlives `logoutAll` until it expires.
- The token's own arithmetic overflow, clawback, freezing and deauthorisation; storage time-to-live and archival.
- `get_escrow`, `get_admin`, `version` and `ping`, which only read.
- Stellar RPC, Horizon, XDR building, signing, fees and delays; the existence check of `verifyTransaction`.
- The users' rows in `create` (their existence and wallets), the order in which `every` milestone is read, and the two parallel queries of `_remainingAmount`, which are one access here.
- Amounts in a request with more than seven decimals: the model starts from what the decimal column stores.
- `jobs.update`, which changes no status; job search, pagination, findAll and findOne.
- Notifications, controllers, DTO validation beyond the bounds the model states, `withdraw`, `getBalances`, and transaction listing.
- Which payments are a freelancer's, and their order, which one query decides: its result is the input of `Earnings.GetEarnings`.
- The reply to a missing refresh token, which never reaches the store.
- The formatting of earnings to seven decimals, and whether earnings equal chain receipts: refunds and splits are recorded too.
- argon2, SHA-256, random bytes and JWT signing; the 48-byte token and its pepper are an injective hash here.
- The frontend.
