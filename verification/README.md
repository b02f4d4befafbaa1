# Verified models of Magpie's off-chain algorithms

This project models the algorithms and state machines of the Magpie backend that
decide who is paid, what is signed and what is counted, and proves their
properties for all inputs, all runs and all interleavings the model allows.

| module | models |
|---|---|
| `SolAmount`, `DecimalText` | parsing pool sizes given in SOL to lamports |
| `Ordering`, `Sums`, `Allocation`, `DistributionPlan` | the snapshot folds, the pro-rata split of a pool, and the plan rows |
| `Executor` | paying a plan in batches against a persistent journal, over any number of runs, failures, stops and crashes |
| `Pipeline` | both distribution scripts together |
| `Positional`, `Base58` | the base58 decoder |
| `SlidingWindow`, `RateLimiter`, `CreateLimiter`, `FailureCounter` | the pruned-timestamp limiters and counters, against exact unpruned logs |
| `CosignGates` | the static gates of the co-sign endpoint, from the outer allowlist to program and category agreement |
| `DrainCheck`, `FailOpenBreaker`, `CosignLayerTwo` | the lender balance-delta check, its retry loops, and the fail-open circuit breaker |
| `AgentOrders` | the arm, cancel and listing endpoints over delegations and limit-close orders |
| `AgentRuns`, `AgentRevocation` | runs of those endpoints with grants, revocations, the borrower's answers and the engine's moves |
| `GovernanceVotes` | the vote log and its latest-wins tally |
| `CreditAttestation`, `AttestationReadings` | the signed text of a credit attestation, a parser for it, and when the text has a second reading |
| `LoanBackfill` | recovery of on-chain loans missing from the database |

Where the code changes state step by step, the model is a class or a method with
loops, proved equal to a specification function; the theorems are about that
function. State machines are total step functions over events, and their theorems
quantify over every event sequence. Clocks do not run backwards (each theorem that
needs this says so), amounts that the code keeps as `BigInt` are unbounded, and
database statements are atomic. Outcomes of the network, of services and of coin
flips are parameters, so a theorem holds for each of them.

## Where the code is not what its documentation says

- `scripts/execute-distribution-plan.js:21-25` promises "No double-pay". A batch
  that lands without a confirmed journal line (a crash between the confirmation at
  line 294 and the append at line 320, sleep included, or a send reported as an error
  that lands all the same, perhaps only during a later run) is paid again.
  `Executor.ExcessAttained` shows the loss, `Executor.ExcessBounded` bounds it, and
  `Executor.ContinuationSafeIff` gives the exact condition under which nobody is paid
  twice from then on.
- `src/api/cosign-borrow.js:118-119` says that more than the threshold of fail-opens
  trips the breaker; it trips when the threshold is reached (line 135). The model
  follows the code.
- `src/api/cosign-borrow.js:1159` checks the mint only if the instruction data has at
  least 33 bytes. `CosignGates.MintIgnoredIffArgumentsIncomplete` shows that the
  shorter ones are exactly those whose decision ignores the mint, and
  `CosignGates.ShortBorrowSigned` is such a borrow, signed for any mint.
- `src/api/internal-agent-limitclose.js:1073-1077` says that a unique index admits one
  armed order per loan. Migration 064 dropped that index; the trigger of migration 065
  keeps the armed slices of a loan and direction within the whole collateral, and the
  model follows it. `AgentRuns.RunsAreTidy` proves the sum over every run,
  `AgentRuns.FullOrderIsAlone` that agent orders still stand alone,
  `AgentRuns.TwoLegsShareASlot` is a ladder with two armed orders side by side, and
  `AgentRuns.OnePerSlotIff` says exactly which runs have one order per loan and direction.
- `src/api/internal-agent-limitclose.js:311-334` caps the orders an agent has armed, but
  `src/commands/limit-close-intervention.js:141-156` puts an order that awaits the
  borrower back to armed without counting. `AgentRuns.DeclineExceedsCap` is a run with
  two armed orders under a limit of one, `AgentRuns.CapKeptIff` says exactly which runs
  keep the cap, and `AgentRuns.ArmedWithinGrants` bounds the others.
- `src/commands/agent-delegations.js:207-213` wants a revocation to stand down the orders
  of the agent; it cancels the armed ones only. An order that is being fired or awaits
  the borrower can be armed again afterwards (`AgentRevocation.DeclineOutlivesRevocation`);
  `AgentRevocation.RevocationLastsIff` is the exact condition.
- `src/api/internal-agent-limitclose.js:981-986` wants the listing and the arm endpoint
  to agree. The listing selects loans by any of the agent's users and any of its
  wallets, the arm endpoint by this delegation's pair.
  `AgentOrders.ListedButRefused` is a loan listed as eligible and refused,
  `AgentOrders.ListedLineArmableIff` gives the exact gap.
- `src/api/credit-attest.js:29` says that the signature covers sorted JSON; the code
  signs nine lines of text and does not escape newlines. Another attestation has the
  same text exactly when a text field contains, after its first line, the lines that
  follow it or the text field before it (`AttestationReadings.SecondReadingIff`;
  `CreditAttestation.NewlinesCollide` is an instance). The endpoint itself only signs
  attestations without newlines in their text fields: the wallet has passed the public
  key constructor, the tier is one of a fixed list and the dates are ISO strings
  (lines 106-145). Those are unambiguous (`AttestationReadings.CanonicalInjective`).
- `src/api/backfill-wallet-loans.js:188-216` counts a loan as inserted when
  `recordLoan` returns, but that function returns without storing anything when the
  loan id is taken (`src/services/loans.js:742` and `:766`), and ids are unique in the table
  though an account address depends on borrower and id (`src/solana/pdas.js:27`), so
  two borrowers may use the same one.
  `LoanBackfill.AllRecoveredIff` is the exact condition, `LoanBackfill.ShadowedForever`
  shows that the rest is never recovered.
- `src/api/backfill-wallet-loans.js:222-224` wants the status of a closed loan synced. Its
  loop runs only if something was counted and ends with the first failing update, and
  no later scan looks at a stored row again (`LoanBackfill.LeftStaleIff`,
  `LoanBackfill.StaleForever`).

## Model

| member | source | states |
|---|---|---|
| SolAmount.MatchesIffWritten | scripts/compute-distribution-plan.js:147-151 | the scanner accepts exactly the texts of the amount grammar, and the integer and fraction parts are unique |
| SolAmount.ParseIgnoresSpace | scripts/compute-distribution-plan.js:149 | blanks, tabs and line ends around an amount make no difference |
| SolAmount.ParseExact | scripts/compute-distribution-plan.js:147-156 | parsing succeeds exactly on the stated shape, and the lamports are the denoted decimal times 10^9, without rounding |
| SolAmount.ParseEqualIffSameDecimal | scripts/compute-distribution-plan.js:147-156 | two accepted texts give the same lamports if and only if they denote the same decimal number |
| SolAmount.RenderRoundTrip | scripts/compute-distribution-plan.js:147-156 | every lamport amount survives decimal rendering and parsing, with any number of trailing fractional zeros dropped |
| Allocation.FoldRows | scripts/compute-distribution-plan.js:172-186 | a bucket fold adds to each wallet exactly the sum of its rows |
| Allocation.HolderWeights | scripts/compute-distribution-plan.js:172-186 | a holder's weight is the sum over directly held and collateralized rows |
| Allocation.Allocate | scripts/compute-distribution-plan.js:201-221 | every wallet gets floor(pool * weight / total), the first in sort order also the remainder, nobody else is listed; the pool is handed out exactly when there is weight |
| Allocation.HandOutShares | scripts/compute-distribution-plan.js:206-216 | the loop lists exactly the positive rounded-down shares and knows their sum |
| Allocation.RemainderBounds | scripts/compute-distribution-plan.js:206-219 | the remainder is not negative and strictly less than the number of weighted wallets |
| Allocation.AllocationTotal | scripts/compute-distribution-plan.js:201-221 | the lamports handed out sum to the pool |
| Allocation.AllocationIs | scripts/compute-distribution-plan.js:203-219 | each wallet gets its rounded-down share, the heaviest (first by address among equals) also the remainder, and nobody is listed with nothing |
| Allocation.AllocationMonotone | scripts/compute-distribution-plan.js:201-221 | a strictly larger weight never gets fewer lamports |
| Allocation.AllocationDependsOnSums | scripts/compute-distribution-plan.js:172-221 | the allocation is a function of each wallet's summed weight, whatever zero entries or order the fold produced |
| Allocation.AllocationIgnoresRowOrderAndSplits | scripts/compute-distribution-plan.js:172-221 | permuting the rows or splitting one balance over two rows leaves the allocation unchanged |
| Allocation.AllocationUnique | scripts/compute-distribution-plan.js:201-221 | the weights and the pool admit one allocation only |
| Ordering.SortSorts | scripts/compute-distribution-plan.js:203-206 | sorting by a strict total order yields a sorted permutation |
| Ordering.SortedUnique | scripts/compute-distribution-plan.js:237-241 | a set has one sorted enumeration, so enumeration order of a Set or Map cannot show |
| Ordering.LessIs | scripts/compute-distribution-plan.js:204 | addresses compare by their first difference, a prefix before its extensions |
| DistributionPlan.PlanRows | scripts/compute-distribution-plan.js:226-247 | one row per recipient of either allocation, sorted by address, with both amounts and their sum |
| DistributionPlan.PlanRowsAre | scripts/compute-distribution-plan.js:226-247 | each row has the wallet's holder lamports, LP lamports and their sum; every recipient has one; addresses ascend |
| DistributionPlan.PlanUnique | scripts/compute-distribution-plan.js:226-247 | the two allocations determine the rows, order included |
| DistributionPlan.PlanWalletsDistinct | scripts/compute-distribution-plan.js:226-247 | no wallet has two rows, and each row pays the wallet's two allocations |
| DistributionPlan.ComputePlan | scripts/compute-distribution-plan.js:172-247 | fold, total, allocate both pools, combine and sort |
| DistributionPlan.PlanDependsOnSums | scripts/compute-distribution-plan.js:172-247 | snapshots with the same summed weights give the same rows in the same order |
| DistributionPlan.PlanConserves | scripts/compute-distribution-plan.js:188-247 | the plan pays both pools to the last lamport when both categories have weight |
| Executor.Distributor.LoadJournal | scripts/execute-distribution-plan.js:163-178 | replay collects exactly the recipients of this plan's confirmed lines |
| Executor.Distributor.BuildWork | scripts/execute-distribution-plan.js:180-201 | the work holds exactly the plan's rows of at least 1000 lamports whose wallet is not journaled; dust and paid rows are counted |
| Executor.Distributor.SendBatch | scripts/execute-distribution-plan.js:280-335 | one batch takes the machine's steps for its outcome |
| Executor.Distributor.SendBatches | scripts/execute-distribution-plan.js:278-350 | the batch loop leaves journal and chain exactly as the machine's steps for the batches' outcomes do; the two counts cover the work and are journaled |
| Executor.Distributor.Run | scripts/execute-distribution-plan.js:160-356 | one run is a sequence of the machine's steps, and each exit, completion included, happens exactly under its condition |
| Executor.StepsKeepInv | scripts/execute-distribution-plan.js:163-335 | the invariant is kept from any state that has it |
| Executor.ReachableInv | scripts/execute-distribution-plan.js:163-335 | the invariant of every state over any mix of runs, failed batches, stops and crashes |
| Executor.ExcessBounded | scripts/execute-distribution-plan.js:163-335 | transfers beyond one per recipient are at most ten per batch that landed unjournaled, whenever it landed; these, landed or still to land, are at most the crashes and unclear sends; every transfer is a planned row at or above the dust limit |
| Executor.ExcessAttained | scripts/execute-distribution-plan.js:292-335 | for every n, n crashes in the gap and a rerun pay ten wallets n times too often: the bound is tight |
| Executor.PaidIsJournaled | scripts/execute-distribution-plan.js:166-178 | without such a batch the wallets on chain are the journaled ones (plus the batch inside the gap) and each is paid once |
| Executor.CleanRunPaysAll | scripts/execute-distribution-plan.js:278-356 | a run ending with zero failures has journaled and paid exactly the non-dust recipients, once each without an unjournaled batch |
| Executor.CleanRunPaysRows | scripts/execute-distribution-plan.js:189-201 | after it each plan row of at least 1000 lamports is on chain with its amount and in the journal, and no other row is |
| Executor.StartsIff | scripts/execute-distribution-plan.js:203-245 | a run starts exactly if a row is owed, the balance covers work and reserve, and it is not a dry run |
| Executor.JournalIsTrue | scripts/execute-distribution-plan.js:301-335 | whatever happens, each transfer that a confirmed line of this plan names is on chain, amount by amount |
| Executor.PlanIsConserved | scripts/execute-distribution-plan.js:180-335 | plan total = paid + dust + outstanding in every state without an unjournaled batch |
| Executor.PayAllIsSteps | scripts/execute-distribution-plan.js:278-335 | an undisturbed run is one of the event sequences the theorems range over |
| Executor.RerunSafeIff | scripts/execute-distribution-plan.js:163-335 | from any reachable idle state an undisturbed rerun completes the plan, and pays nobody twice if and only if nobody was paid twice before and every paid wallet is journaled |
| Executor.ContinuationSafeIff | scripts/execute-distribution-plan.js:163-335 | from any reachable idle state, no continuation without a further crash or unclear send pays anybody twice, if and only if nobody was paid twice so far, every paid wallet is journaled and no earlier batch can still land |
| Pipeline.PoolsAreConserved | scripts/compute-distribution-plan.js:201-247 | holder pool + LP pool = paid + dust + outstanding in every state reachable from the computed plan without an unjournaled batch |
| Pipeline.ComputedPlanExcessBounded | scripts/execute-distribution-plan.js:189-335 | for computed plans the excess bound needs no assumption on the plan, and every transfer pays one plan row's total |
| Base58.DecodeBase58 | scripts/audit-lender-outflows.js:145-159 | the decoder with its loops equals the positional specification: none for the empty string or a foreign character, else leading zeros and base-256 digits |
| Base58.NumberOf | scripts/audit-lender-outflows.js:149-154 | the accumulation loop computes the base-58 value, or stops at a foreign character |
| Base58.BytesOf | scripts/audit-lender-outflows.js:155-156 | shifting and unshifting yields the canonical base-256 digits |
| Base58.UnshiftZeros | scripts/audit-lender-outflows.js:155-157 | one zero byte in front per leading '1' |
| Base58.AlphabetIs | scripts/audit-lender-outflows.js:147 | the digits in order: '1' to '9', capitals without I and O, small letters without l |
| Base58.DecodePreservesValue | scripts/audit-lender-outflows.js:145-159 | the bytes denote the same number as the string, with as many leading zero bytes as leading '1's |
| Base58.EncodeAfterDecode | scripts/audit-lender-outflows.js:145-159 | decoding is defined exactly on non-empty strings over the alphabet, and encoding undoes it |
| Base58.DecodeAfterEncode | scripts/audit-lender-outflows.js:145-159 | every non-empty byte sequence is the decoding of its encoding |
| Base58.DecodeInjective | scripts/audit-lender-outflows.js:145-159 | strings with the same bytes are equal |
| RateLimiter.IpLimiter.Check | src/api/account-link.js:273-286 | answer and new buckets of one call, eviction included |
| RateLimiter.EvictStale | src/api/backfill-wallet-loans.js:57-60 | the clean-up loop removes exactly the stale buckets |
| RateLimiter.EvictionUnobservable | src/api/account-link.js:273-286 | after any calls with any coin flips, the next call is answered as an unpruned log would answer it |
| RateLimiter.AcceptedIsLog | src/api/account-link.js:273-286 | the calls the limiter accepts are those the unpruned log accepts |
| RateLimiter.AcceptedPerWindow | src/api/backfill-wallet-loans.js:46-62 | the limiter accepts at most the maximum of calls of an address in any stretch shorter than the window |
| RateLimiter.DeployedLimits | src/api/account-link.js:243-244 | the same at 60 and at 20 calls a minute |
| CreateLimiter.CreateGuard.CanIpCreateAccount | src/api/account-link.js:293-299 | prunes the bucket and compares the rest with the cap |
| CreateLimiter.CreateGuard.RecordIpCreate | src/api/account-link.js:300-313 | appends, and perhaps evicts exactly the stale buckets |
| CreateLimiter.RunAgrees | src/api/account-link.js:293-313 | under any interleaving the pruned buckets see every later window as the unpruned record does |
| CreateLimiter.CreationsBounded | src/api/account-link.js:341-364 | interleaved requests create at most max - 1 + k accounts per address and window, k the most requests between check and record at once during that window |
| CreateLimiter.SequentialCap | src/api/account-link.js:247-254 | one request at a time: the documented cap |
| CreateLimiter.DeployedCap | src/api/account-link.js:253-254 | the same at eight accounts in 24 hours |
| CreateLimiter.BoundAttained | src/api/account-link.js:341-364 | for every k some run with peak k creates max - 1 + k |
| FailureCounter.FailureLog.RecordBorrowFailure | src/api/cosign-borrow.js:68-76 | appends a stamp and trims the class's list |
| FailureCounter.FailureLog.GetRecentBorrowFailures | src/api/cosign-borrow.js:79-87 | lists exactly the classes with a recent stamp, with their counts |
| FailureCounter.SnapshotIsExact | src/api/cosign-borrow.js:65-87 | despite trimming, a snapshot at any later time counts exactly the history's failures within the hour |
| FailOpenBreaker.FailOpenGuard.RecordFailOpenAndShouldTrip | src/api/cosign-borrow.js:128-140 | prunes, records, and trips when the threshold is reached |
| FailOpenBreaker.FailOpenGuard.IsFailOpenBreakerTripped | src/api/cosign-borrow.js:142-154 | prunes and resets only when nothing recent is left |
| FailOpenBreaker.QueryKeepsInv | src/api/cosign-borrow.js:142-154 | a query keeps the breaker tied to the full list of fail-opens |
| FailOpenBreaker.RecordKeepsInv | src/api/cosign-borrow.js:128-140 | so does recording while untripped, and no closed window exceeds the threshold |
| FailOpenBreaker.LatchesForOneWindow | src/api/cosign-borrow.js:142-154 | a tripped breaker reports tripped exactly while at most a full window has passed since the last fail-open |
| DrainCheck.LenderTouched | src/api/cosign-borrow.js:374-396 | collects the lender's own account and the token accounts it owns |
| DrainCheck.TouchedComplete | src/api/cosign-borrow.js:374-396 | the lender's wallet and each token account of either program that it owns are compared, each at its rank, and nothing else |
| DrainCheck.Simulate | src/api/cosign-borrow.js:409-453 | at most four attempts, each but the last a transient, non-stale error |
| DrainCheck.SimulatedIs | src/api/cosign-borrow.js:409-453 | the retries end with the first attempt that returned, was stale or not transient, or else with the fourth |
| DrainCheck.Compare | src/api/cosign-borrow.js:466-520 | ok exactly if every returned post-state keeps the balance, SOL up to the dust limit |
| DrainCheck.DetectLenderBalanceDrain | src/api/cosign-borrow.js:349-520 | the verdict of one check, with at most four attempts |
| DrainCheck.OkIff | src/api/cosign-borrow.js:349-520 | the verdict is ok exactly if no account of the lender is in the transaction, or the simulation ran and each one that came back keeps its balance, the wallet up to dust |
| DrainCheck.ErrorIff | src/api/cosign-borrow.js:366-453 | the check fails to be made exactly if nothing could be read or the simulation threw in the end, and with which class |
| CosignLayerTwo.RunChecks | src/api/cosign-borrow.js:1776-1871 | at most six checks; the verdict is the last one's |
| CosignLayerTwo.EarlierChecksRetryable | src/api/cosign-borrow.js:1776-1871 | each check before the last failed in a way its loop may cure |
| CosignLayerTwo.LastCheckIs | src/api/cosign-borrow.js:1776-1871 | the re-warm loop goes on while history is missing, at most three times, then the other while accounts are missing, at most twice |
| CosignLayerTwo.LayerTwo.Handle | src/api/cosign-borrow.js:1776-2123 | decision and breaker after a request are those of the last verdict |
| CosignLayerTwo.BroadcastIff | src/api/cosign-borrow.js:1873-2123 | a broadcast means a safe last check, or a thrown non-stale error with the breaker clear and fail-closed off; both directions |
| CosignLayerTwo.HistoryInv | src/api/cosign-borrow.js:2085-2118 | the breaker's invariant after every request history |
| CosignLayerTwo.FailOpensBounded | src/api/cosign-borrow.js:2085-2118 | every closed window holds at most the threshold of fail-open broadcasts |
| CosignLayerTwo.DeployedFailOpens | src/api/cosign-borrow.js:123-124 | the same at five in five minutes |
| CosignLayerTwo.TrippedExactly | src/api/cosign-borrow.js:142-154 | a tripped breaker had a full window and clears exactly after a full window of silence |
| CosignLayerTwo.FullWindowTrips | src/api/cosign-borrow.js:128-154 | a full window that is still open means tripped |
| CosignGates.GateOuterPrograms | src/api/cosign-borrow.js:792-831 | passes exactly if every outer program is on the written-out list and no System instruction has the lender first; a refusal names a fault |
| CosignGates.GateTokenSources | src/api/cosign-borrow.js:850-970 | passes exactly if no drain-capable Token instruction has a lender-owned or unverifiable source |
| CosignGates.GateBorrowShape | src/api/cosign-borrow.js:978-1046 | passes exactly on one allowed borrow instruction whose V3 category lookup fits |
| CosignGates.CosignGates | src/api/cosign-borrow.js:792-1317 | the gate chain signs exactly the acceptable transactions; every refusal names a fault that is there, with its status |
| CosignGates.SignedIff | src/api/cosign-borrow.js:792-1317 | which transactions are signed, written out: listed programs, harmless token sources, one borrow with its discriminator, signers and category rule, no ban, attestation ready |
| CosignGates.SignedHasOneBorrow | src/api/cosign-borrow.js:978-1046 | a signed transaction has exactly one lending-program instruction, with the borrow discriminator |
| CosignGates.SignedBySoleBorrower | src/api/cosign-borrow.js:1050-1119 | its borrower is the sole other signer if and only if accounts[8] is not the lender, which an empty lender slot guarantees |
| CosignGates.SignedCategoryAgrees | src/api/cosign-borrow.js:1154-1317 | with complete arguments, program, category byte and the mint's category agree |
| CosignGates.MintIgnoredIffArgumentsIncomplete | src/api/cosign-borrow.js:1159-1317 | exactly the incomplete argument lists are signed whatever the mint |
| CosignGates.ShortBorrowSigned | src/api/cosign-borrow.js:1159-1317 | a V1 borrow of eight bytes passes every gate for each mint category, RWA included |
| CosignGates.TokenGateIsSound | src/api/cosign-borrow.js:832-970 | executing a passed transaction's instructions leaves each lender-owned account with at least its balance, after every instruction |
| CosignGates.DrainPossible | src/api/cosign-borrow.js:853-875 | a drain-capable instruction naming an account first may empty it under the ledger rule |
| CosignGates.TokenGateIsExact | src/api/cosign-borrow.js:832-970 | on readable token accounts the gate passes exactly the transactions with no execution that lowers a lender account |
| AgentOrders.FindDelegation | src/api/internal-agent-limitclose.js:219-232 | the first active row of the wallet and agent |
| AgentOrders.Ledger.Arm | src/api/internal-agent-limitclose.js:209-384 | outcome and table changes of an arm request |
| AgentOrders.ArmSucceedsIff | src/api/internal-agent-limitclose.js:209-384 | exactly when an arm succeeds; the cap passed on is the requested slippage, with auto-escalation the grant's maximum |
| AgentOrders.NoGrantNoArm | src/api/internal-agent-limitclose.js:219-234 | without a grant in force no arm succeeds |
| AgentOrders.RefusalIs | src/api/internal-agent-limitclose.js:235-334 | which refusal a well-formed request gets |
| AgentOrders.ArmChanges | src/api/internal-agent-limitclose.js:235-384 | an arm adds one armed full order of the grant's user, an expired grant is marked, nothing else changes |
| AgentOrders.Ledger.Delete | src/api/internal-agent-limitclose.js:836-867 | outcome and table changes of a cancel request |
| AgentOrders.Ledger.CountArmed | src/api/internal-agent-limitclose.js:316-325 | the concurrency count |
| AgentOrders.ArmedCountIs | src/api/internal-agent-limitclose.js:316-325 | it is the number of armed orders of this user and agent |
| AgentOrders.Ledger.EligibleLoans | src/api/internal-agent-limitclose.js:994-1190 | the listing as a sequence, line by line, and its total |
| AgentOrders.ListingExact | src/api/internal-agent-limitclose.js:994-1190 | each live delegation with each selected loan on its wallet once, with its reasons, and nothing else; the total is the number of eligible lines |
| AgentOrders.ReasonsAre | src/api/internal-agent-limitclose.js:1118-1138 | each reason of a line stands for its own fault |
| AgentOrders.Ledger.LinesFor | src/api/internal-agent-limitclose.js:1107-1160 | the lines of one delegation, in order, and how many are eligible |
| AgentOrders.ListedLineArmableIff | src/api/internal-agent-limitclose.js:1104-1138 | a listed line has no reasons and its loan is the delegation user's with its wallet row, if and only if the arm endpoint's checks pass and the loan is large enough, enabled and free |
| AgentOrders.ListedButRefused | src/api/internal-agent-limitclose.js:1037-1057 | a loan listed as eligible that the arm endpoint does not find |
| AgentOrders.ArmWithinConsent | src/api/internal-agent-limitclose.js:216-351 | after a successful arm the count is within the delegation's limit, the cap within its slippage consent, and one order was added |
| AgentOrders.CancelFreesOneSlot | src/api/internal-agent-limitclose.js:121-139 | a cancel succeeds exactly for an armed order of an agent with a live delegation, changes that row only and frees one slot |
| AgentOrders.CancelUndoesArm | scripts/verify-tier2/run.js:258-335 | after an arm the loan is listed as taken with one slot less; cancelling restores every headroom and the whole listing of every agent |
| AgentRevocation.RevokedAgentIsOut | src/commands/agent-delegations.js:191-234 | after a revocation and until a new grant, whatever else happens, the agent can neither arm nor cancel on the wallet |
| AgentRevocation.RevocationLastsIff | src/commands/agent-delegations.js:215-234 | after a revocation the agent never again has an armed order on the wallet without a new grant, if and only if none of its orders there was paused when the grant ended |
| AgentRevocation.PausedCanReturn | src/commands/limit-close-intervention.js:141-156 | from any state a paused order can be armed again without a grant, once the orders sharing its loan and direction have ended |
| AgentRevocation.DeclineOutlivesRevocation | src/commands/limit-close-intervention.js:141-156 | a run in which a revoked agent's order is armed again |
| AgentRuns.LimitsWithinCeiling | src/commands/agent-delegations.js:129-146 | in every run each stored order limit is among those granted to that agent under that user |
| AgentRuns.AuthorizeChanges | src/commands/agent-delegations.js:129-146 | a grant changes the bounds of the row in force, keeping its user, or adds an active row |
| AgentRuns.RevokeChanges | src/commands/agent-delegations.js:191-230 | which grants a revocation ends and which orders it cancels |
| AgentRuns.MovedIs | src/commands/limit-close-intervention.js:105-185 | which answers and engine moves arm an order again, pause it or end it |
| AgentRuns.RunsAreTidy | migrations/065_ladder_reborrow_columns.sql:63-103 | in every state one active delegation per wallet and agent, no order without its loan, only full agent orders, and for each loan and direction at most the whole collateral in armed slices |
| AgentRuns.FullOrderIsAlone | migrations/065_ladder_reborrow_columns.sql:63-103 | in every run an armed full order, as every agent order is, is the only armed one of its loan and direction |
| AgentRuns.OnePerSlotIff | migrations/064_limit_close_orders_slice_pct_ladder.sql:45-49 | a run has at most one armed order per loan and direction throughout if and only if each order was armed in an empty slot |
| AgentRuns.TwoLegsShareASlot | src/services/limit-close-arm-core.js:1500-1548 | two legs of one half each are armed side by side |
| AgentRuns.OrdersOnlyMoveOrAreNew | migrations/065_ladder_reborrow_columns.sql:20-26 | an order changes only its status or, as a ladder leg, its loan; it comes to be armed in a slot only if its slice fits there |
| AgentRuns.CountAfterEvent | src/api/internal-agent-limitclose.js:311-334 | one event: a re-arming adds one armed order and grants nothing, any other event that raises the count leaves it within what was granted |
| AgentRuns.ArmedWithinGrants | src/api/internal-agent-limitclose.js:311-334 | in every state of every run the armed orders number at most the largest limit ever granted under that user plus one per re-arming |
| AgentRuns.CapKeptIff | src/api/internal-agent-limitclose.js:311-334 | a run keeps the cap at every moment if and only if each of its re-armings happened below it |
| AgentRuns.DeclineExceedsCap | src/commands/limit-close-intervention.js:141-156 | a run with two armed orders under a limit of one |
| GovernanceVotes.VoteApi.Submit | src/api/governance-api.js:147-301 | status and new log of one submission |
| GovernanceVotes.AcceptedIff | src/api/governance-api.js:176-270 | exactly when a submission is accepted, condition by condition |
| GovernanceVotes.AcceptedChanges | src/api/governance-api.js:272-295 | an accepted one changes the signer's time and adds one row unless its nonce is stored; a refused one changes nothing |
| GovernanceVotes.RefusalIs | src/api/governance-api.js:223-254 | the first failing check decides the status |
| GovernanceVotes.StoredAreLegitimate | src/api/governance-api.js:214-295 | over any history each stored row was asked for by a request with a valid signature, recent, for an active proposal, not after closing nor signed before activation |
| GovernanceVotes.AcceptedAreSpaced | src/api/governance-api.js:176-180 | over any history accepted submissions of a signer are at least a second apart |
| GovernanceVotes.VoteApi.CountRows | src/api/governance-api.js:260-264 | the row count of one ballot |
| GovernanceVotes.CountForIs | src/api/governance-api.js:260-264 | it is the number of stored rows of the ballot |
| GovernanceVotes.TallyCountsVotersOnce | src/api/governance-api.js:320-333 | counts sum to the distinct voters, and a choice's count is the number of voters whose newest vote it is |
| GovernanceVotes.TallyCountsKeysOnceIff | src/api/governance-api.js:159-169 | the tally counts each key once if and only if no key was accepted under two texts |
| GovernanceVotes.Base58KeysCountOnce | src/api/governance-api.js:167-169 | base58 texts are such |
| GovernanceVotes.CountedIsNewest | src/api/governance-api.js:321-327 | a wallet counts exactly if it has rows, with its newest |
| GovernanceVotes.OnlyListedChoices | src/api/governance-api.js:223-239 | over any history only listed choices are counted |
| GovernanceVotes.LastVoteCounts | src/api/governance-api.js:274-295 | over any sequential history a wallet counts with the last vote stored |
| GovernanceVotes.HistoryOk | src/api/governance-api.js:256-295 | over every history at most twenty rows per wallet and question, one per nonce, each a listed choice, in the order received |
| GovernanceVotes.LogGrows | src/api/governance-api.js:279-295 | the log is append-only |
| GovernanceVotes.ResubmissionChangesNothing | src/api/governance-api.js:274-295 | re-submitting an accepted payload at any later time changes no row |
| CreditAttestation.ParseInvertsIff | src/api/credit-attest.js:84-96 | a parser inverts the printer exactly on attestations without newlines in text fields |
| CreditAttestation.PrintInvertsParse | src/api/credit-attest.js:84-96 | the parser accepts nothing but printed attestations |
| AttestationReadings.SecondReadingIff | src/api/credit-attest.js:84-96 | another attestation has the same signed text if and only if a text field contains, after its first line, the lines that follow it or the text field before it |
| AttestationReadings.CanonicalInjective | src/api/credit-attest.js:84-96 | the text of an attestation without newlines in its text fields is that of no other attestation |
| AttestationReadings.AnyCut | src/api/credit-attest.js:84-96 | every way to place score, counts and expiry among the lines is the text of an attestation |
| AttestationReadings.PayloadOfLines | src/api/credit-attest.js:84-96 | the text is the joined lines of its fields, newlines in fields included |
| CreditAttestation.NewlinesCollide | src/api/credit-attest.js:84-96 | with a newline in a date two attestations share a payload |
| LoanBackfill.Loans.Diff | src/api/backfill-wallet-loans.js:176-184 | the scanned loans without a row, in order |
| LoanBackfill.Loans.RecordLoan | src/services/loans.js:734-766 | stores nothing and returns if the loan id is taken, throws if only the address is, else stores an active row, and may throw before or after |
| LoanBackfill.Loans.InsertAll | src/api/backfill-wallet-loans.js:186-216 | the insert loop and what it counts |
| LoanBackfill.Loans.SyncAll | src/api/backfill-wallet-loans.js:221-234 | the status loop up to the first failing update |
| LoanBackfill.Loans.Backfill | src/api/backfill-wallet-loans.js:176-236 | diff, insert, and sync if anything was counted |
| LoanBackfill.BackfillKeepsRows | src/api/backfill-wallet-loans.js:176-236 | existing rows and unscanned addresses are untouched |
| LoanBackfill.BackfillStores | src/api/backfill-wallet-loans.js:186-234 | a missing loan gets a row exactly if the database answered and its id was not taken before its turn; the row has the chain's status if the status loop reaches it, else it is active |
| LoanBackfill.AllRecoveredIff | src/api/backfill-wallet-loans.js:176-236 | everything is recovered if and only if the missing loans' ids are new and pairwise different |
| LoanBackfill.ReportsAllMissing | src/api/backfill-wallet-loans.js:192-211 | without errors every missing loan is counted as inserted, stored or not |
| LoanBackfill.ShadowedForever | src/services/loans.js:734-766 | a loan whose id belongs to another account is stored by no sequence of later backfills, and counted by each that is answered |
| LoanBackfill.ReportedIff | src/api/backfill-wallet-loans.js:192-225 | something is counted if and only if some insert was stored without a later error or met a taken id |
| LoanBackfill.LeftStaleIff | src/api/backfill-wallet-loans.js:221-236 | a closed loan is left active exactly if it is stored and the status loop does not run or does not reach it |
| LoanBackfill.LateErrorLeavesStale | src/api/backfill-wallet-loans.js:192-236 | a closed loan whose insert succeeds and whose accruals throw is left active |
| LoanBackfill.StaleForever | src/api/backfill-wallet-loans.js:176-188 | no sequence of later backfills touches such a row |
| LoanBackfill.SharedIdIsLost | src/services/loans.js:734-766 | a concrete pair of loans of which the second is lost |
| LoanBackfill.BackfillIdempotent | src/api/backfill-wallet-loans.js:176-236 | after full recovery the same scan is a no-op |
| LoanBackfill.BackfillKeepsIdsUnique | migrations/001_init.sql:27-28 | loan ids stay unique |

## Left out

- Weights and token amounts are naturals: parsing snapshot fields, refusals of malformed snapshots and plan files, and display of SOL amounts.
- JavaScript compares strings by UTF-16 code unit; addresses are ASCII, where this is the character order used here.
- `readLamports`: eight little-endian bytes converted to a float for display; token amounts use `Positional.LittleEndian` without the conversion.
- Plan hashing and the snapshot hash comparison; SHA-256, Ed25519 and the lender's key: signatures and hashes are parameters.
- Torn journal lines count as malformed lines; two executors running at once are not modelled.
- The wait between batches has no effect besides widening the gap in which a crash is possible.
- HTTP, environment flags, kill switches, bans, site locks, alerts and conversion telemetry around the co-sign endpoint; the price, tier, canary-cap and anti-exploit checks between gates, which only refuse further transactions.
- Error texts are classified by regular expressions in the code; here the classes are flags of an attempt.
- Outer System, Associated Token Account and Lighthouse instructions: their effect on token accounts is not modelled, and inner instructions are covered by the balance check only.
- The V2 lending program: its id is null in the code, so its branches are unreachable.
- The 30-second polling for a fresh loan row in the arm endpoint is one lookup; `armOrder` itself is a verdict that rejects or inserts one armed row that fits its loan and direction.
- The engine that fires orders is not in this repository: its moves are events with no condition but the order's status. The wider slippage that a borrower approves is not modelled. Ladder groups are not: any armed order of a borrower may be moved to another stored loan.
- The modify, preflight and list-orders endpoints of the agent API, and limits on result sizes in the listing.
- A `signerPubkey` is a text here; the endpoint takes any JSON value that the public key constructor accepts and stores what the database driver makes of it.
- Vote weighting and proposal closing; the HTTP shape of votes; two submissions handled at once.
- The per-wallet interval and the wallet owner lookup before a backfill; other writers of the loans table running between its statements.
- Choosing the client address from forwarded headers: an address is a parameter.
- `compute-lp-credit.js` and other floating-point code, `migrate.js`, and the one-shot scripts: nothing in them goes beyond the patterns above.
