# ICEmarkets: proofs about payouts, pricing and the indexer's ledger

ICEmarkets pays the trading fees of a memecoin pool, in coin, to the memecoin's holders, and runs a desk
that sells and buys back commodity coins against a USDC reserve. This project models the parts of the code
where a mistake costs money, and proves what holders and the reserve may rely on.

**Payouts.** A keeper turns balance events into time-weighted shares (`Twab`, `Shares`), stores the plan,
opens an epoch on chain, pushes to wallets that have a token account, puts everybody else in a Merkle claim
tree (`Merkle`, `Items`) and closes the epoch. It may die at any `await`; transactions it has given up on
may land later.

* `Epochs` is the state of one epoch index: the on-chain account with the payouts it has made,
  `open_epoch` and `finalize_epoch` transactions in flight, the rows of `epoch_progress`, `payouts`, `epochs` and
  `merkle_leaves`, and, as history, every plan saved with what was read for it (events, exclusions, wallets past
  the holding filter), the save each open was sent for, and the one in the row. `Apply` gives the effect of each
  transaction and SQL statement with its guards and conflict clauses. `Allowed` says when the keeper may make each one.
* `Runs` puts all epochs of a pool together. A run is a sequence of states from empty tables and an empty
  chain, each following from the one before by an allowed move; `RunKeeps` and `Frozen` hold for all runs.
* `Keeper` is the code itself, method by method, as a class over that state. `Await` lets others move and
  the keeper die, and counts such deaths, so that every other way to stop is accounted for. The class records its
  run and is proved to stay within the allowed moves whatever happens at its awaits, so every theorem of
  `Guarantees` and `Allocations` holds of every state the keeper can reach.
* `PayoutRules` holds the split into pushes and claims, and why every chunk is acceptable to the program.
* `Program` holds what the program and the tables guarantee on their own, whoever sends whatever.
* `Plans` says when two readings of the tables give the same plan, and `Allocations` which allocation an epoch pays,
  over all runs: the one it was opened with or not.

Digests are free terms (`LeafDigest`, `NodeDigest`, `Raw`): this is what collision resistance and the 72-
and 64-byte preimages are meant to give, without postulating an injective function into 32-byte strings.

**Pricing.** `Pricing` and `Quotes` write the program's u64/u128 checked arithmetic out and show that each
function returns the exactly rounded rational number precisely when it fits. `PricingPort` shows that the
client's unbounded-integer port agrees. `Reserve` is about runs of trades, `Breakers` and `Falls` about how far the
deviation anchor lets the price rise and fall over runs, `DailyCap` about the rolling counter.

**Ledger.** `Ledger` nets the token balances of one transaction per owner; `Ingest` is the idempotent,
savepoint-protected writing of those changes, in any order and with repeats. `Delivery` carries that over to the
shares computed from the rows. `Base58` is the small printer next to them, with its inverse.

## Where the code and its documentation part

* The comment on `deviation_ok` (programs/peg_desk/src/pricing.rs:226-228) promises at most one
  `max_deviation_bps` per window. The code allows elapsed / window + 1 bounds, so a trade right at the end
  of a window moves the anchor by two. The promise holds while the first window lasts; after one window
  `Breakers.OneStepPerWindowFails` breaks it for every bound and window. `Breakers.DeviationOverRun` is the
  bound that does hold, with twice the step; that run attains it. `Breakers.OneBoundPerWindowIff` says for which
  number of windows a single trade can break the promise: exactly for 1 to 19.
* `Breakers.DeviationOverRun` bounds rises. Its mirror image for falls, n double steps and one single step down
  after n windows, is proved for bounds up to 395 bps (`Falls.FallOverRun`), and 395 is exact: by
  `Falls.FallBoundIff` some run falls further for every bound from 396 to 4 999 bps, because up to 20 bounds are
  granted in one go, and those are then more than the double steps compounded.
* The header of payouts.ts (lines 15-16) says that a resumed epoch pays exactly the allocation it was opened
  with. `Allocations.LateOpenMeetsLaterPlan` is a run in which it does not: an `open_epoch` whose landing was
  missed, a plan saved for the next window and the same vault balance, and the first transaction landing after
  all. The totals agree, so the epoch is closed with the later plan paid in full. When the keeper first finds an
  epoch on chain it is settled whether the promise holds (the row has the plan of the save whose open landed):
  * with the on-chain total in the row, if and only if the row read has that very plan
    (`Allocations.EqualTotalsDecide`). The on-chain window in the row is enough, and, if no plan was saved twice,
    necessary (`Allocations.MatchingWindow`);
  * with another total in the row the plan is computed afresh, and the promise holds if and only if what is read now
    gives everybody the same positive share as what was read for the open (`Allocations.OtherTotalDecides`).
    `Keeper.Keeper.ResumeEpoch` states both about the code's own two branches.
* The comment on that second branch (payouts.ts:369-372) says that it reproduces the original split unless events
  were ingested late. That is so if the exclusions and the wallets past the holding filter are the same too, and no
  dust meets a tie (`Allocations.SameEventsReproduce`). The filter goes by today's price, so it need not be the same:
  in the runs of `Allocations.FilterDecidesRecompute` not one event is late, and the split is reproduced if the filter
  still lets the same wallet through; if it lets another one through instead, that one gets everything.
* `computePlan` is called deterministic (payouts.ts:304). It reads rows `order by ts asc` with no tie-breaker
  (db.ts:144 and 155), and the dust goes to the first of the largest holders in the order read. Every order of the
  same events gives the same plan if and only if there is no dust or the largest average is unique (`Plans.OrderIff`);
  `Plans.TieInOneSecond` has two rows of one second whose order decides who is paid.
* `resumeEpoch` may compute an empty plan, and the epoch is then closed with its total paid to nobody:
  `Allocations.EmptyPlanPaysNobody` is such a run. By `Guarantees.ClosedEpochAddsUp` pushes and claims add up to
  the whole epoch if and only if the plan is not empty (or the total is 0).

## Model

| member | source | states |
|---|---|---|
| Merkle.HashPairCommutes | programs/distributor/src/merkle.rs:17-23 | A parent does not depend on which child is left, so proofs need no left/right flags. |
| Merkle.HashPairOrders | programs/distributor/src/merkle.rs:17-23 | The smaller digest is hashed first. |
| Merkle.PairsFromTheLeft | packages/sdk/src/merkle.ts:72-83 | Neighbours are paired from the left and an odd last node is carried up as it is. |
| Merkle.ProofVerifies | packages/sdk/src/merkle.ts:94-121 | For every leaf list and index the generated proof folds to the root, odd nodes carried up included. |
| Merkle.ProofLength | programs/distributor/src/constants.rs:16-17 | A proof has at most ceil(log2 n) nodes: at most d for up to 2^d leaves. |
| Merkle.LayerWidth | packages/sdk/src/merkle.ts:72-83 | Layer k has ceil(n / 2^k) nodes and the last layer is the root alone. |
| Merkle.ProofFromTheLeaf | packages/sdk/src/merkle.ts:94-112 | A proof begins at the leaf: its neighbour, if it has one, and then the proof of their parent. |
| Merkle.FoldLast | programs/distributor/src/merkle.rs:25-31 | A verifier hashes the nodes in one after another. |
| Merkle.VerifiedLeafIsInTree | programs/distributor/src/constants.rs:25-28 | Soundness: whatever proof is presented, a leaf that folds to the root is one of the tree's leaves; an inner node cannot pass as one. |
| Merkle.NothingVerifiesAgainstZero | apps/keeper/src/cycles/payouts.ts:490-494 | Nothing can be claimed against the zero root of an all-push epoch. |
| Merkle.BuildTree | packages/sdk/src/merkle.ts:68-85 | The loop builds exactly the recursive layers and root; no leaves is an error. |
| Merkle.GetProof | packages/sdk/src/merkle.ts:94-112 | The loop returns the recursive proof, which verifies; an index out of range is an error. |
| Merkle.Verify | programs/distributor/src/merkle.rs:25-31 | The loop accepts exactly when the fold of the proof is the root. |
| Items.PaidPlusRemainder | apps/keeper/src/cycles/payouts.ts:459-474 | Conservation: distinct plan entries paid plus what remains of the plan add up to the plan. |
| Items.RemainderTwice | apps/keeper/src/cycles/payouts.ts:459-474 | Leaving out the wallets paid earlier and then those pushed now is leaving out both. |
| Items.EqualSumsEqualWallets | apps/keeper/src/cycles/payouts.ts:413-417 | If every known payment is a landed one and the sums agree, no landed payment is missing. |
| Items.SortByWalletSorts | apps/keeper/src/cycles/payouts.ts:323-326 | Sorting by wallet yields the same entries in strictly ascending wallet order. |
| Items.SortedStays | apps/keeper/src/cycles/payouts.ts:490-491 | Sorting what is left of a sorted plan changes nothing, so a rebuilt tree has the same leaves in the same order. |
| Items.ClaimIsEntry | programs/distributor/src/merkle.rs:7-31 | A (wallet, amount) that verifies for an epoch is an entry of that epoch's tree with that very amount. |
| Items.EntryCanClaim | packages/sdk/src/merkle.ts:184-189 | Every entry has a proof that verifies, of at most 32 nodes for up to 2^32 entries. |
| Items.BuildEpochTree | packages/sdk/src/merkle.ts:170-182 | Succeeds exactly for a non-empty list of distinct wallets with u64 amounts, and returns the tree over it and its sum; says which error otherwise. |
| Items.GetProofForWallet | packages/sdk/src/merkle.ts:184-189 | Found exactly for wallets of the tree, with the entry's amount and a proof that verifies. |
| Twab.IntegralIsContributions | packages/sdk/src/twab.ts:29-44 | The per-second sum of a wallet's balance over [start, end) equals the sum of its events' contributions. |
| Twab.ContributionIs | packages/sdk/src/twab.ts:29-44 | An event contributes delta * (end - max(ts, start)) when it comes before the end, and nothing otherwise. |
| Twab.OrderDoesNotMatter | packages/sdk/src/twab.ts:38-38 | Any order of the same events, ties included, gives the same weight. |
| Twab.IntegralComposes | apps/keeper/src/cycles/payouts.ts:231-233 | Weights over adjacent windows add up to the weight over their union. |
| Twab.BalanceBefore | packages/sdk/src/twab.ts:67-72 | The first loop stops at the first event inside the window with the balance carried in. |
| Twab.WeightInside | packages/sdk/src/twab.ts:74-89 | The second loop accumulates exactly the contributions of all events up to the end of the window. |
| Twab.WalletWeight | packages/sdk/src/twab.ts:64-89 | Sort and walk together compute the per-second integral of the balance, for events in any order. |
| Shares.ComputeTwab | packages/sdk/src/twab.ts:45-97 | One floored average per wallet of positive weight, in order of first appearance, without the excluded; an empty window is an error. |
| Shares.AveragesFacts | packages/sdk/src/twab.ts:91-93 | The result holds exactly the wallets of positive weight, each once, with its integral divided by the duration, rounded down. |
| Shares.OfWalletIs | packages/sdk/src/twab.ts:48-57 | The events grouped under a wallet are all of its events and nobody else's. |
| Shares.AverageIs | packages/sdk/src/twab.ts:91-93 | A wallet's average is the largest amount that times the duration stays within its weight. |
| Shares.FirstSeenInOrder | packages/sdk/src/twab.ts:48-57 | Wallets are listed in the order in which they first appear. |
| Shares.AveragesIgnoreOrder | packages/sdk/src/twab.ts:38-38 | Two deliveries of the same events give the same set of averages. |
| Shares.AveragesBounded | packages/sdk/src/twab.ts:61-93 | If no wallet's weight is negative, the averages together are at most the time-averaged balance of all of them. |
| Shares.LargestIsLargest | packages/sdk/src/twab.ts:119-131 | Dust goes to a wallet nobody exceeds, the first such one. |
| Shares.DustIsSmall | packages/sdk/src/twab.ts:123-136 | The rounding remainder is non-negative and less than the number of eligible wallets. |
| Shares.FloorShares | packages/sdk/src/twab.ts:119-131 | The loop computes everybody's floored share, their sum and the first largest holder. |
| Shares.EligibleIff | packages/sdk/src/twab.ts:141-150 | A balance passes the dollar minimum exactly when one more base unit would be worth more than it; the minimum counts to the nearest cent, halves up. |
| Shares.ComputeShares | packages/sdk/src/twab.ts:107-150 | The code's shares are the specified ones for the wallets that pass the minimum in dollars at the given price, and none when they weigh nothing; an error exactly for a price that is not positive. |
| Shares.SharesConserve | packages/sdk/src/twab.ts:103-105 | Shares add up to exactly the total whenever the eligible balance is positive. |
| Shares.SharesFair | packages/sdk/src/twab.ts:99-105 | Everybody gets the pro-rata part of the total rounded down, one largest holder less than n units more than the exact part. |
| Shares.SharesMonotone | packages/sdk/src/twab.ts:123-136 | A larger balance never gets less. |
| Shares.WhoIsEligible | apps/keeper/src/cycles/payouts.ts:305-321 | Who counts, and with what: exactly the wallets that are not excluded, pass the filter and have positive weight, each with its average. |
| Shares.PlanIsFair | apps/keeper/src/cycles/payouts.ts:305-330 | Every plan entry is for a wallet that counts, in proportion to its average up to rounding and dust. |
| Shares.PlanIsComplete | apps/keeper/src/cycles/payouts.ts:305-330 | Everybody who counts and whose part of the total is at least one unit is in the plan. |
| Shares.NobodyToPay | apps/keeper/src/cycles/payouts.ts:309-327 | There is no plan if and only if the total is 0 or nobody who counts holds a whole unit on average. |
| Shares.PlanFacts | apps/keeper/src/cycles/payouts.ts:299-304 | A plan is sorted by wallet, positive, holds exactly the positive shares of what was read, and adds up to the total unless it is empty. |
| Shares.ComputePlan | apps/keeper/src/cycles/payouts.ts:305-330 | Computes that plan, with a total adding up exactly and nothing for wallets that are excluded or fail the filter; no plan exactly when the total is 0 or nobody who counts holds a whole unit on average. |
| Plans.SamePlanIff | apps/keeper/src/cycles/payouts.ts:304-329 | Two readings give the same plan if and only if they give everybody the same positive share. |
| Plans.OrderIff | apps/keeper/src/cycles/payouts.ts:304-308 | Every order of the same events gives the same shares if and only if rounding leaves no dust or the largest average is unique. |
| Plans.HarmlessOrder | packages/sdk/src/twab.ts:119-136 | Without a tie that dust could meet, reordered events give the same shares. |
| Plans.TieInOneSecond | apps/keeper/src/db.ts:140-159 | Two readings in order of time of the same rows that give different shares. |
| Epochs.LateFinalizeIsCurrent | apps/keeper/src/cycles/payouts.ts:495-502 | A finalize the program accepts commits to every push landed by then, however long ago it was sent. |
| Epochs.LandFinalizeKeeps | apps/keeper/src/cycles/payouts.ts:27-27 | A finalize landing late keeps the epoch's invariant. |
| Epochs.PushKeeps | apps/keeper/src/cycles/payouts.ts:26-26 | Pushing new plan entries keeps it: pushes distinct, from the plan, counted, within the total. |
| Epochs.ClaimKeeps | programs/distributor/src/state.rs:51-59 | A claim by anybody, with any proof, keeps it: one claim per wallet and only tree entries. |
| Epochs.RecordPayoutKeeps | apps/keeper/src/db.ts:214-229 | Recording a landed push, by keeper or indexer, twice or not, keeps the rows a duplicate-free part of the landed pushes. |
| Epochs.LandOpenKeeps | apps/keeper/src/cycles/payouts.ts:253-281 | An open landing at any later time keeps the invariant, also after a re-plan. |
| Epochs.UpsertKeeps | apps/keeper/src/db.ts:263-282 | Another plan stored while the phase is 'planned' contradicts nothing sent or paid so far. |
| Epochs.SavePlanKeeps | apps/keeper/src/db.ts:263-282 | Saving a plan before an open keeps the invariant, also when an earlier open has landed unseen. |
| Epochs.ReplacePlanKeeps | apps/keeper/src/cycles/payouts.ts:369-386 | A plan computed afresh for an epoch found on chain with another total keeps it. |
| Epochs.SetPhaseKeeps | apps/keeper/src/db.ts:313-325 | Moving a phase forward keeps stored and on-chain totals equal. |
| Epochs.InsertLeavesKeeps | apps/keeper/src/db.ts:366-385 | Storing the leaves keeps the invariant and leaves exactly the rows of the tree behind. |
| Epochs.ActionKeeps | apps/keeper/src/cycles/payouts.ts:188-508 | Every allowed transaction or statement keeps the invariant of its epoch. |
| Epochs.ActionEvolves | apps/keeper/src/db.ts:263-325 | Every allowed one leaves alone what must never change: frozen plan and total, landed pushes and claims, a closed epoch, and, once an epoch has been found on chain, its saved plans, the plan of a row with the on-chain total and what that was computed from. |
| Runs.StepKeeps | apps/keeper/src/cycles/payouts.ts:188-297 | Every allowed move keeps the invariant of all epochs together. |
| Runs.RunKeeps | apps/keeper/src/cycles/payouts.ts:188-508 | The invariant holds in every state of every run. |
| Runs.Frozen | apps/keeper/src/db.ts:262-282 | Between any two moments of a run: a plan that left 'planned' and its total never change, pushes and claims stay, a closed epoch is final. |
| PayoutRules.Split | apps/keeper/src/cycles/payouts.ts:459-474 | The loop splits what is left: pushes only to existing accounts and within the cap, in plan order, the rest in plan order; nobody is left out who would still have fitted. |
| PayoutRules.CapIs | apps/keeper/src/cycles/payouts.ts:457-457 | An amount is within the push cap if and only if times 10 000 it is at most the total times the cap in bps. |
| PayoutRules.TakenIs | apps/keeper/src/cycles/payouts.ts:463-474 | First come, first served: an entry is pushed to if and only if it has an account and fits under the cap on top of the entries pushed before it. |
| PayoutRules.SplitAddsUp | apps/keeper/src/cycles/payouts.ts:459-474 | Earlier pushes, new pushes and tree entries are disjoint and add up to the plan. |
| PayoutRules.ChunkFits | apps/keeper/src/cycles/payouts.ts:476-483 | Every chunk is at most 12 new plan entries, within the cap and the total, so the program accepts it unless the epoch is already closed. |
| PayoutRules.FinalIs | apps/keeper/src/cycles/payouts.ts:490-502 | The finalize sent is the root and sum of exactly what no push has paid, and fits in the epoch. |
| PayoutRules.RemainderMakesTree | apps/keeper/src/cycles/payouts.ts:545-550 | What is left of a stored plan is sorted already and always makes a tree. |
| PayoutRules.AllEventsKnown | apps/keeper/src/cycles/payouts.ts:419-443 | With every event read, the known pushes add up to the pushed amount. |
| PayoutRules.LastIsKnown | apps/keeper/src/db.ts:331-339 | In every run the highest known index is the last one touched, and all earlier epochs are closed. |
| Keeper.TreeOf | apps/keeper/src/cycles/payouts.ts:492-494 | The claim tree over what is left, none for an empty rest. |
| Keeper.FinalMessage | apps/keeper/src/cycles/payouts.ts:492-494 | Root and total for finalize; the zero root and 0 when nobody is left. |
| Keeper.PlanNow | apps/keeper/src/cycles/payouts.ts:305-330 | The plan of what is read now: it lists exactly the positive shares, adds up to the total and is sorted; none when there are no shares. |
| Keeper.LeafRows | apps/keeper/src/cycles/payouts.ts:520-532 | The rows are wallet by wallet the amount and the proof of the tree. |
| Keeper.Keeper.SaveEpochPlan | apps/keeper/src/db.ts:263-282 | New row, or a replacement only while the phase is 'planned', noted as the newest save together with what was read for it; everything else unchanged. |
| Keeper.Keeper.ReplaceEpochPlan | apps/keeper/src/cycles/payouts.ts:374-385 | On a total mismatch the row becomes the plan for the window and total on chain, computed from what is read now. |
| Keeper.Keeper.SetEpochPhase | apps/keeper/src/db.ts:313-325 | Only the phase changes, and only once the stored total is the one on chain. |
| Keeper.Keeper.SetEpochFinalized | apps/keeper/src/cycles/payouts.ts:533-534 | 'finalized' is written only when the epoch is closed, its leaves are stored and its pushes recorded; only the phase changes. |
| Keeper.Keeper.RecordPayout | apps/keeper/src/db.ts:214-229 | A row is added unless the wallet has one; nothing else changes. |
| Keeper.Keeper.InsertMerkleLeaves | apps/keeper/src/db.ts:366-385 | All leaves of the tree are stored in one go. |
| Keeper.Keeper.PushPayouts | apps/keeper/src/cycles/payouts.ts:476-483 | Lands exactly when the program's guards hold, and then adds the chunk; otherwise nothing changes. |
| Keeper.Keeper.StoreLeaves | apps/keeper/src/cycles/payouts.ts:510-532 | The stored leaves are those of the rest afterwards, or the keeper died; nothing else changes. |
| Keeper.Keeper.WriteFinalized | apps/keeper/src/cycles/payouts.ts:510-535 | Either the bookkeeping of the closed epoch is complete afterwards, or the keeper died; plan and payouts stay. |
| Keeper.Keeper.SendChunk | apps/keeper/src/cycles/payouts.ts:477-486 | A chunk of 12 pushes, or of all that are left, lands and is recorded; it is rejected only if the epoch has been closed meanwhile. |
| Keeper.Keeper.PushAll | apps/keeper/src/cycles/payouts.ts:476-487 | All pushes land, in order, in chunks of 12, and are recorded, and the phase is then 'pushed'. |
| Keeper.SplitPlan | apps/keeper/src/cycles/payouts.ts:457-474 | Pushes and tree entries partition what is left of the plan, by account and cap. |
| Keeper.Keeper.PushAndFinalize | apps/keeper/src/cycles/payouts.ts:448-508 | Ends with the epoch closed, its rows complete and the plan paid by the rule: in plan order to accounts, never past pushed * 10 000 <= total * cap, and whoever has an account and was left to the tree would have exceeded that. The only failures are dying at an await and an epoch closed meanwhile. |
| Keeper.Keeper.Finalize | apps/keeper/src/cycles/payouts.ts:490-503 | Closes the epoch with the tree over the rest and stores it; the guard on the merkle total never fires. |
| Keeper.Keeper.CloseEpoch | apps/keeper/src/cycles/payouts.ts:498-502 | A finalize that fits is rejected only if the epoch has been closed meanwhile. |
| Keeper.Keeper.ReconcilePushed | apps/keeper/src/cycles/payouts.ts:413-444 | Returns exactly the wallets pushed on chain, with the table complete, or fails; it fails only if a push too old for the page of transactions is missing from the table. |
| Keeper.Keeper.ReadBack | apps/keeper/src/cycles/payouts.ts:419-443 | The event-reading branch fills in exactly what the table lacks, or fails. |
| Keeper.Keeper.ReadPayoutEvents | apps/keeper/src/cycles/payouts.ts:422-438 | Adds exactly the pushes found on the page to those known, each recorded in the table. |
| Keeper.Keeper.RepairFinalizedBookkeeping | apps/keeper/src/cycles/payouts.ts:541-559 | The rebuilt root always is the one on chain, so once the pushes are known the leaves are stored and the epoch is marked finalized; it fails only by dying or for want of an old push. |
| Keeper.Keeper.ResumeEpoch | apps/keeper/src/cycles/payouts.ts:363-406 | An open epoch is paid from the stored plan if its total is the one on chain and from the shares over the on-chain window otherwise, and ends closed and booked. It pays the allocation it was opened with if and only if, in the first case, the row had it already, and in the second, today's reading gives the shares of the reading for its open; a row with the on-chain window is enough. |
| Keeper.Keeper.AgreePlan | apps/keeper/src/cycles/payouts.ts:363-397 | The plan used is the stored one if the totals agree and otherwise that of what is read now over the on-chain window; afterwards the stored plan is the one used and has the on-chain total. |
| Keeper.Keeper.PlanAfresh | apps/keeper/src/cycles/payouts.ts:369-386 | Computes and stores the shares over the epoch's own window, possibly none. |
| Keeper.Keeper.OpenNewEpoch | apps/keeper/src/cycles/payouts.ts:210-297 | Opens the next index over [end of the last epoch, now) for the whole vault and settles it, by the rule and with everybody's positive time-weighted share paid exactly once. Does nothing if and only if the vault is empty or not worth it, no time has passed or there is nobody to pay. |
| Keeper.Keeper.PlanAndPay | apps/keeper/src/cycles/payouts.ts:236-296 | The epoch is planned, opened and paid out, or nothing is done, the latter exactly when the plan is empty. |
| Keeper.Keeper.OpenAndPay | apps/keeper/src/cycles/payouts.ts:239-296 | The new epoch is paid from the very plan that was saved for its open, by the account-and-cap rule, each listed share once. |
| Keeper.Keeper.PlanAndOpen | apps/keeper/src/cycles/payouts.ts:239-281 | After a landed open the row holds this plan, the chain this window and total, and the open that landed is the one sent for this plan. |
| Keeper.Keeper.FindLatestOnChainEpoch | apps/keeper/src/cycles/payouts.ts:174-186 | Returns an epoch that is on chain and is at least as new as every epoch on chain at the call; the index after it has never been found on chain. |
| Keeper.Keeper.RepairLatest | apps/keeper/src/cycles/payouts.ts:197-203 | Repair leaves the closed epoch as it is; afterwards its rows are complete, unless an await died or an old push can be read from nowhere. |
| Keeper.Keeper.RunPayoutsForPool | apps/keeper/src/cycles/payouts.ts:188-206 | A completed cycle leaves every epoch it found closed and the newest booked unless its repair failed. If it resumed none, it has opened and settled the next one, as due, or there was nothing to open. It stops only when something died or could not be read, for an epoch opened or closed meanwhile, or for want of an old push. |
| Keeper.Keeper.Live | apps/keeper/src/cycles/payouts.ts:157-167 | Any number of cycles, dying anywhere, under changing readings, is a run, and what one of them has settled stays settled. |
| Guarantees.ExactlyOnce | apps/keeper/src/cycles/payouts.ts:188-508 | Once an epoch is closed each plan entry is either one landed push or one leaf of the tree whose root is on chain, never both, with exactly its amount. |
| Guarantees.SharesPaidOnce | apps/keeper/src/cycles/payouts.ts:299-302 | When the plan lists the positive shares, a closed epoch has paid each of them exactly once, as a push or a leaf. |
| Guarantees.ClosedEpochAddsUp | apps/keeper/src/cycles/payouts.ts:299-302 | Pushed plus claimable is the plan's sum, and the epoch's whole total if and only if the plan is not empty or the total is 0. |
| Guarantees.NeverPaidTwice | programs/distributor/src/state.rs:51-59 | In every state: pushes and claims together are distinct plan entries, correctly counted, and at most the epoch's total. |
| Guarantees.ClaimableIff | programs/distributor/src/merkle.rs:7-31 | Some proof lets a wallet claim an amount if and only if it is a plan entry neither pushed nor claimed. |
| Guarantees.StoredLeavesVerify | apps/keeper/src/cycles/payouts.ts:510-559 | Every stored leaf verifies against the on-chain root; a finalized row has leaves for exactly the unpushed wallets. |
| Guarantees.TableMatchesChain | apps/keeper/src/db.ts:214-238 | The payouts table holds only landed pushes, each once; for a finalized row exactly all of them, adding up to the pushed amount. |
| Guarantees.StoredTotalIsOnChain | apps/keeper/src/cycles/payouts.ts:363-387 | A plan past 'planned' has the total that is on chain. |
| Guarantees.PushesMatchLaterPlan | apps/keeper/src/db.ts:263-282 | Whatever was pushed or claimed is an entry of the plan stored at any later time, which is still the same plan. |
| Program.WhateverIsSent | apps/keeper/src/cycles/payouts.ts:23-27 | Whatever is sent to the program, in any order: an epoch never pays or promises more than its total nor pushes more than the largest cap ever in force, makes at most 12 pushes per transaction, takes no claim twice, none before it is closed and none without a proof; and the payouts table has no wallet twice. |
| Program.ClosedForGood | programs/distributor/src/state.rs:36-47 | Whatever is sent, window and total never change, and once closed neither do root, payouts and merkle total. |
| Program.PlanPastPlanned | apps/keeper/src/db.ts:263-282 | A plan past 'planned' survives every upsert. |
| Allocations.RunKeepsBases | apps/keeper/src/cycles/payouts.ts:305-330 | In every run every saved plan, and the one in the row, is the plan of what was read for it. |
| Allocations.AllocationByShares | apps/keeper/src/cycles/payouts.ts:15-16 | A plan for the epoch on chain is the allocation it was opened with if and only if both readings give everybody the same positive share. |
| Allocations.LandingDecides | apps/keeper/src/cycles/payouts.ts:15-16 | At any time after a landing: the row is the very one saved for the open if and only if it was so at the landing and nothing has been saved since, and the allocation is then the open's; with equal totals the allocation is the open's if and only if it was at the landing. |
| Allocations.FirstSightOf | apps/keeper/src/cycles/payouts.ts:188-206 | Every epoch past 'planned' was found on chain for the first time in some earlier state of the run. |
| Allocations.EqualTotalsDecide | apps/keeper/src/cycles/payouts.ts:366-368 | Found on chain with its total in the row: from then on the epoch pays the allocation it was opened with if and only if the row read has that very plan. |
| Allocations.MatchingWindow | apps/keeper/src/cycles/payouts.ts:366-368 | Found with its window in the row, it pays the allocation it was opened with, from the very row saved for its open; with its total in the row and no plan saved twice, only then. |
| Allocations.OtherTotalDecides | apps/keeper/src/cycles/payouts.ts:369-386 | Found with another total in the row: once past 'planned' the epoch pays the allocation it was opened with if and only if the reading for the new plan gives the same positive shares as the reading for the open. |
| Allocations.SameEventsReproduce | apps/keeper/src/cycles/payouts.ts:369-372 | The same events in any order, exclusions and wallets past the filter reproduce the original split, unless dust meets a tie for the largest average. |
| Allocations.FilterDecidesRecompute | apps/keeper/src/cycles/payouts.ts:369-386 | Runs without a late event that close an epoch recomputed: paid as opened if the filter lets the same wallet through, and in full to another one if not. |
| Allocations.LateOpenMeetsLaterPlan | apps/keeper/src/cycles/payouts.ts:15-16 | A run that closes an epoch with another plan paid in full than the one it was opened with. |
| Allocations.EmptyPlanPaysNobody | apps/keeper/src/cycles/payouts.ts:374-375 | A run that closes an epoch of total 10 with nothing pushed and nothing claimable. |
| Guarantees.WindowsTile | apps/keeper/src/cycles/payouts.ts:231-233 | Each epoch on chain starts where the one before it ended. |
| Guarantees.EpochWeightsAddUp | apps/keeper/src/cycles/payouts.ts:231-233 | A wallet's weights over all epochs add up to its weight from the first start to the last end. |
| Pricing.AskExact | programs/peg_desk/src/pricing.rs:93-97 | The ask is price * (1 + spread) rounded up, exactly when that fits u64, and never below the price. |
| Pricing.BidExact | programs/peg_desk/src/pricing.rs:99-103 | The bid always exists, is price * (1 - spread) rounded down, and 0 from a spread of 100% on. |
| Pricing.CoinOutExact | programs/peg_desk/src/pricing.rs:105-114 | Coin bought is rounded down, exactly when it fits; an ask of 0 is refused. |
| Pricing.UsdcInExact | programs/peg_desk/src/pricing.rs:116-123 | USDC charged is rounded up, exactly when it fits. |
| Pricing.UsdcOutExact | programs/peg_desk/src/pricing.rs:125-132 | USDC paid out is rounded down, exactly when it fits. |
| Pricing.LeastPayment | programs/peg_desk/src/pricing.rs:105-123 | The price of exactly c coins is the least payment that buys at least c. |
| Pricing.PartsAddUp | programs/peg_desk/src/pricing.rs:105-132 | Trading in parts is trading each of them, and fails exactly when one of the trades does. |
| Pricing.SplittingNeverHelps | programs/peg_desk/src/pricing.rs:105-132 | Splitting a purchase or a sale into parts at the same ask or bid never gains anything. |
| Pricing.ReserveRatioExact | programs/peg_desk/src/pricing.rs:134-155 | The ratio is the rounded-down quotient capped at u64::MAX, and u64::MAX without liability; the overflow arms are never needed. |
| Pricing.BackedIff | programs/peg_desk/src/pricing.rs:134-155 | A ratio of at least 10 000 bps is exactly reserve >= liability. |
| Pricing.ConfExact | programs/peg_desk/src/pricing.rs:157-160 | Confidence in bps rounded up, exactly when it fits; a price of 0 is refused. |
| Arith.Pow10Is | programs/peg_desk/src/pricing.rs:162-173 | Powers of ten: 1, 10, and the power of a sum is the product. |
| Quotes.NormalizeExact | programs/peg_desk/src/pricing.rs:162-173 | value * 10^expo at exponent -8 rounded down, for shifts within 30, exactly when it fits; at exponent -8 the value itself. |
| Quotes.ScaleQuoteExact | programs/peg_desk/src/pricing.rs:175-197 | Dollars, cents and euros are converted with one rounding down; a zero rate and unknown scales are refused. |
| Quotes.WeightedSum | programs/peg_desk/src/pricing.rs:199-211 | Weights of 10 000 always give the rounded-down average; other weights never do. |
| Quotes.LegsAddUp | programs/peg_desk/src/pricing.rs:199-211 | Every leg counts once, with its own value and weight, wherever it stands. |
| Quotes.CompositeWithinLegs | programs/peg_desk/src/pricing.rs:199-211 | A composite price lies between its cheapest and its dearest leg. |
| Quotes.EffectiveSpreadBps | programs/peg_desk/src/pricing.rs:44-91 | Saturating and checked steps give the documented formula over plain integers, capped at 5 000 bps. |
| Quotes.RawSpreadIs | programs/peg_desk/src/pricing.rs:44-91 | The formula part by part: the base spread of the market's status, the rounded-up surcharge for uncertainty and the penalty for age, twice below the warning ratio. |
| Quotes.AgePenaltyIs | programs/peg_desk/src/pricing.rs:76-84 | Between half the maximum age and all of it, the penalty is that part of the base spread, rounded up. |
| Quotes.AgePenaltyRange | programs/peg_desk/src/pricing.rs:76-84 | No penalty up to half the maximum age, all of the base spread from the maximum age on, never more. |
| Quotes.SpreadGrowsWithDoubt | programs/peg_desk/src/pricing.rs:44-91 | A wider confidence interval, an older price or a lower reserve never narrows the spread. |
| PricingPort.QuotesAgree | packages/sdk/src/pricing.ts:105-226 | The port gives the program's number, or throws exactly where the program returns `None`. |
| PricingPort.RatioAgrees | packages/sdk/src/pricing.ts:228-244 | `null` exactly without liability, otherwise the program's ratio. |
| PricingPort.NormalizeAgrees | packages/sdk/src/pricing.ts:246-251 | Same value or both fail, for every exponent. |
| PricingPort.ScaleAgrees | packages/sdk/src/pricing.ts:253-269 | Same value or both fail, for every quote scale and rate. |
| PricingPort.WeightedSumPort | packages/sdk/src/pricing.ts:271-281 | The unchecked loop with one final check agrees with the checked one. |
| PricingPort.SpreadAgrees | packages/sdk/src/pricing.ts:117-135 | The spread shown is the spread charged, `null` ratio included. |
| Reserve.SaleExact | programs/peg_desk/src/pricing.rs:99-132 | A sale burns exactly the coin and pays its value at the bid, both rounded down; refused only for want of coin or USDC. |
| Reserve.PurchaseExact | programs/peg_desk/src/pricing.rs:93-114 | A purchase takes exactly the USDC and mints its value at the rounded-up ask, rounded down; refused only for an ask of 0 or what does not fit. |
| Reserve.ExactPurchaseExact | programs/peg_desk/src/pricing.rs:93-123 | An exact-out purchase mints exactly the coin and takes its value at the rounded-up ask, rounded up. |
| Reserve.TradeKeepsSurplus | programs/peg_desk/src/lib.rs:3-5 | No trade at any spread takes value out of the reserve, measured at the oracle price. |
| Reserve.RunKeepsSurplus | programs/peg_desk/src/lib.rs:3-5 | Over any run of buys, exact-out buys and sells the surplus never falls. |
| Reserve.RunKeepsBacking | programs/peg_desk/src/pricing.rs:134-155 | A reserve ratio of at least 10 000 bps, as the program reads it, survives every run. |
| Reserve.RoundTripNeverProfits | programs/peg_desk/src/pricing.rs:7-8 | A run that ends with the supply it began with leaves at least as much USDC. |
| Reserve.EverySaleIsPaid | programs/peg_desk/src/lib.rs:3-5 | From a covered reserve every sale of outstanding coin is carried out, after any run and at any spread, and pays its value at the bid. |
| Breakers.DeviationExact | programs/peg_desk/src/pricing.rs:215-222 | The rounded-up deviation is within a bound exactly when the rational one is; overflow counts as too far. |
| Breakers.AcceptedIff | programs/peg_desk/src/pricing.rs:230-257 | A price is accepted exactly when the breaker is off or unanchored or the price moved by at most one bound per window begun, at most 20; it moves the anchor exactly when that is unset or a window old. |
| Breakers.AllowedWindowsIs | programs/peg_desk/src/pricing.rs:224-252 | One bound at once and one more for each whole window passed, up to 20. |
| Breakers.AnchorInvariant | programs/peg_desk/src/pricing.rs:224-257 | After any run the anchor has moved at most once per window, and is within as many double steps as windows crossed. |
| Breakers.DeviationOverRun | programs/peg_desk/src/pricing.rs:224-257 | After n windows an accepted price is within (1 + 2d)^n (1 + d) of the first anchor. |
| Breakers.OneStepPerWindowFails | programs/peg_desk/src/pricing.rs:224-229 | One bound per window, as the comment says, is too little for every bound and window: a run that exceeds it after one window, and attains the bound with twice the step. |
| Breakers.OneBoundPerWindowIff | programs/peg_desk/src/pricing.rs:224-252 | A trade k whole windows after the anchor can exceed one bound per window passed exactly for 1 <= k <= 19. |
| Falls.FallOverRun | programs/peg_desk/src/pricing.rs:224-257 | After n windows an accepted price is at least (1 - 2d)^n (1 - d) of the first anchor, for bounds d up to 395 bps. |
| Falls.FallBoundIff | programs/peg_desk/src/pricing.rs:224-257 | Among bounds below 5 000 bps, that holds of every run if and only if the bound is at most 395 bps. |
| DailyCap.AddIff | programs/peg_desk/src/pricing.rs:259-280 | An addition is accepted if and only if the counter, 0 once a window has passed, stays within 64 bits and within the cap, where 0 is no cap; and what the counter is then. |
| DailyCap.ReleaseIs | programs/peg_desk/src/pricing.rs:282-286 | A release always succeeds and gives back at most what is used. |
| DailyCap.RefusedIff | programs/peg_desk/src/pricing.rs:259-280 | A run is refused if and only if one of its additions exceeds 64 bits or a cap that is set. |
| DailyCap.NeverRefused | programs/peg_desk/src/constants.rs:48-51 | With the cap off no run is refused whose additions together fit in 64 bits; nor with a cap they stay within. |
| DailyCap.UsedIsLargestSuffix | programs/peg_desk/src/pricing.rs:259-286 | After any accepted run the counter is the largest net flow of any stretch from inside the bucket up to now, 0 included. |
| DailyCap.BucketFacts | programs/peg_desk/src/constants.rs:48-51 | A bucket starts at the first addition a window after the start of the one before. |
| DailyCap.TwiceTheCap | programs/peg_desk/src/constants.rs:48-51 | In any span of at most one window, across buckets, the net flow is at most twice the cap. |
| DailyCap.TwiceTheCapIsAttained | programs/peg_desk/src/constants.rs:48-51 | Twice the cap is exact: two full caps can pass within one second, around the end of a bucket. |
| Ledger.CollectBalances | apps/indexer/src/decode/normalize.ts:133-145 | The two passes note for each account its first mint, first named owner and last amounts before and after. |
| Ledger.DiffTokenBalances | apps/indexer/src/decode/normalize.ts:132-153 | For every pool and wallet the deltas add up to what the wallet's accounts of the memecoin hold afterwards minus what they held before, vaults left out; one delta, never zero, for each account that changed. |
| Ledger.NetChangeIs | apps/indexer/src/decode/normalize.ts:146-153 | The net change is what is held afterwards minus what was held before. |
| Ledger.DeltaCounts | apps/indexer/src/decode/swaps.ts:55-65 | A change of the memecoin counts for its owner, in full, and for nobody else; one in either vault of the pool counts for nobody. |
| Ledger.AmountIs | apps/indexer/src/decode/normalize.ts:133-145 | An account holds what was listed for it last. |
| Ledger.FirstIs | apps/indexer/src/decode/normalize.ts:133-145 | Its mint is the one listed first and its owner the first one named. |
| Ledger.DigitsRead | apps/indexer/src/decode/normalize.ts:150-150 | The index printed for an account without a key reads back as that index. |
| Ingest.OwnerBaseDeltas | apps/indexer/src/decode/swaps.ts:55-65 | Holds exactly the owners whose net change is not zero, with that change. |
| Ingest.Confluence | apps/indexer/src/decode/ingest.ts:451-470 | Two histories with the same transactions, in any order and with any repeats, have the same balances. |
| Ingest.DistinctFacts | apps/indexer/src/decode/ingest.ts:451-470 | A balance is the plain sum over the distinct transactions. |
| Ingest.Tables.constructor | apps/indexer/src/decode/ingest.ts:451-470 | Empty tables describe the empty history. |
| Ingest.Tables.IngestTransaction | apps/indexer/src/decode/ingest.ts:82-127 | Adds the transaction to the history the tables describe, or, only if a statement failed, rolls every row back; failed transactions change nothing. |
| Ingest.Tables.WriteBalanceDeltas | apps/indexer/src/decode/ingest.ts:451-470 | Afterwards the pool's rows, with their deltas and times, and the balances describe the history with the transaction added, whether or not it had been seen before. |
| Ingest.Tables.WriteOne | apps/indexer/src/decode/ingest.ts:454-467 | Insert-if-absent, with the wallet's net change as the delta and the block time, and add brings one wallet up to date and leaves all others alone. |
| Ingest.Tables.Shown | apps/indexer/src/decode/ingest.ts:461-466 | The stored balance is the sum over the distinct transactions ingested. |
| Ingest.Tables.StoredDeltasAddUp | apps/indexer/src/decode/ingest.ts:453-466 | A row is stored exactly for the transactions that succeeded and changed the wallet's balance, with that change and the transaction's time, and the stored deltas add up to the stored balance. |
| Delivery.SameRows | apps/indexer/src/decode/ingest.ts:451-470 | Tables fed the same transactions, in any order and with any repeats, hold the same rows, times included. |
| Delivery.SharesIgnoreDelivery | apps/keeper/src/db.ts:141-159 | Read in any order from any two such tables, the events give everybody the same average, and the same share unless dust meets a tie for the largest average. |
| Base58.ConvertBack | apps/indexer/src/decode/poolState.ts:63-76 | Changing base and back gives the same digits, leading zeros included. |
| Base58.DecodeEncode | apps/indexer/src/decode/poolState.ts:62-76 | Every byte string can be read back from its printed form. |
| Base58.EncodeDecode | apps/indexer/src/decode/poolState.ts:62-76 | A text reads exactly when all its characters are in the alphabet, and is then the printed form of what it reads as. |
| Base58.AlphabetIs | apps/indexer/src/decode/poolState.ts:62-62 | The alphabet is the digits and letters in ascending order without 0, I, O and l. |
| Base58.BigEndian | apps/indexer/src/decode/poolState.ts:64-65 | The first loop computes the big-endian value. |
| Base58.PrintNumber | apps/indexer/src/decode/poolState.ts:66-70 | The second loop prints the number in base 58. |
| Base58.PrependOnes | apps/indexer/src/decode/poolState.ts:71-74 | The third loop prepends a '1' for each leading zero byte. |
| Base58.Bs58 | apps/indexer/src/decode/poolState.ts:63-76 | The printer's output is the encoding, and reads back as the bytes. |

## Left out

Payouts

* RPC, Postgres, logging, HTTP, session calendars, price medians and everything in `apps/web`. What the keeper
  reads from outside (vault, prices, clock, token accounts, settings) is an arbitrary `Readings` per cycle; the
  floating-point holding filter of `applyMinHoldingFilter` is an arbitrary set of wallets.
* A push that lands after the keeper has given up on it and paid the same wallets again: a send lands at most
  once, while the keeper waits for it, with or without being seen. `open_epoch` and `finalize_epoch` may land at
  any later time. Chain reads are up to date when they are made.
* Runs start from empty tables and no epoch on chain; epochs opened by a v0.1 keeper without a stored plan are not
  covered, and one keeper serves a pool at a time.
* An error thrown at an await is a death of the keeper at that await; only the repair, whose errors the code
  catches, continues after one. `setEpochError` and the `last_error` column are not modelled.
* Rows of `epochs` are present or absent; `markEpochFinalized` writes only their columns.
* The program's vault transfers, claim deadline, sweep and `MAX_EPOCH_AGE_SECS`; only the guards quoted in
  payouts.ts:23-27 and the accounts of state.rs are used. The instruction handlers are not part of this model.
* Keccak-256 itself, and the byte encodings of keys: an epoch's address is its index, wallets are numbers in the
  order the code sorts them by, and digest order is some total antisymmetric order.
* The `amount > 0` filters on stored plans: plans are positive, so they keep everything.
- Allocations.MatchingWindow: for plans saved for different windows, that is, with the chain clock moving between two cycles that plan the same index; otherwise `EqualTotalsDecide` and `OtherTotalDecides` tell, which need no such thing.
- Shares.ComputeShares: dollars are real numbers, so `usd * 100` is exact before it is rounded to cents, not a binary floating-point product.

Pricing

* Decimals other than 6 and 6, for which the program's constants DEC_NUM and DEC_DEN are 1.
* The wrap-around of `wsum` in `weighted_sum`, which needs more than 2^112 legs.
* The instruction handlers: a trade is one of buy, exact-out buy, sell or deposit at an oracle price; both daily
  counters rolling together, `clear_price_anchor` and the sweep above 102% are not part of this model.
- Reserve.RunKeepsBacking: for reserves and supplies that fit 64 bits, the only ones the program's ratio can read.
- Falls.FallOverRun: for bounds up to 395 bps; by `FallBoundIff` it fails above, and from 5 000 bps on it says nothing.
- Breakers.AnchorInvariant: for positive prices, because an oracle price of 0 is refused before the breaker.

Ledger

* `fromHeliusEnhanced`, log decoding, swap classification and trader picking, and the `supply_outstanding` and
  `reserve_balance` rollups, which clamp at zero and so depend on order. The pools table is fixed during a history.
* The order in which a transaction's owners are written; any order is covered.
