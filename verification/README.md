# Verification of the raffle contracts

A Dafny model of an on-chain raffle: the raffle instance that holds escrowed money through a
seven-state lifecycle, the pieces of the factory that rank and list raffles, and proofs of what
they guarantee over all inputs and all runs.

`dafny verify dfyconfig.toml` checks the project.

- **Draw.** `Lcg`, `Draw`, `Winners`, `QuorumSeeds`: rejection sampling over a 64-bit
  generator, a partial Fisher–Yates shuffle kept as a sparse swap log, the cyclic probe for
  unique winners, and the aggregation of oracle seeds.
- **Arithmetic.** `Config`, `TierPrizes`, `Pricing`: validation, the basis-point split of the
  prize, early-bird and bundle quotes, and the leaderboard volume.
- **Escrow.** `Escrow` specifies every entrypoint as a function from a state to its successor
  or an error. `RaffleInstance` is the contract as an object whose methods update its storage
  step by step and are proved to do what `Escrow` says. `Receipts` says what one call records
  and pays; `Invariants`, `Record`, `Timing`, `Solvency`, `Settlement`, `Claims`, `FullPayment`,
  `Ledger`, `Outcomes`, `DrawSeeds`, `Liveness`, `Drawability` and `Wiping` are about all runs of
  that state machine; `Reachability` gives runs that exist, and so shows that the failures are
  real.
- **Amortised structures.** `TtlWindow`, `Leaderboard`, `Registry`.

## Conventions

- A call that returns an error is rolled back by the host, so it leaves the state unchanged.
  Checked arithmetic that overflows is such an error; widths are explicit (`u32`, `u64`, the
  signed 128-bit maximum).
- Time, ledger number, the payer's balance and the digests of ledger data are inputs of each
  call, and not assumed to increase: every result holds for any values. Hash functions are
  arbitrary functions and addresses carry a strict total order.
- The contract's fields are grouped into records (`life`, `book`, `podium`, `panel`,
  `controls`, `purse`); `purse` also keeps the history of payments, which the contract does not
  store and which no step reads.
- Where the source contains an unresolved merge the model takes: the quote with bundles and a
  per-ticket early bird (`helpers.rs:715-772`); the last tier as the remainder of the pool;
  one payment per purchase (`tickets.rs:164-350`); winning indices stored after unique
  resolution; the quorum of `draw.rs:342-446`; refunds of `claim.rs:220-248` and the first
  batch version; the union of the checks of the shared validation and the inline initialiser.

## Where the code and its documentation disagree

The model follows the code. Each of the following is proved of it, with the exact condition,
and where it is a failure with a run or configuration in which it happens.

- The generator's state advances only when a sample is rejected, not once per winner
  (`Draw.AdvancesIff`, `Draw.SeedIsReusedIff`).
- Unique winners can share one ticket when there are fewer owners than tiers, unless one owner
  holds every ticket (`Winners.AlwaysDistinctIff`, `Winners.OneTicketCanWinTwice`).
- A discount or a cheaper bundle makes the escrow insolvent, because tickets record the list
  price and refunds pay it; so does any protocol fee, which is forwarded and recorded as owed
  (`Solvency.SolventIff`, `Reachability.DiscountIsAccepted`, `Solvency.FeeBreaksSolvency`,
  `Solvency.ConfiguredFeeBreaksSolvency`).
- Bundles can make a larger purchase dearer, since validation does not compare the first bundle
  with the list price (`Pricing.BundlesNeverPenaliseIff`, `Reachability.DearerBundleIsAccepted`).
- A drawing raffle always holds the draw lock, so the randomness fallback can never run
  (`Invariants.FallbackNeverApplies`). Which raffles can be drawn at all is decided by
  `Drawability.CanBeDrawnIff`; one without a deadline needs an external oracle. Whether a started draw can finish is decided by
  `Liveness.DrawableIff`: a raffle that sells out without an external oracle is never drawn, nor
  is one whose quorum repeats oracles (`Reachability.SoldOutIsReached`,
  `Reachability.RepeatedOraclesAreReached`).
- Finalizing an expired raffle with an on-chain source fails if it sold at least its minimum but
  fewer tickets than tiers (`Outcomes.ExpiredFinalizesIff`,
  `Reachability.UnfinalizableIsReached`).
- A raffle with a tier worth nothing is never settled (`Claims.WorthlessTierNeverSettles`,
  `Reachability.WorthlessTierIsReached`).
- The entitlement counts a settled raffle's whole prize as owed, which locks any balance left
  (`Wiping.ReachedWipeableIff`, `Reachability.LockedIsReached`), and a wiped raffle's refunds as
  still due (`Solvency.WipeLeavesPhantomRefunds`, `Reachability.PhantomRefundsAreReached`).
- The wipe looks the quorum entries up in the wrong storage tier and leaves them for good
  (`Outcomes.WipeClearsPanelIff`, `Outcomes.WipedPanelStays`, `Reachability.LeftoversAreReached`),
  and a cancelled draw still accepts deliveries (`Outcomes.PanelIsDelivered`).
- Gift purchases do check the global pause, like all others (`Outcomes.GlobalPauseStopsSales`).

## Model

| member | source | states |
|---|---|---|
| `Lcg.JumpAddsOddMultiple` | contracts/raffle-instance/src/randomness.rs:425-430 | 2^k steps of the generator add an odd multiple of 2^k, from every 64-bit seed (the heart of the full-period argument) |
| `Lcg.ReachesZero` | contracts/raffle-instance/src/randomness.rs:420-430 | from every seed some number of generator steps reaches 0, a value no bound rejects |
| `Lcg.StepApproachesZero` | contracts/raffle-instance/src/randomness.rs:420-430 | each generator step away from 0 brings 0 strictly closer: the measure by which the rejection loop ends |
| `Draw.AcceptedIsFirst` | contracts/raffle-instance/src/randomness.rs:420-432 | the accepted sample is the first state of the generator below the bound, every earlier one being rejected |
| `Draw.SampleAccepted` | contracts/raffle-instance/src/randomness.rs:420-432 | the rejection loop ends for every seed and every non-zero number of cards, on that sample |
| `Draw.DealIsPermutation` | contracts/raffle-instance/src/randomness.rs:433-470 | drawn cards and live deck stay a permutation of the starting deck, whatever the positions |
| `Draw.SelectWinnerIndices` | contracts/raffle-instance/src/randomness.rs:400-475 | the loop with its sparse swap log returns exactly what dealing from a dense deck returns |
| `Draw.DrawNext` | contracts/raffle-instance/src/randomness.rs:420-470 | one draw: the log lookup gives the dense deck's card, and the recorded swap describes the deck without it |
| `Draw.SelectionIsExact` | contracts/raffle-instance/src/randomness.rs:400-475 | exactly min(count, n) indices, pairwise distinct, all in range |
| `Draw.FullDrawIsPermutation` | contracts/raffle-instance/src/randomness.rs:400-475 | drawing every ticket yields a permutation of all tickets |
| `Draw.SelectionIsPrefixStable` | contracts/raffle-instance/src/randomness.rs:400-475 | a draw of fewer winners is a prefix of a draw of more from the same seed |
| `Draw.AdvancesIff` | contracts/raffle-instance/src/randomness.rs:418-432 | against the documented "fresh state per winner": the state advances from one turn to the next exactly when the sample just accepted is rejected by the next, smaller deck |
| `Draw.SeedIsReusedIff` | contracts/raffle-instance/src/randomness.rs:418-432 | a whole draw runs on the seed itself exactly when every turn's bound accepts it |
| `Draw.PositionsComeFromStates` | contracts/raffle-instance/src/randomness.rs:432 | the position drawn at a turn is that turn's state reduced to the cards left |
| `Draw.ResidueClassSize` | contracts/raffle-instance/src/randomness.rs:421-432 | below the bound L every residue modulo n has exactly L / n preimages |
| `Draw.SingleDrawIsUniform` | contracts/raffle-instance/src/randomness.rs:421-432 | over accepted seeds a single-winner draw picks every ticket equally often |
| `Winners.ResolveFindsNonWinner` | contracts/raffle-instance/src/helpers.rs:51-68 | the cyclic probe finds an address that has not won whenever one exists, and otherwise returns the candidate |
| `Winners.ResolveUniqueWinner` | contracts/raffle-instance/src/helpers.rs:51-68 | the probe loop returns the ticket it has to: the nearest one, counting on from the candidate and going round, whose owner has not won, and the candidate when all have |
| `Winners.OutcomeIsNearest` | contracts/raffle-instance/src/helpers.rs:576-595 | tier by tier the winning ticket is the one selected, or with unique winners the nearest to it whose owner has not won an earlier tier |
| `Winners.UniqueWinnersAreSpread` | contracts/raffle-instance/src/helpers.rs:576-595 | with unique winners the set of winning addresses has exactly min(distinct owners, tiers) members |
| `Winners.AlwaysDistinctIff` | contracts/raffle-instance/src/helpers.rs:576-595 | all distinct candidate lists of T tickets lead to distinct winning tickets exactly when one owner holds every ticket or there are at least T owners |
| `Winners.WinningTicketsDistinct` | contracts/raffle-instance/src/helpers.rs:576-595 | so they are distinct whenever there are at least as many owners as tiers |
| `Winners.OneTicketCanWinTwice` | contracts/raffle-instance/src/helpers.rs:51-68 | the seed 3 over tickets of A, A and B draws tickets 0, 2 and 2 |
| `QuorumSeeds.SortIsSorted` | contracts/raffle-instance/src/randomness.rs:498-514 | the insertion sort returns the deliveries ordered by oracle, as a permutation |
| `QuorumSeeds.SortedIsUnique` | contracts/raffle-instance/src/randomness.rs:498-514 | a sorted permutation under distinct oracles is unique |
| `QuorumSeeds.AggregateQuorumSeeds` | contracts/raffle-instance/src/randomness.rs:486-528 | the in-place sort and hash compute the aggregate |
| `QuorumSeeds.AggregateIsOrderIndependent` | contracts/raffle-instance/src/randomness.rs:486-528 | the aggregate seed does not depend on the order of delivery, for any hash |
| `QuorumSeeds.SeedsAreHashedInOrder` | contracts/raffle-instance/src/randomness.rs:486-528 | the aggregate hashes one seed per delivery, each at the rank of its oracle by address, for any hash |
| `QuorumSeeds.EachSeedIsHashed` | contracts/raffle-instance/src/randomness.rs:516-521 | so a digest that picks out a place shows the seed of the oracle of that rank, and one that measures shows as many seeds as deliveries |
| `Config.ValidateConfig` | contracts/raffle-shared/src/config_builder.rs:326-448 | succeeds exactly for the acceptable configurations, returns the normalised one, and fails only with the five validation errors |
| `Config.NormalisedIsValid` | contracts/raffle-shared/src/config_builder.rs:326-448 | a normalised configuration is valid and accepted again, and normalising it again changes nothing |
| `TierPrizes.TierPrizesSumToPool` | contracts/raffle-instance/src/helpers.rs:461-494 | tiers that sum to 10,000 basis points have prizes that sum to exactly the prize amount |
| `TierPrizes.LastTierRemainder` | contracts/raffle-instance/src/helpers.rs:461-494 | the last tier gets at least its floor share and exceeds it by at most the number of other tiers |
| `TierPrizes.TierPrizeIsPositive` | contracts/raffle-instance/src/helpers.rs:461-494 | a tier of at least one basis point has a positive prize |
| `TierPrizes.CalculateTierPrize` | contracts/raffle-instance/src/helpers.rs:461-494 | the checked loop returns the tier prize; under the validated bounds no checked step overflows |
| `Pricing.CalculateBuyQuote` | contracts/raffle-instance/src/helpers.rs:715-772 | the check-by-check quote returns the specified quote, of which the next three rows say what it is |
| `Pricing.CostOfTickets` | contracts/raffle-instance/src/helpers.rs:715-752 | a purchase costs its unit price per ticket, less the discount rounded down for exactly the tickets whose number times 100 is at most the early-bird percentage of all tickets |
| `Pricing.NextTicketCosts` | contracts/raffle-instance/src/helpers.rs:733-752 | without bundles the next ticket is discounted exactly when its own number is within that share |
| `Pricing.QuoteFailsIff` | contracts/raffle-instance/src/helpers.rs:715-772 | a quote fails exactly for no tickets or when one of the three checked products overflows |
| `Pricing.QuoteMeans` | contracts/raffle-instance/src/helpers.rs:715-772 | its parts add up, and fee and average price are rounded down |
| `Pricing.ListQuoteFits` | contracts/raffle-instance/src/helpers.rs:715-772 | without bundles no quote overflows under the validated bounds |
| `Pricing.QuoteIsSplitInvariant` | contracts/raffle-instance/src/helpers.rs:715-772 | without bundles two purchases in a row cost exactly what one purchase of both costs |
| `Ledger.SalesAreAccounted` | contracts/raffle-instance/src/helpers.rs:916-932 | over every run without bundles the purchases brought in the per-ticket payments of tickets 1 to sold, plus the discount of every early bird given away |
| `Ledger.DirectSalesArePayments` | contracts/raffle-instance/src/helpers.rs:916-932 | so they brought in exactly those payments when nothing is given away |
| `Ledger.VolumeFallsShort` | contracts/raffle-instance/src/helpers.rs:662-681 | the volume reported to the leaderboard falls short of the takings by exactly one unit per unevenly discounted early bird and the whole discount per early bird given away |
| `Pricing.VolumeGap` | contracts/raffle-instance/src/helpers.rs:662-681 | one purchase of all tickets costs exactly one unit more than the reported volume per unevenly discounted early bird |
| `Pricing.UnitIsCheapest` | contracts/raffle-instance/src/helpers.rs:720-733 | under validated bundles the loop picks the cheapest eligible unit price, or the list price |
| `Pricing.BundlesNeverPenaliseIff` | contracts/raffle-instance/src/helpers.rs:720-752 | among the purchases the caps allow, buying together never costs more than buying apart exactly when no bundle in reach is dearer than the list price, at full price or net of an early-bird window over every ticket |
| `Pricing.PenaltyIsReal` | contracts/raffle-instance/src/helpers.rs:720-752 | otherwise the last tickets, bought up to the first bundle, cost more at once than in two purchases within the caps |
| `Reachability.PenaltyIsBought` | contracts/raffle-instance/src/tickets.rs:164-350 | and those purchases are accepted from a state that a run reaches, whenever the bundle's quote does not overflow |
| `Reachability.DearerBundleIsAccepted` | contracts/raffle-instance/src/helpers.rs:720-752 | a bundle of five at twice the list price is accepted and costs more at once than in two purchases |
| `RaffleInstance.Raffle.Init` | contracts/raffle-instance/src/lib.rs:319-440 | initialisation succeeds exactly for acceptable configurations within the instance bounds and leaves the initial state |
| `Ledger.DepositedOnce` | contracts/raffle-instance/src/init.rs:224-245 | over every run the prize is deposited exactly once, by the call that opens the sale |
| `Receipts.DepositIff` | contracts/raffle-instance/src/init.rs:224-245 | under the invariant the deposit is accepted exactly while the raffle has none, is not paused and the payer has the prize amount, and it opens the sale |
| `RaffleInstance.Raffle.BuyTickets` | contracts/raffle-instance/src/tickets.rs:164-350 | performs the specified purchase, ticket by ticket, or leaves the state unchanged |
| `RaffleInstance.Raffle.BuyTicketsFor` | contracts/raffle-instance/src/tickets.rs:429-610 | the same for a gift purchase, charged the list price and counted against the recipient |
| `Receipts.PurchaseIff` | contracts/raffle-instance/src/tickets.rs:127-250 | under the invariant a purchase is accepted exactly when it is open to the owner within every cap, its quote fits and the buyer has the money |
| `Receipts.PurchaseReceipt` | contracts/raffle-instance/src/tickets.rs:223-311 | it issues the next tickets to buyer and owner at the list price, takes the cost, and records and forwards the fee on it, rounded down |
| `Receipts.GiftIff` | contracts/raffle-instance/src/tickets.rs:429-520 | the same for a gift, open to the recipient |
| `Receipts.GiftReceipt` | contracts/raffle-instance/src/tickets.rs:500-610 | the tickets belong to the recipient and name the buyer as payer, at the list price |
| `Receipts.PausesStop` | contracts/raffle-instance/src/admin.rs:285-345 | a paused raffle accepts no deposit, sale or commitment; creator and administrator alone can stop the sales of an open one |
| `Outcomes.CommitmentStands` | contracts/raffle-instance/src/tickets.rs:698-738 | an accepted commitment stands: until a wipe no run changes it, and no run lets another be made for the same ticket |
| `RaffleInstance.Raffle.FinalizeRaffle` | contracts/raffle-instance/src/draw.rs:18-171 | fails, requests randomness or draws, by source; a failing draw rolls the status back |
| `RaffleInstance.Raffle.DoFinalizeWithSeed` | contracts/raffle-instance/src/helpers.rs:551-660 | loads the owners, draws, resolves unique winners and writes the record the specification names |
| `RaffleInstance.Raffle.ProvideQuorumRandomness` | contracts/raffle-instance/src/draw.rs:342-446 | every guard of a quorum delivery in order; the k-th one aggregates and draws |
| `RaffleInstance.Raffle.GetDrawAttestation` | contracts/raffle-instance/src/attestation.rs:82-144 | returns the attestation, with the metadata and configuration hashes, only for drawn raffles |
| `RaffleInstance.Raffle.ClaimPrize` | contracts/raffle-instance/src/claim.rs:10-106 | pays one tier to its winner and settles the raffle with the last one |
| `RaffleInstance.Raffle.SweepUnclaimed` | contracts/raffle-instance/src/claim.rs:112-185 | pays the unpaid tiers of a window of at most ten to the treasury, all or none |
| `RaffleInstance.Raffle.BatchRefundTickets` | contracts/raffle-instance/src/claim.rs:266-299 | refunds a list of tickets to their payers, skipping repeats, all or none |
| `RaffleInstance.Raffle.TokenEntitlement` | contracts/raffle-instance/src/admin.rs:17-77 | the loops compute the entitlement the administrative paths must leave |
| `RaffleInstance.Raffle.EmergencyWithdraw` | contracts/raffle-instance/src/admin.rs:625-694 | returns the deposit of a stalled draw and cancels it |
| `RaffleInstance.Raffle.WipeStorage` | contracts/raffle-instance/src/admin.rs:516-617 | erases a settled raffle's records, and only a settled one's |
| `RaffleInstance.Raffle.Apply` | contracts/raffle-shared/src/lib.rs:55-79 | any entrypoint call is one step of the state machine, keeps every invariant, and leaves the state unchanged when it fails |
| `RaffleInstance.Raffle.ApplyAll` | contracts/raffle-shared/src/lib.rs:55-79 | any sequence of calls on the object is a run of the state machine, so every theorem about runs is about the object |
| `Invariants.ReachedInv` | contracts/raffle-instance/src/lib.rs:319-440 | every reachable state satisfies the invariant: phases, ticket records, indexes, quorum, draw record and payment history |
| `Invariants.StepKeeps` | contracts/raffle-shared/src/lib.rs:55-79 | every one of the 24 calls keeps it |
| `Invariants.TicketIndexesAgree` | contracts/raffle-instance/src/tickets.rs:164-311 | tickets are exactly 1 to sold, counts are tickets owned and within the cap, and the buyer list is the set of owners without repeats, under any mix of own and gift purchases |
| `Invariants.FallbackNeverApplies` | contracts/raffle-instance/src/draw.rs:259-266 | no reachable state lets the randomness fallback run: drawing implies the lock that it rejects |
| `Record.StepIsKept` | contracts/raffle-shared/src/lib.rs:55-79 | every call follows the status graph, leaves the draw record and ticket records alone, only adds payments, and adds only justified ones |
| `Record.PaymentsAreJustified` | contracts/raffle-instance/src/claim.rs:10-299 | every payment of a run transferred the right amount to the right party: a prize to its winner less the claim fee or in full to the treasury, a refund to owner or payer at list price, the deposit whole, and recorded fees only after a draw |
| `Record.BatchPaysPayers` | contracts/raffle-instance/src/claim.rs:266-299 | a batch refunds each ticket it pays for to the address that paid, whoever owns it |
| `Record.RecordIsFrozen` | contracts/raffle-instance/src/helpers.rs:551-626 | over any further run a draw record never changes, and tickets, owners and commitments are frozen once sales have ended |
| `Timing.EveryTicketIsInTime` | contracts/raffle-instance/src/tickets.rs:157-160 | over every run every ticket there is was sold before the deadline |
| `Timing.FinalizingWaits` | contracts/raffle-instance/src/draw.rs:18-135 | finalizing waits for the deadline and fails a raffle exactly when it missed its minimum |
| `Timing.PrizesWait` | contracts/raffle-instance/src/claim.rs:10-185 | over every run a prize goes out only to the unpaid tier's winner after the lock-up, or by a sweep to the treasury after the claim period |
| `Timing.RequestsAreAsked` | contracts/raffle-instance/src/draw.rs:60-135 | over every run a pending request for randomness carries the identifier and the ledger of the call that made it |
| `Timing.AdminCancelWaits` | contracts/raffle-instance/src/admin.rs:163-250 | over every run an administrator's cancellation takes effect only two days after an earlier call scheduled it |
| `Solvency.SolventIff` | fuzz/fuzz_targets/real_harness.rs:156-176 | over all runs that set no fee the balance covers every obligation, exactly when the configuration has no fee either and charges every first purchase at least the list price |
| `Solvency.ReachedSound` | contracts/raffle-instance/src/helpers.rs:934-1009 | so it does in every state of such runs, through rescue, dust, emergency and wipe as well |
| `Solvency.SaleSlack` | contracts/raffle-instance/src/tickets.rs:223-243 | a purchase moves the surplus over obligations by exactly charge less list price less the fee forwarded less the fee recorded |
| `Solvency.UnderchargeIsInsolvent` | contracts/raffle-instance/src/tickets.rs:264-275 | one discounted first purchase makes the raffle unable to refund: tickets record the list price |
| `Reachability.DiscountIsAccepted` | contracts/raffle-instance/src/tickets.rs:264-275 | a tenth off for the first half of the tickets is accepted, and one purchase makes that raffle insolvent |
| `Solvency.FeeBreaksSolvency` | contracts/raffle-instance/src/tickets.rs:532-543 | with any fee an administrator can set one gift purchase makes the raffle insolvent, whatever the configuration |
| `Solvency.ConfiguredFeeBreaksSolvency` | contracts/raffle-instance/src/tickets.rs:532-543 | so it does with any fee the raffle is initialised with |
| `Solvency.EntitlementIsOwed` | contracts/raffle-instance/src/admin.rs:17-77 | before a wipe the entitlement is exactly what is owed, but for a settled raffle's prize and a drawn raffle's fees |
| `Solvency.EntitlementCovers` | contracts/raffle-instance/src/admin.rs:402-505 | it never falls short of the obligations a surplus withdrawal must leave |
| `Receipts.DustReceipt` | contracts/raffle-instance/src/admin.rs:448-505 | dust can be swept exactly when the raffle is settled, has a treasury and covers the entitlement, and leaves exactly the entitlement |
| `Solvency.WipeLeavesPhantomRefunds` | contracts/raffle-instance/src/admin.rs:558-566 | after a wipe of a cancelled or failed raffle the entitlement still counts refunds already made, unless no ticket was sold |
| `Reachability.PhantomRefundsAreReached` | contracts/raffle-instance/src/admin.rs:558-566 | and every fee-free raffle that may sell two tickets can be cancelled, refunded, wiped and brought there |
| `Wiping.ReachedWipeableIff` | contracts/raffle-instance/src/admin.rs:516-556 | after every run, some further run lets a settled raffle be wiped exactly when its recorded fees cover what it holds up to the prize amount |
| `Receipts.WipeReceipt` | contracts/raffle-instance/src/admin.rs:516-617 | under the invariant a wipe succeeds exactly when the raffle is over, everything is refunded or claimed and nothing is left, and it leaves no ticket, count, buyer, marker or commitment |
| `Wiping.FeesAreNatural` | contracts/raffle-instance/src/admin.rs:365-395 | recorded fees are never negative, over any run |
| `Wiping.BalanceIsNatural` | contracts/raffle-instance/src/claim.rs:10-299 | the balance is never negative, over any run and with any fees: no call pays out more than the contract holds |
| `Reachability.LockedIsReached` | contracts/raffle-instance/src/admin.rs:29-36 | every fee-free raffle with one prize, a deadline and an on-chain source can be claimed with its takings still inside, and then no run ever wipes it |
| `Settlement.TicketRefundIff` | contracts/raffle-instance/src/claim.rs:220-248 | in a covered cancelled or failed raffle a ticket refund succeeds exactly when the ticket exists and has not been refunded |
| `Settlement.BatchRefundIff` | contracts/raffle-instance/src/claim.rs:266-299 | a batch succeeds exactly when every listed ticket exists and the caller paid for or owns it, repeats allowed |
| `Settlement.BatchPaysOnce` | contracts/raffle-instance/src/claim.rs:266-299 | and pays the list price once per distinct ticket still due |
| `Settlement.PrizeRefundIff` | contracts/raffle-instance/src/claim.rs:187-218 | the deposit refund succeeds exactly while the deposit is there |
| `Settlement.RefundsInterleave` | contracts/raffle-instance/src/claim.rs:187-299 | any interleaving of refunds marks exactly the tickets named and leaves the surplus unchanged |
| `Settlement.RefundsSettle` | contracts/raffle-instance/src/claim.rs:187-299 | refunds naming everything settle the raffle and pay out exactly what was owed |
| `Settlement.EveryReachedRaffleSettles` | contracts/raffle-instance/src/claim.rs:187-299 | every cancelled or failed raffle that a fee-free, list-priced run reaches is fully settled by any sequence of entitled refunds naming everything, in any order |
| `Settlement.ReachedIsRefundable` | fuzz/fuzz_targets/real_harness.rs:156-176 | every cancelled or failed state of a fee-free, list-priced run meets the hypotheses |
| `FullPayment.ClaimIff` | contracts/raffle-instance/src/claim.rs:10-106 | in every drawn state of a fee-free, list-priced run a claim succeeds exactly when the lock-up is over and the caller has won the tier, which is unpaid and worth something |
| `FullPayment.SweepIff` | contracts/raffle-instance/src/claim.rs:112-185 | a sweep succeeds exactly when prizes may be due, there is a treasury and the claim period, which fits the clock, is over |
| `FullPayment.StalledIff` | contracts/raffle-instance/src/admin.rs:625-694 | while a draw is pending the deposit can be taken back exactly by creator or administrator, once the draw has stalled for ninety days and if the balance covers the whole entitlement, and what remains covers the rest |
| `FullPayment.EmergencyIff` | contracts/raffle-instance/src/admin.rs:625-694 | in a fee-free, list-priced run the balance does, so the other two conditions decide |
| `Receipts.ClaimReceipt` | contracts/raffle-instance/src/claim.rs:33-106 | an accepted claim pays the winner the prize less the fee on it, rounded up, and records and forwards the fee |
| `Receipts.RefundReceipt` | contracts/raffle-instance/src/claim.rs:220-248 | a single refund pays the recorded price to the owner and marks the ticket |
| `FullPayment.FullPaymentIff` | contracts/raffle-instance/src/claim.rs:10-299 | from every state of such a run some further run pays out exactly what is owed and leaves nothing owed, unless prizes are due whose lock-up ends beyond the 64-bit clock |
| `FullPayment.OutOfTimeIsReached` | contracts/raffle-instance/src/claim.rs:18-27 | a deadline that late leads there, with the whole prize due |
| `Claims.ClaimedIffPaid` | contracts/raffle-instance/src/claim.rs:10-185 | no tier is ever paid twice, and the status is Claimed exactly when every tier has been paid once |
| `Claims.TierIsPaidInFull` | contracts/raffle-instance/src/claim.rs:10-185 | tier by tier the tokens transferred as its prize are none before it is paid and then the whole prize, less at most the claim fee rounded up |
| `Claims.ReceivedIsPrize` | contracts/raffle-instance/src/claim.rs:10-185 | without a fee the tokens that winners and treasury received as prizes never exceed the prize amount and are exactly it at Claimed |
| `Claims.RefundsAndPrizesExclude` | contracts/raffle-instance/src/claim.rs:10-299 | refunds and prizes never both happen in a run, and no ticket is refunded twice even across a wipe |
| `Claims.SweepSettlesIff` | contracts/raffle-instance/src/claim.rs:112-185 | sweeping windows 0, 10, 20, … settles an expired, covered raffle within ceil(tiers / 10) calls, exactly when every unpaid tier is worth something |
| `Claims.SweepSettlesReached` | contracts/raffle-instance/src/claim.rs:112-185 | so it does from every expired drawn state of a fee-free, list-priced run whose tiers are at least one basis point, and winners and treasury have then received exactly the prize amount |
| `Claims.WorthlessTierNeverSettles` | contracts/raffle-instance/src/claim.rs:35-38 | a raffle with a tier worth nothing is never settled, by any run |
| `Reachability.WorthlessTierIsReached` | contracts/raffle-instance/src/claim.rs:35-38 | an accepted configuration with such a tier is sold and drawn, and then never settled |
| `Outcomes.AttestationVerifies` | contracts/raffle-instance/src/attestation.rs:82-144 | in every drawn state before a wipe the attestation verifies: replaying the seed over the owners reproduces indices, winners and tickets |
| `Outcomes.AttestationIsFinal` | contracts/raffle-instance/src/attestation.rs:82-144 | an attestation once available is the same after any further run |
| `DrawSeeds.SeedOfEveryDraw` | contracts/raffle-instance/src/draw.rs:18-446 | whenever a call of a run draws a raffle the record carries its time and the prescribed seed: the digest of all commitments in ticket order if there are any, else the ledger's; the signed answer to the pending request; or the aggregate of exactly the deliveries accepted |
| `Outcomes.PanelIsDelivered` | contracts/raffle-instance/src/draw.rs:342-446 | over every run the quorum record holds exactly the deliveries that were accepted, in order and each with its seed, until a draw uses them; also those made after a cancellation |
| `Outcomes.WipeClearsPanelIff` | contracts/raffle-instance/src/admin.rs:596-609 | a wiped raffle holds no delivery exactly when it was drawn or never accepted one |
| `Outcomes.WipedPanelStays` | contracts/raffle-instance/src/admin.rs:596-609 | what a wipe leaves on record no further run removes |
| `Reachability.LeftoversAreReached` | contracts/raffle-instance/src/admin.rs:596-609 | every fee-free quorum raffle that needs two oracles and at most one ticket can be wiped with a delivery on record, made before or after its cancellation |
| `Outcomes.QuorumPending` | contracts/raffle-instance/src/draw.rs:342-446 | in every reachable state the recorded oracles are distinct, registered, have one seed each and number fewer than k |
| `Outcomes.QuorumSettlesIff` | contracts/raffle-instance/src/draw.rs:342-446 | k deliveries of distinct registered oracles settle a pending draw, recording exactly those deliveries, if and only if there are tickets for every tier |
| `Outcomes.QuorumRunsAgree` | contracts/raffle-instance/src/draw.rs:342-446 | two runs with permuted deliveries end with the same seed and the same winners |
| `Outcomes.ArrivalOrderIsIrrelevant` | contracts/raffle-instance/src/draw.rs:342-446 | any two runs over the same tickets settled by the same deliveries in any order, whatever else was called, agree on seed, indices and winners |
| `Outcomes.SoldOutDrawIsStuck` | contracts/raffle-instance/src/tickets.rs:288-312 | a sold-out raffle that did not ask for randomness is never drawn, by any run |
| `Liveness.DrawableIff` | contracts/raffle-instance/src/draw.rs:174-446 | a raffle whose draw has started can still be drawn by some run exactly when randomness was asked for, there is a ticket for every tier, and the oracle's delay fits the ledger counter or the quorum lists at least k different oracles |
| `Liveness.OracleAnswerIff` | contracts/raffle-instance/src/draw.rs:174-257 | an oracle's answer to a pending request is accepted exactly when the source is external, ten ledgers have passed, identifier, proof and signature match and there is a ticket for every tier |
| `Liveness.QuorumAnswerIff` | contracts/raffle-instance/src/draw.rs:342-446 | a quorum delivery is accepted exactly when it answers the request, comes from a registered oracle that has not delivered, and, if it completes the quorum, there is a ticket for every tier |
| `Drawability.CanBeDrawnIff` | contracts/raffle-instance/src/draw.rs:18-171 | some run draws a raffle exactly when its source is external, or it has a deadline, its minimum and its tiers are fewer than its tickets, and a quorum lists k different oracles |
| `Reachability.SoldOutIsReached` | contracts/raffle-instance/src/tickets.rs:288-312 | every valid raffle can sell out, and unless its source is external no further run then draws it |
| `Reachability.RepeatedOraclesAreReached` | contracts/raffle-instance/src/draw.rs:342-446 | a quorum with fewer than k different oracles reaches a pending draw that no run completes |
| `Reachability.RepeatedOraclesAreAccepted` | contracts/raffle-instance/src/lib.rs:411-428 | and such a quorum passes validation and initialisation |
| `Reachability.DrawnIsReached` | contracts/raffle-instance/src/draw.rs:18-171 | every valid raffle with a deadline and an on-chain source is drawn at its deadline after selling any sufficient number of tickets |
| `Outcomes.ExpiredFinalizesIff` | contracts/raffle-instance/src/draw.rs:18-171 | an expired raffle can be finalized exactly when it missed its minimum, asks oracles, or sold a ticket for every tier |
| `Reachability.UnfinalizableIsReached` | contracts/raffle-instance/src/draw.rs:18-171 | selling at least the minimum but fewer tickets than tiers reaches a state that its deadline lets nobody finalize |
| `TtlWindow.TicketTtls.BumpRaffleTtl` | contracts/raffle-instance/src/helpers.rs:88-110 | one call extends exactly the entries of its window, at most a hundred, each to live at least the threshold longer, and moves the cursor on |
| `TtlWindow.TicketTtls.ExtendTicketTtls` | contracts/raffle-instance/src/helpers.rs:157-177 | extends consecutive entries by the host's threshold rule and stops at the first missing one |
| `TtlWindow.CursorStaysOnGrid` | contracts/raffle-instance/src/helpers.rs:97-110 | the cursor stays a multiple of the window below the total |
| `TtlWindow.EveryTicketIsRefreshed` | contracts/raffle-instance/src/helpers.rs:88-110 | after ceil(max / 100) consecutive calls every ticket already sold at the first lives at least the threshold beyond its ledger, however sales go on |
| `Leaderboard.Upsert` | contracts/raffle-factory/src/lib.rs:1784-1822 | filter, append, exchange sort and cut leave a descending arrangement of the other raffles' entries and the new one |
| `Leaderboard.ExchangeSort` | contracts/raffle-factory/src/lib.rs:1804-1815 | the nested loops sort descending, as a permutation |
| `Leaderboard.Leaderboards.RecordEntry` | contracts/raffle-factory/src/lib.rs:1825-1841 | a deployed raffle reporting about a deployed raffle updates all three boards; anything else changes nothing |
| `Leaderboard.UpsertAgreesIff` | contracts/raffle-factory/src/lib.rs:1784-1822 | an update keeps the board in agreement with a table of every raffle exactly when a listed raffle does not fall below one that is off the board |
| `Leaderboard.BoardAgrees` | contracts/raffle-factory/src/lib.rs:1784-1822 | so it does over every sequence of recordings whose metrics never decrease |
| `Leaderboard.BoundedMatchesUnbounded` | contracts/raffle-factory/src/lib.rs:1784-1822 | the board's metrics are then exactly the first ten of a board that forgets nothing |
| `Registry.Factory.CreateRaffle` | contracts/raffle-factory/src/lib.rs:457-508 | assigns the next ID, never one used before, and keeps count and both indexes exact |
| `Registry.Factory.CleanOldRaffle` | contracts/raffle-factory/src/lib.rs:1889-1993 | removes one live ID, moves no other, and keeps count and both indexes exact |
| `Registry.Factory.GetRafflesPage` | contracts/raffle-factory/src/lib.rs:1278-1327 | returns the page of the live list; reading it never runs past its end |
| `Registry.Factory.GetRafflesWindow` | contracts/raffle-factory/src/views.rs:138-180 | returns the live raffles of an ID window |
| `Registry.Factory.GetCreatorPage` | contracts/raffle-factory/src/views.rs:183-196 | returns the page of a creator's live raffles, in order of creation |
| `Registry.PaginateRaffles` | contracts/raffle-factory/src/views.rs:17-47 | returns the page of any list |
| `Registry.PagesConcatenate` | contracts/raffle-factory/src/views.rs:17-47 | following the pages to the end yields the list exactly once, for any limit after clamping |
| `Registry.PageIsPiece` | contracts/raffle-factory/src/views.rs:17-47 | a page is the piece of the list from its offset, as long as was asked for up to 200 (100 by default), and says exactly whether more is left |
| `Registry.WindowIsPiece` | contracts/raffle-factory/src/views.rs:138-180 | a window holds exactly the live raffles of its IDs, counted in the same way |
| `Registry.WindowsConcatenate` | contracts/raffle-factory/src/views.rs:138-180 | following the ID windows yields the live raffles exactly once |
| `Registry.LiveLength` | contracts/raffle-factory/src/lib.rs:1278-1327 | the live list has one entry per live ID |

## Left out

- Record.PaymentsAreJustified: says of a ticket's refund that it went to the owner or the payer without telling them apart, because single refunds pay the owner and batch refunds the payer; `Receipts.RefundReceipt` and `Record.BatchPaysPayers` do.
- RaffleInstance.Raffle.DoFinalizeWithSeed: reports a missing ticket whenever any ticket is missing, where the contract looks only at the tickets it needs (no reachable draw has one missing); and leaves out the report to the leaderboard and the extension of lifetimes that follow, which `Leaderboard` and `TtlWindow` model on their own.
- RaffleInstance.Raffle.GetDrawAttestation: leaves the token out of the hashed configuration, because the model has only one.
- Pricing.BundlesNeverPenaliseIff: compares costs whether or not a quote would overflow 128 bits; `Reachability.PenaltyIsBought` shows the purchases accepted whenever the bundle's quote fits.
- TtlWindow.TicketTtls.BumpRaffleTtl: takes the first of the two unmerged versions, and leaves out the host's upper limit on lifetimes and the instance entry, which every call extends too.
- TtlWindow.TicketTtls.ExtendTicketTtls: leaves out the host's upper limit on lifetimes.
- Registry.Factory.CreateRaffle: assumes that creation records the creator and category that `clean_old_raffle` reads, which `create_raffle_internal` does not write, and that deployment addresses are fresh.
- Registry.Factory.CleanOldRaffle: takes the outcome of the call that wipes the raffle as an input.
- Solvency with a protocol fee beyond showing that one fee-bearing sale breaks it, whoever set the fee: the sides of the merge disagree on who keeps the fee.
- Tokens other than the one the initialiser uses for both payment and prize, swap fields and NFT minting.
- Authorisation, except where an entrypoint compares addresses; the reentrancy guard; events; calls to the factory and to the global pause registry, whose answers are inputs.
- Replacing the administrator, the oracle address, the metadata hash and the swap deadline: each settles one field.
- The re-read of the sold count before payment, which cannot have changed within one call.
- Owner ticket lists, which neither `buy_tickets` nor `buy_tickets_for` writes.
- SHA-256, signature verification and address generation: inputs or arbitrary functions; nothing is claimed about unpredictability.
- The selection based on the host's own generator, which is not on the draw path.
- The factory's timelock, pause flags, checkpoints, profiles, partner and recurring schedules, and the oracle service.
