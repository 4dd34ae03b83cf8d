/** When the contract's token balance covers everything it owes.

    Ticket refunds pay the list price, so a discounted sale takes in less than it may have
    to give back, and a protocol fee is both forwarded and recorded as owed. Solvency over
    every run therefore depends on what a purchase charges; this module says exactly how. */
module Solvency {
  import opened Common
  import opened Config
  import opened Escrow
  import opened Invariants
  import opened QuorumSeeds
  import Pricing
  import TierPrizes

  // ---------------------------------------------------------------------------
  // Obligations

  /** The list-price refunds that tickets 1 to `n` can still claim. */
  function TicketsOwed(c: Config, tickets: map<int, Ticket>, refunded: set<int>, n: nat): int
  {
    if n == 0 then 0
    else TicketsOwed(c, tickets, refunded, n - 1) + if n in tickets && n !in refunded then c.ticketPrice else 0
  }

  function PrizeOwed(c: Config, l: Life, winners: seq<Winner>): int
  {
    if Drawn(l.status) then UnclaimedFrom(c, winners, Min(|winners|, |c.prizes|))
    else if l.prizeDeposited then c.prizeAmount
    else 0
  }

  /** Unrefunded tickets and the deposit before or without a draw, unclaimed tier prizes
      after it, and the recorded fees. */
  function Owed(c: Config, s: State): int
  {
    PrizeOwed(c, s.life, s.podium.winners) + s.purse.fees
      + if Drawn(s.life.status) then 0 else TicketsOwed(c, s.book.tickets, s.book.refunded, s.book.sold)
  }

  function Slack(c: Config, s: State): int
  {
    s.purse.balance - Owed(c, s)
  }

  ghost predicate Solvent(c: Config, s: State)
  {
    Slack(c, s) >= 0
  }

  // ---------------------------------------------------------------------------
  // Ticket obligations

  lemma {:induction false} OwedFrame(c: Config, t1: map<int, Ticket>, r1: set<int>, t2: map<int, Ticket>, r2: set<int>, n: nat)
    requires forall id :: 1 <= id <= n ==> ((id in t1 && id !in r1) <==> (id in t2 && id !in r2))
    ensures TicketsOwed(c, t1, r1, n) == TicketsOwed(c, t2, r2, n)
  {
    if n > 0 {
      OwedFrame(c, t1, r1, t2, r2, n - 1);
    }
  }

  lemma {:induction false} OwedGrows(c: Config, tickets: map<int, Ticket>, refunded: set<int>, sold: nat, quantity: nat)
    requires forall id :: sold < id <= sold + quantity ==> id in tickets && id !in refunded
    ensures TicketsOwed(c, tickets, refunded, sold + quantity)
         == TicketsOwed(c, tickets, refunded, sold) + c.ticketPrice * quantity
    decreases quantity
  {
    if quantity > 0 {
      OwedGrows(c, tickets, refunded, sold, quantity - 1);
      assert c.ticketPrice * quantity == c.ticketPrice * (quantity - 1) + c.ticketPrice;
    }
  }

  lemma {:induction false} OwedDrops(c: Config, tickets: map<int, Ticket>, refunded: set<int>, n: nat, id: int)
    requires id in tickets && id !in refunded && id >= 1
    ensures TicketsOwed(c, tickets, refunded + {id}, n)
         == TicketsOwed(c, tickets, refunded, n) - if id <= n then c.ticketPrice else 0
  {
    if n > 0 {
      OwedDrops(c, tickets, refunded, n - 1, id);
    }
  }

  lemma {:induction false} OwedIsNonNegative(c: Config, tickets: map<int, Ticket>, refunded: set<int>, n: nat)
    requires c.ticketPrice >= 0
    ensures 0 <= TicketsOwed(c, tickets, refunded, n) <= OutstandingTicketRefunds(c, refunded, n)
    ensures (forall id :: 1 <= id <= n ==> id in tickets) ==>
              TicketsOwed(c, tickets, refunded, n) == OutstandingTicketRefunds(c, refunded, n)
  {
    if n > 0 {
      OwedIsNonNegative(c, tickets, refunded, n - 1);
    }
  }

  lemma {:induction false} NothingOwed(c: Config, tickets: map<int, Ticket>, refunded: set<int>, n: nat)
    requires forall id :: 1 <= id <= n ==> id !in tickets || id in refunded
    ensures TicketsOwed(c, tickets, refunded, n) == 0
  {
    if n > 0 {
      NothingOwed(c, tickets, refunded, n - 1);
    }
  }

  // ---------------------------------------------------------------------------
  // Prize obligations

  lemma {:induction false} PaidAndUnclaimed(c: Config, winners: seq<Winner>, n: nat)
    requires n <= |winners| && n <= |c.prizes|
    ensures PaidFrom(c, winners, n) + UnclaimedFrom(c, winners, n) == TierPrizes.PrizeSum(c.prizeAmount, c.prizes, n)
  {
    if n > 0 {
      PaidAndUnclaimed(c, winners, n - 1);
    }
  }

  lemma {:induction false} UnclaimedMarks(c: Config, winners: seq<Winner>, tier: nat, n: nat)
    requires n <= |winners| && n <= |c.prizes| && tier < |winners| && tier < |c.prizes| && !winners[tier].claimed
    ensures UnclaimedFrom(c, MarkClaimed(winners, tier), n)
         == UnclaimedFrom(c, winners, n) - if tier < n then TierPrizes.TierPrize(c.prizeAmount, c.prizes, tier) else 0
  {
    if n > 0 {
      UnclaimedMarks(c, winners, tier, n - 1);
    }
  }

  lemma {:induction false} UnclaimedIsNonNegative(c: Config, winners: seq<Winner>, n: nat)
    requires n <= |winners| && n <= |c.prizes| && Valid(c)
    ensures UnclaimedFrom(c, winners, n) >= 0
  {
    if n > 0 {
      UnclaimedIsNonNegative(c, winners, n - 1);
      TierPrizes.TierPrizeIsNonNegative(c.prizeAmount, c.prizes, n - 1);
    }
  }

  lemma {:induction false} AllClaimedOwesNothing(c: Config, winners: seq<Winner>, n: nat)
    requires n <= |winners| && n <= |c.prizes| && AllClaimed(winners)
    ensures UnclaimedFrom(c, winners, n) == 0
  {
    if n > 0 {
      AllClaimedOwesNothing(c, winners, n - 1);
    }
  }

  // ---------------------------------------------------------------------------
  // What a purchase does to the slack

  /** A sale moves the slack by the charge less the list price of its tickets, less the fee
      forwarded, less the fee recorded. */
  lemma SaleSlack(c: Config, e: Env, s: State, payer: Address, owner: Address, quantity: u32,
                  charge: int, fee: int, t: State, v: int)
    requires s.life.status == Active && s.life.prizeDeposited && Records(c, s.life.status, s.book)
    requires Sell(c, e, s, payer, owner, quantity, charge, fee) == Accept(t, v)
    ensures Slack(c, t) == Slack(c, s) + charge - c.ticketPrice * quantity - FeeToTreasury(c, fee) - Max(fee, 0)
  {
    SaleOwes(c, s.life.status, s.book, owner, payer, e.now, quantity);
  }

  lemma SaleOwes(c: Config, status: Status, b: Book, owner: Address, payer: Address, now: u64, quantity: nat)
    requires Records(c, status, b) && status == Active
    ensures var t := AddTickets(c, b, owner, payer, now, quantity);
            TicketsOwed(c, t.tickets, t.refunded, t.sold) ==
              TicketsOwed(c, b.tickets, b.refunded, b.sold) + c.ticketPrice * quantity
  {
    var more := b.tickets + NewTickets(c, b.sold, owner, payer, now, quantity);
    OwedFrame(c, b.tickets, b.refunded, more, b.refunded, b.sold);
    OwedGrows(c, more, b.refunded, b.sold, quantity);
  }

  // ---------------------------------------------------------------------------
  // Purchases that charge at least the list price

  /** A quantity the first buyer can ask for. */
  predicate FirstPurchase(c: Config, quantity: nat)
  {
    1 <= quantity <= c.maxPerTx && (c.maxPerAddress > 0 ==> quantity <= c.maxPerAddress)
  }

  /** Every first purchase that can be quoted is charged at least the list price: a check on
      the configuration alone. Discounts and bundles break it, dearer bundles may restore it. */
  ghost predicate ListPriced(c: Config)
  {
    forall q: nat :: FirstPurchase(c, q) && Pricing.QuoteFits(c, 0, 0, q) ==> Pricing.Cost(c, 0, q) >= c.ticketPrice * q
  }

  /** Later purchases see no more early birds than the first, so they are charged no less. */
  lemma LaterCostsNoLess(c: Config, sold: nat, quantity: nat)
    requires Valid(c)
    ensures Pricing.Cost(c, sold, quantity) >= Pricing.Cost(c, 0, quantity)
  {
    var unit := Pricing.UnitPrice(c.ticketPrice, c.bundles, quantity);
    Pricing.UnitIsPositive(c.ticketPrice, c.bundles, quantity);
    if c.earlyBirdPercentage == 0 {
      Pricing.NoWindowNoEarlyBirds(c, sold, quantity);
      Pricing.NoWindowNoEarlyBirds(c, 0, quantity);
    } else {
      Pricing.DiscountBounds(c, unit);
      ProductIsMonotone(Pricing.DiscountPerTicket(c, unit), Pricing.EarlyBirds(c, sold, quantity),
                        Pricing.EarlyBirds(c, 0, quantity));
    }
  }

  /** A quote that only fits once the early birds are gone is far above the list price. */
  lemma HugeUnitIsAboveList(c: Config, sold: nat, quantity: nat)
    requires Valid(c) && Pricing.QuoteFits(c, sold, 0, quantity) && !Pricing.QuoteFits(c, 0, 0, quantity)
    ensures Pricing.Cost(c, sold, quantity) >= c.ticketPrice * quantity
  {
    var unit := Pricing.UnitPrice(c.ticketPrice, c.bundles, quantity);
    Pricing.UnitIsPositive(c.ticketPrice, c.bundles, quantity);
    assert Pricing.Cost(c, 0, quantity) * 0 == 0;
    assert Pricing.EarlyBirdApplies(c, 0) && unit * c.earlyBirdDiscountBp > I128_MAX;
    assert !Pricing.EarlyBirdApplies(c, sold);
    Pricing.NoDiscountOutsideWindow(c, unit, sold, quantity);
    ProductIsMonotone(unit, c.earlyBirdDiscountBp, BASIS_POINTS);
    assert unit >= c.ticketPrice;
    ProductIsMonotone(quantity, c.ticketPrice, unit);
  }

  lemma ListPricedSale(c: Config, sold: nat, quantity: nat)
    requires Valid(c) && ListPriced(c) && FirstPurchase(c, quantity) && Pricing.QuoteFits(c, sold, 0, quantity)
    ensures Pricing.Cost(c, sold, quantity) >= c.ticketPrice * quantity
  {
    if Pricing.QuoteFits(c, 0, 0, quantity) {
      LaterCostsNoLess(c, sold, quantity);
    } else {
      HugeUnitIsAboveList(c, sold, quantity);
    }
  }

  // ---------------------------------------------------------------------------
  // Every step of a fee-free run

  /** No fee is charged or recorded, and the balance covers what is owed. */
  ghost predicate Sound(c: Config, s: State)
  {
    s.controls.feeBp == 0 && s.purse.fees == 0 && Solvent(c, s)
  }

  predicate FeeFreeCall(call: Call)
  {
    call.SetProtocolFee? ==> call.bp == 0
  }

  lemma DepositSound(d: Digests, c: Config, e: Env, s: State, t: State)
    requires Shape(c) && Inv(d, c, s) && Sound(c, s) && Gives(Deposit(c, e, s), t)
    ensures Sound(c, t)
  {
  }

  lemma BuySound(d: Digests, c: Config, e: Env, s: State, buyer: Address, quantity: u32, t: State, v: int)
    requires Valid(c) && ListPriced(c) && Inv(d, c, s) && Sound(c, s) && Buy(c, e, s, buyer, quantity) == Accept(t, v)
    ensures Sound(c, t)
  {
    var quote := Pricing.Quote(c, s.book.sold, 0, quantity).value;
    ZeroFee(quote.netToPay);
    ListPricedSale(c, s.book.sold, quantity);
    SaleSlack(c, e, s, buyer, buyer, quantity, quote.netToPay, quote.fee, t, v);
  }

  lemma ZeroFee(amount: int)
    ensures Pricing.FeeOn(amount, 0) == 0
  {
    assert amount * 0 == 0;
  }

  lemma BuyForSound(d: Digests, c: Config, e: Env, s: State, buyer: Address, recipient: Address, quantity: u32,
                    t: State, v: int)
    requires Valid(c) && Inv(d, c, s) && Sound(c, s) && BuyFor(c, e, s, buyer, recipient, quantity) == Accept(t, v)
    ensures Sound(c, t)
  {
    var price := c.ticketPrice * quantity;
    ZeroFee(price);
    SaleSlack(c, e, s, buyer, recipient, quantity, price, 0, t, v);
  }

  /** A fresh draw owes exactly the deposit, and no more ticket refunds. */
  lemma SettleSound(d: Digests, c: Config, e: Env, s: State, seed: u64, contributions: Option<seq<Delivery>>, t: State)
    requires Valid(c) && ReadyToSettle(d, c, s) && Sound(c, s)
    requires Gives(FinalizeWithSeed(c, e, s, seed, contributions), t)
    ensures Sound(c, t)
  {
    SettledRecord(d, c, e, s, seed, contributions, t);
    var n := |c.prizes|;
    NothingPaid(c, t.podium.winners, n);
    PaidAndUnclaimed(c, t.podium.winners, n);
    TierPrizes.TierPrizesSumToPool(c.prizeAmount, c.prizes);
    OwedIsNonNegative(c, s.book.tickets, s.book.refunded, s.book.sold);
  }

  lemma FinalizeSound(d: Digests, c: Config, e: Env, s: State, t: State)
    requires Valid(c) && Inv(d, c, s) && Sound(c, s) && Gives(Finalize(d, c, e, s), t)
    ensures Sound(c, t)
  {
    var u := s.(life := s.life.(status := Drawing, lock := true));
    if t.life.status == Finalized {
      assert ReadyToSettle(d, c, u);
      SettleSound(d, c, e, u, DrawSeed(d, c, e, s), None, t);
    }
  }

  lemma OracleSound(d: Digests, c: Config, e: Env, s: State, seed: u64, proofSeed: u64, signatureOk: bool,
                    requestId: u64, t: State)
    requires Valid(c) && Inv(d, c, s) && Sound(c, s)
    requires Gives(OracleDelivery(c, e, s, seed, proofSeed, signatureOk, requestId), t)
    ensures Sound(c, t)
  {
    InvIsReady(d, c, s);
    SettleSound(d, c, e, s, seed, None, t);
  }

  lemma QuorumSound(d: Digests, c: Config, e: Env, s: State, oracle: Address, seed: u64, requestId: u64, t: State)
    requires Valid(c) && Inv(d, c, s) && Sound(c, s)
    requires Gives(QuorumDelivery(d, c, e, s, oracle, seed, requestId), t)
    ensures Sound(c, t)
  {
    var u := s.(panel := Panel(s.panel.submitted + [oracle], s.panel.seeds[oracle := seed]));
    if |u.panel.submitted| >= c.source.k {
      PanelGrows(c, s.life.status, s.panel, oracle, seed);
      var ds := Deliveries(u.panel.submitted, u.panel.seeds);
      assert ReadyToSettle(d, c, u);
      SettleSound(d, c, e, u, Aggregate(d.seeds, ds), Some(ds), t);
    }
  }

  lemma NoClaimFee(amount: int)
    ensures CeilFee(amount, 0) == 0
  {
    assert amount * 0 == 0;
  }

  lemma ClaimSound(d: Digests, c: Config, e: Env, s: State, winner: Address, tier: u32, v: int, t: State)
    requires Valid(c) && Inv(d, c, s) && Sound(c, s) && Claim(c, e, s, winner, tier) == Accept(t, v)
    ensures Sound(c, t)
  {
    NoClaimFee(v);
    UnclaimedMarks(c, s.podium.winners, tier, |c.prizes|);
  }

  lemma {:induction false} SweepSlack(c: Config, s: State, treasury: Address, i: nat, end: nat)
    requires end <= |s.podium.winners| == |c.prizes| && SweepTiers(c, s, treasury, i, end).Accept?
    ensures var t := SweepTiers(c, s, treasury, i, end).post;
            && |t.podium.winners| == |c.prizes|
            && t.purse.balance - UnclaimedFrom(c, t.podium.winners, |c.prizes|) ==
               s.purse.balance - UnclaimedFrom(c, s.podium.winners, |c.prizes|)
    decreases end - i
  {
    if i < end {
      var amount := TierPrizes.TierPrize(c.prizeAmount, c.prizes, i);
      if s.podium.winners[i].claimed || amount <= 0 {
        SweepSlack(c, s, treasury, i + 1, end);
      } else {
        var t := s.(podium := s.podium.(winners := MarkClaimed(s.podium.winners, i)),
                    purse := Pay(s.purse, PrizeOut(i, treasury, amount, amount)));
        UnclaimedMarks(c, s.podium.winners, i, |c.prizes|);
        SweepSlack(c, t, treasury, i + 1, end);
      }
    }
  }

  lemma SweepSound(d: Digests, c: Config, e: Env, s: State, start: u32, limit: u32, v: int, t: State)
    requires Valid(c) && Inv(d, c, s) && Sound(c, s) && Sweep(c, e, s, start, limit) == Accept(t, v)
    ensures Sound(c, t)
  {
    if start < |s.podium.winners| {
      var end := SweepEnd(s, start, limit);
      SweepFrame(c, s, c.treasury.value, start, end);
      SweepSlack(c, s, c.treasury.value, start, end);
    }
  }

  lemma OneRefundSlack(c: Config, s: State, id: int, to: Address)
    requires RefundBooks(c, s) && id in s.book.tickets && id !in s.book.refunded
    ensures Slack(c, PayRefund(s, id, to, c.ticketPrice)) == Slack(c, s)
  {
    OwedDrops(c, s.book.tickets, s.book.refunded, s.book.sold, id);
  }

  lemma {:induction false} RefundAllSlack(c: Config, s: State, caller: Address, ids: seq<int>)
    requires RefundBooks(c, s) && RefundAll(c, s, caller, ids).Accept?
    ensures Slack(c, RefundAll(c, s, caller, ids).post) == Slack(c, s)
    decreases |ids|
  {
    if ids != [] {
      var t := s.book.tickets[ids[0]];
      if ids[0] in s.book.refunded {
        RefundAllSlack(c, s, caller, ids[1..]);
      } else {
        OneRefundSlack(c, s, ids[0], t.payer);
        OneRefundKeepsBooks(c, s, ids[0], t.payer, c.ticketPrice);
        RefundAllSlack(c, PayRefund(s, ids[0], t.payer, c.ticketPrice), caller, ids[1..]);
      }
    }
  }

  lemma RefundSound(d: Digests, c: Config, s: State, id: int, v: int, t: State)
    requires Inv(d, c, s) && Sound(c, s) && Refund(s, id) == Accept(t, v)
    ensures Sound(c, t)
  {
    assert RefundBooks(c, s);
    OneRefundSlack(c, s, id, s.book.tickets[id].owner);
  }

  lemma BatchSound(d: Digests, c: Config, s: State, caller: Address, ids: seq<int>, v: int, t: State)
    requires Inv(d, c, s) && Sound(c, s) && Batch(c, s, caller, ids) == Accept(t, v)
    ensures Sound(c, t)
  {
    assert RefundBooks(c, s);
    RefundFrame(c, s, caller, ids);
    RefundAllSlack(c, s, caller, ids);
  }

  lemma RefundPrizeSound(d: Digests, c: Config, s: State, t: State)
    requires Inv(d, c, s) && Sound(c, s) && Gives(RefundThePrize(c, s), t)
    ensures Sound(c, t)
  {
  }

  lemma EmergencySound(d: Digests, c: Config, e: Env, s: State, caller: Address, t: State)
    requires Inv(d, c, s) && Sound(c, s) && Gives(Emergency(c, e, s, caller), t)
    ensures Sound(c, t)
  {
  }

  lemma CancelSound(c: Config, s: State, t: State)
    requires Sound(c, s) && (s.life.status == Active || s.life.status == Drawing)
    requires t == s.(life := s.life.(status := Cancelled), controls := t.controls)
    requires t.controls.feeBp == s.controls.feeBp && s.life.prizeDeposited
    ensures Sound(c, t)
  {
  }

  /** The administrative entitlement is never below what is owed: surplus withdrawals and
      the emergency path leave every obligation covered. */
  lemma EntitlementCovers(d: Digests, c: Config, s: State)
    requires Valid(c) && Inv(d, c, s)
    ensures Entitlement(c, s) + (if Drawn(s.life.status) then s.purse.fees else 0) >= Owed(c, s)
  {
    OwedIsNonNegative(c, s.book.tickets, s.book.refunded, s.book.sold);
    if s.life.status == Claimed {
      AllClaimedOwesNothing(c, s.podium.winners, |c.prizes|);
    }
  }

  lemma RescueSound(d: Digests, c: Config, s: State, to: Address, amount: int, t: State)
    requires Valid(c) && Inv(d, c, s) && Sound(c, s) && Gives(Rescue(c, s, to, amount), t)
    ensures Sound(c, t)
  {
    EntitlementCovers(d, c, s);
  }

  lemma DustSound(d: Digests, c: Config, s: State, t: State)
    requires Valid(c) && Inv(d, c, s) && Sound(c, s) && Gives(Dust(c, s), t)
    ensures Sound(c, t)
  {
    EntitlementCovers(d, c, s);
  }

  lemma WipeSound(d: Digests, c: Config, s: State, t: State)
    requires Valid(c) && Inv(d, c, s) && Sound(c, s) && Gives(Wipe(c, s), t)
    ensures Sound(c, t)
  {
    WipeEmpties(c, s.life.status, s.book);
    NothingOwed(c, t.book.tickets, t.book.refunded, t.book.sold);
    if s.life.status == Claimed {
      AllClaimedOwesNothing(c, s.podium.winners, |c.prizes|);
    }
  }

  lemma SaleSound(d: Digests, c: Config, e: Env, s: State, call: Call, t: State, v: int)
    requires Sale(call) && Valid(c) && ListPriced(c) && Inv(d, c, s) && Sound(c, s)
    requires SaleStep(c, e, s, call) == Accept(t, v)
    ensures Sound(c, t)
  {
    match call
    case DepositPrize => DepositSound(d, c, e, s, t);
    case BuyTickets(buyer, quantity) => BuySound(d, c, e, s, buyer, quantity, t, v);
    case BuyTicketsFor(buyer, recipient, quantity) => BuyForSound(d, c, e, s, buyer, recipient, quantity, t, v);
    case SubmitCommit(_, _) =>
  }

  lemma DrawSound(d: Digests, c: Config, e: Env, s: State, call: Call, t: State, v: int)
    requires Draws(call) && Valid(c) && Inv(d, c, s) && Sound(c, s) && DrawStep(d, c, e, s, call) == Accept(t, v)
    ensures Sound(c, t)
  {
    match call
    case FinalizeRaffle => FinalizeSound(d, c, e, s, t);
    case TriggerFallback(caller, refund) => FallbackNeverApplies(d, c, e, s, caller, refund);
  }

  lemma DeliverySound(d: Digests, c: Config, e: Env, s: State, call: Call, t: State, v: int)
    requires Delivers(call) && Valid(c) && Inv(d, c, s) && Sound(c, s) && DeliveryStep(d, c, e, s, call) == Accept(t, v)
    ensures Sound(c, t)
  {
    match call
    case ProvideRandomness(seed, proofSeed, ok, id) => OracleSound(d, c, e, s, seed, proofSeed, ok, id, t);
    case ProvideQuorumRandomness(oracle, seed, id) => QuorumSound(d, c, e, s, oracle, seed, id, t);
  }

  lemma PayoutSound(d: Digests, c: Config, e: Env, s: State, call: Call, t: State, v: int)
    requires Payout(call) && Valid(c) && Inv(d, c, s) && Sound(c, s) && PayoutStep(c, e, s, call) == Accept(t, v)
    ensures Sound(c, t)
  {
    match call
    case ClaimPrize(winner, tier) => ClaimSound(d, c, e, s, winner, tier, v, t);
    case SweepUnclaimed(start, limit) => SweepSound(d, c, e, s, start, limit, v, t);
  }

  lemma RefundsSound(d: Digests, c: Config, s: State, call: Call, t: State, v: int)
    requires Refunds(call) && Valid(c) && Inv(d, c, s) && Sound(c, s) && RefundStep(c, s, call) == Accept(t, v)
    ensures Sound(c, t)
  {
    match call
    case RefundPrize => RefundPrizeSound(d, c, s, t);
    case RefundTicket(ticket) => RefundSound(d, c, s, ticket, v, t);
    case BatchRefund(caller, ids) => BatchSound(d, c, s, caller, ids, v, t);
  }

  lemma StopsSound(d: Digests, c: Config, e: Env, s: State, call: Call, t: State, v: int)
    requires Stops(call) && Valid(c) && Inv(d, c, s) && Sound(c, s) && StopStep(c, e, s, call) == Accept(t, v)
    ensures Sound(c, t)
  {
    match call {
      case EmergencyWithdraw(caller) => EmergencySound(d, c, e, s, caller, t);
      case WipeStorage => WipeSound(d, c, s, t);
      case _ =>
        if t.life != s.life {
          CancelSound(c, s, t);
        }
    }
  }

  lemma TransferSound(d: Digests, c: Config, s: State, call: Call, t: State, v: int)
    requires Transfer(call) && Valid(c) && Inv(d, c, s) && Sound(c, s) && TransferStep(c, s, call) == Accept(t, v)
    ensures Sound(c, t)
  {
    match call
    case RescueTokens(to, amount) => RescueSound(d, c, s, to, amount, t);
    case SweepDust => DustSound(d, c, s, t);
    case _ =>
  }

  /** Solvency is preserved by every call of a fee-free raffle that charges the list price. */
  lemma StepSound(d: Digests, c: Config, e: Env, s: State, call: Call)
    requires Valid(c) && ListPriced(c) && Inv(d, c, s) && Sound(c, s) && FeeFreeCall(call)
    ensures Sound(c, After(d, c, e, s, call))
  {
    hide Inv, Valid, ListPriced, SaleStep, DrawStep, DeliveryStep, PayoutStep, RefundStep, StopStep, TransferStep;
    var o := Step(d, c, e, s, call);
    if o.Accept? {
      if Sale(call) {
        SaleSound(d, c, e, s, call, o.post, o.value);
      } else if Draws(call) {
        DrawSound(d, c, e, s, call, o.post, o.value);
      } else if Delivers(call) {
        DeliverySound(d, c, e, s, call, o.post, o.value);
      } else if Payout(call) {
        PayoutSound(d, c, e, s, call, o.post, o.value);
      } else if Refunds(call) {
        RefundsSound(d, c, s, call, o.post, o.value);
      } else if Stops(call) {
        StopsSound(d, c, e, s, call, o.post, o.value);
      } else if Transfer(call) {
        TransferSound(d, c, s, call, o.post, o.value);
      }
    }
  }

  // ---------------------------------------------------------------------------
  // Every run

  ghost predicate FeeFree(run: Run)
  {
    forall i :: 0 <= i < |run| ==> FeeFreeCall(run[i].1)
  }

  lemma {:induction false} ReachedSound(d: Digests, c: Config, run: Run)
    requires Valid(c) && ListPriced(c) && c.protocolFeeBp == 0 && FeeFree(run)
    ensures Inv(d, c, Reached(d, c, run)) && Sound(c, Reached(d, c, run))
    decreases |run|
  {
    hide After, Inv;
    ReachedInv(d, c, run);
    if run == [] {
    } else {
      var n := |run| - 1;
      ReachedSound(d, c, run[..n]);
      StepSound(d, c, run[n].0, Reached(d, c, run[..n]), run[n].1);
    }
  }

  lemma RunExtends(d: Digests, c: Config, run: Run, e: Env, call: Call)
    ensures Reached(d, c, run + [(e, call)]) == After(d, c, e, Reached(d, c, run), call)
  {
    assert (run + [(e, call)])[..|run|] == run;
  }

  /** Surroundings in which a payer with enough funds meets no obstacle. */
  function Plain(funds: nat): Env
  {
    Env(0, 0, false, funds, 0, 0)
  }

  /** After the deposit nothing is owed but the deposit itself. */
  lemma DepositReached(d: Digests, c: Config, before: Run, s: State)
    requires Valid(c) && Reached(d, c, before) == s && s == Initial(c).(controls := s.controls) && !s.controls.paused
    ensures var t := Reached(d, c, before + [(Plain(c.prizeAmount), DepositPrize)]);
            && t == Deposit(c, Plain(c.prizeAmount), s).post
            && t.life == Life(Active, true, false, None) && t.book == s.book && t.controls == s.controls
            && Slack(c, t) == 0 && t.purse.fees == 0
  {
    RunExtends(d, c, before, Plain(c.prizeAmount), DepositPrize);
  }

  function FirstSaleRun(c: Config, pay: nat, quantity: u32): Run
    requires c.prizeAmount >= 0
  {
    [(Plain(c.prizeAmount), DepositPrize)] + [(Plain(pay), BuyTickets(0, quantity))]
  }

  lemma CostIsNonNegative(c: Config, quantity: nat)
    requires Valid(c)
    ensures Pricing.Cost(c, 0, quantity) >= 0
  {
    Pricing.UnitIsPositive(c.ticketPrice, c.bundles, quantity);
    Pricing.CostBounds(c, Pricing.UnitPrice(c.ticketPrice, c.bundles, quantity), 0, quantity);
  }

  /** One undercharged first purchase leaves the raffle unable to refund it and the deposit. */
  lemma UnderchargeIsInsolvent(d: Digests, c: Config, pay: nat, quantity: u32)
    requires Valid(c) && c.protocolFeeBp == 0
    requires FirstPurchase(c, quantity) && Pricing.QuoteFits(c, 0, 0, quantity)
    requires pay == Pricing.Cost(c, 0, quantity) < c.ticketPrice * quantity
    ensures !Solvent(c, Reached(d, c, FirstSaleRun(c, pay, quantity)))
  {
    var deposit := [(Plain(c.prizeAmount), DepositPrize)];
    DepositReached(d, c, [], Initial(c));
    assert [] + deposit == deposit;
    RunExtends(d, c, deposit, Plain(pay), BuyTickets(0, quantity));
    FirstSaleSlack(d, c, Plain(pay), Reached(d, c, deposit), quantity);
  }

  lemma FirstSaleSlack(d: Digests, c: Config, e: Env, s: State, quantity: u32)
    requires Valid(c) && s.life == Life(Active, true, false, None)
    requires s.book == Book(0, map[], map[], [], {}, map[]) && s.controls == Controls(0, None, false, false)
    requires FirstPurchase(c, quantity) && Pricing.QuoteFits(c, 0, 0, quantity)
    requires e == Plain(e.payerFunds) && e.payerFunds == Pricing.Cost(c, 0, quantity)
    ensures Slack(c, After(d, c, e, s, BuyTickets(0, quantity)))
         == Slack(c, s) + Pricing.Cost(c, 0, quantity) - c.ticketPrice * quantity
  {
    var quote := Pricing.Quote(c, 0, 0, quantity).value;
    ZeroFee(quote.netToPay);
    var o := Buy(c, e, s, 0, quantity);
    assert o.Accept?;
    assert Ids(0) == {};
    SaleSlack(c, e, s, 0, 0, quantity, quote.netToPay, quote.fee, o.post, o.value);
  }

  function FeeRun(c: Config, bp: u32): Run
    requires c.prizeAmount >= 0 && c.ticketPrice >= 0
  {
    [(Plain(0), SetProtocolFee(bp))] + [(Plain(c.prizeAmount), DepositPrize)]
      + [(Plain(c.ticketPrice), BuyTicketsFor(0, 1, 1))]
  }

  lemma FeeSaleSlack(c: Config, e: Env, s: State)
    requires Valid(c) && s.life == Life(Active, true, false, None)
    requires s.book == Book(0, map[], map[], [], {}, map[])
    requires 0 < s.controls.feeBp <= BASIS_POINTS && !s.controls.paused && !s.controls.salesPaused
    requires e == Plain(c.ticketPrice)
    ensures BuyFor(c, e, s, 0, 1, 1).Accept? && Slack(c, BuyFor(c, e, s, 0, 1, 1).post) < Slack(c, s)
  {
    var price := c.ticketPrice * 1;
    Pricing.ProductsFit(price, s.controls.feeBp, MAX_PRIZE_AMOUNT, BASIS_POINTS);
    ProductIsMonotone(price, 1, s.controls.feeBp);
    var fee := Pricing.FeeOn(price, s.controls.feeBp);
    assert fee >= 1;
    assert Ids(0) == {};
    var o := BuyFor(c, e, s, 0, 1, 1);
    SaleSlack(c, e, s, 0, 1, 1, price, fee, o.post, o.value);
  }

  /** A deposit and one gift at any fee. */
  lemma GiftBreaksSolvency(d: Digests, c: Config, before: Run, bp: u32)
    requires Valid(c) && 0 < bp <= BASIS_POINTS
    requires Reached(d, c, before) == Initial(c).(controls := Controls(bp, None, false, false))
    ensures var run := before + [(Plain(c.prizeAmount), DepositPrize)] + [(Plain(c.ticketPrice), BuyTicketsFor(0, 1, 1))];
            !Solvent(c, Reached(d, c, run))
  {
    var deposit := before + [(Plain(c.prizeAmount), DepositPrize)];
    DepositReached(d, c, before, Reached(d, c, before));
    RunExtends(d, c, deposit, Plain(c.ticketPrice), BuyTicketsFor(0, 1, 1));
    FeeSaleSlack(c, Plain(c.ticketPrice), Reached(d, c, deposit));
  }

  lemma SetFeeIsStep(d: Digests, c: Config, e: Env, s: State, bp: u32)
    ensures Step(d, c, e, s, SetProtocolFee(bp)) == SetFee(s, bp)
  {
  }

  lemma FeeReached(d: Digests, c: Config, bp: u32)
    requires Valid(c) && bp <= MAX_PROTOCOL_FEE_BP
    ensures Reached(d, c, [(Plain(0), SetProtocolFee(bp))]) == Initial(c).(controls := Controls(bp, None, false, false))
  {
    hide Step;
    SetFeeIsStep(d, c, Plain(0), Initial(c), bp);
    RunExtends(d, c, [], Plain(0), SetProtocolFee(bp));
    assert [] + [(Plain(0), SetProtocolFee(bp))] == [(Plain(0), SetProtocolFee(bp))];
  }

  /** Any protocol fee breaks solvency at the first sale, whatever the configuration: the fee
      is recorded as owed on top of a refund of the full price. */
  lemma FeeBreaksSolvency(d: Digests, c: Config, bp: u32)
    requires Valid(c) && 0 < bp <= MAX_PROTOCOL_FEE_BP
    ensures !Solvent(c, Reached(d, c, FeeRun(c, bp)))
  {
    FeeReached(d, c, bp);
    GiftBreaksSolvency(d, c, [(Plain(0), SetProtocolFee(bp))], bp);
  }

  function GiftRun(c: Config): Run
    requires c.prizeAmount >= 0 && c.ticketPrice >= 0
  {
    [] + [(Plain(c.prizeAmount), DepositPrize)] + [(Plain(c.ticketPrice), BuyTicketsFor(0, 1, 1))]
  }

  /** So does the fee a raffle is configured with, up to the whole price. */
  lemma ConfiguredFeeBreaksSolvency(d: Digests, c: Config)
    requires Valid(c) && c.protocolFeeBp > 0
    ensures !Solvent(c, Reached(d, c, GiftRun(c))) && FeeFree(GiftRun(c))
  {
    GiftBreaksSolvency(d, c, [], c.protocolFeeBp);
  }

  lemma DiscountBreaksSolvency(d: Digests, c: Config) returns (run: Run)
    requires Valid(c) && c.protocolFeeBp == 0 && !ListPriced(c)
    ensures FeeFree(run) && !Solvent(c, Reached(d, c, run))
  {
    hide After;
    var q: nat :| FirstPurchase(c, q) && Pricing.QuoteFits(c, 0, 0, q) && Pricing.Cost(c, 0, q) < c.ticketPrice * q;
    CostIsNonNegative(c, q);
    var pay: nat := Pricing.Cost(c, 0, q);
    UnderchargeIsInsolvent(d, c, pay, q);
    run := FirstSaleRun(c, pay, q);
  }

  /** Solvency over every run that sets no fee: it holds exactly when the configuration has none
      either and charges every first purchase at least its list price. */
  lemma SolventIff(d: Digests, c: Config)
    requires Valid(c)
    ensures (ListPriced(c) && c.protocolFeeBp == 0)
       <==> forall run: Run :: FeeFree(run) ==> Solvent(c, Reached(d, c, run))
  {
    hide After;
    if c.protocolFeeBp > 0 {
      ConfiguredFeeBreaksSolvency(d, c);
    } else if ListPriced(c) {
      forall run: Run | FeeFree(run)
        ensures Solvent(c, Reached(d, c, run))
      {
        ReachedSound(d, c, run);
      }
    } else {
      var run := DiscountBreaksSolvency(d, c);
    }
  }

  // ---------------------------------------------------------------------------
  // The contract's own bookkeeping of entitlements

  /** Before a wipe the administrative entitlement is exactly what is owed, except that a
      settled raffle is still counted as owing its whole prize and that a drawn raffle's
      recorded fees are left out. */
  lemma EntitlementIsOwed(d: Digests, c: Config, s: State)
    requires Valid(c) && Inv(d, c, s) && Intact(s.book.tickets, s.book.sold)
    ensures Entitlement(c, s) == Owed(c, s)
              + (if s.life.status == Claimed then c.prizeAmount else 0)
              - (if Drawn(s.life.status) then s.purse.fees else 0)
  {
    OwedIsNonNegative(c, s.book.tickets, s.book.refunded, s.book.sold);
    if s.life.status == Claimed {
      AllClaimedOwesNothing(c, s.podium.winners, |c.prizes|);
    }
  }

  /** A wipe removes the refund markers but keeps the ticket count, so the entitlement of a
      wiped cancelled or failed raffle is covered only when no ticket was ever sold. */
  lemma WipeLeavesPhantomRefunds(d: Digests, c: Config, s: State, t: State)
    requires Valid(c) && Inv(d, c, s) && Refunding(s.life.status) && Gives(Wipe(c, s), t)
    ensures Entitlement(c, t) <= t.purse.balance <==> s.book.sold == 0
    ensures Owed(c, t) == t.purse.balance == 0
  {
    WipeEmpties(c, s.life.status, s.book);
    NothingOwed(c, t.book.tickets, t.book.refunded, t.book.sold);
    AllOutstanding(c, t.book.sold);
  }

  lemma {:induction false} AllOutstanding(c: Config, n: nat)
    requires c.ticketPrice > 0
    ensures OutstandingTicketRefunds(c, {}, n) >= 0
    ensures OutstandingTicketRefunds(c, {}, n) == 0 <==> n == 0
  {
    if n > 0 {
      AllOutstanding(c, n - 1);
    }
  }
}
