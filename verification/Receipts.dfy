/** What an accepted call records and pays, to the unit. */
module Receipts {
  import opened Common
  import opened Config
  import opened Escrow
  import opened Invariants
  import Pricing
  import TierPrizes

  // ---------------------------------------------------------------------------
  // Purchases

  /** Purchases are open, and `quantity` more tickets stay within every cap of their owner. */
  ghost predicate OpenFor(c: Config, e: Env, s: State, owner: Address, quantity: u32)
  {
    && s.life.status == Active && s.life.prizeDeposited && !s.life.lock
    && !s.controls.paused && !s.controls.salesPaused && !e.globalPaused
    && (c.noDeadline || e.now < c.endTime)
    && 1 <= quantity <= c.maxPerTx && s.book.sold + quantity <= c.maxTickets
    && (c.maxPerAddress > 0 ==> CountOf(s.book.counts, owner) + quantity <= c.maxPerAddress)
    && (c.maxPerAddress == 0 && !c.allowMultiple ==> CountOf(s.book.counts, owner) == 0 && quantity == 1)
  }

  /** The buyer pays `charge`; the fee on it, rounded down, is recorded and, with a treasury, passed
      on. */
  ghost predicate Charged(c: Config, s: State, t: State, buyer: Address, quantity: nat, charge: int, fee: int)
  {
    && Pricing.RoundsDown(fee, charge, s.controls.feeBp, BASIS_POINTS)
    && t.purse.fees == s.purse.fees + fee
    && t.purse.log == s.purse.log + [SaleIn(buyer, quantity, charge)]
                        + (if fee > 0 && c.treasury.Some? then [FeeOut(fee)] else [])
    && t.purse.balance == s.purse.balance + charge - if fee > 0 && c.treasury.Some? then fee else 0
  }

  /** `quantity` tickets, numbered on from those sold, for their owner at the list price. */
  ghost predicate Issued(c: Config, e: Env, s: State, t: State, owner: Address, payer: Address, quantity: nat)
  {
    && t.book.sold == s.book.sold + quantity
    && (forall id :: id in t.book.tickets <==> id in s.book.tickets || s.book.sold < id <= s.book.sold + quantity)
    && (forall id :: id in s.book.tickets && id <= s.book.sold ==> t.book.tickets[id] == s.book.tickets[id])
    && forall id {:trigger t.book.tickets[id]} :: s.book.sold < id <= s.book.sold + quantity ==>
         t.book.tickets[id] == Ticket(id, owner, payer, e.now, c.ticketPrice)
  }

  lemma SellReceipt(c: Config, e: Env, s: State, payer: Address, owner: Address, quantity: nat, charge: int, fee: int, t: State)
    requires Gives(Sell(c, e, s, payer, owner, quantity, charge, fee), t)
    requires fee >= 0 && Pricing.RoundsDown(fee, charge, s.controls.feeBp, BASIS_POINTS)
    ensures Issued(c, e, s, t, owner, payer, quantity) && Charged(c, s, t, payer, quantity, charge, fee)
  {
    var sale := [SaleIn(payer, quantity, charge)];
    assert s.purse.log + sale + [] == s.purse.log + sale;
  }

  lemma FeeIsNatural(charge: int, feeBp: u32)
    requires charge >= 0
    ensures Pricing.FeeOn(charge, feeBp) >= 0
  {
    ProductIsMonotone(charge, 0, feeBp);
  }

  lemma CostIsNatural(c: Config, sold: nat, quantity: nat)
    requires Valid(c)
    ensures Pricing.Cost(c, sold, quantity) >= 0
  {
    var unit := Pricing.UnitPrice(c.ticketPrice, c.bundles, quantity);
    Pricing.UnitIsPositive(c.ticketPrice, c.bundles, quantity);
    Pricing.CostBounds(c, unit, sold, quantity);
  }

  /** An accepted purchase was open to the buyer, who had the money for it, and does exactly this. */
  lemma PurchaseReceipt(c: Config, e: Env, s: State, buyer: Address, quantity: u32, t: State) returns (fee: int)
    requires Valid(c) && Gives(Buy(c, e, s, buyer, quantity), t)
    ensures OpenFor(c, e, s, buyer, quantity) && e.payerFunds >= Pricing.Cost(c, s.book.sold, quantity)
    ensures Issued(c, e, s, t, buyer, buyer, quantity)
    ensures Charged(c, s, t, buyer, quantity, Pricing.Cost(c, s.book.sold, quantity), fee)
  {
    var charge := Pricing.Cost(c, s.book.sold, quantity);
    CostIsNatural(c, s.book.sold, quantity);
    FeeIsNatural(charge, s.controls.feeBp);
    fee := Pricing.FeeOn(charge, s.controls.feeBp);
    Pricing.FeeRoundsDown(charge, s.controls.feeBp);
    hide OpenFor, Issued, Charged, Sell;
    BuySells(c, e, s, buyer, quantity, t);
    SellReceipt(c, e, s, buyer, buyer, quantity, charge, fee, t);
  }

  lemma BuySells(c: Config, e: Env, s: State, buyer: Address, quantity: u32, t: State)
    requires Gives(Buy(c, e, s, buyer, quantity), t)
    ensures OpenFor(c, e, s, buyer, quantity) && e.payerFunds >= Pricing.Cost(c, s.book.sold, quantity)
    ensures var charge := Pricing.Cost(c, s.book.sold, quantity);
            Gives(Sell(c, e, s, buyer, buyer, quantity, charge, Pricing.FeeOn(charge, s.controls.feeBp)), t)
  {
    hide Pricing.Cost, Pricing.QuoteFits, Sell;
  }

  /** A gift is open to the recipient, paid by the buyer at the list price. */
  lemma GiftReceipt(c: Config, e: Env, s: State, buyer: Address, recipient: Address, quantity: u32, t: State) returns (fee: int)
    requires Valid(c) && Gives(BuyFor(c, e, s, buyer, recipient, quantity), t)
    ensures OpenFor(c, e, s, recipient, quantity) && e.payerFunds >= c.ticketPrice * quantity
    ensures Issued(c, e, s, t, recipient, buyer, quantity)
    ensures Charged(c, s, t, buyer, quantity, c.ticketPrice * quantity, fee)
  {
    var charge := c.ticketPrice * quantity;
    ProductIsMonotone(c.ticketPrice, 0, quantity);
    FeeIsNatural(charge, s.controls.feeBp);
    fee := Pricing.FeeOn(charge, s.controls.feeBp);
    Pricing.FeeRoundsDown(charge, s.controls.feeBp);
    hide OpenFor, Issued, Charged, Sell;
    GiftSells(c, e, s, buyer, recipient, quantity, t);
    SellReceipt(c, e, s, buyer, recipient, quantity, charge, fee, t);
  }

  lemma GiftSells(c: Config, e: Env, s: State, buyer: Address, recipient: Address, quantity: u32, t: State)
    requires Gives(BuyFor(c, e, s, buyer, recipient, quantity), t)
    ensures OpenFor(c, e, s, recipient, quantity) && e.payerFunds >= c.ticketPrice * quantity
    ensures var charge := c.ticketPrice * quantity;
            Gives(Sell(c, e, s, buyer, recipient, quantity, charge, Pricing.FeeOn(charge, s.controls.feeBp)), t)
  {
    hide Sell;
  }

  lemma NobodyAskedYet(d: Digests, c: Config, s: State)
    requires Inv(d, c, s) && s.life.status == Active
    ensures s.life.request.None?
  {
  }

  /** Purchases are accepted exactly when they are open to the owner, the quote does not overflow and
      the buyer has the money. */
  lemma PurchaseIff(d: Digests, c: Config, e: Env, s: State, buyer: Address, quantity: u32)
    requires Inv(d, c, s)
    ensures Buy(c, e, s, buyer, quantity).Accept? <==>
              && OpenFor(c, e, s, buyer, quantity) && Pricing.QuoteFits(c, s.book.sold, s.controls.feeBp, quantity)
              && e.payerFunds >= Pricing.Cost(c, s.book.sold, quantity)
  {
    hide Inv, Pricing.Cost, Pricing.QuoteFits;
    if s.life.status == Active {
      NobodyAskedYet(d, c, s);
    }
  }

  lemma GiftIff(d: Digests, c: Config, e: Env, s: State, buyer: Address, recipient: Address, quantity: u32)
    requires Inv(d, c, s)
    ensures var price := c.ticketPrice * quantity;
            BuyFor(c, e, s, buyer, recipient, quantity).Accept? <==>
              && OpenFor(c, e, s, recipient, quantity) && price <= I128_MAX && price * s.controls.feeBp <= I128_MAX
              && e.payerFunds >= price
  {
    hide Inv;
    if s.life.status == Active {
      NobodyAskedYet(d, c, s);
    }
  }

  // ---------------------------------------------------------------------------
  // Prizes and refunds

  lemma ClaimFeeRoundsUp(amount: int, feeBp: u32)
    ensures Pricing.RoundsUp(CeilFee(amount, feeBp), amount, feeBp, BASIS_POINTS)
  {
    Pricing.QuotientRoundsDown(amount * feeBp + 9_999, BASIS_POINTS);
  }

  /** An accepted claim pays the winner the tier's prize less the fee on it, rounded up; the fee is
      recorded and, with a treasury, passed on. */
  lemma ClaimReceipt(c: Config, e: Env, s: State, winner: Address, tier: u32, t: State) returns (fee: int)
    requires Gives(Claim(c, e, s, winner, tier), t)
    ensures tier < |s.podium.winners| && tier < |c.prizes| && winner == s.podium.winners[tier].address
    ensures var prize := TierPrizes.TierPrize(c.prizeAmount, c.prizes, tier);
            && Pricing.RoundsUp(fee, prize, s.controls.feeBp, BASIS_POINTS) && t.purse.fees == s.purse.fees + fee
            && t.purse.log == s.purse.log + [PrizeOut(tier, winner, prize, prize - fee)]
                                + (if fee > 0 && c.treasury.Some? then [FeeOut(fee)] else [])
            && t.purse.balance == s.purse.balance - (prize - fee) - if fee > 0 && c.treasury.Some? then fee else 0
  {
    var prize := TierPrizes.TierPrize(c.prizeAmount, c.prizes, tier);
    fee := CeilFee(prize, s.controls.feeBp);
    ClaimFeeRoundsUp(prize, s.controls.feeBp);
    var paid := [PrizeOut(tier, winner, prize, prize - fee)];
    assert s.purse.log + paid + [] == s.purse.log + paid;
  }

  /** A refund of a single ticket goes to its owner, at the recorded price, and marks the ticket. */
  lemma RefundReceipt(s: State, id: int, t: State)
    requires Gives(Refund(s, id), t)
    ensures id in s.book.tickets && t.book == s.book.(refunded := s.book.refunded + {id})
    ensures var k := s.book.tickets[id];
            && t.purse.log == s.purse.log + [TicketRefundOut(id, k.owner, k.pricePaid)]
            && t.purse.balance == s.purse.balance - k.pricePaid && t.purse.fees == s.purse.fees
  {
  }

  /** A deposit needs the prize amount, an unpaused raffle that has none yet, and opens the sale. */
  lemma DepositIff(d: Digests, c: Config, e: Env, s: State)
    requires Inv(d, c, s)
    ensures Deposit(c, e, s).Accept? <==> s.life.status == PendingPrize && !s.controls.paused && e.payerFunds >= c.prizeAmount
    ensures Deposit(c, e, s).Accept? ==>
              && Deposit(c, e, s).post.life == s.life.(prizeDeposited := true, status := Active)
              && Deposit(c, e, s).post.purse == Pay(s.purse, PrizeIn(c.prizeAmount))
  {
  }

  /** Surplus can be rescued up to exactly what exceeds the entitlement. */
  lemma RescueReceipt(c: Config, s: State, to: Address, amount: int)
    ensures Rescue(c, s, to, amount).Accept? <==> 0 < amount <= s.purse.balance - Entitlement(c, s)
    ensures Rescue(c, s, to, amount).Accept? ==>
              Rescue(c, s, to, amount).post == s.(purse := Pay(s.purse, SurplusOut(to, amount)))
  {
  }

  /** Dust is whatever the contract holds above the entitlement; sweeping it leaves exactly that. */
  lemma DustReceipt(c: Config, s: State)
    ensures Dust(c, s).Accept? <==>
              && (s.life.status == Claimed || (s.life.status == Cancelled && Settled(s)))
              && c.treasury.Some? && s.purse.balance >= Entitlement(c, s)
    ensures Dust(c, s).Accept? ==>
              && Dust(c, s).post == s.(purse := Dust(c, s).post.purse)
              && Dust(c, s).post.purse.balance == Entitlement(c, s) && Dust(c, s).post.purse.fees == s.purse.fees
              && forall p :: p in Dust(c, s).post.purse.log && p !in s.purse.log ==>
                   p == SurplusOut(c.treasury.value, s.purse.balance - Entitlement(c, s))
  {
  }

  /** Storage can be wiped exactly when the raffle is over, everything is refunded or claimed, and
      nothing is left; then no ticket, count, buyer, refund marker or commitment remains. */
  lemma WipeReceipt(d: Digests, c: Config, s: State)
    requires Inv(d, c, s)
    ensures Wipe(c, s).Accept? <==>
              && s.purse.balance == 0
              && (s.life.status == Claimed
                  || (Refunding(s.life.status) && !s.life.prizeDeposited
                      && forall id: int :: 1 <= id <= s.book.sold ==> id in s.book.refunded))
    ensures Wipe(c, s).Accept? ==>
              var t := Wipe(c, s).post;
              && t.book == Book(s.book.sold, map[], map[], [], {}, map[])
              && t.life == s.life.(request := None, lock := false)
              && t.podium == s.podium && t.panel == s.panel && t.purse == Purse(0, 0, s.purse.log)
  {
    WipeEmpties(c, s.life.status, s.book);
  }

  /** A commitment needs the commit-reveal source, an open and unpaused raffle, and a ticket that has
      none yet. */
  lemma CommitIff(c: Config, e: Env, s: State, ticket: int, hash: int)
    ensures Commit(c, e, s, ticket, hash).Accept? <==>
              && c.source.CommitReveal? && s.life.status == Active && !s.controls.paused && !e.globalPaused
              && ticket in s.book.tickets && ticket !in s.book.commits
    ensures Commit(c, e, s, ticket, hash).Accept? ==>
              Commit(c, e, s, ticket, hash).post == s.(book := s.book.(commits := s.book.commits[ticket := hash]))
  {
  }

  /** Pausing the contract stops deposits, sales and commitments; the creator and the administrator
      can stop the sales of an open raffle, and nobody else can. */
  lemma PausesStop(d: Digests, c: Config, e: Env, s: State, caller: Address, later: Env, buyer: Address, recipient: Address,
                   quantity: u32, ticket: int, hash: int)
    ensures var t := After(d, c, e, s, SetPaused(true));
            && Deposit(c, later, t).Reject? && Buy(c, later, t, buyer, quantity).Reject?
            && BuyFor(c, later, t, buyer, recipient, quantity).Reject? && Commit(c, later, t, ticket, hash).Reject?
    ensures PauseSales(c, s, caller, true).Accept? <==> s.life.status == Active && caller in {c.creator, c.admin}
    ensures PauseSales(c, s, caller, true).Accept? ==>
              var t := PauseSales(c, s, caller, true).post;
              Buy(c, later, t, buyer, quantity).Reject? && BuyFor(c, later, t, buyer, recipient, quantity).Reject?
  {
    hide Sell, Pricing.Quote;
  }
}
