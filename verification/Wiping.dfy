/** Exactly which settled raffles can ever be wiped. The entitlement still counts a settled
    raffle's whole prize, so only what exceeds it can be rescued or swept; below it nothing but
    recorded fees can leave. */
module Wiping {
  import opened Common
  import opened Config
  import opened Escrow
  import opened Invariants
  import opened Solvency
  import Claims
  import Liveness
  import Pricing
  import TierPrizes

  // ---------------------------------------------------------------------------
  // Recorded fees are never negative

  lemma SaleFees(c: Config, e: Env, s: State, call: Call, t: State, v: int)
    requires Sale(call) && SaleStep(c, e, s, call) == Accept(t, v)
    ensures t.purse.fees >= s.purse.fees
  {
  }

  lemma CeilFeeIsNatural(amount: int, feeBp: u32)
    requires amount >= 0
    ensures CeilFee(amount, feeBp) >= 0
  {
    ProductIsMonotone(amount, 0, feeBp);
  }

  lemma ClaimFees(c: Config, e: Env, s: State, winner: Address, tier: u32, t: State, v: int)
    requires Claim(c, e, s, winner, tier) == Accept(t, v)
    ensures t.purse.fees >= s.purse.fees
  {
    CeilFeeIsNatural(v, s.controls.feeBp);
  }

  lemma PayoutFees(c: Config, e: Env, s: State, call: Call, t: State, v: int)
    requires Payout(call) && PayoutStep(c, e, s, call) == Accept(t, v)
    ensures t.purse.fees >= s.purse.fees
  {
    match call
    case ClaimPrize(winner, tier) => ClaimFees(c, e, s, winner, tier, t, v);
    case SweepUnclaimed(start, limit) =>
      if start < |s.podium.winners| {
        SweepFrame(c, s, c.treasury.value, start, SweepEnd(s, start, limit));
      }
  }

  lemma RefundFees(c: Config, s: State, call: Call, t: State, v: int)
    requires Refunds(call) && RefundStep(c, s, call) == Accept(t, v)
    ensures t.purse.fees == s.purse.fees
  {
    if call.BatchRefund? {
      RefundFrame(c, s, call.caller, call.ids);
    }
  }

  lemma DrawFees(d: Digests, c: Config, e: Env, s: State, call: Call, t: State, v: int)
    requires Draws(call) && DrawStep(d, c, e, s, call) == Accept(t, v)
    ensures t.purse == s.purse
  {
  }

  lemma DeliveryFees(d: Digests, c: Config, e: Env, s: State, call: Call, t: State, v: int)
    requires Delivers(call) && DeliveryStep(d, c, e, s, call) == Accept(t, v)
    ensures t.purse == s.purse
  {
  }

  lemma StopFees(c: Config, e: Env, s: State, call: Call, t: State, v: int)
    requires Stops(call) && StopStep(c, e, s, call) == Accept(t, v)
    ensures t.purse.fees == s.purse.fees || t.purse.fees == 0
  {
  }

  lemma TransferFees(c: Config, s: State, call: Call, t: State, v: int)
    requires Transfer(call) && TransferStep(c, s, call) == Accept(t, v) && s.purse.fees >= 0
    ensures t.purse.fees >= 0
  {
  }

  lemma StepFees(d: Digests, c: Config, e: Env, s: State, call: Call)
    requires s.purse.fees >= 0
    ensures After(d, c, e, s, call).purse.fees >= 0
  {
    hide SaleStep, DrawStep, DeliveryStep, PayoutStep, RefundStep, StopStep, TransferStep;
    var o := Step(d, c, e, s, call);
    if o.Accept? {
      if Sale(call) {
        SaleFees(c, e, s, call, o.post, o.value);
      } else if Draws(call) {
        DrawFees(d, c, e, s, call, o.post, o.value);
      } else if Delivers(call) {
        DeliveryFees(d, c, e, s, call, o.post, o.value);
      } else if Payout(call) {
        PayoutFees(c, e, s, call, o.post, o.value);
      } else if Refunds(call) {
        RefundFees(c, s, call, o.post, o.value);
      } else if Stops(call) {
        StopFees(c, e, s, call, o.post, o.value);
      } else if Transfer(call) {
        TransferFees(c, s, call, o.post, o.value);
      }
    }
  }

  lemma {:induction false} FeesAreNatural(d: Digests, c: Config, run: Run)
    ensures Reached(d, c, run).purse.fees >= 0
    decreases |run|
  {
    hide After;
    if run != [] {
      var n := |run| - 1;
      FeesAreNatural(d, c, run[..n]);
      StepFees(d, c, run[n].0, Reached(d, c, run[..n]), run[n].1);
    }
  }

  // ---------------------------------------------------------------------------
  // The balance is never negative

  lemma SaleBalance(c: Config, purse: Purse, payer: Address, quantity: nat, charge: int, feeBp: u32)
    requires charge >= 0 && purse.balance >= 0 && feeBp <= BASIS_POINTS
    ensures TakePayment(c, purse, payer, quantity, charge, Pricing.FeeOn(charge, feeBp)).balance >= 0
  {
    ProductIsMonotone(charge, feeBp, BASIS_POINTS);
  }

  lemma BuyBalance(c: Config, e: Env, s: State, buyer: Address, quantity: u32, t: State)
    requires Valid(c) && s.purse.balance >= 0 && s.controls.feeBp <= BASIS_POINTS
    requires Gives(Buy(c, e, s, buyer, quantity), t)
    ensures t.purse.balance >= 0 && t.controls == s.controls
  {
    var unit := Pricing.UnitPrice(c.ticketPrice, c.bundles, quantity);
    Pricing.UnitIsPositive(c.ticketPrice, c.bundles, quantity);
    Pricing.CostBounds(c, unit, s.book.sold, quantity);
    SaleBalance(c, s.purse, buyer, quantity, Pricing.Cost(c, s.book.sold, quantity), s.controls.feeBp);
  }

  lemma BuyForBalance(c: Config, e: Env, s: State, buyer: Address, recipient: Address, quantity: u32, t: State)
    requires Valid(c) && s.purse.balance >= 0 && s.controls.feeBp <= BASIS_POINTS
    requires Gives(BuyFor(c, e, s, buyer, recipient, quantity), t)
    ensures t.purse.balance >= 0 && t.controls == s.controls
  {
    ProductIsMonotone(c.ticketPrice, 0, quantity);
    SaleBalance(c, s.purse, buyer, quantity, c.ticketPrice * quantity, s.controls.feeBp);
  }

  lemma SalesBalance(c: Config, e: Env, s: State, call: Call, t: State, v: int)
    requires Valid(c) && s.purse.balance >= 0 && s.controls.feeBp <= BASIS_POINTS
    requires Sale(call) && SaleStep(c, e, s, call) == Accept(t, v)
    ensures t.purse.balance >= 0 && t.controls == s.controls
  {
    match call
    case BuyTickets(buyer, quantity) => BuyBalance(c, e, s, buyer, quantity, t);
    case BuyTicketsFor(buyer, recipient, quantity) => BuyForBalance(c, e, s, buyer, recipient, quantity, t);
    case _ =>
  }

  lemma {:induction false} SweepBalance(c: Config, s: State, treasury: Address, i: nat, end: nat)
    requires end <= |s.podium.winners| && end <= |c.prizes| && s.purse.balance >= 0
    requires SweepTiers(c, s, treasury, i, end).Accept?
    ensures SweepTiers(c, s, treasury, i, end).post.purse.balance >= 0
    decreases end - i
  {
    if i < end {
      var amount := TierPrizes.TierPrize(c.prizeAmount, c.prizes, i);
      if s.podium.winners[i].claimed || amount <= 0 {
        SweepBalance(c, s, treasury, i + 1, end);
      } else {
        SweepBalance(c, s.(podium := s.podium.(winners := MarkClaimed(s.podium.winners, i)),
                           purse := Pay(s.purse, PrizeOut(i, treasury, amount, amount))), treasury, i + 1, end);
      }
    }
  }

  lemma PayoutBalance(c: Config, e: Env, s: State, call: Call, t: State, v: int)
    requires s.purse.balance >= 0 && Payout(call) && PayoutStep(c, e, s, call) == Accept(t, v)
    ensures t.purse.balance >= 0 && t.controls == s.controls
  {
    match call
    case ClaimPrize(_, _) =>
      CeilFeeIsNatural(v, s.controls.feeBp);
    case SweepUnclaimed(start, limit) =>
      if start < |s.podium.winners| {
        SweepFrame(c, s, c.treasury.value, start, SweepEnd(s, start, limit));
        SweepBalance(c, s, c.treasury.value, start, SweepEnd(s, start, limit));
      }
  }

  lemma {:induction false} BatchBalance(c: Config, s: State, caller: Address, ids: seq<int>)
    requires s.purse.balance >= 0 && RefundAll(c, s, caller, ids).Accept?
    ensures RefundAll(c, s, caller, ids).post.purse.balance >= 0
    decreases |ids|
  {
    if ids != [] {
      var payer := s.book.tickets[ids[0]].payer;
      BatchBalance(c, if ids[0] in s.book.refunded then s else PayRefund(s, ids[0], payer, c.ticketPrice), caller, ids[1..]);
    }
  }

  lemma RefundBalance(c: Config, s: State, call: Call, t: State, v: int)
    requires s.purse.balance >= 0 && Refunds(call) && RefundStep(c, s, call) == Accept(t, v)
    ensures t.purse.balance >= 0 && t.controls == s.controls
  {
    if call.BatchRefund? {
      RefundFrame(c, s, call.caller, call.ids);
      BatchBalance(c, s, call.caller, call.ids);
    }
  }

  lemma EntitlementIsNatural(c: Config, s: State)
    requires Valid(c) && s.purse.fees >= 0
    ensures Entitlement(c, s) >= 0
  {
    OwedIsNonNegative(c, s.book.tickets, s.book.refunded, s.book.sold);
    UnclaimedIsNonNegative(c, s.podium.winners, Min(|s.podium.winners|, |c.prizes|));
  }

  lemma StopBalance(c: Config, e: Env, s: State, call: Call, t: State, v: int)
    requires s.purse.balance >= 0 && Stops(call) && StopStep(c, e, s, call) == Accept(t, v)
    ensures t.purse.balance >= 0 && t.controls.feeBp == s.controls.feeBp
  {
  }

  lemma TransferBalance(c: Config, s: State, call: Call, t: State, v: int)
    requires Valid(c) && s.purse.balance >= 0 && s.purse.fees >= 0 && Transfer(call) && TransferStep(c, s, call) == Accept(t, v)
    ensures t.purse.balance >= 0 && t.controls == s.controls
  {
    EntitlementIsNatural(c, s);
  }

  lemma DrawKeepsControls(d: Digests, c: Config, e: Env, s: State, call: Call, t: State, v: int)
    requires (Draws(call) && DrawStep(d, c, e, s, call) == Accept(t, v))
          || (Delivers(call) && DeliveryStep(d, c, e, s, call) == Accept(t, v))
    ensures t.purse == s.purse && t.controls == s.controls
  {
  }

  lemma StepBalance(d: Digests, c: Config, e: Env, s: State, call: Call)
    requires Valid(c) && s.purse.balance >= 0 && s.purse.fees >= 0 && s.controls.feeBp <= BASIS_POINTS
    ensures After(d, c, e, s, call).purse.balance >= 0
    ensures After(d, c, e, s, call).controls.feeBp <= BASIS_POINTS
  {
    hide SaleStep, DrawStep, DeliveryStep, PayoutStep, RefundStep, StopStep, TransferStep;
    var o := Step(d, c, e, s, call);
    if o.Accept? {
      if Sale(call) {
        SalesBalance(c, e, s, call, o.post, o.value);
      } else if Draws(call) || Delivers(call) {
        DrawKeepsControls(d, c, e, s, call, o.post, o.value);
      } else if Payout(call) {
        PayoutBalance(c, e, s, call, o.post, o.value);
      } else if Refunds(call) {
        RefundBalance(c, s, call, o.post, o.value);
      } else if Stops(call) {
        StopBalance(c, e, s, call, o.post, o.value);
      } else if Transfer(call) {
        TransferBalance(c, s, call, o.post, o.value);
      }
    }
  }

  /** No call ever pays out more than the contract holds, whatever fees are charged. */
  lemma {:induction false} BalanceIsNatural(d: Digests, c: Config, run: Run)
    requires Valid(c)
    ensures Reached(d, c, run).purse.balance >= 0 && Reached(d, c, run).controls.feeBp <= BASIS_POINTS
    decreases |run|
  {
    hide After;
    if run != [] {
      var n := |run| - 1;
      BalanceIsNatural(d, c, run[..n]);
      FeesAreNatural(d, c, run[..n]);
      StepBalance(d, c, run[n].0, Reached(d, c, run[..n]), run[n].1);
    }
  }

  // ---------------------------------------------------------------------------
  // Stranded balances

  lemma ClaimedEntitlement(d: Digests, c: Config, s: State)
    requires Inv(d, c, s) && s.life.status == Claimed
    ensures Entitlement(c, s) == c.prizeAmount
  {
  }

  lemma ClaimedRejectsPayouts(c: Config, e: Env, s: State, call: Call)
    requires s.life.status == Claimed && s.purse.balance > 0
    ensures Payout(call) ==> PayoutStep(c, e, s, call).Reject?
    ensures Refunds(call) ==> RefundStep(c, s, call).Reject?
    ensures Stops(call) ==> StopStep(c, e, s, call).Reject? || call == CancelRaffle(true)
  {
  }

  lemma ClaimedRejectsSales(d: Digests, c: Config, e: Env, s: State, call: Call)
    requires Inv(d, c, s) && s.life.status == Claimed
    ensures Sale(call) ==> SaleStep(c, e, s, call).Reject?
    ensures Draws(call) ==> DrawStep(d, c, e, s, call).Reject?
    ensures Delivers(call) ==> DeliveryStep(d, c, e, s, call).Reject?
  {
    hide PrizePhase, Records, BuyersListed, CountsOwned, QuorumPhase, DrawRecord, Histories, FinalizeWithSeed;
  }

  /** A settled raffle that holds more than its recorded fees below the prize amount. */
  ghost predicate Stranded(c: Config, s: State)
  {
    s.life.status == Claimed && Min(s.purse.balance, c.prizeAmount) > s.purse.fees >= 0
  }

  lemma StrandedRescue(c: Config, s: State, to: Address, amount: int, t: State)
    requires Stranded(c, s) && Entitlement(c, s) == c.prizeAmount && Gives(Rescue(c, s, to, amount), t)
    ensures Stranded(c, t)
  {
  }

  lemma StrandedDust(c: Config, s: State, t: State)
    requires Stranded(c, s) && Entitlement(c, s) == c.prizeAmount && Gives(Dust(c, s), t)
    ensures Stranded(c, t)
  {
  }

  lemma StrandedTransfer(d: Digests, c: Config, s: State, call: Call, t: State, v: int)
    requires Inv(d, c, s) && Stranded(c, s) && Transfer(call) && TransferStep(c, s, call) == Accept(t, v)
    ensures Stranded(c, t)
  {
    ClaimedEntitlement(d, c, s);
    match call
    case RescueTokens(to, amount) => StrandedRescue(c, s, to, amount, t);
    case SweepDust => StrandedDust(c, s, t);
    case _ =>
  }

  lemma StrandedStep(d: Digests, c: Config, e: Env, s: State, call: Call)
    requires Valid(c) && Inv(d, c, s) && Stranded(c, s)
    ensures Stranded(c, After(d, c, e, s, call))
  {
    hide Inv, Valid, SaleStep, DrawStep, DeliveryStep, PayoutStep, RefundStep, TransferStep;
    ClaimedRejectsPayouts(c, e, s, call);
    ClaimedRejectsSales(d, c, e, s, call);
    var o := Step(d, c, e, s, call);
    if o.Accept? && Transfer(call) {
      StrandedTransfer(d, c, s, call, o.post, o.value);
    }
  }

  lemma {:induction false} StrandedStays(d: Digests, c: Config, s: State, run: Run)
    requires Valid(c) && Inv(d, c, s) && Stranded(c, s)
    ensures Stranded(c, Execute(d, c, s, run)) && Inv(d, c, Execute(d, c, s, run))
    decreases |run|
  {
    hide After, Inv, Valid, Stranded;
    ValidShape(c);
    if run != [] {
      var n := |run| - 1;
      StrandedStays(d, c, s, run[..n]);
      var t := Execute(d, c, s, run[..n]);
      StrandedStep(d, c, run[n].0, t, run[n].1);
      StepKeeps(d, c, run[n].0, t, run[n].1);
    }
  }

  // ---------------------------------------------------------------------------
  // Emptying the others

  lemma TransferIsStep(d: Digests, c: Config, e: Env, s: State, call: Call)
    requires Transfer(call)
    ensures Step(d, c, e, s, call) == TransferStep(c, s, call)
  {
  }

  /** Rescue the surplus over the prize. */
  lemma DownToPrize(d: Digests, c: Config, s: State) returns (run: Run)
    requires Valid(c) && Inv(d, c, s) && s.life.status == Claimed
    ensures var t := Execute(d, c, s, run);
            && t.life == s.life && t.purse.fees == s.purse.fees
            && t.purse.balance == Min(s.purse.balance, c.prizeAmount)
  {
    if s.purse.balance <= c.prizeAmount {
      run := [];
    } else {
      var call := RescueTokens(0, s.purse.balance - c.prizeAmount);
      ClaimedEntitlement(d, c, s);
      TransferIsStep(d, c, Plain(0), s, call);
      Liveness.OneCall(d, c, s, Plain(0), call);
      run := [(Plain(0), call)];
    }
  }

  lemma DownToNothing(d: Digests, c: Config, s: State) returns (run: Run)
    requires s.life.status == Claimed && 0 <= s.purse.balance <= s.purse.fees
    ensures Execute(d, c, s, run).life == s.life && Execute(d, c, s, run).purse.balance == 0
  {
    if s.purse.balance == 0 {
      run := [];
    } else {
      var call := WithdrawFees(0, s.purse.balance);
      TransferIsStep(d, c, Plain(0), s, call);
      Liveness.OneCall(d, c, s, Plain(0), call);
      run := [(Plain(0), call)];
    }
  }

  /** Some run lets a settled raffle be wiped exactly when its recorded fees cover whatever it
      holds up to the prize amount. */
  lemma WipeableIff(d: Digests, c: Config, s: State)
    requires Valid(c) && Inv(d, c, s) && s.life.status == Claimed && s.purse.fees >= 0 && s.purse.balance >= 0
    ensures Min(s.purse.balance, c.prizeAmount) <= s.purse.fees
       <==> exists run: Run :: Wipe(c, Execute(d, c, s, run)).Accept?
  {
    if Min(s.purse.balance, c.prizeAmount) <= s.purse.fees {
      var first := DownToPrize(d, c, s);
      var t := Execute(d, c, s, first);
      var second := DownToNothing(d, c, t);
      Claims.RunsConcatenate(d, c, s, first, second);
      assert Wipe(c, Execute(d, c, s, first + second)).Accept?;
    } else {
      forall run: Run
        ensures Wipe(c, Execute(d, c, s, run)).Reject?
      {
        StrandedStays(d, c, s, run);
      }
    }
  }

  /** In particular after every run. */
  lemma ReachedWipeableIff(d: Digests, c: Config, run: Run)
    requires Valid(c) && Reached(d, c, run).life.status == Claimed
    ensures var s := Reached(d, c, run);
            (exists more: Run :: Wipe(c, Execute(d, c, s, more)).Accept?) <==> Min(s.purse.balance, c.prizeAmount) <= s.purse.fees
  {
    hide After;
    ReachedInv(d, c, run);
    FeesAreNatural(d, c, run);
    BalanceIsNatural(d, c, run);
    WipeableIff(d, c, Reached(d, c, run));
  }
}
