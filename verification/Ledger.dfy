/** What comes in over a run: the deposit once, and for every ticket its price. */
module Ledger {
  import opened Common
  import opened Config
  import opened Escrow
  import opened Invariants
  import opened Record
  import Pricing

  /** The tokens that purchases brought in. */
  function SalesIn(log: seq<Payment>): int
  {
    if log == [] then 0
    else
      var last := log[|log| - 1];
      SalesIn(log[..|log| - 1]) + if last.SaleIn? then last.amount else 0
  }

  /** The tokens that deposits brought in. */
  function DepositsIn(log: seq<Payment>): int
  {
    if log == [] then 0
    else
      var last := log[|log| - 1];
      DepositsIn(log[..|log| - 1]) + if last.PrizeIn? then last.amount else 0
  }

  /** `after` continues `before` without income. */
  ghost predicate NoIncome(before: seq<Payment>, after: seq<Payment>)
  {
    before <= after && forall i :: |before| <= i < |after| ==> !after[i].SaleIn? && !after[i].PrizeIn?
  }

  lemma {:induction false} NoIncomeKeeps(before: seq<Payment>, after: seq<Payment>)
    requires NoIncome(before, after)
    ensures SalesIn(after) == SalesIn(before) && DepositsIn(after) == DepositsIn(before)
    decreases |after|
  {
    if before != after {
      var n := |after| - 1;
      NoIncomeKeeps(before, after[..n]);
    }
  }

  // ---------------------------------------------------------------------------
  // One step

  /** What an accepted call brings in from a buyer. */
  function Charge(c: Config, e: Env, s: State, call: Call): int
  {
    match call
    case BuyTickets(buyer, quantity) =>
      if Buy(c, e, s, buyer, quantity).Accept? then Pricing.Cost(c, s.book.sold, quantity) else 0
    case BuyTicketsFor(buyer, recipient, quantity) =>
      if BuyFor(c, e, s, buyer, recipient, quantity).Accept? then c.ticketPrice * quantity else 0
    case _ => 0
  }

  function Deposited(c: Config, e: Env, s: State, call: Call): int
  {
    if call.DepositPrize? && Deposit(c, e, s).Accept? then c.prizeAmount else 0
  }

  /** The two totals and the ticket count after a step. */
  ghost predicate Income(s: State, t: State, charge: int, deposit: int)
  {
    SalesIn(t.purse.log) == SalesIn(s.purse.log) + charge && DepositsIn(t.purse.log) == DepositsIn(s.purse.log) + deposit
  }

  lemma OnePayment(log: seq<Payment>, p: Payment)
    ensures SalesIn(log + [p]) == SalesIn(log) + if p.SaleIn? then p.amount else 0
    ensures DepositsIn(log + [p]) == DepositsIn(log) + if p.PrizeIn? then p.amount else 0
  {
    assert (log + [p])[..|log|] == log;
  }

  lemma SaleIncome(c: Config, purse: Purse, payer: Address, quantity: nat, charge: int, fee: int)
    ensures var q := TakePayment(c, purse, payer, quantity, charge, fee);
            SalesIn(q.log) == SalesIn(purse.log) + charge && DepositsIn(q.log) == DepositsIn(purse.log)
  {
    var sale := SaleIn(payer, quantity, charge);
    OnePayment(purse.log, sale);
    OnePayment(purse.log + [sale], FeeOut(fee));
  }

  lemma SellIncome(c: Config, e: Env, s: State, payer: Address, owner: Address, quantity: nat, charge: int, fee: int, t: State)
    requires Gives(Sell(c, e, s, payer, owner, quantity, charge, fee), t)
    ensures Income(s, t, charge, 0) && t.book.sold == s.book.sold + quantity
  {
    SaleIncome(c, s.purse, payer, quantity, charge, fee);
  }

  lemma BuyIncome(c: Config, e: Env, s: State, buyer: Address, quantity: u32, t: State)
    requires Gives(Buy(c, e, s, buyer, quantity), t)
    ensures Income(s, t, Pricing.Cost(c, s.book.sold, quantity), 0) && t.book.sold == s.book.sold + quantity
  {
    var quote := Pricing.Quote(c, s.book.sold, s.controls.feeBp, quantity).value;
    SellIncome(c, e, s, buyer, buyer, quantity, quote.netToPay, quote.fee, t);
  }

  lemma GiftIncome(c: Config, e: Env, s: State, buyer: Address, recipient: Address, quantity: u32, t: State)
    requires Gives(BuyFor(c, e, s, buyer, recipient, quantity), t)
    ensures Income(s, t, c.ticketPrice * quantity, 0) && t.book.sold == s.book.sold + quantity
  {
    var price := c.ticketPrice * quantity;
    SellIncome(c, e, s, buyer, recipient, quantity, price, Pricing.FeeOn(price, s.controls.feeBp), t);
  }

  lemma SaleStepIncome(c: Config, e: Env, s: State, call: Call, t: State, v: int)
    requires Sale(call) && SaleStep(c, e, s, call) == Accept(t, v)
    ensures Income(s, t, Charge(c, e, s, call), Deposited(c, e, s, call))
  {
    match call
    case DepositPrize => OnePayment(s.purse.log, PrizeIn(c.prizeAmount));
    case BuyTickets(buyer, quantity) => BuyIncome(c, e, s, buyer, quantity, t);
    case BuyTicketsFor(buyer, recipient, quantity) => GiftIncome(c, e, s, buyer, recipient, quantity, t);
    case SubmitCommit(_, _) =>
  }

  /** Once the draw is over or given up, what is logged is not income. */
  lemma LateLogIsNoIncome(c: Config, s: State, t: State)
    requires Kept(c, s, t) && (Drawn(t.life.status) || Refunding(t.life.status))
    ensures NoIncome(s.purse.log, t.purse.log)
  {
  }

  lemma PayoutIsLate(c: Config, e: Env, s: State, call: Call, t: State, v: int)
    requires Payout(call) && PayoutStep(c, e, s, call) == Accept(t, v)
    ensures NoIncome(s.purse.log, t.purse.log) && t.book == s.book
  {
    PayoutIsKept(c, e, s, call, t, v);
    if call.SweepUnclaimed? && call.start < |s.podium.winners| {
      SweepFrame(c, s, c.treasury.value, call.start, SweepEnd(s, call.start, call.limit));
    }
    LateLogIsNoIncome(c, s, t);
  }

  lemma RefundIsLate(d: Digests, c: Config, s: State, call: Call, t: State, v: int)
    requires Refunds(call) && Inv(d, c, s) && RefundStep(c, s, call) == Accept(t, v)
    ensures NoIncome(s.purse.log, t.purse.log) && t.book.sold == s.book.sold
  {
    RefundIsKept(d, c, s, call, t, v);
    if call.BatchRefund? {
      RefundFrame(c, s, call.caller, call.ids);
    }
    LateLogIsNoIncome(c, s, t);
  }

  lemma StopHasNoIncome(c: Config, e: Env, s: State, call: Call, t: State, v: int)
    requires Stops(call) && StopStep(c, e, s, call) == Accept(t, v)
    ensures NoIncome(s.purse.log, t.purse.log) && t.book.sold == s.book.sold
  {
  }

  lemma TransferHasNoIncome(c: Config, s: State, call: Call, t: State, v: int)
    requires Transfer(call) && TransferStep(c, s, call) == Accept(t, v)
    ensures NoIncome(s.purse.log, t.purse.log) && t.book == s.book
  {
    if call.SweepDust? {
      var p := Invariants.DustPays(c, s, t);
    }
  }

  lemma DrawHasNoIncome(d: Digests, c: Config, e: Env, s: State, call: Call, t: State, v: int)
    requires Draws(call) && DrawStep(d, c, e, s, call) == Accept(t, v)
    ensures t.purse == s.purse && t.book == s.book
  {
  }

  lemma DeliveryHasNoIncome(d: Digests, c: Config, e: Env, s: State, call: Call, t: State, v: int)
    requires Delivers(call) && DeliveryStep(d, c, e, s, call) == Accept(t, v)
    ensures t.purse == s.purse && t.book == s.book
  {
  }

  /** Every other call brings in nothing and sells nothing. */
  ghost predicate Quiet(s: State, t: State)
  {
    NoIncome(s.purse.log, t.purse.log) && t.book.sold == s.book.sold
  }

  lemma OtherStepsAreQuiet(d: Digests, c: Config, e: Env, s: State, call: Call, t: State, v: int)
    requires Inv(d, c, s) && !Sale(call) && Step(d, c, e, s, call) == Accept(t, v)
    ensures Quiet(s, t)
  {
    if Draws(call) {
      DrawHasNoIncome(d, c, e, s, call, t, v);
    } else if Delivers(call) {
      DeliveryHasNoIncome(d, c, e, s, call, t, v);
    } else if Payout(call) {
      PayoutIsLate(c, e, s, call, t, v);
    } else if Refunds(call) {
      RefundIsLate(d, c, s, call, t, v);
    } else if Stops(call) {
      StopHasNoIncome(c, e, s, call, t, v);
    } else if Transfer(call) {
      TransferHasNoIncome(c, s, call, t, v);
    }
  }

  lemma StepIncome(d: Digests, c: Config, e: Env, s: State, call: Call)
    requires Inv(d, c, s)
    ensures Income(s, After(d, c, e, s, call), Charge(c, e, s, call), Deposited(c, e, s, call))
  {
    hide Inv, DrawStep, DeliveryStep, PayoutStep, RefundStep, StopStep, TransferStep;
    var o := Step(d, c, e, s, call);
    if o.Accept? {
      if Sale(call) {
        SaleStepIncome(c, e, s, call, o.post, o.value);
      } else {
        OtherStepsAreQuiet(d, c, e, s, call, o.post, o.value);
        NoIncomeKeeps(s.purse.log, o.post.purse.log);
      }
    }
  }

  // ---------------------------------------------------------------------------
  // Every run: sales

  /** The early-bird discount of `n` tickets at the list price. */
  function Discounts(c: Config, n: nat): int
  {
    if n == 0 then 0 else Discounts(c, n - 1) + Pricing.DiscountPerTicket(c, c.ticketPrice)
  }

  lemma {:induction false} DiscountsAreProduct(c: Config, n: nat)
    ensures Discounts(c, n) == Pricing.DiscountPerTicket(c, c.ticketPrice) * n
  {
    if n > 0 {
      DiscountsAreProduct(c, n - 1);
    }
  }

  lemma {:induction false} DiscountsAdd(c: Config, m: nat, n: nat)
    ensures Discounts(c, m + n) == Discounts(c, m) + Discounts(c, n)
    decreases n
  {
    if n > 0 {
      DiscountsAdd(c, m, n - 1);
    }
  }

  /** How many early-bird tickets were given away, at the list price that gifts pay. */
  function EarlyGifts(d: Digests, c: Config, run: Run): nat
    decreases |run|
  {
    if run == [] then 0
    else
      var n := |run| - 1;
      EarlyGifts(d, c, run[..n]) + EarlyGift(c, run[n].0, Reached(d, c, run[..n]), run[n].1)
  }

  function EarlyGift(c: Config, e: Env, s: State, call: Call): nat
  {
    if call.BuyTicketsFor? && BuyFor(c, e, s, call.buyer, call.recipient, call.quantity).Accept?
    then Pricing.EarlyBirds(c, s.book.sold, call.quantity)
    else 0
  }

  /** Each step brings in what its tickets cost, and the discount on early birds given away. */
  lemma StepCharges(d: Digests, c: Config, e: Env, s: State, call: Call)
    requires Inv(d, c, s) && c.bundles == []
    ensures var t := After(d, c, e, s, call);
            SalesIn(t.purse.log) - SalesIn(s.purse.log) ==
            Pricing.PaymentsUpTo(c, t.book.sold) - Pricing.PaymentsUpTo(c, s.book.sold) + Discounts(c, EarlyGift(c, e, s, call))
  {
    var o := Step(d, c, e, s, call);
    StepIncome(d, c, e, s, call);
    if o.Accept? {
      if Sale(call) {
        SaleCharges(c, e, s, call, o.post, o.value);
      } else {
        OtherStepsAreQuiet(d, c, e, s, call, o.post, o.value);
      }
    }
  }

  lemma SaleCharges(c: Config, e: Env, s: State, call: Call, t: State, v: int)
    requires Sale(call) && SaleStep(c, e, s, call) == Accept(t, v) && c.bundles == []
    ensures Charge(c, e, s, call)
         == Pricing.PaymentsUpTo(c, t.book.sold) - Pricing.PaymentsUpTo(c, s.book.sold)
              + Discounts(c, EarlyGift(c, e, s, call))
  {
    match call
    case BuyTickets(buyer, quantity) =>
      BuyIncome(c, e, s, buyer, quantity, t);
      Pricing.CostIsPayments(c, s.book.sold, quantity);
    case BuyTicketsFor(buyer, recipient, quantity) =>
      GiftIncome(c, e, s, buyer, recipient, quantity, t);
      Pricing.CostIsPayments(c, s.book.sold, quantity);
      DiscountsAreProduct(c, Pricing.EarlyBirds(c, s.book.sold, quantity));
    case _ =>
  }

  ghost predicate Accounted(c: Config, s: State, gifts: nat)
  {
    SalesIn(s.purse.log) == Pricing.PaymentsUpTo(c, s.book.sold) + Discounts(c, gifts)
  }

  /** The accounts after a step that sold `t.book.sold - s.book.sold` tickets, `more` of them
      early birds given away. */
  lemma AccountsAdvance(c: Config, s: State, t: State, gifts: nat, more: nat)
    requires Accounted(c, s, gifts) && Advances(c, s, t, more)
    ensures Accounted(c, t, gifts + more)
  {
    DiscountsAdd(c, gifts, more);
  }

  ghost predicate Advances(c: Config, s: State, t: State, more: nat)
  {
    SalesIn(t.purse.log) - SalesIn(s.purse.log) ==
    Pricing.PaymentsUpTo(c, t.book.sold) - Pricing.PaymentsUpTo(c, s.book.sold) + Discounts(c, more)
  }

  /** The last step of a run, with the early birds that it gave away. */
  lemma RunAdvances(d: Digests, c: Config, run: Run) returns (more: nat)
    requires Shape(c) && c.bundles == [] && run != []
    ensures Advances(c, Reached(d, c, run[..|run| - 1]), Reached(d, c, run), more)
    ensures EarlyGifts(d, c, run) == EarlyGifts(d, c, run[..|run| - 1]) + more
  {
    var n := |run| - 1;
    ReachedInv(d, c, run[..n]);
    StepCharges(d, c, run[n].0, Reached(d, c, run[..n]), run[n].1);
    more := EarlyGift(c, run[n].0, Reached(d, c, run[..n]), run[n].1);
  }

  lemma NothingSoldYet(d: Digests, c: Config)
    ensures Accounted(c, Reached(d, c, []), EarlyGifts(d, c, []))
  {
  }

  lemma LastCallIsAccounted(d: Digests, c: Config, init: Run, run: Run)
    requires Shape(c) && c.bundles == [] && run != [] && init == run[..|run| - 1]
    requires Accounted(c, Reached(d, c, init), EarlyGifts(d, c, init))
    ensures Accounted(c, Reached(d, c, run), EarlyGifts(d, c, run))
  {
    hide Accounted, Advances, After;
    var s, t := Reached(d, c, init), Reached(d, c, run);
    var more := RunAdvances(d, c, run);
    AccountsAdvance(c, s, t, EarlyGifts(d, c, init), more);
  }

  lemma {:induction false} RunIsAccounted(d: Digests, c: Config, run: Run)
    requires Shape(c) && c.bundles == []
    ensures Accounted(c, Reached(d, c, run), EarlyGifts(d, c, run))
    decreases |run|
  {
    hide Accounted, Reached, EarlyGifts;
    if run == [] {
      NothingSoldYet(d, c);
    } else {
      RunIsAccounted(d, c, run[..|run| - 1]);
      LastCallIsAccounted(d, c, run[..|run| - 1], run);
    }
  }

  /** Over every run without bundles the purchases brought in the price of each ticket sold, and
      on top the early-bird discount of every early bird that was given away. */
  lemma SalesAreAccounted(d: Digests, c: Config, run: Run)
    requires Shape(c) && c.bundles == []
    ensures var s := Reached(d, c, run);
            SalesIn(s.purse.log) == Pricing.PaymentsUpTo(c, s.book.sold) + Discounts(c, EarlyGifts(d, c, run))
  {
    hide After;
    RunIsAccounted(d, c, run);
  }

  ghost predicate NoGifts(run: Run)
  {
    forall i :: 0 <= i < |run| ==> !run[i].1.BuyTicketsFor?
  }

  lemma {:induction false} NoGiftsNoneEarly(d: Digests, c: Config, run: Run)
    requires NoGifts(run)
    ensures EarlyGifts(d, c, run) == 0
    decreases |run|
  {
    if run != [] {
      NoGiftsNoneEarly(d, c, run[..|run| - 1]);
    }
  }

  /** So when nothing is given away the takings are the payments of tickets 1 to `sold`. */
  lemma DirectSalesArePayments(d: Digests, c: Config, run: Run)
    requires Shape(c) && c.bundles == [] && NoGifts(run)
    ensures SalesIn(Reached(d, c, run).purse.log) == Pricing.PaymentsUpTo(c, Reached(d, c, run).book.sold)
  {
    hide After;
    SalesAreAccounted(d, c, run);
    NoGiftsNoneEarly(d, c, run);
  }

  /** The volume reported to the leaderboard falls short of the takings by one unit for each
      early bird whose discount does not come out even, and by the whole discount for each early
      bird given away, which paid the list price but is counted at the discounted one. */
  lemma VolumeFallsShort(d: Digests, c: Config, run: Run)
    requires Shape(c) && c.bundles == []
    ensures var s := Reached(d, c, run);
            SalesIn(s.purse.log) - Pricing.LeaderboardVolume(c, s.book.sold) ==
            UnevenEarlyBirds(c, s.book.sold) + Discounts(c, EarlyGifts(d, c, run))
  {
    hide After;
    SalesAreAccounted(d, c, run);
    PaymentsExceedVolume(c, Reached(d, c, run).book.sold);
  }

  function UnevenEarlyBirds(c: Config, sold: nat): nat
  {
    if (c.ticketPrice * c.earlyBirdDiscountBp) % BASIS_POINTS == 0 then 0 else Min(sold, Pricing.EarlyBirdCap(c))
  }

  lemma PaymentsExceedVolume(c: Config, sold: nat)
    requires c.bundles == []
    ensures Pricing.PaymentsUpTo(c, sold) == Pricing.LeaderboardVolume(c, sold) + UnevenEarlyBirds(c, sold)
  {
    Pricing.CostIsPayments(c, 0, sold);
    Pricing.VolumeGap(c, sold);
  }

  // ---------------------------------------------------------------------------
  // Every run: the deposit

  lemma PendingRejects(d: Digests, c: Config, e: Env, s: State, call: Call, t: State, v: int)
    requires Inv(d, c, s) && s.life.status == PendingPrize && !Sale(call) && Step(d, c, e, s, call) == Accept(t, v)
    ensures t.life.status == PendingPrize
  {
    if Draws(call) {
      PendingDraws(d, c, e, s, call);
    } else if Delivers(call) {
      PendingDeliveries(d, c, e, s, call);
    } else if Payout(call) || Refunds(call) {
      PendingPays(c, e, s, call);
    } else if Stops(call) {
      PendingStops(c, e, s, call, t, v);
    } else if Transfer(call) {
      TransferIsNeutral(c, s, call, t, v);
    }
  }

  lemma PendingDraws(d: Digests, c: Config, e: Env, s: State, call: Call)
    requires s.life.status == PendingPrize && Draws(call)
    ensures DrawStep(d, c, e, s, call).Reject?
  {
  }

  lemma PendingDeliveries(d: Digests, c: Config, e: Env, s: State, call: Call)
    requires Inv(d, c, s) && s.life.status == PendingPrize && Delivers(call)
    ensures DeliveryStep(d, c, e, s, call).Reject?
  {
    assert !s.life.lock;
  }

  lemma PendingPays(c: Config, e: Env, s: State, call: Call)
    requires s.life.status == PendingPrize && (Payout(call) || Refunds(call))
    ensures Payout(call) ==> PayoutStep(c, e, s, call).Reject?
    ensures Refunds(call) ==> RefundStep(c, s, call).Reject?
  {
  }

  lemma PendingStops(c: Config, e: Env, s: State, call: Call, t: State, v: int)
    requires s.life.status == PendingPrize && Stops(call) && StopStep(c, e, s, call) == Accept(t, v)
    ensures t.life == s.life
  {
  }

  lemma SaleMovesOn(c: Config, e: Env, s: State, call: Call, t: State, v: int)
    requires Sale(call) && SaleStep(c, e, s, call) == Accept(t, v)
    ensures if call.DepositPrize? then s.life.status == PendingPrize && t.life.status == Active
            else s.life.status == Active && t.life.status != PendingPrize
  {
  }

  /** What a step brings in as deposit depends only on whether it leaves PendingPrize. */
  lemma StepDeposits(d: Digests, c: Config, e: Env, s: State, call: Call)
    requires Shape(c) && Inv(d, c, s)
    ensures var t := After(d, c, e, s, call);
            && (t.life.status == PendingPrize ==> s.life.status == PendingPrize)
            && Deposited(c, e, s, call)
                 == if s.life.status == PendingPrize && t.life.status != PendingPrize then c.prizeAmount else 0
  {
    var o := Step(d, c, e, s, call);
    StepIsKept(d, c, e, s, call);
    if o.Accept? && Sale(call) {
      SaleMovesOn(c, e, s, call, o.post, o.value);
    } else if o.Accept? && s.life.status == PendingPrize {
      PendingRejects(d, c, e, s, call, o.post, o.value);
    }
  }

  /** The prize is deposited exactly once, by the call that opens the sale. */
  lemma {:induction false} DepositedOnce(d: Digests, c: Config, run: Run)
    requires Shape(c)
    ensures var s := Reached(d, c, run);
            DepositsIn(s.purse.log) == if s.life.status == PendingPrize then 0 else c.prizeAmount
    decreases |run|
  {
    hide After;
    if run != [] {
      var n := |run| - 1;
      var s := Reached(d, c, run[..n]);
      DepositedOnce(d, c, run[..n]);
      ReachedInv(d, c, run[..n]);
      StepIncome(d, c, run[n].0, s, run[n].1);
      StepDeposits(d, c, run[n].0, s, run[n].1);
    }
  }
}
