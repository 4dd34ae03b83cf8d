/** What a step may never change: the status graph, the draw record, ticket records, and the
    payments already made; and whom every new payment may go to. */
module Record {
  import opened Common
  import opened Config
  import opened Escrow
  import opened Invariants
  import opened QuorumSeeds
  import Pricing
  import TierPrizes

  // ---------------------------------------------------------------------------
  // One step

  /** The status graph, with the internal draw that passes through Drawing within one call. */
  predicate Moves(from: Status, to: Status)
  {
    from == to || CanTransition(from, to) || (from == Active && to == Finalized)
  }

  /** Once drawn, the record and the winners stay; only claim flags are set. */
  ghost predicate PodiumKept(before: Status, p: Podium, q: Podium)
  {
    Drawn(before) ==>
      && q.fairness == p.fairness && q.finalizedAt == p.finalizedAt && |q.winners| == |p.winners|
      && forall i :: 0 <= i < |p.winners| ==>
           q.winners[i].address == p.winners[i].address && (p.winners[i].claimed ==> q.winners[i].claimed)
  }

  ghost predicate Open(status: Status)
  {
    status == PendingPrize || status == Active
  }

  ghost predicate Erased(status: Status, b: Book)
  {
    !Open(status) && b.tickets == map[] && b.commits == map[]
  }

  /** Ticket records and commitments are only added, and only before the draw; a wipe removes
      all of them. */
  ghost predicate BookKept(before: Status, after: Status, b: Book, a: Book)
  {
    && b.sold <= a.sold
    && (Erased(after, a) || forall id :: id in b.tickets ==> id in a.tickets && a.tickets[id] == b.tickets[id])
    && (Erased(after, a) || forall id :: id in b.commits ==> id in a.commits && a.commits[id] == b.commits[id])
    && (!Open(before) ==>
          a.sold == b.sold && (Erased(after, a) || (a.tickets == b.tickets && a.commits == b.commits)))
  }

  /** A prize, worth the tier's full and positive value, goes to the winner of the tier less the
      protocol fee rounded up, or swept to the treasury in full; a ticket refund goes to the
      owner or the payer of the ticket, at the list price; the deposit goes back whole; and
      recorded fees are withdrawn only after a draw. */
  ghost predicate Justified(c: Config, status: Status, feeBp: u32, winners: seq<Winner>, tickets: map<int, Ticket>, p: Payment)
  {
    match p
    case PrizeOut(tier, to, gross, amount) =>
      && Drawn(status) && tier < |winners| && tier < |c.prizes|
      && gross == TierPrizes.TierPrize(c.prizeAmount, c.prizes, tier) > 0
      && ((to == winners[tier].address && amount == gross - CeilFee(gross, feeBp)) || (c.treasury == Some(to) && amount == gross))
    case TicketRefundOut(id, to, amount) =>
      && Refunding(status) && amount == c.ticketPrice
      && (id in tickets ==> to == tickets[id].owner || to == tickets[id].payer)
    case PrizeRefundOut(amount) => Refunding(status) && amount == c.prizeAmount
    case FeeWithdrawal(_, amount) => Drawn(status) && amount > 0
    case _ => true
  }

  /** Tokens come in from sales and the deposit only before the draw. */
  predicate Timely(status: Status, p: Payment)
  {
    p.SaleIn? || p.PrizeIn? ==> status == Active || status == Drawing
  }

  /** Payments are only added, and the added ones are justified and in time. */
  ghost predicate LogKept(c: Config, before: seq<Payment>, status: Status, feeBp: u32, winners: seq<Winner>,
                          tickets: map<int, Ticket>, after: seq<Payment>)
  {
    && before <= after
    && forall i :: |before| <= i < |after| ==>
         Justified(c, status, feeBp, winners, tickets, after[i]) && Timely(status, after[i])
  }

  ghost predicate Kept(c: Config, s: State, t: State)
  {
    && Moves(s.life.status, t.life.status)
    && PodiumKept(s.life.status, s.podium, t.podium)
    && BookKept(s.life.status, t.life.status, s.book, t.book)
    && (s.book.sold > 0 ==> t.controls.feeBp == s.controls.feeBp)
    && LogKept(c, s.purse.log, t.life.status, t.controls.feeBp, t.podium.winners, t.book.tickets, t.purse.log)
  }

  lemma SellIsKept(c: Config, e: Env, s: State, payer: Address, owner: Address, quantity: nat, charge: int, fee: int,
                   t: State, v: int)
    requires s.life.status == Active && Records(c, s.life.status, s.book)
    requires Sell(c, e, s, payer, owner, quantity, charge, fee) == Accept(t, v)
    ensures Kept(c, s, t)
  {
    assert forall id: int :: id in s.book.tickets ==> id <= s.book.sold;
    SaleIsLogged(c, s.purse, payer, quantity, charge, fee);
  }

  lemma SaleIsLogged(c: Config, purse: Purse, payer: Address, quantity: nat, charge: int, fee: int)
    ensures var q := TakePayment(c, purse, payer, quantity, charge, fee);
            && purse.log <= q.log
            && forall i :: |purse.log| <= i < |q.log| ==> q.log[i].SaleIn? || q.log[i].FeeOut?
  {
  }

  lemma SaleIsKept(c: Config, e: Env, s: State, call: Call, t: State, v: int)
    requires Sale(call) && Records(c, s.life.status, s.book) && SaleStep(c, e, s, call) == Accept(t, v)
    ensures Kept(c, s, t)
  {
    match call
    case BuyTickets(buyer, quantity) =>
      var quote := Pricing.Quote(c, s.book.sold, s.controls.feeBp, quantity).value;
      SellIsKept(c, e, s, buyer, buyer, quantity, quote.netToPay, quote.fee, t, v);
    case BuyTicketsFor(buyer, recipient, quantity) =>
      var price := c.ticketPrice * quantity;
      SellIsKept(c, e, s, buyer, recipient, quantity, price, Pricing.FeeOn(price, s.controls.feeBp), t, v);
    case _ =>
  }

  lemma FinalizeIsKept(d: Digests, c: Config, e: Env, s: State, t: State)
    requires Gives(Finalize(d, c, e, s), t)
    ensures Kept(c, s, t)
  {
  }

  lemma SettleIsKept(c: Config, e: Env, s: State, seed: u64, contributions: Option<seq<Delivery>>, t: State)
    requires Gives(FinalizeWithSeed(c, e, s, seed, contributions), t)
    ensures Kept(c, s, t)
  {
  }

  lemma OracleIsKept(c: Config, e: Env, s: State, seed: u64, proofSeed: u64, signatureOk: bool, requestId: u64, t: State)
    requires Gives(OracleDelivery(c, e, s, seed, proofSeed, signatureOk, requestId), t)
    ensures Kept(c, s, t)
  {
    SettleIsKept(c, e, s, seed, None, t);
  }

  lemma QuorumIsKept(d: Digests, c: Config, e: Env, s: State, oracle: Address, seed: u64, requestId: u64, t: State)
    requires Gives(QuorumDelivery(d, c, e, s, oracle, seed, requestId), t)
    ensures Kept(c, s, t)
  {
    var u := s.(panel := Panel(s.panel.submitted + [oracle], s.panel.seeds[oracle := seed]));
    if |u.panel.submitted| >= c.source.k {
      var ds := Deliveries(u.panel.submitted, u.panel.seeds);
      SettleIsKept(c, e, u, Aggregate(d.seeds, ds), Some(ds), t);
    }
  }

  lemma DeliveryIsKept(d: Digests, c: Config, e: Env, s: State, call: Call, t: State, v: int)
    requires Delivers(call) && DeliveryStep(d, c, e, s, call) == Accept(t, v)
    ensures Kept(c, s, t)
  {
    match call
    case ProvideRandomness(seed, proofSeed, ok, id) => OracleIsKept(c, e, s, seed, proofSeed, ok, id, t);
    case ProvideQuorumRandomness(oracle, seed, id) => QuorumIsKept(d, c, e, s, oracle, seed, id, t);
  }

  lemma ClaimIsKept(c: Config, e: Env, s: State, winner: Address, tier: u32, t: State, v: int)
    requires Claim(c, e, s, winner, tier) == Accept(t, v)
    ensures Kept(c, s, t)
  {
  }

  lemma {:induction false} SweepIsJustified(c: Config, s: State, treasury: Address, i: nat, end: nat)
    requires end <= |s.podium.winners| && end <= |c.prizes| && c.treasury == Some(treasury)
    requires SweepTiers(c, s, treasury, i, end).Accept?
    ensures var t := SweepTiers(c, s, treasury, i, end).post;
            LogKept(c, s.purse.log, Finalized, t.controls.feeBp, t.podium.winners, t.book.tickets, t.purse.log)
    decreases end - i
  {
    if i < end {
      var amount := TierPrizes.TierPrize(c.prizeAmount, c.prizes, i);
      if s.podium.winners[i].claimed || amount <= 0 {
        SweepIsJustified(c, s, treasury, i + 1, end);
      } else {
        var u := s.(podium := s.podium.(winners := MarkClaimed(s.podium.winners, i)),
                    purse := Pay(s.purse, PrizeOut(i, treasury, amount, amount)));
        SweepIsJustified(c, u, treasury, i + 1, end);
        SweepFrame(c, u, treasury, i + 1, end);
        assert u.purse.log[|s.purse.log|] == PrizeOut(i, treasury, amount, amount);
      }
    }
  }

  lemma SweepIsKept(c: Config, e: Env, s: State, start: u32, limit: u32, t: State, v: int)
    requires Sweep(c, e, s, start, limit) == Accept(t, v)
    ensures Kept(c, s, t)
  {
    if start < |s.podium.winners| {
      SweepIsJustified(c, s, c.treasury.value, start, SweepEnd(s, start, limit));
      SweepFrame(c, s, c.treasury.value, start, SweepEnd(s, start, limit));
    }
  }

  lemma {:induction false} BatchIsJustified(c: Config, s: State, caller: Address, ids: seq<int>)
    requires Refunding(s.life.status) && RefundAll(c, s, caller, ids).Accept?
    ensures var t := RefundAll(c, s, caller, ids).post;
            LogKept(c, s.purse.log, t.life.status, t.controls.feeBp, t.podium.winners, t.book.tickets, t.purse.log)
    decreases |ids|
  {
    if ids != [] {
      var k := s.book.tickets[ids[0]];
      if ids[0] in s.book.refunded {
        BatchIsJustified(c, s, caller, ids[1..]);
      } else {
        var u := PayRefund(s, ids[0], k.payer, c.ticketPrice);
        BatchIsJustified(c, u, caller, ids[1..]);
        RefundFrame(c, u, caller, ids[1..]);
        assert u.purse.log[|s.purse.log|] == TicketRefundOut(ids[0], k.payer, c.ticketPrice);
      }
    }
  }

  /** A batch refunds each ticket it pays for to the address that paid, whoever owns it. */
  lemma {:induction false} BatchPaysPayers(c: Config, s: State, caller: Address, ids: seq<int>)
    requires RefundAll(c, s, caller, ids).Accept?
    ensures var t := RefundAll(c, s, caller, ids).post;
            && s.purse.log <= t.purse.log
            && forall i :: |s.purse.log| <= i < |t.purse.log| ==>
                 && t.purse.log[i].TicketRefundOut? && t.purse.log[i].id in ids && t.purse.log[i].id in s.book.tickets
                 && t.purse.log[i].to == s.book.tickets[t.purse.log[i].id].payer
    decreases |ids|
  {
    if ids != [] {
      var k := s.book.tickets[ids[0]];
      if ids[0] in s.book.refunded {
        BatchPaysPayers(c, s, caller, ids[1..]);
      } else {
        var u := PayRefund(s, ids[0], k.payer, c.ticketPrice);
        BatchPaysPayers(c, u, caller, ids[1..]);
        assert u.purse.log[|s.purse.log|] == TicketRefundOut(ids[0], k.payer, c.ticketPrice);
      }
    }
  }

  lemma RefundIsKept(d: Digests, c: Config, s: State, call: Call, t: State, v: int)
    requires Refunds(call) && Inv(d, c, s) && RefundStep(c, s, call) == Accept(t, v)
    ensures Kept(c, s, t)
  {
    if call.BatchRefund? {
      BatchIsJustified(c, s, call.caller, call.ids);
      RefundFrame(c, s, call.caller, call.ids);
    }
  }

  lemma StopIsKept(d: Digests, c: Config, e: Env, s: State, call: Call, t: State, v: int)
    requires Stops(call) && Inv(d, c, s) && StopStep(c, e, s, call) == Accept(t, v)
    ensures Kept(c, s, t)
  {
    match call
    case EmergencyWithdraw(caller) => EmergencyMoves(c, e, s, caller, t);
    case WipeStorage => WipeEmpties(c, s.life.status, s.book);
    case _ =>
  }

  lemma TransferIsKept(c: Config, s: State, call: Call, t: State, v: int)
    requires Transfer(call) && TransferStep(c, s, call) == Accept(t, v)
    ensures Kept(c, s, t)
  {
    if call.SweepDust? {
      var p := DustPays(c, s, t);
    }
  }

  lemma SettingIsKept(c: Config, s: State, call: Call, t: State, v: int)
    requires Settings(call) && SettingStep(c, s, call) == Accept(t, v)
    ensures Kept(c, s, t)
  {
  }

  lemma NothingIsKept(c: Config, s: State)
    ensures Kept(c, s, s)
  {
  }

  /** Every call keeps the status graph, the draw record, ticket records and past payments,
      and makes only justified payments. */
  lemma StepIsKept(d: Digests, c: Config, e: Env, s: State, call: Call)
    requires Shape(c) && Inv(d, c, s)
    ensures Kept(c, s, After(d, c, e, s, call))
  {
    hide Kept, Inv, SaleStep, DrawStep, DeliveryStep, PayoutStep, RefundStep, StopStep, TransferStep, SettingStep;
    assert Records(c, s.life.status, s.book) by {
      InvHasRecords(d, c, s);
    }
    var o := Step(d, c, e, s, call);
    if o.Reject? {
      NothingIsKept(c, s);
    } else if Sale(call) {
      SaleIsKept(c, e, s, call, o.post, o.value);
    } else if Draws(call) {
      DrawIsKept(d, c, e, s, call, o.post, o.value);
    } else if Delivers(call) {
      DeliveryIsKept(d, c, e, s, call, o.post, o.value);
    } else if Payout(call) {
      PayoutIsKept(c, e, s, call, o.post, o.value);
    } else if Refunds(call) {
      RefundIsKept(d, c, s, call, o.post, o.value);
    } else if Stops(call) {
      StopIsKept(d, c, e, s, call, o.post, o.value);
    } else if Transfer(call) {
      TransferIsKept(c, s, call, o.post, o.value);
    } else {
      SettingIsKept(c, s, call, o.post, o.value);
    }
  }

  lemma InvHasRecords(d: Digests, c: Config, s: State)
    requires Inv(d, c, s)
    ensures Records(c, s.life.status, s.book)
  {
  }

  lemma DrawIsKept(d: Digests, c: Config, e: Env, s: State, call: Call, t: State, v: int)
    requires Draws(call) && Inv(d, c, s) && DrawStep(d, c, e, s, call) == Accept(t, v)
    ensures Kept(c, s, t)
  {
    match call
    case FinalizeRaffle => FinalizeIsKept(d, c, e, s, t);
    case TriggerFallback(caller, refund) => FallbackNeverApplies(d, c, e, s, caller, refund);
  }

  lemma PayoutIsKept(c: Config, e: Env, s: State, call: Call, t: State, v: int)
    requires Payout(call) && PayoutStep(c, e, s, call) == Accept(t, v)
    ensures Kept(c, s, t)
  {
    match call
    case ClaimPrize(winner, tier) => ClaimIsKept(c, e, s, winner, tier, t, v);
    case SweepUnclaimed(start, limit) => SweepIsKept(c, e, s, start, limit, t, v);
  }

  // ---------------------------------------------------------------------------
  // Every run

  /** Every payment a raffle has made is justified by its current winners and tickets. */
  lemma {:induction false} PaymentsAreJustified(d: Digests, c: Config, run: Run)
    requires Shape(c)
    ensures var s := Reached(d, c, run);
            forall i :: 0 <= i < |s.purse.log| ==>
              Justified(c, s.life.status, s.controls.feeBp, s.podium.winners, s.book.tickets, s.purse.log[i])
    decreases |run|
  {
    hide After;
    if run != [] {
      var n := |run| - 1;
      var s := Reached(d, c, run[..n]);
      var t := Reached(d, c, run);
      PaymentsAreJustified(d, c, run[..n]);
      ReachedInv(d, c, run[..n]);
      StepIsKept(d, c, run[n].0, s, run[n].1);
      ReachedInv(d, c, run);
      StaysJustified(c, s, t);
    }
  }

  lemma StaysJustified(c: Config, s: State, t: State)
    requires Kept(c, s, t)
    requires forall i :: 0 <= i < |s.purse.log| ==>
               Justified(c, s.life.status, s.controls.feeBp, s.podium.winners, s.book.tickets, s.purse.log[i])
    requires Drawn(s.life.status) ==> s.book.sold > 0
    ensures forall i :: 0 <= i < |t.purse.log| ==>
              Justified(c, t.life.status, t.controls.feeBp, t.podium.winners, t.book.tickets, t.purse.log[i])
  {
    forall i | 0 <= i < |s.purse.log|
      ensures Justified(c, t.life.status, t.controls.feeBp, t.podium.winners, t.book.tickets, t.purse.log[i])
    {
      assert t.purse.log[i] == s.purse.log[i];
    }
  }

  ghost predicate Frozen(s: State, t: State)
  {
    && PodiumKept(s.life.status, s.podium, t.podium)
    && BookKept(s.life.status, t.life.status, s.book, t.book)
    && (Drawn(s.life.status) ==> Drawn(t.life.status))
    && (!Open(s.life.status) ==> !Open(t.life.status))
    && s.purse.log <= t.purse.log
  }

  /** Between two moments of a run: statuses only move forward, a draw record once written is
      never changed, and ticket records once sold are never altered. */
  lemma {:induction false} RecordIsFrozen(d: Digests, c: Config, s: State, run: Run)
    requires Shape(c) && Inv(d, c, s)
    ensures var t := Execute(d, c, s, run);
            && Inv(d, c, t)
            && Frozen(s, t)
    decreases |run|
  {
    hide After, Inv, Kept;
    if run != [] {
      var n := |run| - 1;
      var u := Execute(d, c, s, run[..n]);
      var t := Execute(d, c, s, run);
      RecordIsFrozen(d, c, s, run[..n]);
      StepIsKept(d, c, run[n].0, u, run[n].1);
      StepKeeps(d, c, run[n].0, u, run[n].1);
      FrozenComposes(c, s, u, t);
    }
  }

  lemma FrozenComposes(c: Config, s: State, u: State, t: State)
    requires Frozen(s, u) && Kept(c, u, t)
    ensures Frozen(s, t)
  {
    BookComposes(s.life.status, u.life.status, t.life.status, s.book, u.book, t.book);
  }

  lemma BookComposes(from: Status, via: Status, to: Status, a: Book, b: Book, e: Book)
    requires BookKept(from, via, a, b) && BookKept(via, to, b, e)
    requires (!Open(from) ==> !Open(via)) && (!Open(via) ==> !Open(to))
    ensures BookKept(from, to, a, e)
  {
  }
}
