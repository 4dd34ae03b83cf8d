/** When things may happen, over every run: sales before the deadline, draws after it, prizes after
    their waiting times, and an administrator's cancellation after its delay. */
module Timing {
  import opened Common
  import opened Config
  import opened Escrow
  import opened Invariants
  import opened Record
  import Receipts
  import TierPrizes

  // ---------------------------------------------------------------------------
  // Prizes wait

  predicate NoPrize(before: seq<Payment>, after: seq<Payment>)
  {
    before <= after && forall i | |before| <= i < |after| :: !after[i].PrizeOut?
  }

  lemma SaleHasNoPrize(c: Config, e: Env, s: State, call: Call, t: State, v: int)
    requires Sale(call) && SaleStep(c, e, s, call) == Accept(t, v)
    ensures NoPrize(s.purse.log, t.purse.log)
  {
  }

  lemma RefundHasNoPrize(c: Config, s: State, call: Call, t: State, v: int)
    requires Refunds(call) && RefundStep(c, s, call) == Accept(t, v)
    ensures NoPrize(s.purse.log, t.purse.log)
  {
    if call.BatchRefund? {
      BatchPaysPayers(c, s, call.caller, call.ids);
    }
  }

  lemma StopHasNoPrize(c: Config, e: Env, s: State, call: Call, t: State, v: int)
    requires Stops(call) && StopStep(c, e, s, call) == Accept(t, v)
    ensures NoPrize(s.purse.log, t.purse.log)
  {
  }

  lemma TransferHasNoPrize(c: Config, s: State, call: Call, t: State, v: int)
    requires Transfer(call) && TransferStep(c, s, call) == Accept(t, v)
    ensures NoPrize(s.purse.log, t.purse.log)
  {
  }

  lemma DrawHasNoPrize(d: Digests, c: Config, e: Env, s: State, call: Call, t: State, v: int)
    requires (Draws(call) && DrawStep(d, c, e, s, call) == Accept(t, v))
          || (Delivers(call) && DeliveryStep(d, c, e, s, call) == Accept(t, v))
    ensures t.purse == s.purse
  {
  }

  lemma OthersPayNoPrize(d: Digests, c: Config, e: Env, s: State, call: Call)
    requires !Payout(call)
    ensures NoPrize(s.purse.log, After(d, c, e, s, call).purse.log)
  {
    hide SaleStep, DrawStep, DeliveryStep, PayoutStep, RefundStep, StopStep, TransferStep;
    var o := Step(d, c, e, s, call);
    if o.Accept? {
      if Sale(call) {
        SaleHasNoPrize(c, e, s, call, o.post, o.value);
      } else if Draws(call) || Delivers(call) {
        DrawHasNoPrize(d, c, e, s, call, o.post, o.value);
      } else if Refunds(call) {
        RefundHasNoPrize(c, s, call, o.post, o.value);
      } else if Stops(call) {
        StopHasNoPrize(c, e, s, call, o.post, o.value);
      } else if Transfer(call) {
        TransferHasNoPrize(c, s, call, o.post, o.value);
      }
    }
  }

  /** A prize goes to its winner by a claim after the lock-up, or to the treasury by a sweep after
      the claim period. */
  ghost predicate PrizeInTime(c: Config, e: Env, s: State, call: Call, p: Payment)
  {
    p.PrizeOut? ==>
      && s.life.status == Finalized && s.podium.finalizedAt.Some? && p.tier < |s.podium.winners|
      && !s.podium.winners[p.tier].claimed
      && (|| (&& call.ClaimPrize? && p.to == call.winner == s.podium.winners[p.tier].address
              && e.now >= s.podium.finalizedAt.value + LockupSeconds(c))
          || (&& call.SweepUnclaimed? && c.treasury == Some(p.to)
              && e.now >= s.podium.finalizedAt.value + ExpirySeconds(c)))
  }

  lemma {:induction false} SweepsUnclaimed(c: Config, s: State, treasury: Address, i: nat, end: nat)
    requires end <= |s.podium.winners| && end <= |c.prizes| && SweepTiers(c, s, treasury, i, end).Accept?
    ensures var after := SweepTiers(c, s, treasury, i, end).post.purse.log;
            && s.purse.log <= after
            && forall k :: |s.purse.log| <= k < |after| ==>
                 && after[k].PrizeOut? && after[k].to == treasury
                 && after[k].tier < |s.podium.winners| && !s.podium.winners[after[k].tier].claimed
    decreases end - i
  {
    if i < end {
      var amount := TierPrizes.TierPrize(c.prizeAmount, c.prizes, i);
      if s.podium.winners[i].claimed || amount <= 0 {
        SweepsUnclaimed(c, s, treasury, i + 1, end);
      } else {
        var u := s.(podium := s.podium.(winners := MarkClaimed(s.podium.winners, i)),
                    purse := Pay(s.purse, PrizeOut(i, treasury, amount, amount)));
        SweepsUnclaimed(c, u, treasury, i + 1, end);
        assert u.purse.log[|s.purse.log|] == PrizeOut(i, treasury, amount, amount);
      }
    }
  }

  lemma SweepWaits(c: Config, e: Env, s: State, start: u32, limit: u32, t: State)
    requires Gives(Sweep(c, e, s, start, limit), t)
    ensures s.purse.log <= t.purse.log
    ensures forall i :: |s.purse.log| <= i < |t.purse.log| ==> PrizeInTime(c, e, s, SweepUnclaimed(start, limit), t.purse.log[i])
  {
    if start < |s.podium.winners| {
      SweepsUnclaimed(c, s, c.treasury.value, start, SweepEnd(s, start, limit));
    }
  }

  lemma ClaimWaits(c: Config, e: Env, s: State, winner: Address, tier: u32, t: State)
    requires s.podium.finalizedAt.Some? && Gives(Claim(c, e, s, winner, tier), t)
    ensures s.purse.log <= t.purse.log
    ensures forall i :: |s.purse.log| <= i < |t.purse.log| ==> PrizeInTime(c, e, s, ClaimPrize(winner, tier), t.purse.log[i])
  {
    var fee := Receipts.ClaimReceipt(c, e, s, winner, tier, t);
  }

  lemma DrawnHasTime(d: Digests, c: Config, s: State)
    requires Inv(d, c, s) && Drawn(s.life.status)
    ensures s.podium.finalizedAt.Some?
  {
  }

  lemma StepWaits(d: Digests, c: Config, e: Env, s: State, call: Call)
    requires Inv(d, c, s)
    ensures var t := After(d, c, e, s, call);
            && s.purse.log <= t.purse.log
            && forall i :: |s.purse.log| <= i < |t.purse.log| ==> PrizeInTime(c, e, s, call, t.purse.log[i])
  {
    hide Inv, Claim, Sweep;
    if !Payout(call) {
      OthersPayNoPrize(d, c, e, s, call);
    } else if Step(d, c, e, s, call).Accept? {
      var t := After(d, c, e, s, call);
      match call
      case ClaimPrize(winner, tier) =>
        ClaimIsFinalized(c, e, s, winner, tier);
        DrawnHasTime(d, c, s);
        ClaimWaits(c, e, s, winner, tier, t);
      case SweepUnclaimed(start, limit) => SweepWaits(c, e, s, start, limit, t);
    }
  }

  lemma ClaimIsFinalized(c: Config, e: Env, s: State, winner: Address, tier: u32)
    requires Claim(c, e, s, winner, tier).Accept?
    ensures s.life.status == Finalized
  {
  }

  /** Over every run: no winner is paid before the lock-up is over, and no prize goes to the treasury
      before the claim period is. */
  lemma PrizesWait(d: Digests, c: Config, run: Run)
    requires Shape(c) && run != []
    ensures var n := |run| - 1;
            var s, t := Reached(d, c, run[..n]), Reached(d, c, run);
            && s.purse.log <= t.purse.log
            && forall i :: |s.purse.log| <= i < |t.purse.log| ==>
                 PrizeInTime(c, run[n].0, s, run[n].1, t.purse.log[i])
  {
    hide After, PrizeInTime;
    var n := |run| - 1;
    ReachedInv(d, c, run[..n]);
    StepWaits(d, c, run[n].0, Reached(d, c, run[..n]), run[n].1);
  }

  // ---------------------------------------------------------------------------
  // Tickets are sold before the deadline

  ghost predicate SoldInTime(c: Config, tickets: map<int, Ticket>)
  {
    c.noDeadline || forall id :: id in tickets ==> tickets[id].purchaseTime < c.endTime
  }

  lemma SaleInTime(d: Digests, c: Config, e: Env, s: State, call: Call, t: State, v: int)
    requires Valid(c) && Inv(d, c, s) && SoldInTime(c, s.book.tickets)
    requires Sale(call) && SaleStep(c, e, s, call) == Accept(t, v)
    ensures SoldInTime(c, t.book.tickets)
  {
    hide Buy, BuyFor, Inv;
    match call
    case BuyTickets(buyer, quantity) =>
      var fee := Receipts.PurchaseReceipt(c, e, s, buyer, quantity, t);
      NoTicketBeyond(d, c, s);
    case BuyTicketsFor(buyer, recipient, quantity) =>
      var fee := Receipts.GiftReceipt(c, e, s, buyer, recipient, quantity, t);
      NoTicketBeyond(d, c, s);
    case _ =>
  }

  lemma NoTicketBeyond(d: Digests, c: Config, s: State)
    requires Inv(d, c, s)
    ensures forall id :: id in s.book.tickets ==> 1 <= id <= s.book.sold
  {
    assert Records(c, s.life.status, s.book);
  }

  /** What most calls leave alone: the ticket records, unless they erase them, and the scheduled
      cancellation. */
  ghost predicate Calm(s: State, t: State)
  {
    && t.controls.pendingCancel == s.controls.pendingCancel
    && forall id :: id in t.book.tickets ==> id in s.book.tickets && t.book.tickets[id] == s.book.tickets[id]
  }

  lemma PayoutIsCalm(c: Config, e: Env, s: State, call: Call, t: State, v: int)
    requires Payout(call) && PayoutStep(c, e, s, call) == Accept(t, v)
    ensures Calm(s, t)
  {
    if call.SweepUnclaimed? && call.start < |s.podium.winners| {
      SweepFrame(c, s, c.treasury.value, call.start, SweepEnd(s, call.start, call.limit));
    }
  }

  lemma RefundIsCalm(c: Config, s: State, call: Call, t: State, v: int)
    requires Refunds(call) && RefundStep(c, s, call) == Accept(t, v)
    ensures Calm(s, t)
  {
    if call.BatchRefund? {
      RefundFrame(c, s, call.caller, call.ids);
    }
  }

  lemma DrawIsCalm(d: Digests, c: Config, e: Env, s: State, call: Call, t: State, v: int)
    requires (Draws(call) && DrawStep(d, c, e, s, call) == Accept(t, v))
          || (Delivers(call) && DeliveryStep(d, c, e, s, call) == Accept(t, v))
    ensures Calm(s, t)
  {
  }

  lemma OtherIsCalm(c: Config, s: State, call: Call, t: State, v: int)
    requires (Transfer(call) && TransferStep(c, s, call) == Accept(t, v))
          || (Settings(call) && SettingStep(c, s, call) == Accept(t, v))
    ensures Calm(s, t)
  {
  }

  lemma OthersAreCalm(d: Digests, c: Config, e: Env, s: State, call: Call)
    requires !Sale(call) && !Stops(call)
    ensures Calm(s, After(d, c, e, s, call))
  {
    hide SaleStep, DrawStep, DeliveryStep, PayoutStep, RefundStep, StopStep, TransferStep, SettingStep;
    var o := Step(d, c, e, s, call);
    if o.Accept? {
      if Draws(call) || Delivers(call) {
        DrawIsCalm(d, c, e, s, call, o.post, o.value);
      } else if Payout(call) {
        PayoutIsCalm(c, e, s, call, o.post, o.value);
      } else if Refunds(call) {
        RefundIsCalm(c, s, call, o.post, o.value);
      } else {
        OtherIsCalm(c, s, call, o.post, o.value);
      }
    }
  }

  lemma StopSellsNothing(c: Config, e: Env, s: State, call: Call, t: State, v: int)
    requires Stops(call) && StopStep(c, e, s, call) == Accept(t, v)
    ensures forall id :: id in t.book.tickets ==> id in s.book.tickets && t.book.tickets[id] == s.book.tickets[id]
  {
  }

  lemma StepSellsInTime(d: Digests, c: Config, e: Env, s: State, call: Call)
    requires Valid(c) && Inv(d, c, s) && SoldInTime(c, s.book.tickets)
    ensures SoldInTime(c, After(d, c, e, s, call).book.tickets)
  {
    hide Inv, Valid, SaleStep, DrawStep, DeliveryStep, PayoutStep, RefundStep, StopStep, TransferStep, SettingStep;
    var o := Step(d, c, e, s, call);
    if o.Accept? {
      if Sale(call) {
        SaleInTime(d, c, e, s, call, o.post, o.value);
      } else if Stops(call) {
        StopSellsNothing(c, e, s, call, o.post, o.value);
      } else {
        OthersAreCalm(d, c, e, s, call);
      }
    }
  }

  /** Over every run every ticket there is was sold before the deadline. */
  lemma {:induction false} EveryTicketIsInTime(d: Digests, c: Config, run: Run)
    requires Valid(c)
    ensures SoldInTime(c, Reached(d, c, run).book.tickets)
    decreases |run|
  {
    hide After, Valid, SoldInTime;
    ValidShape(c);
    if run == [] {
      NothingSoldYet(c);
    } else {
      var n := |run| - 1;
      EveryTicketIsInTime(d, c, run[..n]);
      ReachedInv(d, c, run[..n]);
      StepSellsInTime(d, c, run[n].0, Reached(d, c, run[..n]), run[n].1);
    }
  }

  lemma NothingSoldYet(c: Config)
    ensures SoldInTime(c, Initial(c).book.tickets)
  {
  }

  /** And finalizing waits for the deadline: it fails a raffle that missed its minimum, and starts
      or makes the draw of any other. */
  lemma FinalizingWaits(d: Digests, c: Config, e: Env, s: State, t: State)
    requires Inv(d, c, s) && Gives(Finalize(d, c, e, s), t)
    ensures s.life.status == Active && !c.noDeadline && e.now >= c.endTime
    ensures t.life.status == Failed <==> s.book.sold == 0 || s.book.sold < c.minTickets
  {
  }

  // ---------------------------------------------------------------------------
  // An administrator's cancellation waits

  /** An earlier call of the run scheduled a cancellation for `due`, two days ahead. */
  ghost predicate Scheduled(run: Run, due: int)
  {
    exists i :: 0 <= i < |run| && run[i].1 == CancelRaffle(true) && due == run[i].0.now + 2 * 86_400
  }

  lemma SaleKeepsPending(c: Config, e: Env, s: State, call: Call, t: State, v: int)
    requires Sale(call) && SaleStep(c, e, s, call) == Accept(t, v)
    ensures t.controls == s.controls
  {
  }

  lemma StopPending(c: Config, e: Env, s: State, call: Call, t: State, v: int)
    requires Stops(call) && StopStep(c, e, s, call) == Accept(t, v)
    ensures t.controls.pendingCancel in {s.controls.pendingCancel, None}
         || (call == CancelRaffle(true) && t.controls.pendingCancel == Some(e.now + 2 * 86_400))
  {
  }

  lemma StepPending(d: Digests, c: Config, e: Env, s: State, call: Call)
    ensures var t := After(d, c, e, s, call);
            || t.controls.pendingCancel in {s.controls.pendingCancel, None}
            || (call == CancelRaffle(true) && t.controls.pendingCancel == Some(e.now + 2 * 86_400))
  {
    hide SaleStep, DrawStep, DeliveryStep, PayoutStep, RefundStep, StopStep, TransferStep, SettingStep;
    var o := Step(d, c, e, s, call);
    if o.Accept? && Stops(call) {
      StopPending(c, e, s, call, o.post, o.value);
    } else if o.Accept? && Sale(call) {
      SaleKeepsPending(c, e, s, call, o.post, o.value);
    } else if o.Accept? {
      OthersAreCalm(d, c, e, s, call);
    }
  }

  lemma StillScheduled(run: Run, due: int)
    requires run != [] && Scheduled(run[..|run| - 1], due)
    ensures Scheduled(run, due)
  {
    var n := |run| - 1;
    var i :| 0 <= i < n && run[..n][i].1 == CancelRaffle(true) && due == run[..n][i].0.now + 2 * 86_400;
    assert run[i] == run[..n][i];
  }

  lemma {:induction false} PendingIsScheduled(d: Digests, c: Config, run: Run)
    ensures var p := Reached(d, c, run).controls.pendingCancel;
            p.Some? ==> Scheduled(run, p.value)
    decreases |run|
  {
    hide After;
    if run != [] {
      var n := |run| - 1;
      var s := Reached(d, c, run[..n]);
      PendingIsScheduled(d, c, run[..n]);
      StepPending(d, c, run[n].0, s, run[n].1);
      var p := Reached(d, c, run).controls.pendingCancel;
      if p.Some? && p == s.controls.pendingCancel {
        StillScheduled(run, p.value);
      }
    }
  }

  /** Over every run: an administrator's cancellation takes effect only two days or more after an
      earlier call of the same run scheduled it. */
  lemma AdminCancelWaits(d: Digests, c: Config, run: Run, e: Env)
    requires ExecuteCancel(e, Reached(d, c, run)).Accept?
    ensures exists i :: 0 <= i < |run| && run[i].1 == CancelRaffle(true) && e.now >= run[i].0.now + 2 * 86_400
  {
    hide After;
    PendingIsScheduled(d, c, run);
    var due := Reached(d, c, run).controls.pendingCancel.value;
    var i :| 0 <= i < |run| && run[i].1 == CancelRaffle(true) && due == run[i].0.now + 2 * 86_400;
  }

  /** Both cancellations stop a raffle exactly while it is on sale or waits for its draw. */
  lemma CancelIff(c: Config, e: Env, s: State)
    ensures Cancel(c, e, s, false).Accept? <==> s.life.status == Active || s.life.status == Drawing
    ensures ExecuteCancel(e, s).Accept? <==>
              && (s.life.status == Active || s.life.status == Drawing)
              && s.controls.pendingCancel.Some? && e.now >= s.controls.pendingCancel.value
  {
  }

  // ---------------------------------------------------------------------------
  // Requests for randomness

  /** Some call of the run, with this identifier and at this ledger, asked for randomness: a
      purchase of the last tickets, or a call that finalizes. */
  ghost predicate AskedIn(run: Run, q: Request)
  {
    exists i :: 0 <= i < |run| && (Sale(run[i].1) || run[i].1.FinalizeRaffle?) && q == Request(run[i].0.requestId, run[i].0.ledger)
  }

  /** How a call may leave the request: as it was, withdrawn, or made by this very call. */
  ghost predicate Asks(e: Env, s: State, t: State, call: Call)
  {
    || t.life.request in {s.life.request, None}
    || ((Sale(call) || call.FinalizeRaffle?) && t.life.request == Some(Request(e.requestId, e.ledger)))
  }

  lemma SaleAsks(c: Config, e: Env, s: State, call: Call, t: State, v: int)
    requires Sale(call) && SaleStep(c, e, s, call) == Accept(t, v)
    ensures Asks(e, s, t, call)
    ensures t.life.status == Drawing && s.life.status == Active && c.source.External? ==>
              t.life.request == Some(Request(e.requestId, e.ledger))
  {
  }

  lemma DrawAsks(d: Digests, c: Config, e: Env, s: State, call: Call, t: State, v: int)
    requires Draws(call) && DrawStep(d, c, e, s, call) == Accept(t, v)
    ensures Asks(e, s, t, call)
    ensures call.FinalizeRaffle? && t.life.status == Drawing ==> t.life.request == Some(Request(e.requestId, e.ledger))
  {
  }

  lemma DeliveryAsks(d: Digests, c: Config, e: Env, s: State, call: Call, t: State, v: int)
    requires Delivers(call) && DeliveryStep(d, c, e, s, call) == Accept(t, v)
    ensures Asks(e, s, t, call)
  {
  }

  lemma PayoutAsks(c: Config, e: Env, s: State, call: Call, t: State, v: int)
    requires Payout(call) && PayoutStep(c, e, s, call) == Accept(t, v)
    ensures Asks(e, s, t, call)
  {
    if call.SweepUnclaimed? && call.start < |s.podium.winners| {
      SweepFrame(c, s, c.treasury.value, call.start, SweepEnd(s, call.start, call.limit));
    }
  }

  lemma RefundAsks(c: Config, e: Env, s: State, call: Call, t: State, v: int)
    requires Refunds(call) && RefundStep(c, s, call) == Accept(t, v)
    ensures Asks(e, s, t, call)
  {
    if call.BatchRefund? {
      RefundFrame(c, s, call.caller, call.ids);
    }
  }

  lemma OtherAsks(c: Config, e: Env, s: State, call: Call, t: State, v: int)
    requires (Stops(call) && StopStep(c, e, s, call) == Accept(t, v)) || (Transfer(call) && TransferStep(c, s, call) == Accept(t, v))
          || (Settings(call) && SettingStep(c, s, call) == Accept(t, v))
    ensures Asks(e, s, t, call)
  {
  }

  lemma StepAsks(d: Digests, c: Config, e: Env, s: State, call: Call)
    ensures Asks(e, s, After(d, c, e, s, call), call)
  {
    hide SaleStep, DrawStep, DeliveryStep, PayoutStep, RefundStep, StopStep, TransferStep, SettingStep;
    var o := Step(d, c, e, s, call);
    if o.Accept? {
      if Sale(call) {
        SaleAsks(c, e, s, call, o.post, o.value);
      } else if Draws(call) {
        DrawAsks(d, c, e, s, call, o.post, o.value);
      } else if Delivers(call) {
        DeliveryAsks(d, c, e, s, call, o.post, o.value);
      } else if Payout(call) {
        PayoutAsks(c, e, s, call, o.post, o.value);
      } else if Refunds(call) {
        RefundAsks(c, e, s, call, o.post, o.value);
      } else {
        OtherAsks(c, e, s, call, o.post, o.value);
      }
    }
  }

  lemma StillAsked(run: Run, q: Request)
    requires run != [] && AskedIn(run[..|run| - 1], q)
    ensures AskedIn(run, q)
  {
    var n := |run| - 1;
    var i :| 0 <= i < n && (Sale(run[..n][i].1) || run[..n][i].1.FinalizeRaffle?)
             && q == Request(run[..n][i].0.requestId, run[..n][i].0.ledger);
    assert run[i] == run[..n][i];
  }

  /** Over every run a pending request carries the identifier and the ledger of the call that made
      it. */
  lemma {:induction false} RequestsAreAsked(d: Digests, c: Config, run: Run)
    ensures var q := Reached(d, c, run).life.request;
            q.Some? ==> AskedIn(run, q.value)
    decreases |run|
  {
    hide After;
    if run != [] {
      var n := |run| - 1;
      var s := Reached(d, c, run[..n]);
      RequestsAreAsked(d, c, run[..n]);
      StepAsks(d, c, run[n].0, s, run[n].1);
      var q := Reached(d, c, run).life.request;
      if q.Some? && q == s.life.request {
        StillAsked(run, q.value);
      }
    }
  }
}
