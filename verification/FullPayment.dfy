/** From every state of a fee-free, list-priced run everything owed can be paid out: by refunds
    before a draw, by claims after it. */
module FullPayment {
  import opened Common
  import opened Config
  import opened Escrow
  import opened Invariants
  import opened Settlement
  import opened Solvency
  import opened Claims
  import Liveness
  import Reachability
  import TierPrizes
  import Wiping

  // ---------------------------------------------------------------------------
  // Exactly which claims succeed

  predicate LockupFits(c: Config, p: Podium)
  {
    p.finalizedAt.Some? && p.finalizedAt.value + LockupSeconds(c) < U64_LIMIT
  }

  predicate LockupOver(c: Config, p: Podium, now: int)
  {
    LockupFits(c, p) && now >= p.finalizedAt.value + LockupSeconds(c)
  }

  /** `winner` has won the tier, and it is worth something and not paid yet. */
  predicate Due(c: Config, p: Podium, winner: Address, tier: nat)
  {
    && tier < |p.winners| && tier < |c.prizes| && p.winners[tier].address == winner
    && !p.winners[tier].claimed && PrizeAt(c, tier) > 0
  }

  /** A drawn raffle without fees whose balance covers the prizes not paid yet. */
  ghost predicate Claimable(d: Digests, c: Config, s: State)
  {
    Valid(c) && Inv(d, c, s) && Sound(c, s) && Drawn(s.life.status)
  }

  lemma DueIsCovered(d: Digests, c: Config, s: State, winner: Address, tier: nat)
    requires Claimable(d, c, s) && Due(c, s.podium, winner, tier)
    ensures s.life.status == Finalized && s.purse.balance >= PrizeAt(c, tier)
  {
    UnclaimedIncludes(c, s.podium.winners, tier, |c.prizes|);
  }

  lemma ClaimableIff(d: Digests, c: Config, e: Env, s: State, winner: Address, tier: u32)
    requires Claimable(d, c, s)
    ensures Claim(c, e, s, winner, tier).Accept? <==> LockupOver(c, s.podium, e.now) && Due(c, s.podium, winner, tier)
  {
    if Due(c, s.podium, winner, tier) {
      DueIsCovered(d, c, s, winner, tier);
    }
  }

  /** In every drawn state of a fee-free, list-priced run a claim succeeds exactly when the
      lock-up is over and the caller has won the tier, which is unpaid and worth something. */
  lemma ClaimIff(d: Digests, c: Config, run: Run, e: Env, winner: Address, tier: u32)
    requires Valid(c) && ListPriced(c) && c.protocolFeeBp == 0 && FeeFree(run)
    requires Drawn(Reached(d, c, run).life.status)
    ensures var s := Reached(d, c, run);
            Claim(c, e, s, winner, tier).Accept? <==> LockupOver(c, s.podium, e.now) && Due(c, s.podium, winner, tier)
  {
    hide After;
    ReachedSound(d, c, run);
    ClaimableIff(d, c, e, Reached(d, c, run), winner, tier);
  }

  // ---------------------------------------------------------------------------
  // Exactly which sweeps and emergency withdrawals succeed

  /** Prizes that are not claimed are free for the treasury once the claim period has ended. */
  predicate ClaimPeriodOver(c: Config, p: Podium, now: int)
  {
    && p.finalizedAt.Some? && p.finalizedAt.value + ExpirySeconds(c) < U64_LIMIT
    && now >= p.finalizedAt.value + ExpirySeconds(c)
  }

  lemma PrizesAreCovered(d: Digests, c: Config, s: State)
    requires Claimable(d, c, s)
    ensures |s.podium.winners| == |c.prizes| && s.podium.finalizedAt.Some?
    ensures s.purse.balance >= UnclaimedFrom(c, s.podium.winners, |c.prizes|)
  {
    hide Records, BuyersListed, CountsOwned, QuorumPhase, DrawRecord, Histories;
  }

  lemma SweepableIff(d: Digests, c: Config, e: Env, s: State, start: u32, limit: u32)
    requires Claimable(d, c, s)
    ensures Sweep(c, e, s, start, limit).Accept? <==>
              s.life.status == Finalized && c.treasury.Some? && ClaimPeriodOver(c, s.podium, e.now)
  {
    hide Inv, Sound;
    PrizesAreCovered(d, c, s);
    if c.treasury.Some? && start < |s.podium.winners| {
      SweepPaysWindow(c, s, c.treasury.value, start, SweepEnd(s, start, limit));
    }
  }

  /** In every drawn state of a fee-free, list-priced run a sweep succeeds exactly when prizes may
      still be due, there is a treasury, and the claim period is over. */
  lemma SweepIff(d: Digests, c: Config, run: Run, e: Env, start: u32, limit: u32)
    requires Valid(c) && ListPriced(c) && c.protocolFeeBp == 0 && FeeFree(run)
    requires Drawn(Reached(d, c, run).life.status)
    ensures var s := Reached(d, c, run);
            Sweep(c, e, s, start, limit).Accept? <==>
              s.life.status == Finalized && c.treasury.Some? && ClaimPeriodOver(c, s.podium, e.now)
  {
    hide After;
    ReachedSound(d, c, run);
    SweepableIff(d, c, e, Reached(d, c, run), start, limit);
  }

  /** A draw counts as stalled ninety days after the deadline or, without one, after ninety days of
      ledgers of five seconds since randomness was asked for. */
  predicate Stalled(c: Config, e: Env, s: State)
  {
    if c.noDeadline then
      (e.ledger - if s.life.request.Some? then s.life.request.value.ledger else 0) * 5 >= 90 * 86_400
    else c.endTime + 90 * 86_400 < U64_LIMIT && e.now >= c.endTime + 90 * 86_400
  }

  /** While a draw is pending the deposit can be taken back exactly by creator or administrator, once
      the draw has stalled, and if the balance covers the whole entitlement; what remains then
      still covers every refund and recorded fee. */
  lemma StalledIff(d: Digests, c: Config, e: Env, s: State, caller: Address)
    requires Valid(c) && Inv(d, c, s) && s.purse.fees >= 0 && s.life.status == Drawing
    ensures Emergency(c, e, s, caller).Accept? <==>
              (caller == c.creator || caller == c.admin) && Stalled(c, e, s) && s.purse.balance >= Entitlement(c, s)
    ensures Emergency(c, e, s, caller).Accept? ==>
              var t := Emergency(c, e, s, caller).post;
              t.purse.balance == s.purse.balance - c.prizeAmount >= Entitlement(c, t)
  {
    OwedIsNonNegative(c, s.book.tickets, s.book.refunded, s.book.sold);
  }

  lemma PendingIsCovered(d: Digests, c: Config, s: State)
    requires Valid(c) && Inv(d, c, s) && Sound(c, s) && s.life.status == Drawing
    ensures s.purse.balance >= Entitlement(c, s)
  {
    EntitlementIsOwed(d, c, s);
  }

  /** In every state of a fee-free, list-priced run that waits for its draw, creator and
      administrator can take the deposit back exactly when the draw has stalled. */
  lemma EmergencyIff(d: Digests, c: Config, run: Run, e: Env, caller: Address)
    requires Valid(c) && ListPriced(c) && c.protocolFeeBp == 0 && FeeFree(run)
    requires Reached(d, c, run).life.status == Drawing
    ensures var s := Reached(d, c, run);
            Emergency(c, e, s, caller).Accept? <==> (caller == c.creator || caller == c.admin) && Stalled(c, e, s)
  {
    hide After;
    ReachedSound(d, c, run);
    PendingIsCovered(d, c, Reached(d, c, run));
    StalledIff(d, c, e, Reached(d, c, run), caller);
  }

  // ---------------------------------------------------------------------------
  // Claiming every tier

  lemma ClaimSlack(c: Config, e: Env, s: State, winner: Address, tier: u32, t: State)
    requires s.controls.feeBp == 0 && |s.podium.winners| == |c.prizes| && Gives(Claim(c, e, s, winner, tier), t)
    ensures Slack(c, t) == Slack(c, s)
    ensures Drawn(t.life.status) && t.podium == s.podium.(winners := MarkClaimed(s.podium.winners, tier))
  {
    NoClaimFee(PrizeAt(c, tier));
    UnclaimedMarks(c, s.podium.winners, tier, |c.prizes|);
  }

  /** The first `k` tiers that are worth something have been paid, out of what was owed. */
  ghost predicate PaidUpTo(d: Digests, c: Config, s: State, t: State, k: nat)
  {
    && Claimable(d, c, t) && t.podium.finalizedAt == s.podium.finalizedAt && Slack(c, t) == Slack(c, s)
    && forall j :: 0 <= j < k && j < |t.podium.winners| && j < |c.prizes| ==>
         t.podium.winners[j].claimed || PrizeAt(c, j) <= 0
  }

  function AtLockupEnd(c: Config, s: State): Env
    requires LockupFits(c, s.podium)
  {
    Env(s.podium.finalizedAt.value + LockupSeconds(c), 0, false, 0, 0, 0)
  }

  lemma ClaimIsStep(d: Digests, c: Config, e: Env, s: State, winner: Address, tier: u32)
    ensures Step(d, c, e, s, ClaimPrize(winner, tier)) == Claim(c, e, s, winner, tier)
  {
  }

  /** The claim for tier `k` succeeds or has nothing to pay. */
  lemma TierClaimed(d: Digests, c: Config, e: Env, t: State, k: u32, u: State)
    requires Claimable(d, c, t) && LockupOver(c, t.podium, e.now) && k < |t.podium.winners| && k < |c.prizes|
    requires u == After(d, c, e, t, ClaimPrize(t.podium.winners[k].address, k))
    ensures Claimable(d, c, u) && Slack(c, u) == Slack(c, t)
    ensures u.podium == t.podium || u.podium == t.podium.(winners := MarkClaimed(t.podium.winners, k))
    ensures u.podium.winners[k].claimed || PrizeAt(c, k) <= 0
  {
    hide Inv, Sound, Slack;
    var winner := t.podium.winners[k].address;
    ClaimableIff(d, c, e, t, winner, k);
    ClaimIsStep(d, c, e, t, winner, k);
    if Due(c, t.podium, winner, k) {
      ClaimKeepsClaimable(d, c, e, t, winner, k, u);
    }
  }

  lemma ClaimKeepsClaimable(d: Digests, c: Config, e: Env, t: State, winner: Address, k: u32, u: State)
    requires Claimable(d, c, t) && Gives(Claim(c, e, t, winner, k), u)
    ensures Claimable(d, c, u) && Slack(c, u) == Slack(c, t)
    ensures u.podium == t.podium.(winners := MarkClaimed(t.podium.winners, k))
  {
    ClaimIsStep(d, c, e, t, winner, k);
    StepKeeps(d, c, e, t, ClaimPrize(winner, k));
    ClaimSound(d, c, e, t, winner, k, Claim(c, e, t, winner, k).value, u);
    ClaimSlack(c, e, t, winner, k, u);
  }

  lemma OneMoreTier(d: Digests, c: Config, s: State, t: State, k: u32, u: State)
    requires LockupFits(c, s.podium) && PaidUpTo(d, c, s, t, k) && k < |c.prizes| && k < |t.podium.winners|
    requires u == After(d, c, AtLockupEnd(c, s), t, ClaimPrize(t.podium.winners[k].address, k))
    ensures PaidUpTo(d, c, s, u, k + 1)
  {
    hide Claimable, After, Slack;
    TierClaimed(d, c, AtLockupEnd(c, s), t, k, u);
  }

  lemma {:induction false} ClaimTiers(d: Digests, c: Config, s: State, k: nat) returns (run: Run)
    requires Claimable(d, c, s) && LockupFits(c, s.podium) && k <= |c.prizes|
    ensures PaidUpTo(d, c, s, Execute(d, c, s, run), k)
    decreases k
  {
    hide After, Claimable, Slack;
    if k == 0 {
      run := [];
    } else {
      var first := ClaimTiers(d, c, s, k - 1);
      var t := Execute(d, c, s, first);
      WinnersAreTiers(d, c, t);
      var e, call := AtLockupEnd(c, s), ClaimPrize(t.podium.winners[k - 1].address, k - 1);
      OneMoreTier(d, c, s, t, k - 1, After(d, c, e, t, call));
      run := first + [(e, call)];
      RunGrows(d, c, s, first, e, call);
    }
  }

  lemma WinnersAreTiers(d: Digests, c: Config, s: State)
    requires Claimable(d, c, s)
    ensures |s.podium.winners| == |c.prizes| <= MAX_PRIZES && s.podium.finalizedAt.Some?
  {
  }

  lemma RunGrows(d: Digests, c: Config, s: State, run: Run, e: Env, call: Call)
    ensures Execute(d, c, s, run + [(e, call)]) == After(d, c, e, Execute(d, c, s, run), call)
  {
    assert (run + [(e, call)])[..|run|] == run;
  }

  lemma {:induction false} WorthlessIsNotOwed(c: Config, winners: seq<Winner>, n: nat)
    requires Valid(c) && n <= |winners| && n <= |c.prizes|
    requires forall j :: 0 <= j < n ==> winners[j].claimed || PrizeAt(c, j) <= 0
    ensures UnclaimedFrom(c, winners, n) == 0
  {
    if n > 0 {
      WorthlessIsNotOwed(c, winners, n - 1);
      TierPrizes.TierPrizeIsNonNegative(c.prizeAmount, c.prizes, n - 1);
    }
  }

  lemma ClaimsPayAll(d: Digests, c: Config, s: State) returns (run: Run)
    requires Claimable(d, c, s) && LockupFits(c, s.podium)
    ensures PaysAll(d, c, s, run)
  {
    hide Inv, Valid, Execute;
    run := ClaimTiers(d, c, s, |c.prizes|);
    var t := Execute(d, c, s, run);
    WinnersAreTiers(d, c, t);
    WorthlessIsNotOwed(c, t.podium.winners, |c.prizes|);
  }

  // ---------------------------------------------------------------------------
  // Refunding every ticket

  /** The run ends with nothing owed, and what left the contract is what was owed. */
  ghost predicate PaysAll(d: Digests, c: Config, s: State, run: Run)
  {
    var t := Execute(d, c, s, run);
    Owed(c, t) == 0 && s.purse.balance - t.purse.balance == Owed(c, s)
  }

  /** Refund the prize, then tickets 1 to `n`. */
  function RefundEvery(n: nat): Run
  {
    if n == 0 then [(Plain(0), RefundPrize)] else RefundEvery(n - 1) + [(Plain(0), RefundTicket(n))]
  }

  lemma PrizeIsNamed(b: Book)
    ensures RefundRun(b, RefundEvery(0)) && AsksForPrize(RefundEvery(0)) && NamedIn(RefundEvery(0)) == Ids(0)
  {
    var run := RefundEvery(0);
    assert run[0].1.RefundPrize?;
    assert NamedIn(run[..0]) == {};
  }

  lemma OneMoreId(n: nat)
    ensures Ids(n + 1) == Ids(n) + {n + 1}
  {
  }

  lemma {:induction false} RefundEveryNames(b: Book, n: nat)
    requires forall id :: 1 <= id <= n ==> id in b.tickets
    ensures RefundRun(b, RefundEvery(n)) && AsksForPrize(RefundEvery(n)) && NamedIn(RefundEvery(n)) == Ids(n)
  {
    hide RefundRun, AsksForPrize, NamedIn, Ids;
    if n == 0 {
      PrizeIsNamed(b);
    } else {
      RefundEveryNames(b, n - 1);
      OneMoreNamed(b, RefundEvery(n - 1), (Plain(0), RefundTicket(n)));
      OneMoreId(n - 1);
    }
  }

  lemma OneMoreNamed(b: Book, run: Run, last: (Env, Call))
    requires RefundRun(b, run) && AsksForPrize(run) && Entitled(b, last.1)
    ensures RefundRun(b, run + [last]) && AsksForPrize(run + [last])
    ensures NamedIn(run + [last]) == NamedIn(run) + Named(last.1)
  {
    assert (run + [last])[..|run|] == run;
    AskedLast(run + [last]);
  }

  /** Refunding every ticket there is, or after a wipe only asking for the prize again. */
  lemma RefundsPayAll(d: Digests, c: Config, s: State) returns (run: Run)
    requires Refundable(d, c, s) && s.purse.fees == 0
    ensures PaysAll(d, c, s, run)
  {
    var n := if s.book.tickets == map[] then 0 else s.book.sold;
    assert Intact(s.book.tickets, s.book.sold) || s.book.tickets == map[];
    forall id: int | 1 <= id <= n
      ensures id in s.book.tickets
    {
      assert id in Ids(s.book.sold);
    }
    RefundEveryNames(s.book, n);
    run := RefundEvery(n);
    RefundsSettle(d, c, s, run);
  }

  lemma CancelKeepsOwed(d: Digests, c: Config, s: State) returns (t: State)
    requires Valid(c) && Inv(d, c, s) && Sound(c, s) && (s.life.status == Active || s.life.status == Drawing)
    ensures t == After(d, c, Plain(0), s, CancelRaffle(false))
    ensures Refundable(d, c, t) && t.purse == s.purse && Owed(c, t) == Owed(c, s)
  {
    hide Entitlement, Step;
    t := s.(life := s.life.(status := Cancelled));
    Reachability.CancelIsStep(d, c, Plain(0), s);
    StepKeeps(d, c, Plain(0), s, CancelRaffle(false));
  }

  lemma CancelAndRefund(d: Digests, c: Config, s: State) returns (run: Run)
    requires Valid(c) && Inv(d, c, s) && Sound(c, s) && (s.life.status == Active || s.life.status == Drawing)
    ensures PaysAll(d, c, s, run)
  {
    var t := CancelKeepsOwed(d, c, s);
    var rest := RefundsPayAll(d, c, t);
    Liveness.CallThenRun(d, c, s, Plain(0), CancelRaffle(false), rest);
    run := [(Plain(0), CancelRaffle(false))] + rest;
  }

  lemma NothingOwedYet(d: Digests, c: Config, s: State)
    requires Valid(c) && Inv(d, c, s) && Sound(c, s) && (s.life.status == PendingPrize || s.life.status == Claimed)
    ensures PaysAll(d, c, s, [])
  {
    if s.life.status == Claimed {
      AllClaimedOwesNothing(c, s.podium.winners, |c.prizes|);
    }
  }

  // ---------------------------------------------------------------------------
  // The one exception

  /** Drawn so late that the end of the lock-up, and with it that of the claim period, does not
      fit the clock. */
  predicate OutOfTime(c: Config, s: State)
  {
    s.life.status == Finalized && !LockupFits(c, s.podium)
  }

  lemma OutOfTimePayout(c: Config, e: Env, s: State, call: Call)
    requires Valid(c) && OutOfTime(c, s) && s.podium.finalizedAt.Some?
    ensures Payout(call) ==> PayoutStep(c, e, s, call).Reject?
    ensures Refunds(call) ==> RefundStep(c, s, call).Reject?
  {
  }

  lemma OutOfTimeRejects(d: Digests, c: Config, e: Env, s: State, call: Call)
    requires s.life.status == Finalized && !s.life.lock
    ensures Sale(call) ==> SaleStep(c, e, s, call).Reject?
    ensures Draws(call) ==> DrawStep(d, c, e, s, call).Reject?
    ensures Delivers(call) ==> DeliveryStep(d, c, e, s, call).Reject?
  {
    hide FinalizeWithSeed;
  }

  lemma OutOfTimeStop(c: Config, e: Env, s: State, call: Call, t: State, v: int)
    requires s.life.status == Finalized && Stops(call) && StopStep(c, e, s, call) == Accept(t, v)
    ensures t.life == s.life && t.podium == s.podium
  {
  }

  lemma OutOfTimeOther(c: Config, s: State, call: Call, t: State, v: int)
    requires (Transfer(call) && TransferStep(c, s, call) == Accept(t, v))
          || (Settings(call) && SettingStep(c, s, call) == Accept(t, v))
    ensures t.life == s.life && t.podium == s.podium
  {
  }

  lemma FinalizedIsUnlocked(d: Digests, c: Config, s: State)
    requires Inv(d, c, s) && s.life.status == Finalized
    ensures !s.life.lock && s.podium.finalizedAt.Some?
  {
  }

  lemma OutOfTimeStep(d: Digests, c: Config, e: Env, s: State, call: Call)
    requires Valid(c) && Inv(d, c, s) && OutOfTime(c, s)
    ensures var t := After(d, c, e, s, call);
            t.life == s.life && t.podium == s.podium
  {
    hide Inv, Valid, SaleStep, DrawStep, DeliveryStep, PayoutStep, RefundStep, StopStep, TransferStep, SettingStep;
    FinalizedIsUnlocked(d, c, s);
    OutOfTimeRejects(d, c, e, s, call);
    OutOfTimePayout(c, e, s, call);
    var o := Step(d, c, e, s, call);
    if o.Accept? {
      if Stops(call) {
        OutOfTimeStop(c, e, s, call, o.post, o.value);
      } else {
        OutOfTimeOther(c, s, call, o.post, o.value);
      }
    }
  }

  lemma {:induction false} OutOfTimeStays(d: Digests, c: Config, s: State, run: Run)
    requires Valid(c) && Inv(d, c, s) && OutOfTime(c, s) && s.purse.fees >= 0
    ensures var t := Execute(d, c, s, run);
            Inv(d, c, t) && t.life == s.life && t.podium == s.podium && t.purse.fees >= 0
    decreases |run|
  {
    hide After, Inv, Valid;
    if run != [] {
      var n := |run| - 1;
      OutOfTimeStays(d, c, s, run[..n]);
      var t := Execute(d, c, s, run[..n]);
      OutOfTimeStep(d, c, run[n].0, t, run[n].1);
      ValidShape(c);
      StepKeeps(d, c, run[n].0, t, run[n].1);
      Wiping.StepFees(d, c, run[n].0, t, run[n].1);
    }
  }

  lemma OutOfTimeNeverPays(d: Digests, c: Config, s: State, run: Run)
    requires Valid(c) && Inv(d, c, s) && OutOfTime(c, s) && s.purse.fees == 0 && Owed(c, s) > 0
    ensures !PaysAll(d, c, s, run)
  {
    OutOfTimeStays(d, c, s, run);
  }

  /** It happens when the deadline itself is that late. */
  lemma OutOfTimeIsReached(d: Digests, c: Config, n: nat)
    requires Valid(c) && c.protocolFeeBp == 0 && !c.noDeadline && Reachability.OnChain(c.source)
    requires Max(1, c.minTickets) <= n < c.maxTickets && |c.prizes| <= n
    requires c.endTime + LockupSeconds(c) >= U64_LIMIT
    ensures var s := Reached(d, c, Reachability.DrawRun(c, n));
            OutOfTime(c, s) && Owed(c, s) == c.prizeAmount > 0
  {
    hide After;
    Reachability.DrawnIsReached(d, c, n);
    var run := Reachability.DrawRun(c, n);
    ReachedInv(d, c, run);
    NothingPaidOwesPool(c, Reached(d, c, run).podium.winners);
  }

  lemma NothingPaidOwesPool(c: Config, winners: seq<Winner>)
    requires Valid(c) && |winners| == |c.prizes| && forall i :: 0 <= i < |winners| ==> !winners[i].claimed
    ensures UnclaimedFrom(c, winners, |c.prizes|) == c.prizeAmount
  {
    NothingPaid(c, winners, |c.prizes|);
    PaidAndUnclaimed(c, winners, |c.prizes|);
    TierPrizes.TierPrizesSumToPool(c.prizeAmount, c.prizes);
  }

  // ---------------------------------------------------------------------------
  // Every reached state

  lemma SoundPaysAll(d: Digests, c: Config, s: State) returns (run: Run)
    requires Valid(c) && Inv(d, c, s) && Sound(c, s) && !(OutOfTime(c, s) && Owed(c, s) > 0)
    ensures PaysAll(d, c, s, run)
  {
    match s.life.status
    case PendingPrize | Claimed =>
      NothingOwedYet(d, c, s);
      run := [];
    case Active | Drawing => run := CancelAndRefund(d, c, s);
    case Cancelled | Failed => run := RefundsPayAll(d, c, s);
    case Finalized =>
      if LockupFits(c, s.podium) {
        run := ClaimsPayAll(d, c, s);
      } else {
        OwedIsNatural(d, c, s);
        run := [];
      }
  }

  lemma OwedIsNatural(d: Digests, c: Config, s: State)
    requires Claimable(d, c, s)
    ensures Owed(c, s) >= 0
  {
    UnclaimedIsNonNegative(c, s.podium.winners, |c.prizes|);
  }

  /** From every state of a fee-free, list-priced run some further run pays out exactly what is
      owed and leaves nothing owed, unless prizes are due whose lock-up never ends. */
  lemma FullPaymentIff(d: Digests, c: Config, run: Run)
    requires Valid(c) && ListPriced(c) && c.protocolFeeBp == 0 && FeeFree(run)
    ensures var s := Reached(d, c, run);
            (exists more: Run :: PaysAll(d, c, s, more)) <==> !(OutOfTime(c, s) && Owed(c, s) > 0)
  {
    hide After;
    ReachedSound(d, c, run);
    var s := Reached(d, c, run);
    if OutOfTime(c, s) && Owed(c, s) > 0 {
      forall more: Run
        ensures !PaysAll(d, c, s, more)
      {
        OutOfTimeNeverPays(d, c, s, more);
      }
    } else {
      var more := SoundPaysAll(d, c, s);
    }
  }
}
