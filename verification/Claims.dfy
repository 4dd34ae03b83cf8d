/** The prize is paid exactly once: per tier, in total, and to the end by sweeping. */
module Claims {
  import opened Common
  import opened Config
  import opened Escrow
  import opened Invariants
  import opened Record
  import opened Solvency
  import TierPrizes

  function PrizeAt(c: Config, tier: nat): int
    requires tier < |c.prizes|
  {
    TierPrizes.TierPrize(c.prizeAmount, c.prizes, tier)
  }

  // ---------------------------------------------------------------------------
  // What the payment history says in every reachable state

  lemma {:induction false} AllPaid(c: Config, winners: seq<Winner>, n: nat)
    requires n <= |winners| && n <= |c.prizes| && AllClaimed(winners)
    ensures PaidFrom(c, winners, n) == TierPrizes.PrizeSum(c.prizeAmount, c.prizes, n)
  {
    if n > 0 {
      AllPaid(c, winners, n - 1);
    }
  }

  /** A drawn raffle is Claimed exactly when every tier has been paid once; until then some
      tier has not been paid at all. No tier is ever paid twice. */
  lemma ClaimedIffPaid(d: Digests, c: Config, run: Run)
    requires Valid(c)
    ensures var s := Reached(d, c, run);
            && (forall t: nat :: Sum(s.purse.log, PrizesOf(t)) <= 1)
            && (forall t: nat :: t >= |c.prizes| ==> Sum(s.purse.log, PrizesOf(t)) == 0)
            && (s.life.status == Claimed <==> forall t: nat :: t < |c.prizes| ==> Sum(s.purse.log, PrizesOf(t)) == 1)
  {
    hide After;
    ReachedInv(d, c, run);
    var s := Reached(d, c, run);
    if s.life.status != Claimed {
      var t := UnpaidTier(d, c, s);
      assert Sum(s.purse.log, PrizesOf(t)) == 0;
    }
  }

  lemma UnpaidTier(d: Digests, c: Config, s: State) returns (t: nat)
    requires Shape(c) && Inv(d, c, s) && s.life.status != Claimed
    ensures t < |c.prizes| && !(t < |s.podium.winners| && s.podium.winners[t].claimed)
  {
    t := 0;
    if s.life.status == Finalized {
      t :| t < |s.podium.winners| && !s.podium.winners[t].claimed;
    }
  }

  /** The full prizes of the tiers paid never exceed the pool, and at Claimed make it up. */
  lemma PaidOutIsPrize(d: Digests, c: Config, run: Run)
    requires Valid(c)
    ensures var s := Reached(d, c, run);
            && 0 <= Sum(s.purse.log, PrizeGross) <= c.prizeAmount
            && (s.life.status == Claimed ==> Sum(s.purse.log, PrizeGross) == c.prizeAmount)
  {
    hide After;
    ReachedInv(d, c, run);
    var s := Reached(d, c, run);
    var n := Min(|s.podium.winners|, |c.prizes|);
    PaidAndUnclaimed(c, s.podium.winners, n);
    UnclaimedIsNonNegative(c, s.podium.winners, n);
    PaidIsNonNegative(c, s.podium.winners, n);
    TierPrizes.TierPrizesSumToPool(c.prizeAmount, c.prizes);
    if s.life.status == Claimed {
      AllPaid(c, s.podium.winners, n);
    }
  }

  lemma {:induction false} PaidIsNonNegative(c: Config, winners: seq<Winner>, n: nat)
    requires n <= |winners| && n <= |c.prizes| && Valid(c)
    ensures PaidFrom(c, winners, n) >= 0
  {
    if n > 0 {
      PaidIsNonNegative(c, winners, n - 1);
      TierPrizes.TierPrizeIsNonNegative(c.prizeAmount, c.prizes, n - 1);
    }
  }

  // ---------------------------------------------------------------------------
  // The tokens that winners and treasury received

  ghost predicate AllJustified(c: Config, s: State, log: seq<Payment>)
  {
    forall i :: 0 <= i < |log| ==>
      Justified(c, s.life.status, s.controls.feeBp, s.podium.winners, s.book.tickets, log[i])
  }

  /** What a paid tier's prize comes to after the fee that may be withheld from it. */
  predicate FullOrLessFee(c: Config, feeBp: u32, tier: nat, received: int)
    requires tier < |c.prizes|
  {
    received == PrizeAt(c, tier) || received == PrizeAt(c, tier) - CeilFee(PrizeAt(c, tier), feeBp)
  }

  lemma {:induction false} CountsAreNatural(log: seq<Payment>, t: nat)
    ensures Sum(log, PrizesOf(t)) >= 0
    ensures Sum(log, PrizesOf(t)) == 0 ==> Sum(log, NetOf(t)) == 0
  {
    if log != [] {
      CountsAreNatural(log[..|log| - 1], t);
    }
  }

  lemma {:induction false} OnePaymentIsFull(c: Config, s: State, log: seq<Payment>, t: nat)
    requires t < |c.prizes| && AllJustified(c, s, log) && Sum(log, PrizesOf(t)) == 1
    ensures FullOrLessFee(c, s.controls.feeBp, t, Sum(log, NetOf(t)))
  {
    var n := |log| - 1;
    CountsAreNatural(log[..n], t);
    if Weigh(PrizesOf(t), log[n]) == 0 {
      OnePaymentIsFull(c, s, log[..n], t);
    } else {
      assert Justified(c, s.life.status, s.controls.feeBp, s.podium.winners, s.book.tickets, log[n]);
    }
  }

  /** Tier by tier, the tokens that left the contract as its prize: none before it is paid, and
      then the whole prize, less at most the claim fee rounded up. */
  lemma TierIsPaidInFull(d: Digests, c: Config, run: Run, t: nat)
    requires Valid(c) && t < |c.prizes|
    ensures var s := Reached(d, c, run);
            if t < |s.podium.winners| && s.podium.winners[t].claimed
            then FullOrLessFee(c, s.controls.feeBp, t, Sum(s.purse.log, NetOf(t)))
            else Sum(s.purse.log, NetOf(t)) == 0
  {
    hide After;
    var s := Reached(d, c, run);
    assert PrizeHistory(c, s.purse.log, s.podium.winners) by {
      ReachedInv(d, c, run);
    }
    if t < |s.podium.winners| && s.podium.winners[t].claimed {
      PaymentsAreJustified(d, c, run);
      OnePaymentIsFull(c, s, s.purse.log, t);
    } else {
      CountsAreNatural(s.purse.log, t);
    }
  }

  lemma {:induction false} NetIsGross(c: Config, s: State, log: seq<Payment>)
    requires AllJustified(c, s, log) && s.controls.feeBp == 0
    ensures Sum(log, PrizeNet) == Sum(log, PrizeGross)
  {
    if log != [] {
      var n := |log| - 1;
      NetIsGross(c, s, log[..n]);
      assert Justified(c, s.life.status, 0, s.podium.winners, s.book.tickets, log[n]);
      if log[n].PrizeOut? {
        NoClaimFee(log[n].gross);
      }
    }
  }

  /** Without a protocol fee the tokens that winners and treasury received as prizes never
      exceed the prize amount, and are exactly it once the raffle is Claimed. */
  lemma ReceivedIsPrize(d: Digests, c: Config, run: Run)
    requires Valid(c) && Reached(d, c, run).controls.feeBp == 0
    ensures var s := Reached(d, c, run);
            && 0 <= Sum(s.purse.log, PrizeNet) <= c.prizeAmount
            && (s.life.status == Claimed ==> Sum(s.purse.log, PrizeNet) == c.prizeAmount)
  {
    hide After;
    PaidOutIsPrize(d, c, run);
    PaymentsAreJustified(d, c, run);
    NetIsGross(c, Reached(d, c, run), Reached(d, c, run).purse.log);
  }

  /** Refunds and prizes never happen in one run, no ticket is refunded twice even across a
      wipe, and the deposit is returned at most once. */
  lemma RefundsAndPrizesExclude(d: Digests, c: Config, run: Run)
    requires Valid(c)
    ensures var log := Reached(d, c, run).purse.log;
            && (Sum(log, RefundCount) == 0 || Sum(log, PrizeCount) == 0)
            && (forall id: int :: Sum(log, RefundsOf(id)) <= 1)
            && Sum(log, PrizeReturns) <= 1
  {
    hide After;
    ReachedInv(d, c, run);
  }

  lemma {:induction false} PaidTierIsLogged(log: seq<Payment>, t: nat) returns (i: nat)
    requires Sum(log, PrizesOf(t)) > 0
    ensures i < |log| && log[i].PrizeOut? && log[i].tier == t
  {
    var n := |log| - 1;
    if Weigh(PrizesOf(t), log[n]) > 0 {
      i := n;
    } else {
      i := PaidTierIsLogged(log[..n], t);
    }
  }

  /** A raffle with a tier worth nothing can never be settled. */
  lemma WorthlessTierNeverSettles(d: Digests, c: Config, run: Run, t: nat)
    requires Valid(c) && t < |c.prizes| && TierPrizes.TierPrize(c.prizeAmount, c.prizes, t) <= 0
    ensures Reached(d, c, run).life.status != Claimed
  {
    hide After;
    var s := Reached(d, c, run);
    if s.life.status == Claimed {
      ClaimedIffPaid(d, c, run);
      PaymentsAreJustified(d, c, run);
      var i := PaidTierIsLogged(s.purse.log, t);
      assert false;
    }
  }

  // ---------------------------------------------------------------------------
  // Sweeping to the end

  /** A finalized raffle whose prizes have expired and are all covered. */
  ghost predicate Sweepable(c: Config, s: State)
  {
    && s.life.status == Finalized && s.podium.finalizedAt.Some?
    && |s.podium.winners| == |c.prizes| && !AllClaimed(s.podium.winners)
    && ExpirySeconds(c) > 0 && c.treasury.Some?
    && s.purse.balance >= UnclaimedFrom(c, s.podium.winners, |c.prizes|)
  }

  predicate PrizesExpired(c: Config, s: State, now: int)
  {
    s.podium.finalizedAt.Some? && now >= s.podium.finalizedAt.value + ExpirySeconds(c)
  }

  lemma {:induction false} UnclaimedIncludes(c: Config, winners: seq<Winner>, tier: nat, n: nat)
    requires tier < n <= |winners| && n <= |c.prizes| && Valid(c) && !winners[tier].claimed
    ensures UnclaimedFrom(c, winners, n) >= PrizeAt(c, tier)
  {
    UnclaimedIsNonNegative(c, winners, n - 1);
    if tier < n - 1 {
      UnclaimedIncludes(c, winners, tier, n - 1);
      TierPrizes.TierPrizeIsNonNegative(c.prizeAmount, c.prizes, n - 1);
    }
  }

  /** One sweep pays exactly the unpaid tiers of its window that are worth something. */
  lemma {:induction false} SweepPaysWindow(c: Config, s: State, treasury: Address, i: nat, end: nat)
    requires Valid(c) && end <= |s.podium.winners| == |c.prizes|
    requires s.purse.balance >= UnclaimedFrom(c, s.podium.winners, |c.prizes|)
    ensures var o := SweepTiers(c, s, treasury, i, end);
            && o.Accept? && |o.post.podium.winners| == |c.prizes|
            && (forall j :: 0 <= j < |c.prizes| ==>
                 (o.post.podium.winners[j].claimed <==>
                  s.podium.winners[j].claimed || (i <= j < end && PrizeAt(c, j) > 0)))
            && o.post.purse.balance >= UnclaimedFrom(c, o.post.podium.winners, |c.prizes|)
    decreases end - i
  {
    if i < end {
      var amount := PrizeAt(c, i);
      if s.podium.winners[i].claimed || amount <= 0 {
        SweepPaysWindow(c, s, treasury, i + 1, end);
      } else {
        UnclaimedIncludes(c, s.podium.winners, i, |c.prizes|);
        UnclaimedMarks(c, s.podium.winners, i, |c.prizes|);
        var t := s.(podium := s.podium.(winners := MarkClaimed(s.podium.winners, i)),
                    purse := Pay(s.purse, PrizeOut(i, treasury, amount, amount)));
        SweepPaysWindow(c, t, treasury, i + 1, end);
      }
    }
  }

  /** What the first `done` tiers of a sweep have come to, starting from `s`. */
  ghost predicate SweptTo(c: Config, s: State, t: State, done: nat)
    requires |s.podium.winners| == |c.prizes|
  {
    && |t.podium.winners| == |c.prizes| && t.podium.finalizedAt == s.podium.finalizedAt
    && t.purse.balance >= UnclaimedFrom(c, t.podium.winners, |c.prizes|)
    && t.life.status == (if AllClaimed(t.podium.winners) then Claimed else Finalized)
    && forall j :: 0 <= j < |c.prizes| ==>
         (t.podium.winners[j].claimed <==> s.podium.winners[j].claimed || (j < done && PrizeAt(c, j) > 0))
  }

  lemma SweepAdvances(c: Config, e: Env, s: State, t: State, start: u32, limit: u32)
    requires Valid(c) && Sweepable(c, s) && SweptTo(c, s, t, start) && start < |c.prizes|
    requires PrizesExpired(c, s, e.now) && (limit == 0 || limit >= MAX_SWEEP_UNCLAIMED_PER_CALL)
    ensures var o := Sweep(c, e, t, start, limit);
            SweptTo(c, s, if o.Accept? then o.post else t, start + MAX_SWEEP_UNCLAIMED_PER_CALL)
  {
    if t.life.status == Finalized {
      var end := SweepEnd(t, start, limit);
      SweepPaysWindow(c, t, c.treasury.value, start, end);
      SweepFrame(c, t, c.treasury.value, start, end);
    }
  }

  /** Consecutive sweeps of ten tiers each, starting at tier 0. */
  predicate SweepRun(c: Config, s: State, run: Run)
  {
    forall i :: 0 <= i < |run| ==>
      && run[i].1.SweepUnclaimed?
      && run[i].1.start == MAX_SWEEP_UNCLAIMED_PER_CALL * i
      && (run[i].1.limit == 0 || run[i].1.limit >= MAX_SWEEP_UNCLAIMED_PER_CALL)
      && PrizesExpired(c, s, run[i].0.now)
  }

  lemma SweepIsStep(d: Digests, c: Config, e: Env, s: State, start: u32, limit: u32)
    ensures Step(d, c, e, s, SweepUnclaimed(start, limit)) == Sweep(c, e, s, start, limit)
  {
  }

  lemma {:induction false} SweepsCompose(d: Digests, c: Config, s: State, run: Run)
    requires Valid(c) && Sweepable(c, s) && SweepRun(c, s, run)
    requires MAX_SWEEP_UNCLAIMED_PER_CALL * |run| < |c.prizes| + MAX_SWEEP_UNCLAIMED_PER_CALL
    ensures SweptTo(c, s, Execute(d, c, s, run), MAX_SWEEP_UNCLAIMED_PER_CALL * |run|)
    decreases |run|
  {
    if run != [] {
      var n := |run| - 1;
      SweepsCompose(d, c, s, run[..n]);
      var t := Execute(d, c, s, run[..n]);
      var call := run[n].1;
      SweepAdvances(c, run[n].0, s, t, call.start, call.limit);
      SweepIsStep(d, c, run[n].0, t, call.start, call.limit);
    }
  }

  /** Sweeping windows 0, 10, 20, … settles an expired raffle within ceil(tiers / 10) calls,
      exactly when every tier still unpaid is worth something. */
  lemma SweepSettlesIff(d: Digests, c: Config, s: State, run: Run)
    requires Valid(c) && Sweepable(c, s) && SweepRun(c, s, run)
    requires |run| == (|c.prizes| + MAX_SWEEP_UNCLAIMED_PER_CALL - 1) / MAX_SWEEP_UNCLAIMED_PER_CALL
    ensures Execute(d, c, s, run).life.status == Claimed <==>
              forall j :: 0 <= j < |c.prizes| && !s.podium.winners[j].claimed ==> PrizeAt(c, j) > 0
  {
    SweepsCompose(d, c, s, run);
  }

  /** So with every tier at least one basis point, every expired drawn raffle that a fee-free,
      list-priced run reaches is settled by such a sweep, and has then paid out the whole prize. */
  lemma SweepSettlesReached(d: Digests, c: Config, run: Run, sweep: Run)
    requires Valid(c) && ListPriced(c) && c.protocolFeeBp == 0 && FeeFree(run)
    requires forall j :: 0 <= j < |c.prizes| ==> c.prizes[j] >= 1
    requires var s := Reached(d, c, run);
             s.life.status == Finalized && ExpirySeconds(c) > 0 && c.treasury.Some? && SweepRun(c, s, sweep)
    requires |sweep| == (|c.prizes| + MAX_SWEEP_UNCLAIMED_PER_CALL - 1) / MAX_SWEEP_UNCLAIMED_PER_CALL
    ensures var t := Execute(d, c, Reached(d, c, run), sweep);
            t.life.status == Claimed && Sum(t.purse.log, PrizeNet) == c.prizeAmount
  {
    hide After;
    var s := Reached(d, c, run);
    ReachedSound(d, c, run);
    forall j | 0 <= j < |c.prizes|
      ensures PrizeAt(c, j) > 0
    {
      TierPrizes.TierPrizeIsPositive(c.prizeAmount, c.prizes, j);
    }
    SweepSettlesIff(d, c, s, sweep);
    RunsConcatenate(d, c, Initial(c), run, sweep);
    FeeStays(d, c, s, sweep);
    ReceivedIsPrize(d, c, run + sweep);
  }

  /** The fee cannot change once a ticket is sold. */
  lemma {:induction false} FeeStays(d: Digests, c: Config, s: State, run: Run)
    requires Shape(c) && Inv(d, c, s) && s.book.sold > 0
    ensures Execute(d, c, s, run).controls.feeBp == s.controls.feeBp
    decreases |run|
  {
    if run != [] {
      var n := |run| - 1;
      var t := Execute(d, c, s, run[..n]);
      FeeStays(d, c, s, run[..n]);
      RecordIsFrozen(d, c, s, run[..n]);
      StepIsKept(d, c, run[n].0, t, run[n].1);
    }
  }

  lemma {:induction false} RunsConcatenate(d: Digests, c: Config, s: State, first: Run, second: Run)
    ensures Execute(d, c, s, first + second) == Execute(d, c, Execute(d, c, s, first), second)
    decreases |second|
  {
    if second == [] {
      assert first + second == first;
    } else {
      var n := |second| - 1;
      assert (first + second)[..|first| + n] == first + second[..n];
      RunsConcatenate(d, c, s, first, second[..n]);
    }
  }
}
