/** Runs that exist: raffles that sell any number of tickets, sell out, or are drawn, and the
    states in which the failures proved elsewhere actually happen. */
module Reachability {
  import opened Common
  import opened Config
  import opened Escrow
  import opened Invariants
  import opened Outcomes
  import opened Record
  import opened Solvency
  import Claims
  import Liveness
  import Pricing
  import TierPrizes
  import Wiping

  // ---------------------------------------------------------------------------
  // Selling tickets one by one

  /** The deposit, then `n` gifts of one ticket each, the i-th to address i. */
  function SaleRun(c: Config, n: nat): Run
    requires c.prizeAmount >= 0 && c.ticketPrice >= 0
  {
    if n == 0 then [(Plain(c.prizeAmount), DepositPrize)]
    else SaleRun(c, n - 1) + [(Plain(c.ticketPrice), BuyTicketsFor(0, n, 1))]
  }

  /** A raffle on sale that has sold `n` tickets to addresses 1 to `n`. */
  ghost predicate OnSale(c: Config, s: State, n: nat)
  {
    && s.life == Life(Active, true, false, None) && s.book.sold == n
    && (forall a :: a in s.book.counts ==> 1 <= a <= n)
    && s.book.commits == map[]
    && s.controls == Controls(c.protocolFeeBp, None, false, false)
    && s.panel == Panel([], map[])
    && (c.protocolFeeBp == 0 ==> s.purse.fees == 0 && s.purse.balance == c.prizeAmount + c.ticketPrice * n)
  }

  lemma GiftCharge(c: Config, feeBp: u32)
    requires Valid(c) && feeBp <= BASIS_POINTS
    ensures c.ticketPrice * 1 <= I128_MAX && (c.ticketPrice * 1) * feeBp <= I128_MAX
  {
    Pricing.ProductsFit(c.ticketPrice, feeBp, MAX_PRIZE_AMOUNT, BASIS_POINTS);
  }

  /** What the next gift leads to. */
  ghost predicate GiftLeadsTo(c: Config, s: State, n: nat, t: State)
  {
    && t.book.sold == n + 1
    && (if n + 1 < c.maxTickets then OnSale(c, t, n + 1)
        else t.life.status == Drawing && t.life.request == (if c.source.External? then Some(Request(0, 0)) else None))
  }

  lemma GiftAccepted(c: Config, s: State, n: nat) returns (t: State)
    requires Valid(c) && OnSale(c, s, n) && n < c.maxTickets
    ensures Gives(BuyFor(c, Plain(c.ticketPrice), s, 0, n + 1, 1), t) && GiftLeadsTo(c, s, n, t)
  {
    GiftCharge(c, c.protocolFeeBp);
    if c.protocolFeeBp == 0 {
      ZeroFee(c.ticketPrice * 1);
      assert c.ticketPrice * (n + 1) == c.ticketPrice * n + c.ticketPrice;
    }
    t := BuyFor(c, Plain(c.ticketPrice), s, 0, n + 1, 1).post;
  }

  lemma GiftIsStep(d: Digests, c: Config, e: Env, s: State, buyer: Address, recipient: Address, quantity: u32)
    ensures Step(d, c, e, s, BuyTicketsFor(buyer, recipient, quantity)) == BuyFor(c, e, s, buyer, recipient, quantity)
  {
  }

  /** A call that leads from the state a run reaches to `t` extends the run to `t`. */
  lemma CallExtends(d: Digests, c: Config, run: Run, e: Env, call: Call, t: State)
    requires Gives(Step(d, c, e, Reached(d, c, run), call), t)
    ensures Reached(d, c, run + [(e, call)]) == t
  {
    hide Step, Reached;
    RunExtends(d, c, run, e, call);
  }

  lemma GiftExtends(d: Digests, c: Config, before: Run, s: State, n: nat) returns (t: State)
    requires Valid(c) && Reached(d, c, before) == s && OnSale(c, s, n) && n < c.maxTickets
    ensures Reached(d, c, before + [(Plain(c.ticketPrice), BuyTicketsFor(0, n + 1, 1))]) == t && GiftLeadsTo(c, s, n, t)
  {
    hide OnSale, GiftLeadsTo, BuyFor, Step, Reached;
    t := GiftAccepted(c, s, n);
    GiftIsStep(d, c, Plain(c.ticketPrice), s, 0, n + 1, 1);
    CallExtends(d, c, before, Plain(c.ticketPrice), BuyTicketsFor(0, n + 1, 1), t);
  }

  lemma SaleRunGrows(c: Config, n: nat)
    requires c.prizeAmount >= 0 && c.ticketPrice >= 0
    ensures SaleRun(c, n + 1) == SaleRun(c, n) + [(Plain(c.ticketPrice), BuyTicketsFor(0, n + 1, 1))]
  {
  }

  lemma DepositStarts(d: Digests, c: Config)
    requires Valid(c)
    ensures OnSale(c, Reached(d, c, SaleRun(c, 0)), 0)
  {
    var deposit := [(Plain(c.prizeAmount), DepositPrize)];
    DepositReached(d, c, [], Initial(c));
    assert [] + deposit == deposit;
    assert c.ticketPrice * 0 == 0;
  }

  lemma OneMoreOnSale(d: Digests, c: Config, before: Run, after: Run, n: nat)
    requires Valid(c) && OnSale(c, Reached(d, c, before), n) && n + 1 < c.maxTickets
    requires after == before + [(Plain(c.ticketPrice), BuyTicketsFor(0, n + 1, 1))]
    ensures OnSale(c, Reached(d, c, after), n + 1)
  {
    hide OnSale, Reached;
    var t := GiftExtends(d, c, before, Reached(d, c, before), n);
  }

  /** Every valid raffle can be on sale with any number of tickets sold. */
  lemma {:induction false} SaleReached(d: Digests, c: Config, n: nat)
    requires Valid(c) && n < c.maxTickets
    ensures OnSale(c, Reached(d, c, SaleRun(c, n)), n)
  {
    hide OnSale, Reached;
    if n == 0 {
      DepositStarts(d, c);
    } else {
      SaleReached(d, c, n - 1);
      SaleRunGrows(c, n - 1);
      OneMoreOnSale(d, c, SaleRun(c, n - 1), SaleRun(c, n), n - 1);
    }
  }

  /** And every valid raffle can sell out; unless its source is external it then waits for
      randomness that nobody was asked for, and no further run draws it. */
  lemma SoldOutIsReached(d: Digests, c: Config)
    requires Valid(c)
    ensures var s := Reached(d, c, SaleRun(c, c.maxTickets));
            && s.life.status == Drawing && s.book.sold == c.maxTickets
            && s.life.request == (if c.source.External? then Some(Request(0, 0)) else None)
            && (!c.source.External? ==> forall run: Run :: !Drawn(Execute(d, c, s, run).life.status))
  {
    hide OnSale, After, Inv;
    var n: nat := c.maxTickets - 1;
    SaleReached(d, c, n);
    SaleRunGrows(c, n);
    var t := GiftExtends(d, c, SaleRun(c, n), Reached(d, c, SaleRun(c, n)), n);
    ReachedInv(d, c, SaleRun(c, n + 1));
    if !c.source.External? {
      forall run: Run
        ensures !Drawn(Execute(d, c, t, run).life.status)
      {
        SoldOutDrawIsStuck(d, c, t, run);
      }
    }
  }

  // ---------------------------------------------------------------------------
  // Finalizing at the deadline

  function AtDeadline(c: Config): Env
  {
    Env(c.endTime, 0, false, 0, 0, 0)
  }

  lemma FinalizeIsStep(d: Digests, c: Config, e: Env, s: State)
    ensures Step(d, c, e, s, FinalizeRaffle) == Finalize(d, c, e, s)
  {
  }

  /** A source whose seed the contract computes itself. */
  predicate OnChain(source: RandomnessSource)
  {
    !AsksOracles(source)
  }

  function DrawRun(c: Config, n: nat): Run
    requires c.prizeAmount >= 0 && c.ticketPrice >= 0
  {
    SaleRun(c, n) + [(AtDeadline(c), FinalizeRaffle)]
  }

  lemma OnSaleAtDeadline(d: Digests, c: Config, n: nat)
    requires Valid(c) && !c.noDeadline && n < c.maxTickets
    ensures var s := Reached(d, c, SaleRun(c, n));
            && Inv(d, c, s) && OnSale(c, s, n) && Expired(c, AtDeadline(c))
  {
    hide After;
    SaleReached(d, c, n);
    ReachedInv(d, c, SaleRun(c, n));
  }

  /** Selling at least the minimum but fewer tickets than tiers leads a raffle with an on-chain
      source to a state that its deadline does not let anybody finalize. */
  lemma UnfinalizableIsReached(d: Digests, c: Config, n: nat)
    requires Valid(c) && !c.noDeadline && OnChain(c.source) && Max(1, c.minTickets) <= n < |c.prizes| && n < c.maxTickets
    ensures var s := Reached(d, c, SaleRun(c, n));
            && s.life.status == Active && Expired(c, AtDeadline(c))
            && Finalize(d, c, AtDeadline(c), s).Reject?
  {
    OnSaleAtDeadline(d, c, n);
    ExpiredFinalizesIff(d, c, AtDeadline(c), Reached(d, c, SaleRun(c, n)));
  }

  /** With a ticket for every tier it is drawn at the deadline, and keeps its takings. */
  lemma DrawnIsReached(d: Digests, c: Config, n: nat)
    requires Valid(c) && !c.noDeadline && OnChain(c.source)
    requires Max(1, c.minTickets) <= n < c.maxTickets && |c.prizes| <= n
    ensures var t := Reached(d, c, DrawRun(c, n));
            && t.life.status == Finalized && t.podium.finalizedAt == Some(c.endTime)
            && t.controls.feeBp == c.protocolFeeBp
            && (c.protocolFeeBp == 0 ==> t.purse.fees == 0 && t.purse.balance == c.prizeAmount + c.ticketPrice * n)
            && forall i :: 0 <= i < |t.podium.winners| ==> !t.podium.winners[i].claimed
  {
    OnSaleAtDeadline(d, c, n);
    var e, s := AtDeadline(c), Reached(d, c, SaleRun(c, n));
    ExpiredFinalizesIff(d, c, e, s);
    var t := Finalize(d, c, e, s).post;
    DrawnAtOnce(d, c, e, s, t);
    FinalizeIsStep(d, c, e, s);
    CallExtends(d, c, SaleRun(c, n), e, FinalizeRaffle, t);
  }

  lemma DrawnAtOnce(d: Digests, c: Config, e: Env, s: State, t: State)
    requires Gives(Finalize(d, c, e, s), t) && t.life.status == Finalized
    ensures t.podium.finalizedAt == Some(e.now) && t.purse == s.purse && t.controls == s.controls
    ensures forall i :: 0 <= i < |t.podium.winners| ==> !t.podium.winners[i].claimed
  {
  }

  /** A quorum raffle with `n` tickets sold that waits for its first delivery. */
  ghost predicate OracleCalled(c: Config, s: State, n: nat)
  {
    && s.life == Life(Drawing, true, true, Some(Request(0, 0))) && s.book.sold == n && s.panel == Panel([], map[])
    && (c.protocolFeeBp == 0 ==> s.purse.fees == 0 && s.purse.balance == c.prizeAmount + c.ticketPrice * n)
  }

  lemma OraclesAreCalled(d: Digests, c: Config, n: nat)
    requires Valid(c) && !c.noDeadline && c.source.Quorum? && Max(1, c.minTickets) <= n < c.maxTickets
    ensures OracleCalled(c, Reached(d, c, DrawRun(c, n)), n)
  {
    OnSaleAtDeadline(d, c, n);
    var e, s := AtDeadline(c), Reached(d, c, SaleRun(c, n));
    ExpiredFinalizesIff(d, c, e, s);
    var t := Finalize(d, c, e, s).post;
    hide Reached, Inv, OnSale, Finalize, Step;
    CallingOracles(d, c, s, t, n);
    FinalizeIsStep(d, c, e, s);
    CallExtends(d, c, SaleRun(c, n), e, FinalizeRaffle, t);
  }

  lemma CallingOracles(d: Digests, c: Config, s: State, t: State, n: nat)
    requires c.source.Quorum? && OnSale(c, s, n)
    requires Gives(Finalize(d, c, AtDeadline(c), s), t) && t.life.status == Drawing
    ensures OracleCalled(c, t, n)
  {
  }

  /** A quorum that lists fewer different oracles than it needs is accepted, asked for
      randomness at the deadline, and then never drawn, by any run. */
  lemma RepeatedOraclesAreReached(d: Digests, c: Config, n: nat)
    requires Valid(c) && !c.noDeadline && Max(1, c.minTickets) <= n < c.maxTickets
    requires c.source.Quorum? && |Liveness.OracleSet(c.source.oracles)| < c.source.k
    ensures var t := Reached(d, c, DrawRun(c, n));
            && t.life.status == Drawing && t.life.request.Some?
            && forall run: Run :: !Drawn(Execute(d, c, t, run).life.status)
  {
    hide Reached, Inv;
    OraclesAreCalled(d, c, n);
    ReachedInv(d, c, DrawRun(c, n));
    Liveness.DrawableIff(d, c, Reached(d, c, DrawRun(c, n)));
  }

  // ---------------------------------------------------------------------------
  // A settled raffle that keeps its takings

  /** The single prize is claimed when its lock-up ends. */
  function ClaimTime(c: Config): int
  {
    c.endTime + LockupSeconds(c)
  }

  lemma ClaimIsStep(d: Digests, c: Config, e: Env, s: State, winner: Address, tier: u32)
    ensures Step(d, c, e, s, ClaimPrize(winner, tier)) == Claim(c, e, s, winner, tier)
  {
  }

  lemma OnlyTierIsPool(c: Config)
    requires Valid(c) && |c.prizes| == 1
    ensures TierPrizes.TierPrize(c.prizeAmount, c.prizes, 0) == c.prizeAmount
  {
    TierPrizes.TierPrizesSumToPool(c.prizeAmount, c.prizes);
    assert TierPrizes.PrizeSum(c.prizeAmount, c.prizes, 1)
        == TierPrizes.PrizeSum(c.prizeAmount, c.prizes, 0) + TierPrizes.TierPrize(c.prizeAmount, c.prizes, 0);
  }

  lemma OnlyPrizeClaimed(c: Config, s: State, e: Env) returns (t: State)
    requires Valid(c) && |c.prizes| == 1 && |s.podium.winners| == 1 && s.life.status == Finalized
    requires s.podium.finalizedAt == Some(c.endTime) && e.now == ClaimTime(c)
    requires s.controls.feeBp == 0 && s.purse.fees == 0 && s.purse.balance > c.prizeAmount && !s.podium.winners[0].claimed
    ensures Gives(Claim(c, e, s, s.podium.winners[0].address, 0), t)
    ensures t.life.status == Claimed && t.purse.fees == 0 && t.purse.balance == s.purse.balance - c.prizeAmount
  {
    OnlyTierIsPool(c);
    NoClaimFee(c.prizeAmount);
    t := Claim(c, e, s, s.podium.winners[0].address, 0).post;
  }

  /** Every fee-free raffle with one prize, a deadline and an on-chain source can be drawn and
      claimed with its takings still in the contract, and then no run ever wipes it. */
  lemma LockedIsReached(d: Digests, c: Config, n: nat) returns (run: Run)
    requires Valid(c) && c.protocolFeeBp == 0 && !c.noDeadline && OnChain(c.source) && |c.prizes| == 1
    requires Max(1, c.minTickets) <= n < c.maxTickets && ClaimTime(c) < U64_LIMIT
    ensures var s := Reached(d, c, run);
            && s.life.status == Claimed && s.purse.fees == 0 && s.purse.balance == c.ticketPrice * n
            && Wiping.Stranded(c, s)
            && forall more: Run :: Wipe(c, Execute(d, c, s, more)).Reject?
  {
    hide After;
    DrawnIsReached(d, c, n);
    var before, e := DrawRun(c, n), Env(ClaimTime(c), 0, false, 0, 0, 0);
    var s := Reached(d, c, before);
    assert |s.podium.winners| == 1 by {
      ReachedInv(d, c, before);
    }
    ProductIsMonotone(c.ticketPrice, 1, n);
    var t := OnlyPrizeClaimed(c, s, e);
    ClaimIsStep(d, c, e, s, s.podium.winners[0].address, 0);
    run := before + [(e, ClaimPrize(s.podium.winners[0].address, 0))];
    CallExtends(d, c, before, e, ClaimPrize(s.podium.winners[0].address, 0), t);
    Wiping.ReachedWipeableIff(d, c, run);
  }

  // ---------------------------------------------------------------------------
  // Cancelled, refunded and wiped

  /** Refund the prize and the only ticket, and wipe. */
  function SettleUp(): Run
  {
    [(Plain(0), RefundPrize), (Plain(0), RefundTicket(1)), (Plain(0), WipeStorage)]
  }

  lemma CancelIsStep(d: Digests, c: Config, e: Env, s: State)
    ensures Step(d, c, e, s, CancelRaffle(false)) == Cancel(c, e, s, false)
    ensures Step(d, c, e, s, WipeStorage) == Wipe(c, s)
  {
  }

  lemma RefundIsStep(d: Digests, c: Config, e: Env, s: State, id: int)
    ensures Step(d, c, e, s, RefundPrize) == RefundThePrize(c, s)
    ensures Step(d, c, e, s, RefundTicket(id)) == Refund(s, id)
  {
  }

  /** The deposit and the price of ticket 1 are all that the raffle holds and owes. */
  ghost predicate OneTicketDue(c: Config, s: State)
  {
    && s.life.prizeDeposited && s.book.sold == 1 && s.book.refunded == {}
    && 1 in s.book.tickets && s.book.tickets[1].pricePaid == c.ticketPrice
    && s.purse.fees == 0 && s.purse.balance == c.prizeAmount + c.ticketPrice
  }

  lemma FirstTicket(d: Digests, c: Config, s: State)
    requires Valid(c) && Inv(d, c, s) && s.book.sold == 1 && (s.life.status == Active || s.life.status == Drawing)
    requires s.purse.fees == 0 && s.purse.balance == c.prizeAmount + c.ticketPrice * 1
    ensures OneTicketDue(c, s)
  {
    assert 1 in Ids(1);
  }

  /** The states that the three calls lead through. */
  ghost predicate SettledUp(c: Config, a: State, b: State, e: State, t: State)
  {
    Gives(RefundThePrize(c, a), b) && Gives(Refund(b, 1), e) && Gives(Wipe(c, e), t)
  }

  lemma CanSettleUp(c: Config, a: State) returns (b: State, e: State, t: State)
    requires Valid(c) && Refunding(a.life.status) && OneTicketDue(c, a)
    ensures SettledUp(c, a, b, e, t)
    ensures Refunding(e.life.status) && e.book.sold == 1 && t.purse.balance == 0 && t.panel == a.panel
  {
    b := RefundThePrize(c, a).post;
    e := Refund(b, 1).post;
    t := Wipe(c, e).post;
  }

  lemma SettleUpExtends(d: Digests, c: Config, run: Run, a: State, b: State, e: State, t: State) returns (before: Run)
    requires a == Reached(d, c, run) && SettledUp(c, a, b, e, t)
    ensures Reached(d, c, before) == e && before + [(Plain(0), WipeStorage)] == run + SettleUp()
    ensures Reached(d, c, run + SettleUp()) == t
  {
    hide Step, Reached, Gives, RefundThePrize, Refund, Wipe;
    var first := run + [(Plain(0), RefundPrize)];
    before := first + [(Plain(0), RefundTicket(1))];
    RefundIsStep(d, c, Plain(0), a, 1);
    CallExtends(d, c, run, Plain(0), RefundPrize, b);
    RefundIsStep(d, c, Plain(0), b, 1);
    CallExtends(d, c, first, Plain(0), RefundTicket(1), e);
    CancelIsStep(d, c, Plain(0), e);
    CallExtends(d, c, before, Plain(0), WipeStorage, t);
    assert before + [(Plain(0), WipeStorage)] == run + SettleUp();
  }

  /** The creator cancels a raffle with one ticket sold. */
  lemma CancelExtends(d: Digests, c: Config, run: Run, s: State) returns (a: State)
    requires s == Reached(d, c, run) && (s.life.status == Active || s.life.status == Drawing)
    ensures Reached(d, c, run + [(Plain(0), CancelRaffle(false))]) == a
    ensures a == s.(life := s.life.(status := Cancelled))
  {
    hide Step, Reached;
    a := Cancel(c, Plain(0), s, false).post;
    CancelIsStep(d, c, Plain(0), s);
    CallExtends(d, c, run, Plain(0), CancelRaffle(false), a);
  }

  /** Every fee-free raffle that may sell a second ticket can be cancelled, refunded in full and
      wiped, and then still counts the refund it made as due. */
  lemma PhantomRefundsAreReached(d: Digests, c: Config)
    requires Valid(c) && c.protocolFeeBp == 0 && c.maxTickets >= 2
    ensures var t := Reached(d, c, SaleRun(c, 1) + [(Plain(0), CancelRaffle(false))] + SettleUp());
            t.purse.balance == 0 < Entitlement(c, t)
  {
    hide Reached, Inv, Entitlement;
    var run := SaleRun(c, 1);
    SaleReached(d, c, 1);
    ReachedInv(d, c, run);
    FirstTicket(d, c, Reached(d, c, run));
    var a := CancelExtends(d, c, run, Reached(d, c, run));
    var b, e, t := CanSettleUp(c, a);
    var before := SettleUpExtends(d, c, run + [(Plain(0), CancelRaffle(false))], a, b, e, t);
    ReachedInv(d, c, before);
    WipeLeavesPhantomRefunds(d, c, e, t);
  }

  // ---------------------------------------------------------------------------
  // A wiped raffle that still holds a delivery

  lemma DeliveryExtends(d: Digests, c: Config, run: Run, s: State, oracle: Address) returns (t: State)
    requires s == Reached(d, c, run) && c.source.Quorum? && c.source.k >= 2 && oracle in c.source.oracles
    requires s.life.lock && s.life.request == Some(Request(0, 0)) && s.panel == Panel([], map[])
    ensures Reached(d, c, run + [(Plain(0), ProvideQuorumRandomness(oracle, 0, 0))]) == t
    ensures t == s.(panel := Panel([oracle], map[oracle := 0]))
  {
    hide Step, Reached;
    t := QuorumDelivery(d, c, Plain(0), s, oracle, 0, 0).post;
    DeliveryIsStep(d, c, Plain(0), s, oracle, 0, 0);
    CallExtends(d, c, run, Plain(0), ProvideQuorumRandomness(oracle, 0, 0), t);
  }

  /** One delivery, before or after the creator cancels the pending draw; then everything is
      refunded and wiped. */
  function LeftoverRun(c: Config, oracle: Address, late: bool): Run
    requires c.prizeAmount >= 0 && c.ticketPrice >= 0
  {
    var cancel, deliver := (Plain(0), CancelRaffle(false)), (Plain(0), ProvideQuorumRandomness(oracle, 0, 0));
    (if late then DrawRun(c, 1) + [cancel] + [deliver] else DrawRun(c, 1) + [deliver] + [cancel]) + SettleUp()
  }

  /** Every fee-free quorum raffle that needs two oracles and at most one ticket can be wiped with
      a delivery still on record, even one made after the cancellation. */
  lemma LeftoversAreReached(d: Digests, c: Config, oracle: Address, late: bool)
    requires Valid(c) && c.protocolFeeBp == 0 && !c.noDeadline && c.minTickets <= 1 < c.maxTickets
    requires c.source.Quorum? && c.source.k >= 2 && oracle in c.source.oracles
    ensures var t := Reached(d, c, LeftoverRun(c, oracle, late));
            && Erased(t.life.status, t.book) && t.purse.balance == 0
            && t.panel == Panel([oracle], map[oracle := 0])
  {
    hide Reached, Inv, Erased;
    OraclesAreCalled(d, c, 1);
    var run := DrawRun(c, 1);
    var s := Reached(d, c, run);
    ReachedInv(d, c, run);
    FirstTicket(d, c, s);
    var a;
    if late {
      var s1 := CancelExtends(d, c, run, s);
      a := DeliveryExtends(d, c, run + [(Plain(0), CancelRaffle(false))], s1, oracle);
      run := run + [(Plain(0), CancelRaffle(false))] + [(Plain(0), ProvideQuorumRandomness(oracle, 0, 0))];
    } else {
      var s1 := DeliveryExtends(d, c, run, s, oracle);
      a := CancelExtends(d, c, run + [(Plain(0), ProvideQuorumRandomness(oracle, 0, 0))], s1);
      run := run + [(Plain(0), ProvideQuorumRandomness(oracle, 0, 0))] + [(Plain(0), CancelRaffle(false))];
    }
    LeftoverStays(d, c, run, a);
  }

  lemma LeftoverStays(d: Digests, c: Config, run: Run, a: State)
    requires Valid(c) && Refunding(a.life.status) && OneTicketDue(c, a) && a == Reached(d, c, run)
    ensures var t := Reached(d, c, run + SettleUp());
            Erased(t.life.status, t.book) && t.purse.balance == 0 && t.panel == a.panel
  {
    hide Reached, Inv, Valid, OneTicketDue;
    ValidShape(c);
    var b, e, t := CanSettleUp(c, a);
    var before := SettleUpExtends(d, c, run, a, b, e, t);
    ReachedInv(d, c, before);
    WipeErases(d, c, e, t);
  }

  lemma WipeErases(d: Digests, c: Config, s: State, t: State)
    requires Inv(d, c, s) && Gives(Wipe(c, s), t)
    ensures Erased(t.life.status, t.book)
  {
    WipeEmpties(c, s.life.status, s.book);
  }

  // ---------------------------------------------------------------------------
  // Configurations

  /** A small raffle with the given tiers and bundles. */
  function Example(prizes: seq<u32>, minTickets: u32, source: RandomnessSource, bundles: seq<Bundle>): Config
  {
    Config(1, 2, "", 1_000, false, 100, 10, 0, minTickets, true, 10_000, 1_000_000, prizes, source, None, 0, Some(3), 1,
           None, None, None, 0, 0, None, false, bundles)
  }

  lemma ExampleIsAccepted(prizes: seq<u32>, minTickets: u32, source: RandomnessSource, bundles: seq<Bundle>, self: Address)
    requires PrizesOk(prizes) && minTickets <= 100 && BundlesOk(bundles)
    requires source.Internal? || source.CommitReveal?
    ensures var c := Normalised(Example(prizes, minTickets, source, bundles));
            && Acceptable(Example(prizes, minTickets, source, bundles), 0, true, self)
            && !InitRefuses(c, self) && Valid(c) && Acceptable(c, 0, true, self)
  {
    NormalisedIsValid(Example(prizes, minTickets, source, bundles), 0, true, self);
  }

  /** A raffle whose second tier is worth nothing is accepted, sold and drawn, and then no run
      ever settles it. */
  lemma WorthlessTierIsReached(d: Digests) returns (c: Config)
    ensures Valid(c) && |c.prizes| == 2 && TierPrizes.TierPrize(c.prizeAmount, c.prizes, 1) == 0
    ensures forall self: Address :: Acceptable(c, 0, true, self) && !InitRefuses(c, self)
    ensures Reached(d, c, DrawRun(c, 2)).life.status == Finalized
    ensures forall run: Run :: Reached(d, c, run).life.status != Claimed
  {
    hide After;
    var prizes: seq<u32> := [10_000, 0];
    TwoTiers(prizes[0], prizes[1]);
    c := Normalised(Example(prizes, 0, Internal, []));
    forall self: Address
      ensures Acceptable(c, 0, true, self) && !InitRefuses(c, self)
    {
      ExampleIsAccepted(prizes, 0, Internal, [], self);
    }
    ExampleIsAccepted(prizes, 0, Internal, [], 0);
    LastIsRemainder(c.prizeAmount, prizes);
    DrawnIsReached(d, c, 2);
    forall run: Run
      ensures Reached(d, c, run).life.status != Claimed
    {
      Claims.WorthlessTierNeverSettles(d, c, run, 1);
    }
  }

  lemma TwoTiers(a: u32, b: u32)
    ensures Total([a, b]) == a + b
  {
    assert [a, b][..1] == [a] && [a][..0] == [];
    assert Total([a]) == a;
  }

  lemma LastIsRemainder(amount: int, prizes: seq<u32>)
    requires prizes == [10_000, 0]
    ensures TierPrizes.TierPrize(amount, prizes, 1) == 0
  {
    assert prizes[..1] == [10_000] && prizes[..1][..0] == [];
    assert TierPrizes.SharesOf(amount, prizes[..1]) == TierPrizes.Share(amount, 10_000) == amount;
  }

  // ---------------------------------------------------------------------------
  // A dearer bundle, bought

  /** Address 0 may buy `quantity` tickets, and the quote does not overflow. */
  ghost predicate MayBuy(c: Config, s: State, quantity: u32)
  {
    && s.life == Life(Active, true, false, None)
    && s.controls == Controls(c.protocolFeeBp, None, false, false)
    && quantity >= 1 && quantity <= c.maxPerTx && s.book.sold + quantity <= c.maxTickets
    && (c.maxPerAddress > 0 ==> CountOf(s.book.counts, 0) + quantity <= c.maxPerAddress)
    && Pricing.QuoteFits(c, s.book.sold, c.protocolFeeBp, quantity)
  }

  /** The state after address 0 bought `quantity` tickets for exactly their quoted cost. */
  ghost predicate Bought(c: Config, s: State, quantity: u32, t: State)
  {
    && t.book.sold == s.book.sold + quantity && t.controls == s.controls
    && CountOf(t.book.counts, 0) == CountOf(s.book.counts, 0) + quantity
    && (t.book.sold < c.maxTickets ==> t.life == s.life)
    && s.purse.log + [SaleIn(0, quantity, Pricing.Cost(c, s.book.sold, quantity))] <= t.purse.log
  }

  ghost predicate CanBuy(c: Config, s: State, quantity: u32, t: State)
  {
    (exists e :: Gives(Buy(c, e, s, 0, quantity), t)) && Bought(c, s, quantity, t)
  }

  lemma BuyAccepted(c: Config, s: State, quantity: u32) returns (t: State)
    requires Valid(c) && MayBuy(c, s, quantity)
    ensures CanBuy(c, s, quantity, t)
  {
    var unit := Pricing.UnitPrice(c.ticketPrice, c.bundles, quantity);
    Pricing.UnitIsPositive(c.ticketPrice, c.bundles, quantity);
    Pricing.CostBounds(c, unit, s.book.sold, quantity);
    var e := Plain(Pricing.Cost(c, s.book.sold, quantity));
    t := Buy(c, e, s, 0, quantity).post;
  }

  lemma SmallerQuotesFit(c: Config)
    requires Valid(c) && Pricing.DearerBundleInReach(c)
    ensures var q, sold := c.bundles[0].quantity, Pricing.LateSold(c);
            && Pricing.QuoteFits(c, sold, c.protocolFeeBp, q - 1)
            && Pricing.QuoteFits(c, sold + (q - 1), c.protocolFeeBp, 1)
  {
    var q, sold := c.bundles[0].quantity, Pricing.LateSold(c);
    Pricing.ListPriceBelow(c.ticketPrice, c.bundles, q - 1);
    Pricing.ListPriceBelow(c.ticketPrice, c.bundles, 1);
    Pricing.ListUnitFits(c, sold, c.protocolFeeBp, q - 1);
    Pricing.ListUnitFits(c, sold + (q - 1), c.protocolFeeBp, 1);
  }

  lemma BuyApart(c: Config, s: State) returns (first: State, second: State)
    requires Valid(c) && Pricing.DearerBundleInReach(c) && OnSale(c, s, Pricing.LateSold(c))
    ensures CanBuy(c, s, c.bundles[0].quantity - 1, first) && CanBuy(c, first, 1, second)
  {
    var q := c.bundles[0].quantity;
    SmallerQuotesFit(c);
    assert CountOf(s.book.counts, 0) == 0;
    first := BuyAccepted(c, s, q - 1);
    second := BuyAccepted(c, first, 1);
  }

  lemma BuyAtOnce(c: Config, s: State) returns (once: State)
    requires Valid(c) && Pricing.DearerBundleInReach(c) && OnSale(c, s, Pricing.LateSold(c))
    requires Pricing.QuoteFits(c, Pricing.LateSold(c), c.protocolFeeBp, c.bundles[0].quantity)
    ensures CanBuy(c, s, c.bundles[0].quantity, once)
  {
    assert CountOf(s.book.counts, 0) == 0;
    once := BuyAccepted(c, s, c.bundles[0].quantity);
  }

  lemma AtOnceCostsMore(c: Config, s: State, first: State)
    requires Valid(c) && Pricing.DearerBundleInReach(c) && OnSale(c, s, Pricing.LateSold(c))
    requires CanBuy(c, s, c.bundles[0].quantity - 1, first)
    ensures var q := c.bundles[0].quantity;
            Pricing.Cost(c, s.book.sold, q) > Pricing.Cost(c, s.book.sold, q - 1) + Pricing.Cost(c, first.book.sold, 1)
  {
    Pricing.PenaltyIsReal(c);
  }

  /** When a dearer bundle is in reach and its quote does not overflow, a reachable raffle sells
      its last tickets to one buyer for more at once than in two purchases. */
  lemma PenaltyIsBought(d: Digests, c: Config) returns (run: Run, once: State, first: State, second: State)
    requires Valid(c) && Pricing.DearerBundleInReach(c)
    requires Pricing.QuoteFits(c, Pricing.LateSold(c), c.protocolFeeBp, c.bundles[0].quantity)
    ensures var s, q := Reached(d, c, run), c.bundles[0].quantity;
            && CanBuy(c, s, q, once) && CanBuy(c, s, q - 1, first) && CanBuy(c, first, 1, second)
            && Pricing.Cost(c, s.book.sold, q) > Pricing.Cost(c, s.book.sold, q - 1) + Pricing.Cost(c, first.book.sold, 1)
  {
    hide After;
    run := SaleRun(c, Pricing.LateSold(c));
    SaleReached(d, c, Pricing.LateSold(c));
    once := BuyAtOnce(c, Reached(d, c, run));
    first, second := BuyApart(c, Reached(d, c, run));
    AtOnceCostsMore(c, Reached(d, c, run), first);
  }

  /** Such a quorum passes every check of validation and initialisation. */
  lemma RepeatedOraclesAreAccepted(self: Address) returns (c: Config)
    requires self != 5
    ensures Valid(c) && !c.noDeadline && c.source.Quorum? && |Liveness.OracleSet(c.source.oracles)| < c.source.k
    ensures Acceptable(c, 0, true, self) && !InitRefuses(c, self)
  {
    OnePrize();
    var example := Example([10_000], 0, Quorum(2, [5, 5]), []);
    NormalisedIsValid(example, 0, true, self);
    c := Normalised(example);
    assert Liveness.OracleSet(c.source.oracles) == {5};
  }

  lemma OnePrize()
    ensures PrizesOk([10_000])
  {
    var prizes: seq<u32> := [10_000];
    assert prizes[..0] == [];
    assert Total(prizes) == 10_000;
  }

  /** A raffle with five tickets for twice the list price each is accepted, and sells them dearer
      at once than in two purchases. */
  lemma DearerBundleIsAccepted(d: Digests) returns (c: Config, run: Run, once: State, first: State, second: State)
    ensures forall self: Address :: Acceptable(c, 0, true, self) && !InitRefuses(c, self)
    ensures Valid(c) && Pricing.DearerBundleInReach(c)
    ensures var s := Reached(d, c, run);
            && CanBuy(c, s, 5, once) && CanBuy(c, s, 4, first) && CanBuy(c, first, 1, second)
            && Pricing.Cost(c, s.book.sold, 5) > Pricing.Cost(c, s.book.sold, 4) + Pricing.Cost(c, first.book.sold, 1)
  {
    hide After;
    OnePrize();
    var bundles := [Bundle(5, 20_000)];
    c := Normalised(Example([10_000], 0, Internal, bundles));
    forall self: Address
      ensures Acceptable(c, 0, true, self) && !InitRefuses(c, self)
    {
      ExampleIsAccepted([10_000], 0, Internal, bundles, self);
    }
    ExampleIsAccepted([10_000], 0, Internal, bundles, 0);
    assert Pricing.EarlyBirdCap(c) == 0;
    UnitOfFive(c);
    assert Pricing.Cost(c, Pricing.LateSold(c), 5) == 100_000;
    run, once, first, second := PenaltyIsBought(d, c);
  }

  lemma UnitOfFive(c: Config)
    requires c.bundles == [Bundle(5, 20_000)]
    ensures Pricing.UnitPrice(c.ticketPrice, c.bundles, 5) == 20_000
  {
  }

  /** A raffle that gives its first fifty tickets a tenth off is accepted, and one purchase makes
      it insolvent. */
  lemma DiscountIsAccepted(d: Digests) returns (c: Config, run: Run)
    ensures forall self: Address :: Acceptable(c, 0, true, self) && !InitRefuses(c, self)
    ensures Valid(c) && c.protocolFeeBp == 0 && !ListPriced(c)
    ensures FeeFree(run) && !Solvent(c, Reached(d, c, run))
  {
    hide After;
    OnePrize();
    var plain := Example([10_000], 0, Internal, []);
    var example := plain.(earlyBirdPercentage := 50, earlyBirdDiscountBp := 1_000);
    c := Normalised(example);
    forall self: Address
      ensures Acceptable(c, 0, true, self) && !InitRefuses(c, self)
    {
      NormalisedIsValid(example, 0, true, self);
    }
    NormalisedIsValid(example, 0, true, 0);
    assert Pricing.Cost(c, 0, 1) == 9_000;
    assert FirstPurchase(c, 1) && Pricing.QuoteFits(c, 0, 0, 1);
    run := DiscountBreaksSolvency(d, c);
  }
}
