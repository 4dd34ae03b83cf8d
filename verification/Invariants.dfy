/** What every reachable state of a raffle satisfies. Each part speaks of the fields it
    depends on, so a call that leaves them alone keeps it without further proof. */
module Invariants {
  import opened Common
  import opened Config
  import opened Escrow
  import opened QuorumSeeds
  import Pricing
  import TierPrizes
  import Winners
  import Draw

  // ---------------------------------------------------------------------------
  // Totals over the payment log

  datatype Measure =
    | Flow
    | RefundsOf(id: int)
    | PrizesOf(tier: nat)
    | PrizeGross
    | PrizeNet
    | NetOf(tier: nat)
    | PrizeCount
    | RefundCount
    | PrizeReturns

  function Weigh(m: Measure, p: Payment): int
  {
    match m
    case Flow => FlowOf(p)
    case RefundsOf(id) => if p.TicketRefundOut? && p.id == id then 1 else 0
    case PrizesOf(tier) => if p.PrizeOut? && p.tier == tier then 1 else 0
    case PrizeGross => if p.PrizeOut? then p.gross else 0
    case PrizeNet => if p.PrizeOut? then p.amount else 0
    case NetOf(tier) => if p.PrizeOut? && p.tier == tier then p.amount else 0
    case PrizeCount => if p.PrizeOut? then 1 else 0
    case RefundCount => if p.TicketRefundOut? || p.PrizeRefundOut? then 1 else 0
    case PrizeReturns => if p.PrizeRefundOut? then 1 else 0
  }

  function Sum(log: seq<Payment>, m: Measure): int
  {
    if log == [] then 0 else Sum(log[..|log| - 1], m) + Weigh(m, log[|log| - 1])
  }

  lemma SumOne(log: seq<Payment>, p: Payment, m: Measure)
    ensures Sum(log + [p], m) == Sum(log, m) + Weigh(m, p)
  {
    assert (log + [p])[..|log|] == log;
  }

  lemma SumAppends(log: seq<Payment>, p: Payment)
    ensures forall m: Measure :: Sum(log + [p], m) == Sum(log, m) + Weigh(m, p)
  {
    forall m: Measure
      ensures Sum(log + [p], m) == Sum(log, m) + Weigh(m, p)
    {
      SumOne(log, p, m);
    }
  }

  /** The prizes of the first `n` tiers that have been paid. */
  function PaidFrom(c: Config, winners: seq<Winner>, n: nat): int
    requires n <= |winners| && n <= |c.prizes|
  {
    if n == 0 then 0
    else
      PaidFrom(c, winners, n - 1)
        + if winners[n - 1].claimed then TierPrizes.TierPrize(c.prizeAmount, c.prizes, n - 1) else 0
  }

  function PaidPrizes(c: Config, winners: seq<Winner>): int
  {
    PaidFrom(c, winners, Min(|winners|, |c.prizes|))
  }

  // ---------------------------------------------------------------------------
  // The invariant

  /** The part of a valid configuration the invariant depends on. */
  predicate Shape(c: Config)
  {
    && c.prizes != [] && c.maxTickets > 0
    && (c.source.Quorum? ==> c.source.k >= 1)
  }

  lemma ValidShape(c: Config)
    requires Valid(c)
    ensures Shape(c)
  {
  }

  /** The draw lock and the pending request, by status. */
  ghost predicate DrawPhase(c: Config, l: Life, sold: nat)
  {
    && (l.lock ==> l.status == Drawing || l.status == Cancelled)
    && (l.request.Some? ==> l.lock && (c.source.External? || c.source.Quorum?))
    && (l.status == Drawing ==> l.lock && sold > 0)
    && (l.status == Drawing && l.request.None? ==> sold == c.maxTickets && !c.source.External?)
  }

  /** Deposit and sales, by status. */
  ghost predicate SalePhase(c: Config, l: Life, sold: nat)
  {
    && sold <= c.maxTickets
    && (l.status == PendingPrize ==> !l.prizeDeposited && sold == 0)
    && (l.status == Active ==> sold < c.maxTickets)
    && (l.status == Active || l.status == Drawing || Drawn(l.status) ==> l.prizeDeposited)
    && (Drawn(l.status) ==> sold > 0)
  }

  /** Winners and the draw record exist exactly once the raffle is drawn. */
  ghost predicate PrizePhase(c: Config, status: Status, p: Podium)
  {
    && (Drawn(status) <==> p.fairness.Some?) && (Drawn(status) <==> p.finalizedAt.Some?)
    && |p.winners| == (if Drawn(status) then |c.prizes| else 0)
    && (status == Claimed ==> AllClaimed(p.winners))
    && (status == Finalized ==> !AllClaimed(p.winners))
  }

  /** Ticket records are exactly 1 to `sold`, until a terminal raffle is wiped. */
  ghost predicate Records(c: Config, status: Status, b: Book)
  {
    && (Intact(b.tickets, b.sold) || (b.tickets == map[] && (Refunding(status) || status == Claimed)))
    && (forall id :: id in b.tickets ==> b.tickets[id].id == id && b.tickets[id].pricePaid == c.ticketPrice)
    && b.refunded <= b.tickets.Keys && b.commits.Keys <= b.tickets.Keys
    && (b.refunded != {} ==> Refunding(status))
  }

  function OwnedBy(tickets: map<int, Ticket>, a: Address): set<int>
  {
    set id | id in tickets && tickets[id].owner == a
  }

  ghost predicate WithinCap(c: Config, count: nat)
  {
    && (c.maxPerAddress > 0 ==> count <= c.maxPerAddress)
    && (c.maxPerAddress == 0 && !c.allowMultiple ==> count <= 1)
  }

  /** The buyer list names each counted address exactly once. */
  ghost predicate BuyersListed(counts: map<Address, nat>, buyers: seq<Address>)
  {
    Draw.Distinct(buyers) && forall a :: a in buyers <==> a in counts
  }

  /** The count of an address is the number of tickets it owns, within its cap. */
  ghost predicate CountsOwned(c: Config, tickets: map<int, Ticket>, counts: map<Address, nat>)
  {
    && (forall a :: a in counts ==> counts[a] == |OwnedBy(tickets, a)| > 0 && WithinCap(c, counts[a]))
    && (forall id :: id in tickets ==> tickets[id].owner in counts)
  }

  /** The deliveries on record: distinct registered oracles, one seed each, fewer than k. */
  ghost predicate QuorumPhase(c: Config, status: Status, p: Panel)
  {
    && Draw.Distinct(p.submitted)
    && (forall a :: a in p.submitted <==> a in p.seeds)
    && (p.submitted != [] ==> c.source.Quorum? && (status == Drawing || status == Cancelled))
    && (c.source.Quorum? ==>
          |p.submitted| < c.source.k && forall a :: a in p.submitted ==> a in c.source.oracles)
  }

  /** A quorum draw records the k deliveries its seed aggregates. */
  ghost predicate Attributed(d: Digests, c: Config, f: Fairness)
  {
    f.contributions.Some? ==>
      && c.source.Quorum? && |f.contributions.value| == c.source.k
      && DistinctOracles(f.contributions.value)
      && (forall i :: 0 <= i < |f.contributions.value| ==> f.contributions.value[i].0 in c.source.oracles)
      && f.seed == Aggregate(d.seeds, f.contributions.value)
  }

  /** Re-running the draw on the record gives the recorded indices, and tier `i` is won by
      the owner of ticket `indices[i] + 1`. */
  ghost predicate Replays(c: Config, f: Fairness, winners: seq<Winner>, tickets: map<int, Ticket>, sold: nat)
  {
    && |c.prizes| <= sold < U32_LIMIT
    && f.indices == Winners.DrawOutcome(f.seed, Owners(tickets, sold), |c.prizes|, c.uniqueWinners)
    && |winners| == |f.indices|
    && forall i :: 0 <= i < |winners| ==> winners[i].address == TicketOwner(tickets, f.indices[i] + 1)
  }

  ghost predicate DrawRecord(d: Digests, c: Config, p: Podium, tickets: map<int, Ticket>, sold: nat)
  {
    p.fairness.Some? ==>
      && Attributed(d, c, p.fairness.value)
      && (Intact(tickets, sold) ==> Replays(c, p.fairness.value, p.winners, tickets, sold))
  }

  /** No ticket has been refunded twice; before a wipe the markers say which were. */
  ghost predicate RefundHistory(log: seq<Payment>, tickets: map<int, Ticket>, sold: nat, refunded: set<int>)
  {
    && (forall id: int :: Sum(log, RefundsOf(id)) <= 1)
    && (Intact(tickets, sold) ==> forall id: int :: Sum(log, RefundsOf(id)) == if id in refunded then 1 else 0)
  }

  /** Every paid tier was paid once, at its full prize. */
  ghost predicate PrizeHistory(c: Config, log: seq<Payment>, winners: seq<Winner>)
  {
    && (forall t: nat :: Sum(log, PrizesOf(t)) == if t < |winners| && winners[t].claimed then 1 else 0)
    && Sum(log, PrizeGross) == PaidPrizes(c, winners)
  }

  /** Refunds belong to cancelled and failed raffles, prizes to drawn ones, and the deposit
      goes back at most once. */
  ghost predicate PayoutKinds(log: seq<Payment>, status: Status, deposited: bool)
  {
    && (!Refunding(status) ==> Sum(log, RefundCount) == 0)
    && (!Drawn(status) ==> Sum(log, PrizeCount) == 0)
    && Sum(log, PrizeReturns) == if Refunding(status) && !deposited then 1 else 0
  }

  /** The four histories of the payment log. */
  ghost predicate Histories(c: Config, l: Life, b: Book, winners: seq<Winner>, p: Purse)
  {
    && p.balance == Sum(p.log, Flow)
    && RefundHistory(p.log, b.tickets, b.sold, b.refunded)
    && PrizeHistory(c, p.log, winners)
    && PayoutKinds(p.log, l.status, l.prizeDeposited)
  }

  ghost predicate Inv(d: Digests, c: Config, s: State)
  {
    && DrawPhase(c, s.life, s.book.sold)
    && SalePhase(c, s.life, s.book.sold)
    && PrizePhase(c, s.life.status, s.podium)
    && Records(c, s.life.status, s.book)
    && BuyersListed(s.book.counts, s.book.buyers)
    && CountsOwned(c, s.book.tickets, s.book.counts)
    && QuorumPhase(c, s.life.status, s.panel)
    && DrawRecord(d, c, s.podium, s.book.tickets, s.book.sold)
    && Histories(c, s.life, s.book, s.podium.winners, s.purse)
  }

  lemma InitialInv(d: Digests, c: Config)
    requires Shape(c)
    ensures Inv(d, c, Initial(c))
  {
    assert Ids(0) == {};
  }

  // ---------------------------------------------------------------------------
  // Payments

  /** Neither a refund nor a prize. */
  predicate Neutral(p: Payment)
  {
    !p.TicketRefundOut? && !p.PrizeRefundOut? && !p.PrizeOut?
  }

  /** The balance stays the flow of the log; a neutral payment changes no other total. */
  ghost predicate NeutralChange(before: Purse, after: Purse)
  {
    && (before.balance == Sum(before.log, Flow) ==> after.balance == Sum(after.log, Flow))
    && forall m: Measure :: m != Flow ==> Sum(after.log, m) == Sum(before.log, m)
  }

  lemma NeutralPayment(purse: Purse, p: Payment)
    requires Neutral(p)
    ensures NeutralChange(purse, Pay(purse, p))
  {
    SumAppends(purse.log, p);
    forall m: Measure | m != Flow
      ensures Sum(Pay(purse, p).log, m) == Sum(purse.log, m)
    {
      NeutralWeighsNothing(m, p);
    }
  }

  lemma NeutralWeighsNothing(m: Measure, p: Payment)
    requires Neutral(p) && m != Flow
    ensures Weigh(m, p) == 0
  {
  }

  /** A neutral change of the purse keeps the three histories. */
  lemma NeutralKeepsHistory(d: Digests, c: Config, s: State, after: Purse)
    requires Inv(d, c, s) && NeutralChange(s.purse, after)
    ensures Histories(c, s.life, s.book, s.podium.winners, after)
  {
  }

  lemma SaleIsNeutral(c: Config, purse: Purse, payer: Address, quantity: nat, charge: int, fee: int)
    ensures NeutralChange(purse, TakePayment(c, purse, payer, quantity, charge, fee))
  {
    var sale := SaleIn(payer, quantity, charge);
    NeutralPayment(purse, sale);
    NeutralPayment(Pay(purse, sale), FeeOut(fee));
  }

  // ---------------------------------------------------------------------------
  // Deposit and purchase

  lemma DepositPhases(d: Digests, c: Config, e: Env, s: State, t: State)
    requires Shape(c) && Inv(d, c, s) && Gives(Deposit(c, e, s), t)
    ensures DrawPhase(c, t.life, t.book.sold) && SalePhase(c, t.life, t.book.sold)
    ensures PrizePhase(c, t.life.status, t.podium) && QuorumPhase(c, t.life.status, t.panel)
  {
  }

  lemma DepositKeeps(d: Digests, c: Config, e: Env, s: State, t: State)
    requires Shape(c) && Inv(d, c, s) && Gives(Deposit(c, e, s), t)
    ensures Inv(d, c, t)
  {
    hide DrawPhase, SalePhase, PrizePhase, QuorumPhase, DrawRecord, BuyersListed, CountsOwned;
    DepositPhases(d, c, e, s, t);
    assert Records(c, t.life.status, t.book) by {
      RecordsOfLiveRaffle(c, s.life.status, t.life.status, s.book);
    }
    assert Histories(c, t.life, t.book, t.podium.winners, t.purse) by {
      NeutralPayment(s.purse, PrizeIn(c.prizeAmount));
      DepositIsLogged(c, s.life, t.life, s.book, s.podium.winners, s.purse, t.purse);
    }
  }

  lemma DepositIsLogged(c: Config, before: Life, after: Life, b: Book, winners: seq<Winner>, p: Purse, q: Purse)
    requires Histories(c, before, b, winners, p) && NeutralChange(p, q)
    requires before.status == PendingPrize && after.status == Active
    ensures Histories(c, after, b, winners, q)
  {
  }

  lemma NewRecords(c: Config, sold: nat, tickets: map<int, Ticket>, owner: Address, payer: Address, now: u64, quantity: nat)
    requires Intact(tickets, sold)
    ensures var t := tickets + NewTickets(c, sold, owner, payer, now, quantity);
            && Intact(t, sold + quantity)
            && OwnedBy(t, owner) == OwnedBy(tickets, owner) + (Ids(sold + quantity) - Ids(sold))
            && (forall a: Address :: a != owner ==> OwnedBy(t, a) == OwnedBy(tickets, a))
  {
  }

  lemma {:induction false} IdsGrow(sold: nat, quantity: nat)
    ensures |Ids(sold + quantity) - Ids(sold)| == quantity
  {
    if quantity == 0 {
      assert Ids(sold) - Ids(sold) == {};
    } else {
      IdsGrow(sold, quantity - 1);
      var n := sold + quantity;
      assert Ids(n) - Ids(sold) == (Ids(n - 1) - Ids(sold)) + {n};
    }
  }

  lemma OwnedGrows(c: Config, sold: nat, tickets: map<int, Ticket>, owner: Address, payer: Address, now: u64, quantity: nat)
    requires Intact(tickets, sold)
    ensures |OwnedBy(tickets + NewTickets(c, sold, owner, payer, now, quantity), owner)|
         == |OwnedBy(tickets, owner)| + quantity
  {
    NewRecords(c, sold, tickets, owner, payer, now, quantity);
    IdsGrow(sold, quantity);
    assert OwnedBy(tickets, owner) !! (Ids(sold + quantity) - Ids(sold));
  }

  lemma CountIsOwned(c: Config, tickets: map<int, Ticket>, counts: map<Address, nat>, a: Address)
    requires CountsOwned(c, tickets, counts)
    ensures |OwnedBy(tickets, a)| == CountOf(counts, a)
  {
    if a !in counts {
      assert forall id :: id in tickets ==> tickets[id].owner != a;
      assert OwnedBy(tickets, a) == {};
    }
  }

  lemma CountsStayOwned(c: Config, tickets: map<int, Ticket>, counts: map<Address, nat>,
                        more: map<int, Ticket>, owner: Address, count: nat)
    requires CountsOwned(c, tickets, counts)
    requires count == |OwnedBy(more, owner)| > 0 && WithinCap(c, count)
    requires forall a: Address :: a != owner ==> OwnedBy(more, a) == OwnedBy(tickets, a)
    requires forall id :: id in more ==> (id in tickets && more[id] == tickets[id]) || more[id].owner == owner
    ensures CountsOwned(c, more, counts[owner := count])
  {
  }

  lemma SaleIsCounted(c: Config, book: Book, owner: Address, payer: Address, now: u64, quantity: nat)
    requires Intact(book.tickets, book.sold) && CountsOwned(c, book.tickets, book.counts) && quantity >= 1
    requires WithinCap(c, CountOf(book.counts, owner) + quantity)
    ensures var b := AddTickets(c, book, owner, payer, now, quantity);
            CountsOwned(c, b.tickets, b.counts)
  {
    var more := book.tickets + NewTickets(c, book.sold, owner, payer, now, quantity);
    var count := CountOf(book.counts, owner) + quantity;
    assert CountsOwned(c, more, book.counts[owner := count]) by {
      NewRecords(c, book.sold, book.tickets, owner, payer, now, quantity);
      OwnedGrows(c, book.sold, book.tickets, owner, payer, now, quantity);
      CountIsOwned(c, book.tickets, book.counts, owner);
      assert forall id :: id in more ==> (id in book.tickets && more[id] == book.tickets[id]) || more[id].owner == owner;
      CountsStayOwned(c, book.tickets, book.counts, more, owner, count);
    }
  }

  lemma BuyerIsListed(c: Config, book: Book, owner: Address, payer: Address, now: u64, quantity: nat)
    requires BuyersListed(book.counts, book.buyers) && CountsOwned(c, book.tickets, book.counts)
    ensures var b := AddTickets(c, book, owner, payer, now, quantity);
            BuyersListed(b.counts, b.buyers)
  {
    assert owner in book.counts ==> book.counts[owner] > 0;
  }

  lemma SaleIsRecorded(c: Config, status: Status, book: Book, owner: Address, payer: Address, now: u64, quantity: nat)
    requires Records(c, status, book) && status == Active
    ensures Records(c, status, AddTickets(c, book, owner, payer, now, quantity))
  {
    NewRecords(c, book.sold, book.tickets, owner, payer, now, quantity);
  }

  lemma RecordsOfLiveRaffle(c: Config, before: Status, after: Status, b: Book)
    requires Records(c, before, b) && !Refunding(before) && before != Claimed
    ensures Records(c, after, b)
  {
  }

  lemma SaleKeepsPhases(c: Config, e: Env, s: State, quantity: nat, sold: nat)
    requires Shape(c) && DrawPhase(c, s.life, s.book.sold) && SalePhase(c, s.life, s.book.sold)
    requires s.life.status == Active && quantity >= 1 && sold == s.book.sold + quantity <= c.maxTickets
    ensures var l := StartDrawIfSoldOut(c, e, s.life, sold);
            && DrawPhase(c, l, sold) && SalePhase(c, l, sold)
            && (l.status == Active || l.status == Drawing) && l.prizeDeposited
  {
  }

  lemma HistoryOfLiveRaffle(log: seq<Payment>, before: Life, after: Life)
    requires PayoutKinds(log, before.status, before.prizeDeposited)
    requires !Refunding(before.status) && !Drawn(before.status)
    ensures PayoutKinds(log, after.status, true)
  {
  }

  lemma SaleKeepsHistories(c: Config, before: Life, after: Life, b: Book, sold: Book, winners: seq<Winner>, p: Purse, q: Purse)
    requires Histories(c, before, b, winners, p) && NeutralChange(p, q)
    requires before.status == Active && after.prizeDeposited
    requires Intact(b.tickets, b.sold) && sold.refunded == b.refunded
    ensures Histories(c, after, sold, winners, q)
  {
    HistoryOfLiveRaffle(p.log, before, after);
  }

  lemma SaleKeepsOthers(d: Digests, c: Config, s: State, t: State)
    requires Inv(d, c, s) && s.life.status == Active && (t.life.status == Active || t.life.status == Drawing)
    requires t.podium == s.podium && t.panel == s.panel
    ensures PrizePhase(c, t.life.status, t.podium) && QuorumPhase(c, t.life.status, t.panel)
    ensures DrawRecord(d, c, t.podium, t.book.tickets, t.book.sold)
  {
  }

  /** A purchase that passed both guards keeps the invariant. */
  lemma SellKeeps(d: Digests, c: Config, e: Env, s: State, payer: Address, owner: Address, quantity: u32,
                  charge: int, fee: int, t: State)
    requires Shape(c) && Inv(d, c, s)
    requires PurchaseGuard(c, e, s, quantity).None? && CapGuard(c, s, owner, quantity).None?
    requires Gives(Sell(c, e, s, payer, owner, quantity, charge, fee), t)
    ensures Inv(d, c, t)
  {
    hide DrawPhase, SalePhase, PrizePhase, BuyersListed, CountsOwned, QuorumPhase, DrawRecord, Histories;
    SaleKeepsPhases(c, e, s, quantity, t.book.sold);
    SaleKeepsOthers(d, c, s, t);
    assert Records(c, t.life.status, t.book) by {
      SaleIsRecorded(c, s.life.status, s.book, owner, payer, e.now, quantity);
      RecordsOfLiveRaffle(c, Active, t.life.status, t.book);
    }
    assert BuyersListed(t.book.counts, t.book.buyers) by {
      BuyerIsListed(c, s.book, owner, payer, e.now, quantity);
    }
    assert CountsOwned(c, t.book.tickets, t.book.counts) by {
      SaleIsCounted(c, s.book, owner, payer, e.now, quantity);
    }
    assert Histories(c, t.life, t.book, t.podium.winners, t.purse) by {
      SaleIsNeutral(c, s.purse, payer, quantity, charge, fee);
      SaleKeepsHistories(c, s.life, t.life, s.book, t.book, s.podium.winners, s.purse, t.purse);
    }
  }

  lemma BuyKeeps(d: Digests, c: Config, e: Env, s: State, buyer: Address, quantity: u32, t: State)
    requires Shape(c) && Inv(d, c, s) && Gives(Buy(c, e, s, buyer, quantity), t)
    ensures Inv(d, c, t)
  {
    var quote := Pricing.Quote(c, s.book.sold, s.controls.feeBp, quantity).value;
    SellKeeps(d, c, e, s, buyer, buyer, quantity, quote.netToPay, quote.fee, t);
  }

  lemma BuyForKeeps(d: Digests, c: Config, e: Env, s: State, buyer: Address, recipient: Address, quantity: u32, t: State)
    requires Shape(c) && Inv(d, c, s) && Gives(BuyFor(c, e, s, buyer, recipient, quantity), t)
    ensures Inv(d, c, t)
  {
    var price := c.ticketPrice * quantity;
    SellKeeps(d, c, e, s, buyer, recipient, quantity, price, Pricing.FeeOn(price, s.controls.feeBp), t);
  }

  lemma CommitKeeps(d: Digests, c: Config, e: Env, s: State, ticket: int, hash: int, t: State)
    requires Shape(c) && Inv(d, c, s) && Gives(Commit(c, e, s, ticket, hash), t)
    ensures Inv(d, c, t)
  {
  }

  // ---------------------------------------------------------------------------
  // The draw

  lemma {:induction false} NothingPaid(c: Config, winners: seq<Winner>, n: nat)
    requires n <= |winners| && n <= |c.prizes|
    requires forall i :: 0 <= i < |winners| ==> !winners[i].claimed
    ensures PaidFrom(c, winners, n) == 0
  {
    if n > 0 {
      NothingPaid(c, winners, n - 1);
    }
  }

  /** What holds just before a draw is settled, whichever path led there. */
  ghost predicate ReadyToSettle(d: Digests, c: Config, s: State)
  {
    && s.life.status == Drawing && s.life.prizeDeposited && s.book.sold <= c.maxTickets
    && s.podium.winners == []
    && Records(c, Drawing, s.book)
    && BuyersListed(s.book.counts, s.book.buyers) && CountsOwned(c, s.book.tickets, s.book.counts)
    && (forall a :: a in s.panel.seeds ==> a in s.panel.submitted)
    && s.purse.balance == Sum(s.purse.log, Flow)
    && RefundHistory(s.purse.log, s.book.tickets, s.book.sold, s.book.refunded)
    && PrizeHistory(c, s.purse.log, s.podium.winners)
    && PayoutKinds(s.purse.log, Drawing, true)
  }

  lemma SettledRecord(d: Digests, c: Config, e: Env, s: State, seed: u64, contributions: Option<seq<Delivery>>, t: State)
    requires Gives(FinalizeWithSeed(c, e, s, seed, contributions), t)
    ensures t.podium.fairness.Some? && Replays(c, t.podium.fairness.value, t.podium.winners, t.book.tickets, t.book.sold)
    ensures t.podium.fairness.value.seed == seed && t.podium.fairness.value.contributions == contributions
    ensures forall i :: 0 <= i < |t.podium.winners| ==> !t.podium.winners[i].claimed
  {
  }

  lemma FreshPrizeHistory(c: Config, log: seq<Payment>, winners: seq<Winner>)
    requires PrizeHistory(c, log, [])
    requires forall i :: 0 <= i < |winners| ==> !winners[i].claimed
    ensures PrizeHistory(c, log, winners)
  {
    NothingPaid(c, winners, Min(|winners|, |c.prizes|));
  }

  lemma SettleKeeps(d: Digests, c: Config, e: Env, s: State, seed: u64, contributions: Option<seq<Delivery>>, t: State)
    requires Shape(c) && ReadyToSettle(d, c, s)
    requires Gives(FinalizeWithSeed(c, e, s, seed, contributions), t)
    requires forall f: Fairness :: f.seed == seed && f.contributions == contributions ==> Attributed(d, c, f)
    ensures Inv(d, c, t)
  {
    hide BuyersListed, CountsOwned, RefundHistory, Attributed, Replays;
    SettledRecord(d, c, e, s, seed, contributions, t);
    FreshPrizeHistory(c, t.purse.log, t.podium.winners);
    assert !t.podium.winners[0].claimed;
  }

  lemma InvIsReady(d: Digests, c: Config, s: State)
    requires Inv(d, c, s) && s.life.status == Drawing
    ensures ReadyToSettle(d, c, s)
  {
  }

  lemma FinalizeKeeps(d: Digests, c: Config, e: Env, s: State, t: State)
    requires Shape(c) && Inv(d, c, s) && Gives(Finalize(d, c, e, s), t)
    ensures Inv(d, c, t)
  {
    hide BuyersListed, CountsOwned, RefundHistory, PrizeHistory, DrawRecord;
    var u := s.(life := s.life.(status := Drawing, lock := true));
    if t.life.status == Finalized {
      assert ReadyToSettle(d, c, u);
      SettleKeeps(d, c, e, u, DrawSeed(d, c, e, s), None, t);
    } else {
      RecordsOfLiveRaffle(c, s.life.status, t.life.status, t.book);
    }
  }

  lemma OracleKeeps(d: Digests, c: Config, e: Env, s: State, seed: u64, proofSeed: u64, signatureOk: bool,
                    requestId: u64, t: State)
    requires Shape(c) && Inv(d, c, s) && Gives(OracleDelivery(c, e, s, seed, proofSeed, signatureOk, requestId), t)
    ensures Inv(d, c, t)
  {
    InvIsReady(d, c, s);
    SettleKeeps(d, c, e, s, seed, None, t);
  }

  lemma {:induction false} DeliveriesOnRecord(submitted: seq<Address>, seeds: map<Address, u64>)
    requires forall a :: a in submitted ==> a in seeds
    ensures var ds := Deliveries(submitted, seeds);
            |ds| == |submitted| && forall i :: 0 <= i < |ds| ==> submitted[i] in seeds && ds[i] == (submitted[i], seeds[submitted[i]])
  {
    if submitted != [] {
      var n := |submitted| - 1;
      forall a | a in submitted[..n]
        ensures a in seeds
      {
        assert a in submitted;
      }
      DeliveriesOnRecord(submitted[..n], seeds);
    }
  }

  lemma PanelGrows(c: Config, status: Status, p: Panel, oracle: Address, seed: u64)
    requires c.source.Quorum? && QuorumPhase(c, status, p) && oracle !in p.seeds && oracle in c.source.oracles
    ensures var q := Panel(p.submitted + [oracle], p.seeds[oracle := seed]);
            && Draw.Distinct(q.submitted)
            && (forall a :: a in q.submitted <==> a in q.seeds)
            && (forall a :: a in q.submitted ==> a in c.source.oracles)
            && |q.submitted| <= c.source.k
  {
  }

  lemma QuorumIsAttributed(d: Digests, c: Config, p: Panel, f: Fairness)
    requires c.source.Quorum? && Draw.Distinct(p.submitted) && |p.submitted| == c.source.k
    requires forall a :: a in p.submitted ==> a in p.seeds && a in c.source.oracles
    requires var ds := Deliveries(p.submitted, p.seeds);
             f.contributions == Some(ds) && f.seed == Aggregate(d.seeds, ds)
    ensures Attributed(d, c, f)
  {
    DeliveriesOnRecord(p.submitted, p.seeds);
  }

  lemma QuorumKeeps(d: Digests, c: Config, e: Env, s: State, oracle: Address, seed: u64, requestId: u64, t: State)
    requires Shape(c) && Inv(d, c, s) && Gives(QuorumDelivery(d, c, e, s, oracle, seed, requestId), t)
    ensures Inv(d, c, t)
  {
    PanelGrows(c, s.life.status, s.panel, oracle, seed);
    var u := s.(panel := Panel(s.panel.submitted + [oracle], s.panel.seeds[oracle := seed]));
    if |u.panel.submitted| >= c.source.k {
      var ds := Deliveries(u.panel.submitted, u.panel.seeds);
      forall f: Fairness | f.seed == Aggregate(d.seeds, ds) && f.contributions == Some(ds)
        ensures Attributed(d, c, f)
      {
        QuorumIsAttributed(d, c, u.panel, f);
      }
      assert ReadyToSettle(d, c, u);
      SettleKeeps(d, c, e, u, Aggregate(d.seeds, ds), Some(ds), t);
    }
  }

  /** The fallback needs a drawing raffle without the draw lock, which no reachable state is. */
  lemma FallbackNeverApplies(d: Digests, c: Config, e: Env, s: State, caller: Address, refund: bool)
    requires Inv(d, c, s)
    ensures Fallback(c, e, s, caller, refund).Reject?
  {
  }

  // ---------------------------------------------------------------------------
  // Prizes

  lemma PaymentKeepsFlow(purse: Purse, p: Payment)
    requires purse.balance == Sum(purse.log, Flow)
    ensures Pay(purse, p).balance == Sum(Pay(purse, p).log, Flow)
  {
    SumOne(purse.log, p, Flow);
  }

  lemma {:induction false} PaidMarks(c: Config, winners: seq<Winner>, tier: nat, n: nat)
    requires n <= |winners| && n <= |c.prizes| && tier < |winners| && tier < |c.prizes| && !winners[tier].claimed
    ensures PaidFrom(c, MarkClaimed(winners, tier), n)
         == PaidFrom(c, winners, n) + if tier < n then TierPrizes.TierPrize(c.prizeAmount, c.prizes, tier) else 0
  {
    if n > 0 {
      PaidMarks(c, winners, tier, n - 1);
    }
  }

  /** The totals of a drawn raffle's log. */
  ghost predicate DrawnBooks(c: Config, b: Book, winners: seq<Winner>, balance: int, log: seq<Payment>)
  {
    && balance == Sum(log, Flow)
    && RefundHistory(log, b.tickets, b.sold, b.refunded)
    && PrizeHistory(c, log, winners)
    && PayoutKinds(log, Finalized, true)
  }

  /** Marking a tier and logging its prize keeps the prize history. */
  lemma PrizeIsLogged(c: Config, log: seq<Payment>, winners: seq<Winner>, tier: nat, p: Payment)
    requires PrizeHistory(c, log, winners) && tier < |winners| && tier < |c.prizes| && !winners[tier].claimed
    requires p.PrizeOut? && p.tier == tier && p.gross == TierPrizes.TierPrize(c.prizeAmount, c.prizes, tier)
    ensures PrizeHistory(c, log + [p], MarkClaimed(winners, tier))
  {
    SumAppends(log, p);
    PaidMarks(c, winners, tier, Min(|winners|, |c.prizes|));
  }

  lemma PrizeKeepsOthers(log: seq<Payment>, p: Payment, b: Book)
    requires p.PrizeOut? && RefundHistory(log, b.tickets, b.sold, b.refunded) && PayoutKinds(log, Finalized, true)
    ensures RefundHistory(log + [p], b.tickets, b.sold, b.refunded) && PayoutKinds(log + [p], Finalized, true)
  {
    SumAppends(log, p);
  }

  lemma OnePrizeKeepsBooks(c: Config, b: Book, winners: seq<Winner>, purse: Purse, tier: nat, p: Payment)
    requires DrawnBooks(c, b, winners, purse.balance, purse.log)
    requires tier < |winners| && tier < |c.prizes| && !winners[tier].claimed
    requires p.PrizeOut? && p.tier == tier && p.gross == TierPrizes.TierPrize(c.prizeAmount, c.prizes, tier)
    ensures DrawnBooks(c, b, MarkClaimed(winners, tier), Pay(purse, p).balance, Pay(purse, p).log)
  {
    PaymentKeepsFlow(purse, p);
    PrizeIsLogged(c, purse.log, winners, tier, p);
    PrizeKeepsOthers(purse.log, p, b);
  }

  lemma NeutralKeepsBooks(c: Config, b: Book, winners: seq<Winner>, before: Purse, after: Purse)
    requires DrawnBooks(c, b, winners, before.balance, before.log) && NeutralChange(before, after)
    ensures DrawnBooks(c, b, winners, after.balance, after.log)
  {
  }

  lemma DrawnRecordKept(d: Digests, c: Config, b: Book, before: Podium, after: Podium)
    requires DrawRecord(d, c, before, b.tickets, b.sold)
    requires after.fairness == before.fairness && |after.winners| == |before.winners|
    requires forall i :: 0 <= i < |after.winners| ==> after.winners[i].address == before.winners[i].address
    ensures DrawRecord(d, c, after, b.tickets, b.sold)
  {
  }

  /** A drawn raffle whose winners were marked and paid keeps the invariant. */
  lemma PaidKeeps(d: Digests, c: Config, s: State, t: State)
    requires Shape(c) && Inv(d, c, s) && s.life.status == Finalized
    requires t == s.(life := t.life, podium := s.podium.(winners := t.podium.winners), purse := t.purse)
    requires t.life == s.life.(status := if AllClaimed(t.podium.winners) then Claimed else Finalized)
    requires |t.podium.winners| == |s.podium.winners|
    requires forall i :: 0 <= i < |t.podium.winners| ==> t.podium.winners[i].address == s.podium.winners[i].address
    requires DrawnBooks(c, t.book, t.podium.winners, t.purse.balance, t.purse.log)
    ensures Inv(d, c, t)
  {
    DrawnRecordKept(d, c, s.book, s.podium, t.podium);
  }

  lemma FeeKeepsBooks(c: Config, b: Book, winners: seq<Winner>, purse: Purse, fee: int)
    requires DrawnBooks(c, b, winners, purse.balance, purse.log)
    ensures DrawnBooks(c, b, winners, Pay(purse, FeeOut(fee)).balance, Pay(purse, FeeOut(fee)).log)
  {
    NeutralPayment(purse, FeeOut(fee));
    NeutralKeepsBooks(c, b, winners, purse, Pay(purse, FeeOut(fee)));
  }

  lemma ClaimKeepsBooks(c: Config, b: Book, winners: seq<Winner>, purse: Purse, tier: nat, to: Address, amount: int, fee: int,
                        after: Purse)
    requires DrawnBooks(c, b, winners, purse.balance, purse.log)
    requires tier < |winners| && tier < |c.prizes| && !winners[tier].claimed
    requires amount == TierPrizes.TierPrize(c.prizeAmount, c.prizes, tier)
    requires after == PayPrize(c, purse, tier, to, amount, fee)
    ensures DrawnBooks(c, b, MarkClaimed(winners, tier), after.balance, after.log)
  {
    var p := PrizeOut(tier, to, amount, amount - fee);
    var paid := Pay(purse, p);
    OnePrizeKeepsBooks(c, b, winners, purse, tier, p);
    FeeKeepsBooks(c, b, MarkClaimed(winners, tier), paid, fee);
    PrizePaid(c, purse, tier, to, amount, fee);
  }

  /** The two payments a claim can make. */
  lemma PrizePaid(c: Config, purse: Purse, tier: nat, to: Address, amount: int, fee: int)
    ensures var paid := Pay(purse, PrizeOut(tier, to, amount, amount - fee));
            var after := PayPrize(c, purse, tier, to, amount, fee);
            var forwarded := Pay(paid, FeeOut(fee));
            || (after.balance == paid.balance && after.log == paid.log)
            || (after.balance == forwarded.balance && after.log == forwarded.log)
  {
  }

  lemma ClaimKeeps(d: Digests, c: Config, e: Env, s: State, winner: Address, tier: u32, v: int, t: State)
    requires Shape(c) && Inv(d, c, s) && Claim(c, e, s, winner, tier) == Accept(t, v)
    ensures Inv(d, c, t)
  {
    hide BuyersListed, CountsOwned, Records, QuorumPhase, DrawRecord;
    ClaimKeepsBooks(c, s.book, s.podium.winners, s.purse, tier, winner, v, CeilFee(v, s.controls.feeBp), t.purse);
    PaidKeeps(d, c, s, t);
  }

  lemma {:induction false} SweepFrame(c: Config, s: State, treasury: Address, i: nat, end: nat)
    requires end <= |s.podium.winners| && end <= |c.prizes|
    requires SweepTiers(c, s, treasury, i, end).Accept?
    ensures var t := SweepTiers(c, s, treasury, i, end).post;
            && t == s.(podium := s.podium.(winners := t.podium.winners), purse := t.purse)
            && t.purse.fees == s.purse.fees
            && |t.podium.winners| == |s.podium.winners|
            && forall j :: 0 <= j < |t.podium.winners| ==>
                 && t.podium.winners[j].address == s.podium.winners[j].address
                 && (s.podium.winners[j].claimed ==> t.podium.winners[j].claimed)
                 && ((j < i || j >= end) ==> t.podium.winners[j] == s.podium.winners[j])
    decreases end - i
  {
    if i < end {
      var amount := TierPrizes.TierPrize(c.prizeAmount, c.prizes, i);
      if s.podium.winners[i].claimed || amount <= 0 {
        SweepFrame(c, s, treasury, i + 1, end);
      } else {
        var t := s.(podium := s.podium.(winners := MarkClaimed(s.podium.winners, i)),
                    purse := Pay(s.purse, PrizeOut(i, treasury, amount, amount)));
        SweepFrame(c, t, treasury, i + 1, end);
      }
    }
  }

  lemma {:induction false} SweepKeepsBooks(c: Config, s: State, treasury: Address, i: nat, end: nat)
    requires end <= |s.podium.winners| && end <= |c.prizes|
    requires DrawnBooks(c, s.book, s.podium.winners, s.purse.balance, s.purse.log)
    requires SweepTiers(c, s, treasury, i, end).Accept?
    ensures var t := SweepTiers(c, s, treasury, i, end).post;
            DrawnBooks(c, s.book, t.podium.winners, t.purse.balance, t.purse.log)
    decreases end - i
  {
    if i < end {
      var amount := TierPrizes.TierPrize(c.prizeAmount, c.prizes, i);
      if s.podium.winners[i].claimed || amount <= 0 {
        SweepKeepsBooks(c, s, treasury, i + 1, end);
      } else {
        var t := s.(podium := s.podium.(winners := MarkClaimed(s.podium.winners, i)),
                    purse := Pay(s.purse, PrizeOut(i, treasury, amount, amount)));
        OnePrizeKeepsBooks(c, s.book, s.podium.winners, s.purse, i, PrizeOut(i, treasury, amount, amount));
        SweepKeepsBooks(c, t, treasury, i + 1, end);
      }
    }
  }

  lemma SweepKeeps(d: Digests, c: Config, e: Env, s: State, start: u32, limit: u32, v: int, t: State)
    requires Shape(c) && Inv(d, c, s) && Sweep(c, e, s, start, limit) == Accept(t, v)
    ensures Inv(d, c, t)
  {
    if start < |s.podium.winners| {
      var end := SweepEnd(s, start, limit);
      SweepFrame(c, s, c.treasury.value, start, end);
      SweepKeepsBooks(c, s, c.treasury.value, start, end);
      PaidKeeps(d, c, s, t);
    }
  }

  // ---------------------------------------------------------------------------
  // Refunds

  lemma RefundPrizeKeeps(d: Digests, c: Config, s: State, t: State)
    requires Shape(c) && Inv(d, c, s) && Gives(RefundThePrize(c, s), t)
    ensures Inv(d, c, t)
  {
    PrizeReturnIsLogged(c, s.life, s.book, s.podium.winners, s.purse, t.life, PrizeRefundOut(c.prizeAmount));
  }

  /** Sending the deposit back keeps the histories of an undrawn raffle. */
  lemma PrizeReturnIsLogged(c: Config, before: Life, b: Book, winners: seq<Winner>, purse: Purse, after: Life, p: Payment)
    requires Histories(c, before, b, winners, purse) && p.PrizeRefundOut? && before.prizeDeposited && !Drawn(before.status)
    requires Refunding(after.status) && !after.prizeDeposited
    ensures Histories(c, after, b, winners, Pay(purse, p))
  {
    PaymentKeepsFlow(purse, p);
    PrizeReturnKeepsOthers(c, purse.log, b, winners, p);
    PrizeReturnIsCounted(purse.log, before, after, p);
  }

  lemma PrizeReturnKeepsOthers(c: Config, log: seq<Payment>, b: Book, winners: seq<Winner>, p: Payment)
    requires p.PrizeRefundOut?
    requires RefundHistory(log, b.tickets, b.sold, b.refunded) && PrizeHistory(c, log, winners)
    ensures RefundHistory(log + [p], b.tickets, b.sold, b.refunded) && PrizeHistory(c, log + [p], winners)
  {
    SumAppends(log, p);
  }

  lemma PrizeReturnIsCounted(log: seq<Payment>, before: Life, after: Life, p: Payment)
    requires p.PrizeRefundOut? && PayoutKinds(log, before.status, before.prizeDeposited)
    requires before.prizeDeposited && !Drawn(before.status) && Refunding(after.status) && !after.prizeDeposited
    ensures PayoutKinds(log + [p], after.status, after.prizeDeposited)
  {
    SumOne(log, p, RefundCount);
    SumOne(log, p, PrizeCount);
    SumOne(log, p, PrizeReturns);
  }

  /** The totals of a refunding raffle's log. */
  ghost predicate RefundBooks(c: Config, s: State)
  {
    && Refunding(s.life.status) && Records(c, s.life.status, s.book)
    && s.purse.balance == Sum(s.purse.log, Flow)
    && RefundHistory(s.purse.log, s.book.tickets, s.book.sold, s.book.refunded)
    && PrizeHistory(c, s.purse.log, s.podium.winners)
    && PayoutKinds(s.purse.log, s.life.status, s.life.prizeDeposited)
  }

  lemma OneRefundKeepsBooks(c: Config, s: State, id: int, to: Address, amount: int)
    requires RefundBooks(c, s) && id in s.book.tickets && id !in s.book.refunded
    ensures RefundBooks(c, PayRefund(s, id, to, amount))
  {
    var p := TicketRefundOut(id, to, amount);
    PaymentKeepsFlow(s.purse, p);
    RefundIsLogged(c, s.purse.log, s.life, s.book, s.podium.winners, p);
    assert Intact(s.book.tickets, s.book.sold);
  }

  lemma RefundIsLogged(c: Config, log: seq<Payment>, l: Life, b: Book, winners: seq<Winner>, p: Payment)
    requires p.TicketRefundOut? && Refunding(l.status) && p.id !in b.refunded && Intact(b.tickets, b.sold)
    requires RefundHistory(log, b.tickets, b.sold, b.refunded) && PrizeHistory(c, log, winners)
    requires PayoutKinds(log, l.status, l.prizeDeposited)
    ensures RefundHistory(log + [p], b.tickets, b.sold, b.refunded + {p.id}) && PrizeHistory(c, log + [p], winners)
    ensures PayoutKinds(log + [p], l.status, l.prizeDeposited)
  {
    SumAppends(log, p);
  }

  lemma {:induction false} RefundFrame(c: Config, s: State, caller: Address, ids: seq<int>)
    requires RefundAll(c, s, caller, ids).Accept?
    ensures var t := RefundAll(c, s, caller, ids).post;
            && t == s.(book := s.book.(refunded := t.book.refunded), purse := t.purse)
            && t.purse.fees == s.purse.fees
            && s.book.refunded <= t.book.refunded
            && (forall id :: id in t.book.refunded ==> id in s.book.refunded || id in ids)
            && (forall id :: id in ids ==> id in t.book.refunded)
    decreases |ids|
  {
    if ids != [] {
      var t := s.book.tickets[ids[0]];
      if ids[0] in s.book.refunded {
        RefundFrame(c, s, caller, ids[1..]);
      } else {
        RefundFrame(c, PayRefund(s, ids[0], t.payer, c.ticketPrice), caller, ids[1..]);
      }
    }
  }

  lemma {:induction false} RefundAllKeepsBooks(c: Config, s: State, caller: Address, ids: seq<int>)
    requires RefundBooks(c, s) && RefundAll(c, s, caller, ids).Accept?
    ensures RefundBooks(c, RefundAll(c, s, caller, ids).post)
    decreases |ids|
  {
    if ids != [] {
      var t := s.book.tickets[ids[0]];
      if ids[0] in s.book.refunded {
        RefundAllKeepsBooks(c, s, caller, ids[1..]);
      } else {
        OneRefundKeepsBooks(c, s, ids[0], t.payer, c.ticketPrice);
        RefundAllKeepsBooks(c, PayRefund(s, ids[0], t.payer, c.ticketPrice), caller, ids[1..]);
      }
    }
  }

  /** A refunding raffle whose markers and log moved on keeps the invariant. */
  lemma RefundedKeeps(d: Digests, c: Config, s: State, t: State)
    requires Shape(c) && Inv(d, c, s) && RefundBooks(c, t)
    requires t == s.(book := s.book.(refunded := t.book.refunded), purse := t.purse)
    ensures Inv(d, c, t)
  {
  }

  lemma RefundKeeps(d: Digests, c: Config, s: State, id: int, v: int, t: State)
    requires Shape(c) && Inv(d, c, s) && Refund(s, id) == Accept(t, v)
    ensures Inv(d, c, t)
  {
    assert RefundBooks(c, s);
    OneRefundKeepsBooks(c, s, id, s.book.tickets[id].owner, v);
    RefundedKeeps(d, c, s, t);
  }

  lemma BatchKeeps(d: Digests, c: Config, s: State, caller: Address, ids: seq<int>, v: int, t: State)
    requires Shape(c) && Inv(d, c, s) && Batch(c, s, caller, ids) == Accept(t, v)
    ensures Inv(d, c, t)
  {
    assert RefundBooks(c, s);
    RefundFrame(c, s, caller, ids);
    RefundAllKeepsBooks(c, s, caller, ids);
    RefundedKeeps(d, c, s, t);
  }

  // ---------------------------------------------------------------------------
  // Cancellation and administration

  /** Stopping an active or drawing raffle keeps the invariant if its histories allow it. */
  lemma StoppedKeeps(d: Digests, c: Config, s: State, t: State)
    requires Shape(c) && Inv(d, c, s) && (s.life.status == Active || s.life.status == Drawing)
    requires t == s.(life := t.life, controls := t.controls, purse := t.purse)
    requires t.life == s.life.(status := Cancelled, prizeDeposited := t.life.prizeDeposited)
    requires Histories(c, t.life, s.book, s.podium.winners, t.purse)
    ensures Inv(d, c, t)
  {
    assert Records(c, t.life.status, t.book) by {
      RecordsOfLiveRaffle(c, s.life.status, Cancelled, s.book);
    }
  }

  lemma CancelledKeeps(d: Digests, c: Config, s: State, t: State)
    requires Shape(c) && Inv(d, c, s) && (s.life.status == Active || s.life.status == Drawing)
    requires t == s.(life := s.life.(status := Cancelled), controls := t.controls)
    ensures Inv(d, c, t)
  {
    HistoryOfLiveRaffle(s.purse.log, s.life, t.life);
    StoppedKeeps(d, c, s, t);
  }

  lemma CancelKeeps(d: Digests, c: Config, e: Env, s: State, byAdmin: bool, t: State)
    requires Shape(c) && Inv(d, c, s) && Gives(Cancel(c, e, s, byAdmin), t)
    ensures Inv(d, c, t)
  {
    if byAdmin {
      NeutralKeeps(d, c, s, t);
    } else {
      CancelledKeeps(d, c, s, t);
    }
  }

  lemma EmergencyMoves(c: Config, e: Env, s: State, caller: Address, t: State)
    requires Gives(Emergency(c, e, s, caller), t)
    ensures s.life.status == Drawing && s.life.prizeDeposited
    ensures t == s.(life := s.life.(prizeDeposited := false, status := Cancelled),
                    purse := Pay(s.purse, PrizeRefundOut(c.prizeAmount)))
  {
  }

  lemma EmergencyKeeps(d: Digests, c: Config, s: State, t: State)
    requires Shape(c) && Inv(d, c, s) && s.life.status == Drawing && s.life.prizeDeposited
    requires t == s.(life := s.life.(prizeDeposited := false, status := Cancelled),
                     purse := Pay(s.purse, PrizeRefundOut(c.prizeAmount)))
    ensures Inv(d, c, t)
  {
    PrizeReturnIsLogged(c, s.life, s.book, s.podium.winners, s.purse, t.life, PrizeRefundOut(c.prizeAmount));
    StoppedKeeps(d, c, s, t);
  }

  /** A neutral payment, or a change of settings or recorded fees, keeps the invariant. */
  lemma NeutralKeeps(d: Digests, c: Config, s: State, t: State)
    requires Shape(c) && Inv(d, c, s)
    requires t == s.(controls := t.controls, purse := t.purse) && NeutralChange(s.purse, t.purse)
    ensures Inv(d, c, t)
  {
    NeutralKeepsHistory(d, c, s, t.purse);
  }

  lemma WipeEmpties(c: Config, status: Status, b: Book)
    requires Records(c, status, b) && BuyersListed(b.counts, b.buyers)
    ensures b.tickets - Ids(b.sold) == map[] && b.refunded - Ids(b.sold) == {} && b.commits - Ids(b.sold) == map[]
    ensures b.counts - (set a | a in b.buyers) == map[]
  {
    var listed := set a | a in b.buyers;
    forall a | a in b.counts
      ensures a in listed
    {
      assert a in b.buyers;
    }
    assert (b.counts - listed).Keys == {};
  }

  lemma WipeKeeps(d: Digests, c: Config, s: State, t: State)
    requires Shape(c) && Inv(d, c, s) && Gives(Wipe(c, s), t)
    ensures Inv(d, c, t)
    ensures t.book == Book(s.book.sold, map[], map[], [], {}, map[])
  {
    WipeEmpties(c, s.life.status, s.book);
  }

  // ---------------------------------------------------------------------------
  // Every step, and so every run

  lemma SaleKeeps(d: Digests, c: Config, e: Env, s: State, call: Call, t: State, v: int)
    requires Sale(call) && Shape(c) && Inv(d, c, s) && SaleStep(c, e, s, call) == Accept(t, v)
    ensures Inv(d, c, t)
  {
    match call
    case DepositPrize => DepositKeeps(d, c, e, s, t);
    case BuyTickets(buyer, quantity) => BuyKeeps(d, c, e, s, buyer, quantity, t);
    case BuyTicketsFor(buyer, recipient, quantity) => BuyForKeeps(d, c, e, s, buyer, recipient, quantity, t);
    case SubmitCommit(ticket, hash) => CommitKeeps(d, c, e, s, ticket, hash, t);
  }

  lemma DrawKeeps(d: Digests, c: Config, e: Env, s: State, call: Call, t: State, v: int)
    requires Draws(call) && Shape(c) && Inv(d, c, s) && DrawStep(d, c, e, s, call) == Accept(t, v)
    ensures Inv(d, c, t)
  {
    match call
    case FinalizeRaffle => FinalizeKeeps(d, c, e, s, t);
    case TriggerFallback(caller, refund) => FallbackNeverApplies(d, c, e, s, caller, refund);
  }

  lemma DeliveryKeeps(d: Digests, c: Config, e: Env, s: State, call: Call, t: State, v: int)
    requires Delivers(call) && Shape(c) && Inv(d, c, s) && DeliveryStep(d, c, e, s, call) == Accept(t, v)
    ensures Inv(d, c, t)
  {
    match call
    case ProvideRandomness(seed, proofSeed, ok, id) => OracleKeeps(d, c, e, s, seed, proofSeed, ok, id, t);
    case ProvideQuorumRandomness(oracle, seed, id) => QuorumKeeps(d, c, e, s, oracle, seed, id, t);
  }

  lemma PayoutKeeps(d: Digests, c: Config, e: Env, s: State, call: Call, t: State, v: int)
    requires Payout(call) && Shape(c) && Inv(d, c, s) && PayoutStep(c, e, s, call) == Accept(t, v)
    ensures Inv(d, c, t)
  {
    match call
    case ClaimPrize(winner, tier) => ClaimKeeps(d, c, e, s, winner, tier, v, t);
    case SweepUnclaimed(start, limit) => SweepKeeps(d, c, e, s, start, limit, v, t);
  }

  lemma RefundsKeep(d: Digests, c: Config, s: State, call: Call, t: State, v: int)
    requires Refunds(call) && Shape(c) && Inv(d, c, s) && RefundStep(c, s, call) == Accept(t, v)
    ensures Inv(d, c, t)
  {
    match call
    case RefundPrize => RefundPrizeKeeps(d, c, s, t);
    case RefundTicket(ticket) => RefundKeeps(d, c, s, ticket, v, t);
    case BatchRefund(caller, ids) => BatchKeeps(d, c, s, caller, ids, v, t);
  }

  lemma StopKeeps(d: Digests, c: Config, e: Env, s: State, call: Call, t: State, v: int)
    requires Stops(call) && Shape(c) && Inv(d, c, s) && StopStep(c, e, s, call) == Accept(t, v)
    ensures Inv(d, c, t)
  {
    match call {
      case EmergencyWithdraw(caller) =>
        EmergencyMoves(c, e, s, caller, t);
        EmergencyKeeps(d, c, s, t);
      case WipeStorage => WipeKeeps(d, c, s, t);
      case CancelRaffle(byAdmin) => CancelKeeps(d, c, e, s, byAdmin, t);
      case ExecuteAdminCancel => CancelledKeeps(d, c, s, t);
    }
  }

  /** Rescue, dust, fee withdrawal and donations move money and nothing else. */
  lemma TransferIsNeutral(c: Config, s: State, call: Call, t: State, v: int)
    requires Transfer(call) && TransferStep(c, s, call) == Accept(t, v)
    ensures t == s.(purse := t.purse) && NeutralChange(s.purse, t.purse)
  {
    match call
    case RescueTokens(to, amount) => NeutralPayment(s.purse, SurplusOut(to, amount));
    case SweepDust => DustIsNeutral(c, s, t);
    case WithdrawFees(to, amount) => NeutralPayment(s.purse, FeeWithdrawal(to, amount));
    case Donate(gift) => NeutralPayment(s.purse, DonationIn(gift));
  }

  lemma DustPays(c: Config, s: State, t: State) returns (p: Payment)
    requires Gives(Dust(c, s), t)
    ensures p.SurplusOut? && t == s.(purse := t.purse) && (t.purse == s.purse || t.purse == Pay(s.purse, p))
  {
    p := SurplusOut(c.treasury.value, s.purse.balance - Entitlement(c, s));
  }

  lemma DustIsNeutral(c: Config, s: State, t: State)
    requires Gives(Dust(c, s), t)
    ensures t == s.(purse := t.purse) && NeutralChange(s.purse, t.purse)
  {
    var p := DustPays(c, s, t);
    NeutralPayment(s.purse, p);
  }

  lemma StepKeeps(d: Digests, c: Config, e: Env, s: State, call: Call)
    requires Shape(c) && Inv(d, c, s)
    ensures Inv(d, c, After(d, c, e, s, call))
  {
    hide Inv, SaleStep, DrawStep, DeliveryStep, PayoutStep, RefundStep, StopStep, TransferStep;
    var o := Step(d, c, e, s, call);
    if o.Accept? {
      if Sale(call) {
        SaleKeeps(d, c, e, s, call, o.post, o.value);
      } else if Draws(call) {
        DrawKeeps(d, c, e, s, call, o.post, o.value);
      } else if Delivers(call) {
        DeliveryKeeps(d, c, e, s, call, o.post, o.value);
      } else if Payout(call) {
        PayoutKeeps(d, c, e, s, call, o.post, o.value);
      } else if Refunds(call) {
        RefundsKeep(d, c, s, call, o.post, o.value);
      } else if Stops(call) {
        StopKeeps(d, c, e, s, call, o.post, o.value);
      } else if Transfer(call) {
        TransferIsNeutral(c, s, call, o.post, o.value);
        NeutralKeeps(d, c, s, o.post);
      } else {
        NeutralKeeps(d, c, s, o.post);
      }
    }
  }

  /** The invariant holds after every run of calls. */
  lemma {:induction false} ReachedInv(d: Digests, c: Config, run: Run)
    requires Shape(c)
    ensures Inv(d, c, Reached(d, c, run))
    decreases |run|
  {
    hide After, Inv;
    if run == [] {
      InitialInv(d, c);
    } else {
      var n := |run| - 1;
      ReachedInv(d, c, run[..n]);
      StepKeeps(d, c, run[n].0, Reached(d, c, run[..n]), run[n].1);
    }
  }

  /** Until a terminal raffle is wiped, ticket records are exactly 1 to `sold`, each address is
      counted for exactly the tickets it owns and within its cap, and the buyer list names
      exactly the owners, once each. */
  lemma TicketIndexesAgree(d: Digests, c: Config, run: Run)
    requires Shape(c)
    ensures var s := Reached(d, c, run);
            var b := s.book;
            && (!Refunding(s.life.status) && s.life.status != Claimed ==> Intact(b.tickets, b.sold))
            && (Intact(b.tickets, b.sold) || b.tickets == map[]) && b.sold <= c.maxTickets
            && (forall a: Address :: CountOf(b.counts, a) == |OwnedBy(b.tickets, a)| && WithinCap(c, CountOf(b.counts, a)))
            && Draw.Distinct(b.buyers)
            && (forall a: Address :: a in b.buyers <==> OwnedBy(b.tickets, a) != {})
  {
    hide After;
    ReachedInv(d, c, run);
    var b := Reached(d, c, run).book;
    IndexesAgree(c, b.tickets, b.counts, b.buyers);
  }

  lemma IndexesAgree(c: Config, tickets: map<int, Ticket>, counts: map<Address, nat>, buyers: seq<Address>)
    requires CountsOwned(c, tickets, counts) && BuyersListed(counts, buyers)
    ensures forall a: Address :: CountOf(counts, a) == |OwnedBy(tickets, a)| && WithinCap(c, CountOf(counts, a))
    ensures forall a: Address :: a in buyers <==> OwnedBy(tickets, a) != {}
  {
    forall a: Address
      ensures CountOf(counts, a) == |OwnedBy(tickets, a)| && WithinCap(c, CountOf(counts, a))
      ensures a in buyers <==> OwnedBy(tickets, a) != {}
    {
      CountIsOwned(c, tickets, counts, a);
    }
  }
}
