/** The raffle instance as a state machine: every entrypoint as a function from a state to
    its successor or to an error. A call that returns an error is rolled back by the host,
    so a rejected call has no successor. Authorisation is assumed wherever the contract
    requires it; where it compares addresses the comparison is modelled.

    Choices between unresolved merge sides of the source: `calculate_buy_quote` is the copy
    with bundles and a per-ticket early bird; the last tier takes the remainder of the pool;
    a purchase is paid once; the winning indices are stored after unique resolution; ticket
    refunds pay the recorded price to the owner, batch refunds the list price to the payer. */
module Escrow {
  import opened Common
  import opened Config
  import Pricing
  import TierPrizes
  import Winners
  import opened QuorumSeeds

  const RANDOMNESS_MIN_DELAY_LEDGERS := 10
  const ORACLE_TIMEOUT_LEDGERS := 200
  const TIMELOCK_DELAY_SECONDS := 172_800
  const EMERGENCY_WITHDRAW_DELAY_SECONDS := 7_776_000
  const MAX_SWEEP_UNCLAIMED_PER_CALL := 10
  const SECONDS_PER_LEDGER := 5

  datatype Status = PendingPrize | Active | Drawing | Finalized | Cancelled | Failed | Claimed

  predicate CanTransition(from: Status, to: Status)
  {
    match from
    case PendingPrize => to == Active
    case Active => to == Drawing || to == Failed || to == Cancelled
    case Drawing => to == Finalized || to == Cancelled
    case Finalized => to == Claimed
    case _ => false
  }

  predicate Drawn(status: Status)
  {
    status == Finalized || status == Claimed
  }

  predicate Refunding(status: Status)
  {
    status == Cancelled || status == Failed
  }

  datatype Ticket = Ticket(id: nat, owner: Address, payer: Address, purchaseTime: u64, pricePaid: int)

  datatype Winner = Winner(address: Address, claimed: bool)

  datatype Request = Request(id: u64, ledger: u32)

  datatype Fairness = Fairness(
    seed: u64,
    indices: seq<nat>,
    timestamp: u64,
    sequence: u32,
    contributions: Option<seq<Delivery>>)

  /** Movements of the configured token; the initialiser makes prize and payment token one. */
  datatype Payment =
    | PrizeIn(amount: int)
    | SaleIn(buyer: Address, quantity: nat, amount: int)
    | DonationIn(amount: int)
    | FeeOut(amount: int)
    | PrizeOut(tier: nat, to: Address, gross: int, amount: int)
    | PrizeRefundOut(amount: int)
    | TicketRefundOut(id: int, to: Address, amount: int)
    | SurplusOut(to: Address, amount: int)
    | FeeWithdrawal(to: Address, amount: int)

  /** Where the raffle stands. */
  datatype Life = Life(status: Status, prizeDeposited: bool, lock: bool, request: Option<Request>)

  /** Ticket records, their indexes, refund markers and entropy commitments. */
  datatype Book = Book(
    sold: nat,
    tickets: map<int, Ticket>,
    counts: map<Address, nat>,
    buyers: seq<Address>,
    refunded: set<int>,
    commits: map<int, int>)

  /** The outcome of the draw. */
  datatype Podium = Podium(winners: seq<Winner>, finalizedAt: Option<u64>, fairness: Option<Fairness>)

  /** Oracle deliveries waiting for a quorum. */
  datatype Panel = Panel(submitted: seq<Address>, seeds: map<Address, u64>)

  /** Settings an administrator or the factory can change. */
  datatype Controls = Controls(feeBp: u32, pendingCancel: Option<int>, paused: bool, salesPaused: bool)

  /** The contract's token balance, the fees it records, and every payment ever made. */
  datatype Purse = Purse(fees: int, balance: int, log: seq<Payment>)

  datatype State = State(life: Life, book: Book, podium: Podium, panel: Panel, controls: Controls, purse: Purse)

  /** What a call reads from its surroundings. `payerFunds` is the token balance of the
      address that pays in; `requestId` and `internalSeed` are the digests of ledger data. */
  datatype Env = Env(
    now: u64,
    ledger: u32,
    globalPaused: bool,
    payerFunds: nat,
    requestId: u64,
    internalSeed: u64)

  /** The part of the configuration that an attestation hashes. */
  datatype DrawConfig = DrawConfig(
    maxTickets: u32,
    ticketPrice: int,
    prizeAmount: int,
    prizes: seq<u32>,
    source: RandomnessSource,
    creator: Address)

  /** The hash functions, as arbitrary functions of their input. */
  datatype Digests = Digests(seeds: SeedDigest, commits: seq<int> -> u64, configs: DrawConfig -> int)

  datatype Call =
    | DepositPrize
    | BuyTickets(buyer: Address, quantity: u32)
    | BuyTicketsFor(buyer: Address, recipient: Address, quantity: u32)
    | SubmitCommit(ticket: int, hash: int)
    | FinalizeRaffle
    | ProvideRandomness(seed: u64, proofSeed: u64, signatureOk: bool, requestId: u64)
    | ProvideQuorumRandomness(oracle: Address, seed: u64, requestId: u64)
    | TriggerFallback(caller: Address, refund: bool)
    | ClaimPrize(winner: Address, tier: u32)
    | SweepUnclaimed(start: u32, limit: u32)
    | RefundPrize
    | RefundTicket(ticket: int)
    | BatchRefund(caller: Address, ids: seq<int>)
    | CancelRaffle(byAdmin: bool)
    | ExecuteAdminCancel
    | EmergencyWithdraw(caller: Address)
    | RescueTokens(to: Address, amount: int)
    | SweepDust
    | WithdrawFees(to: Address, amount: int)
    | WipeStorage
    | SetProtocolFee(bp: u32)
    | SetPaused(on: bool)
    | SetSalesPaused(caller: Address, on: bool)
    | Donate(gift: nat)

  datatype Outcome = Accept(post: State, value: int) | Reject(error: Error)

  /** The call is accepted and leads to `t`. */
  predicate Gives(o: Outcome, t: State)
  {
    o.Accept? && o.post == t
  }

  function Initial(c: Config): State
  {
    State(Life(PendingPrize, false, false, None), Book(0, map[], map[], [], {}, map[]), Podium([], None, None),
          Panel([], map[]), Controls(c.protocolFeeBp, None, false, false), Purse(0, 0, []))
  }

  /** The balance change a payment causes. */
  function FlowOf(p: Payment): int
  {
    match p
    case PrizeIn(amount) => amount
    case SaleIn(_, _, amount) => amount
    case DonationIn(amount) => amount
    case _ => -p.amount
  }

  /** Make a payment in or out of the contract, and record it. */
  function Pay(purse: Purse, p: Payment): Purse
  {
    Purse(purse.fees, purse.balance + FlowOf(p), purse.log + [p])
  }

  // ---------------------------------------------------------------------------
  // Deposit and purchase

  function Deposit(c: Config, e: Env, s: State): Outcome
  {
    if s.controls.paused then Reject(ContractPaused)
    else if s.life.prizeDeposited then Reject(PrizeAlreadyDeposited)
    else if e.payerFunds < c.prizeAmount then Reject(TokenTransferFailed)
    else if !CanTransition(s.life.status, Active) then Reject(InvalidStateTransition)
    else
      Accept(s.(life := s.life.(prizeDeposited := true, status := Active),
                purse := Pay(s.purse, PrizeIn(c.prizeAmount))), 0)
  }

  function Expired(c: Config, e: Env): bool
  {
    !c.noDeadline && e.now >= c.endTime
  }

  function PurchaseGuard(c: Config, e: Env, s: State, quantity: u32): Option<Error>
  {
    if s.life.lock then Some(DrawingAlreadyInProgress)
    else if quantity == 0 then Some(InvalidQuantity)
    else if quantity > c.maxPerTx then Some(ExceedsMaxTicketsPerTx)
    else if s.controls.paused || e.globalPaused then Some(ContractPaused)
    else if s.life.status != Active then Some(RaffleInactive)
    else if s.controls.salesPaused then Some(ContractPaused)
    else if !s.life.prizeDeposited then Some(InvalidStateTransition)
    else if Expired(c, e) then Some(RaffleExpired)
    else None
  }

  function CountOf(counts: map<Address, nat>, a: Address): nat
  {
    if a in counts then counts[a] else 0
  }

  function CapGuard(c: Config, s: State, owner: Address, quantity: u32): Option<Error>
  {
    var count := CountOf(s.book.counts, owner);
    if s.book.sold + quantity > c.maxTickets then Some(TicketsSoldOut)
    else if c.maxPerAddress == 0 && !c.allowMultiple && (count > 0 || quantity > 1) then Some(MultipleTicketsNotAllowed)
    else if c.maxPerAddress > 0 && count + quantity > c.maxPerAddress then Some(ExceedsMaxTicketsPerAddress)
    else None
  }

  function NewTickets(c: Config, sold: nat, owner: Address, payer: Address, now: u64, quantity: nat): map<int, Ticket>
  {
    map id | sold < id <= sold + quantity :: Ticket(id, owner, payer, now, c.ticketPrice)
  }

  function FeeToTreasury(c: Config, fee: int): int
  {
    if fee > 0 && c.treasury.Some? then fee else 0
  }

  /** The buyer pays in, and the protocol fee goes on to the treasury. The fee is recorded as
      accumulated as well. */
  function TakePayment(c: Config, purse: Purse, payer: Address, quantity: nat, charge: int, fee: int): Purse
  {
    var paid := Pay(purse, SaleIn(payer, quantity, charge));
    var forwarded := if FeeToTreasury(c, fee) > 0 then Pay(paid, FeeOut(fee)) else paid;
    forwarded.(fees := purse.fees + Max(fee, 0))
  }

  /** The ticket records, the owner's count and the buyer list after a sale. */
  function AddTickets(c: Config, book: Book, owner: Address, payer: Address, now: u64, quantity: nat): Book
  {
    book.(buyers := if CountOf(book.counts, owner) == 0 then book.buyers + [owner] else book.buyers,
          tickets := book.tickets + NewTickets(c, book.sold, owner, payer, now, quantity),
          counts := book.counts[owner := CountOf(book.counts, owner) + quantity],
          sold := book.sold + quantity)
  }

  /** Selling the last ticket starts the draw; only the external source is asked for randomness. */
  function StartDrawIfSoldOut(c: Config, e: Env, life: Life, sold: nat): Life
  {
    if sold < c.maxTickets then life
    else
      life.(status := Drawing, lock := true,
            request := if c.source.External? then Some(Request(e.requestId, e.ledger)) else life.request)
  }

  /** An accepted purchase of `quantity` tickets for `charge`. */
  function Sell(c: Config, e: Env, s: State, payer: Address, owner: Address, quantity: nat, charge: int, fee: int): Outcome
  {
    var sold := s.book.sold + quantity;
    if sold >= c.maxTickets && c.source.External? && s.life.request.Some? then Reject(RandomnessAlreadyRequested)
    else
      Accept(s.(life := StartDrawIfSoldOut(c, e, s.life, sold),
                book := AddTickets(c, s.book, owner, payer, e.now, quantity),
                purse := TakePayment(c, s.purse, payer, quantity, charge, fee)), sold)
  }

  function Buy(c: Config, e: Env, s: State, buyer: Address, quantity: u32): Outcome
  {
    var guard := PurchaseGuard(c, e, s, quantity);
    if guard.Some? then Reject(guard.value)
    else
      var cap := CapGuard(c, s, buyer, quantity);
      if cap.Some? then Reject(cap.value)
      else
        var quote := Pricing.Quote(c, s.book.sold, s.controls.feeBp, quantity);
        if quote.Err? then Reject(quote.error)
        else if e.payerFunds < quote.value.netToPay then Reject(TokenTransferFailed)
        else Sell(c, e, s, buyer, buyer, quantity, quote.value.netToPay, quote.value.fee)
  }

  /** A gift purchase is charged the list price and credited to the recipient. */
  function BuyFor(c: Config, e: Env, s: State, buyer: Address, recipient: Address, quantity: u32): Outcome
  {
    var guard := PurchaseGuard(c, e, s, quantity);
    if guard.Some? then Reject(guard.value)
    else
      var cap := CapGuard(c, s, recipient, quantity);
      if cap.Some? then Reject(cap.value)
      else
        var price := c.ticketPrice * quantity;
        if price > I128_MAX || price * s.controls.feeBp > I128_MAX then Reject(ArithmeticOverflow)
        else if e.payerFunds < price then Reject(TokenTransferFailed)
        else Sell(c, e, s, buyer, recipient, quantity, price, Pricing.FeeOn(price, s.controls.feeBp))
  }

  function Commit(c: Config, e: Env, s: State, ticket: int, hash: int): Outcome
  {
    if !c.source.CommitReveal? then Reject(InvalidParameters)
    else if s.life.status != Active then Reject(InvalidStatus)
    else if s.controls.paused || e.globalPaused then Reject(ContractPaused)
    else if ticket !in s.book.tickets then Reject(TicketNotFound)
    else if ticket in s.book.commits then Reject(CommitAlreadySubmitted)
    else Accept(s.(book := s.book.(commits := s.book.commits[ticket := hash])), 0)
  }

  // ---------------------------------------------------------------------------
  // The draw

  predicate IsTicketId(id: int, n: nat)
  {
    1 <= id <= n
  }

  function Ids(n: nat): (ids: set<int>)
    ensures forall id: nat :: id in ids <==> IsTicketId(id, n)
  {
    set id: nat | id <= n && IsTicketId(id, n)
  }

  /** Every ticket sold still has its record. */
  ghost predicate Intact(tickets: map<int, Ticket>, sold: nat)
  {
    tickets.Keys == Ids(sold)
  }

  function TicketOwner(tickets: map<int, Ticket>, id: int): Address
  {
    if id in tickets then tickets[id].owner else 0
  }

  /** The owners of tickets 1 to `sold`, in ticket order. */
  function Owners(tickets: map<int, Ticket>, sold: nat): (owners: seq<Address>)
    ensures |owners| == sold
  {
    seq(sold, i requires 0 <= i < sold => TicketOwner(tickets, i + 1))
  }

  predicate AllTicketsPresent(tickets: map<int, Ticket>, sold: nat)
  {
    forall id | 1 <= id <= sold :: id in tickets
  }

  function NewWinners(owners: seq<Address>, indices: seq<nat>): (ws: seq<Winner>)
    requires forall i :: 0 <= i < |indices| ==> indices[i] < |owners|
    ensures |ws| == |indices|
  {
    seq(|indices|, i requires 0 <= i < |indices| => Winner(owners[indices[i]], false))
  }

  function ClearQuorum(submitted: seq<Address>, seeds: map<Address, u64>): map<Address, u64>
  {
    seeds - set a | a in submitted
  }

  function FinalizeWithSeed(c: Config, e: Env, s: State, seed: u64, contributions: Option<seq<Delivery>>): Outcome
  {
    if s.book.sold == 0 then Reject(NoTicketsSold)
    else if |c.prizes| > s.book.sold then Reject(MorePrizesThanTickets)
    else if s.book.sold >= U32_LIMIT || !AllTicketsPresent(s.book.tickets, s.book.sold) then Reject(TicketNotFound)
    else if !CanTransition(s.life.status, Finalized) then Reject(InvalidStateTransition)
    else
      var owners := Owners(s.book.tickets, s.book.sold);
      var indices := Winners.DrawOutcome(seed, owners, |c.prizes|, c.uniqueWinners);
      Accept(s.(life := s.life.(status := Finalized, request := None, lock := false),
                podium := Podium(NewWinners(owners, indices), Some(e.now),
                                 Some(Fairness(seed, indices, e.now, e.ledger, contributions))),
                panel := Panel([], ClearQuorum(s.panel.submitted, s.panel.seeds))), 0)
  }

  /** The commit hashes present, in ticket order. */
  function CommitHashes(commits: map<int, int>, sold: nat): seq<int>
  {
    if sold == 0 then []
    else CommitHashes(commits, sold - 1) + if sold in commits then [commits[sold]] else []
  }

  function DrawSeed(d: Digests, c: Config, e: Env, s: State): u64
  {
    var hashes := CommitHashes(s.book.commits, s.book.sold);
    if c.source.CommitReveal? && hashes != [] then d.commits(hashes) else e.internalSeed
  }

  function Finalize(d: Digests, c: Config, e: Env, s: State): Outcome
  {
    if s.life.lock then Reject(DrawingAlreadyInProgress)
    else if s.life.status != Active && s.life.status != Drawing then Reject(InvalidStatus)
    else if s.life.status == Active && !Expired(c, e) && s.book.sold < c.maxTickets then Reject(InvalidStateTransition)
    else if s.book.sold == 0 || s.book.sold < c.minTickets then
      if CanTransition(s.life.status, Failed) then Accept(s.(life := s.life.(status := Failed)), 0) else Reject(InvalidStateTransition)
    else if s.life.status == Drawing then Reject(DrawingAlreadyInProgress)
    else
      var t := s.(life := s.life.(status := Drawing, lock := true));
      if c.source.External? || c.source.Quorum? then
        if s.life.request.Some? then Reject(RandomnessAlreadyRequested)
        else
          Accept(t.(life := t.life.(request := Some(Request(e.requestId, e.ledger))),
                    panel := if c.source.Quorum? then s.panel.(submitted := []) else s.panel), 0)
      else FinalizeWithSeed(c, e, t, DrawSeed(d, c, e, s), None)
  }

  function OracleDelivery(c: Config, e: Env, s: State, seed: u64, proofSeed: u64, signatureOk: bool, requestId: u64): Outcome
  {
    if !s.life.lock then Reject(DrawingAlreadyComplete)
    else if c.source.Quorum? then Reject(InvalidParameters)
    else if c.oracle.None? then Reject(OracleNotSet)
    else if s.life.status != Drawing then Reject(InvalidStateTransition)
    else if s.life.request.None? then Reject(NoRandomnessRequest)
    else if s.life.request.value.ledger + RANDOMNESS_MIN_DELAY_LEDGERS >= U32_LIMIT then Reject(HostPanic)
    else if e.ledger < s.life.request.value.ledger + RANDOMNESS_MIN_DELAY_LEDGERS then Reject(RandomnessTooEarly)
    else if s.life.request.value.id != requestId then Reject(InvalidParameters)
    else if proofSeed != seed then Reject(InvalidParameters)
    else if !signatureOk then Reject(HostPanic)
    else FinalizeWithSeed(c, e, s, seed, None)
  }

  /** The deliveries on record, in order of submission. */
  function Deliveries(submitted: seq<Address>, seeds: map<Address, u64>): (ds: seq<Delivery>)
  {
    if submitted == [] then []
    else
      var n := |submitted| - 1;
      var a := submitted[n];
      Deliveries(submitted[..n], seeds) + if a in seeds then [(a, seeds[a])] else []
  }

  function QuorumDelivery(d: Digests, c: Config, e: Env, s: State, oracle: Address, seed: u64, requestId: u64): Outcome
  {
    if !s.life.lock then Reject(DrawingNotStarted)
    else if s.life.request.None? then Reject(NoRandomnessRequest)
    else if s.life.request.value.id != requestId then Reject(InvalidParameters)
    else if !c.source.Quorum? then Reject(InvalidParameters)
    else if oracle !in c.source.oracles then Reject(OracleNotRegistered)
    else if oracle in s.panel.seeds then Reject(DuplicateOracleSubmission)
    else
      var t := s.(panel := Panel(s.panel.submitted + [oracle], s.panel.seeds[oracle := seed]));
      if |t.panel.submitted| < c.source.k then Accept(t, 0)
      else
        var ds := Deliveries(t.panel.submitted, t.panel.seeds);
        FinalizeWithSeed(c, e, t, Aggregate(d.seeds, ds), Some(ds))
  }

  function Fallback(c: Config, e: Env, s: State, caller: Address, refund: bool): Outcome
  {
    if s.life.lock then Reject(DrawingAlreadyInProgress)
    else if caller != c.creator && caller != c.admin then Reject(NotAuthorized)
    else if s.life.status != Drawing then Reject(InvalidStateTransition)
    else if s.life.request.None? then Reject(NoRandomnessRequest)
    else if s.life.request.value.ledger + ORACLE_TIMEOUT_LEDGERS >= U32_LIMIT then Reject(HostPanic)
    else if e.ledger < s.life.request.value.ledger + ORACLE_TIMEOUT_LEDGERS then Reject(FallbackTooEarly)
    else if refund then Accept(s.(life := s.life.(status := Cancelled, request := None, lock := false)), 0)
    else FinalizeWithSeed(c, e, s, e.internalSeed, None)
  }

  // ---------------------------------------------------------------------------
  // Prizes

  predicate AllClaimed(winners: seq<Winner>)
  {
    forall i | 0 <= i < |winners| :: winners[i].claimed
  }

  /** Mark a tier as paid; the raffle is settled when every tier is. */
  function MarkClaimed(winners: seq<Winner>, tier: nat): (ws: seq<Winner>)
    requires tier < |winners|
    ensures |ws| == |winners|
  {
    winners[tier := winners[tier].(claimed := true)]
  }

  function CeilFee(amount: int, feeBp: u32): int
  {
    (amount * feeBp + 9_999) / BASIS_POINTS
  }

  /** The winner's net prize and, when there is a treasury, the fee it withholds. */
  function PayPrize(c: Config, purse: Purse, tier: nat, to: Address, amount: int, fee: int): Purse
  {
    var paid := Pay(purse, PrizeOut(tier, to, amount, amount - fee));
    var forwarded := if FeeToTreasury(c, fee) > 0 then Pay(paid, FeeOut(fee)) else paid;
    forwarded.(fees := purse.fees + fee)
  }

  function Claim(c: Config, e: Env, s: State, winner: Address, tier: u32): Outcome
  {
    if s.life.status != Finalized then Reject(InvalidStatus)
    else if s.podium.finalizedAt.Some? && s.podium.finalizedAt.value + LockupSeconds(c) >= U64_LIMIT then Reject(HostPanic)
    else if s.podium.finalizedAt.Some? && e.now < s.podium.finalizedAt.value + LockupSeconds(c) then Reject(ClaimTooEarly)
    else if tier >= |s.podium.winners| then Reject(InvalidParameters)
    else if s.podium.winners[tier].address != winner then Reject(NotWinner)
    else if s.podium.winners[tier].claimed then Reject(PrizeAlreadyClaimed)
    else if tier >= |c.prizes| then Reject(InvalidIndex)
    else
      var amount := TierPrizes.TierPrize(c.prizeAmount, c.prizes, tier);
      if amount <= 0 then Reject(ZeroPrize)
      else if s.purse.balance < amount then Reject(InsufficientFunds)
      else
        var fee := CeilFee(amount, s.controls.feeBp);
        var ws := MarkClaimed(s.podium.winners, tier);
        Accept(s.(life := s.life.(status := if AllClaimed(ws) then Claimed else Finalized),
                  podium := s.podium.(winners := ws),
                  purse := PayPrize(c, s.purse, tier, winner, amount, fee)), amount)
  }

  /** Sweep tiers `i` to `end`, skipping the ones already paid and the ones worth nothing. */
  function SweepTiers(c: Config, s: State, treasury: Address, i: nat, end: nat): Outcome
    requires end <= |s.podium.winners| && end <= |c.prizes|
    decreases end - i
  {
    if i >= end then Accept(s, 0)
    else
      var amount := TierPrizes.TierPrize(c.prizeAmount, c.prizes, i);
      if s.podium.winners[i].claimed || amount <= 0 then SweepTiers(c, s, treasury, i + 1, end)
      else if s.purse.balance < amount then Reject(TokenTransferFailed)
      else
        var t := s.(podium := s.podium.(winners := MarkClaimed(s.podium.winners, i)),
                    purse := Pay(s.purse, PrizeOut(i, treasury, amount, amount)));
        var rest := SweepTiers(c, t, treasury, i + 1, end);
        if rest.Reject? then rest else rest.(value := rest.value + 1)
  }

  function SweepEnd(s: State, start: nat, limit: nat): nat
  {
    var items := if limit == 0 then MAX_SWEEP_UNCLAIMED_PER_CALL else Min(limit, MAX_SWEEP_UNCLAIMED_PER_CALL);
    Min(start + items, |s.podium.winners|)
  }

  function Sweep(c: Config, e: Env, s: State, start: u32, limit: u32): Outcome
  {
    if s.life.status != Finalized then Reject(InvalidStatus)
    else if ExpirySeconds(c) == 0 then Reject(InvalidStateTransition)
    else if s.podium.finalizedAt.None? then Reject(InvalidStatus)
    else if s.podium.finalizedAt.value + ExpirySeconds(c) >= U64_LIMIT then Reject(HostPanic)
    else if e.now < s.podium.finalizedAt.value + ExpirySeconds(c) then Reject(ClaimTooEarly)
    else if c.treasury.None? then Reject(NotAuthorized)
    else if start >= |s.podium.winners| then Accept(s, 0)
    else if |s.podium.winners| > |c.prizes| then Reject(InvalidIndex)
    else
      var swept := SweepTiers(c, s, c.treasury.value, start, SweepEnd(s, start, limit));
      if swept.Reject? then swept
      else if AllClaimed(swept.post.podium.winners) then swept.(post := swept.post.(life := s.life.(status := Claimed)))
      else swept
  }

  // ---------------------------------------------------------------------------
  // Refunds

  function RefundThePrize(c: Config, s: State): Outcome
  {
    if !Refunding(s.life.status) then Reject(InvalidStatus)
    else if !s.life.prizeDeposited then Reject(PrizeNotDeposited)
    else if s.purse.balance < c.prizeAmount then Reject(TokenTransferFailed)
    else
      Accept(s.(life := s.life.(prizeDeposited := false),
                purse := Pay(s.purse, PrizeRefundOut(c.prizeAmount))), 0)
  }

  function PayRefund(s: State, id: int, to: Address, amount: int): State
  {
    s.(book := s.book.(refunded := s.book.refunded + {id}),
       purse := Pay(s.purse, TicketRefundOut(id, to, amount)))
  }

  function Refund(s: State, id: int): Outcome
  {
    if !Refunding(s.life.status) then Reject(InvalidStatus)
    else if id !in s.book.tickets then Reject(TicketNotFound)
    else if id in s.book.refunded then Reject(PrizeAlreadyClaimed)
    else
      var t := s.book.tickets[id];
      if s.purse.balance < t.pricePaid then Reject(TokenTransferFailed)
      else Accept(PayRefund(s, id, t.owner, t.pricePaid), t.pricePaid)
  }

  function RefundAll(c: Config, s: State, caller: Address, ids: seq<int>): Outcome
    decreases |ids|
  {
    if ids == [] then Accept(s, 0)
    else if ids[0] !in s.book.tickets then Reject(TicketNotFound)
    else
      var t := s.book.tickets[ids[0]];
      if caller != t.payer && caller != t.owner then Reject(NotAuthorized)
      else if ids[0] in s.book.refunded then RefundAll(c, s, caller, ids[1..])
      else if s.purse.balance < c.ticketPrice then Reject(TokenTransferFailed)
      else
        var rest := RefundAll(c, PayRefund(s, ids[0], t.payer, c.ticketPrice), caller, ids[1..]);
        if rest.Reject? then rest else rest.(value := rest.value + c.ticketPrice)
  }

  function Batch(c: Config, s: State, caller: Address, ids: seq<int>): Outcome
  {
    if !Refunding(s.life.status) then Reject(InvalidStatus) else RefundAll(c, s, caller, ids)
  }

  // ---------------------------------------------------------------------------
  // Cancellation and administration

  function Cancel(c: Config, e: Env, s: State, byAdmin: bool): Outcome
  {
    if byAdmin && e.now + TIMELOCK_DELAY_SECONDS >= U64_LIMIT then Reject(ArithmeticOverflow)
    else if byAdmin then
      Accept(s.(controls := s.controls.(pendingCancel := Some(e.now + TIMELOCK_DELAY_SECONDS))), 0)
    else if Drawn(s.life.status) || s.life.status == Cancelled then Reject(InvalidStatus)
    else if !CanTransition(s.life.status, Cancelled) then Reject(InvalidStateTransition)
    else Accept(s.(life := s.life.(status := Cancelled)), 0)
  }

  function ExecuteCancel(e: Env, s: State): Outcome
  {
    if s.controls.pendingCancel.None? then Reject(CancelNotScheduled)
    else if e.now < s.controls.pendingCancel.value then Reject(CancelTimelockActive)
    else if Drawn(s.life.status) || s.life.status == Cancelled then Reject(InvalidStatus)
    else if !CanTransition(s.life.status, Cancelled) then Reject(InvalidStateTransition)
    else
      Accept(s.(life := s.life.(status := Cancelled), controls := s.controls.(pendingCancel := None)), 0)
  }

  /** The ticket refunds the administrative checks count: every ticket number up to `n` that
      has no refund marker, at the list price. */
  function OutstandingTicketRefunds(c: Config, refunded: set<int>, n: nat): int
  {
    if n == 0 then 0
    else OutstandingTicketRefunds(c, refunded, n - 1) + if n in refunded then 0 else c.ticketPrice
  }

  function UnclaimedFrom(c: Config, winners: seq<Winner>, n: nat): int
    requires n <= |winners| && n <= |c.prizes|
  {
    if n == 0 then 0
    else
      UnclaimedFrom(c, winners, n - 1)
        + if winners[n - 1].claimed then 0 else TierPrizes.TierPrize(c.prizeAmount, c.prizes, n - 1)
  }

  function UnclaimedPrizes(c: Config, s: State): int
  {
    UnclaimedFrom(c, s.podium.winners, Min(|s.podium.winners|, |c.prizes|))
  }

  /** Literally the contract's row: a settled raffle still counts its whole prize. */
  function OutstandingPrize(c: Config, s: State): int
  {
    if !s.life.prizeDeposited then 0
    else if s.life.status != Finalized then c.prizeAmount
    else UnclaimedPrizes(c, s)
  }

  function Entitlement(c: Config, s: State): int
  {
    OutstandingPrize(c, s)
      + if Drawn(s.life.status) then 0 else OutstandingTicketRefunds(c, s.book.refunded, s.book.sold) + s.purse.fees
  }

  predicate EmergencyDue(c: Config, e: Env, request: Option<Request>)
  {
    if c.noDeadline then
      var since := if request.Some? then request.value.ledger else 0;
      Max(e.ledger - since, 0) * SECONDS_PER_LEDGER >= EMERGENCY_WITHDRAW_DELAY_SECONDS
    else e.now >= c.endTime + EMERGENCY_WITHDRAW_DELAY_SECONDS
  }

  function Emergency(c: Config, e: Env, s: State, caller: Address): Outcome
  {
    if !s.life.prizeDeposited then Reject(PrizeNotDeposited)
    else if caller != c.creator && caller != c.admin then Reject(NotAuthorized)
    else if s.life.status != Drawing then Reject(InvalidStatus)
    else if !c.noDeadline && c.endTime + EMERGENCY_WITHDRAW_DELAY_SECONDS >= U64_LIMIT then Reject(HostPanic)
    else if !EmergencyDue(c, e, s.life.request) then Reject(EmergencyTooEarly)
    else if s.purse.balance < c.prizeAmount || s.purse.balance - c.prizeAmount < Entitlement(c, s) - c.prizeAmount then
      Reject(InvalidStateTransition)
    else
      Accept(s.(life := s.life.(prizeDeposited := false, status := Cancelled),
                purse := Pay(s.purse, PrizeRefundOut(c.prizeAmount))), 0)
  }

  function Rescue(c: Config, s: State, to: Address, amount: int): Outcome
  {
    if amount <= 0 then Reject(InvalidParameters)
    else if Entitlement(c, s) > s.purse.balance || amount > s.purse.balance - Entitlement(c, s) then Reject(InvalidStateTransition)
    else Accept(s.(purse := Pay(s.purse, SurplusOut(to, amount))), 0)
  }

  predicate Settled(s: State)
  {
    !s.life.prizeDeposited && forall id | 1 <= id <= s.book.sold :: id in s.book.refunded
  }

  function Dust(c: Config, s: State): Outcome
  {
    if s.life.status != Claimed && s.life.status != Cancelled then Reject(InvalidStatus)
    else if s.life.status == Cancelled && !Settled(s) then Reject(InvalidStateTransition)
    else if c.treasury.None? then Reject(InvalidParameters)
    else
      var dust := s.purse.balance - Entitlement(c, s);
      if dust < 0 then Reject(InvalidStateTransition)
      else if dust == 0 then Accept(s, 0)
      else Accept(s.(purse := Pay(s.purse, SurplusOut(c.treasury.value, dust))), 0)
  }

  function Withdraw(s: State, to: Address, amount: int): Outcome
  {
    if !Drawn(s.life.status) then Reject(InvalidStatus)
    else if amount <= 0 then Reject(InvalidParameters)
    else if amount > s.purse.fees then Reject(InsufficientAccumulatedFees)
    else if s.purse.balance < amount then Reject(HostPanic)
    else
      Accept(s.(purse := Pay(s.purse, FeeWithdrawal(to, amount)).(fees := s.purse.fees - amount)), 0)
  }

  /** The wipe looks the quorum entries up in the wrong storage tier, so it leaves them. */
  function Wipe(c: Config, s: State): Outcome
  {
    if !Refunding(s.life.status) && s.life.status != Claimed then Reject(InvalidStatus)
    else if Refunding(s.life.status) && !Settled(s) then Reject(InvalidStateTransition)
    else if s.purse.balance != 0 then Reject(InvalidStateTransition)
    else
      var ids := Ids(s.book.sold);
      Accept(s.(life := s.life.(request := None, lock := false),
                book := Book(s.book.sold, s.book.tickets - ids, s.book.counts - (set a | a in s.book.buyers), [],
                             s.book.refunded - ids, s.book.commits - ids),
                controls := s.controls.(paused := false, pendingCancel := None),
                purse := s.purse.(fees := 0)), 0)
  }

  function SetFee(s: State, bp: u32): Outcome
  {
    if bp > MAX_PROTOCOL_FEE_BP then Reject(InvalidParameters)
    else if s.book.sold > 0 then Reject(InvalidStatus)
    else Accept(s.(controls := s.controls.(feeBp := bp)), 0)
  }

  function PauseSales(c: Config, s: State, caller: Address, on: bool): Outcome
  {
    if caller != c.creator && caller != c.admin then Reject(NotAuthorized)
    else if s.life.status != Active then Reject(InvalidStatus)
    else Accept(s.(controls := s.controls.(salesPaused := on)), 0)
  }

  // ---------------------------------------------------------------------------
  // Runs

  predicate Sale(call: Call)
  {
    match call
    case DepositPrize | BuyTickets(_, _) | BuyTicketsFor(_, _, _) | SubmitCommit(_, _) => true
    case _ => false
  }

  function SaleStep(c: Config, e: Env, s: State, call: Call): Outcome
    requires Sale(call)
  {
    match call
    case DepositPrize => Deposit(c, e, s)
    case BuyTickets(buyer, quantity) => Buy(c, e, s, buyer, quantity)
    case BuyTicketsFor(buyer, recipient, quantity) => BuyFor(c, e, s, buyer, recipient, quantity)
    case SubmitCommit(ticket, hash) => Commit(c, e, s, ticket, hash)
  }

  predicate Draws(call: Call)
  {
    match call
    case FinalizeRaffle | TriggerFallback(_, _) => true
    case _ => false
  }

  function DrawStep(d: Digests, c: Config, e: Env, s: State, call: Call): Outcome
    requires Draws(call)
  {
    match call
    case FinalizeRaffle => Finalize(d, c, e, s)
    case TriggerFallback(caller, refund) => Fallback(c, e, s, caller, refund)
  }

  predicate Delivers(call: Call)
  {
    call.ProvideRandomness? || call.ProvideQuorumRandomness?
  }

  function DeliveryStep(d: Digests, c: Config, e: Env, s: State, call: Call): Outcome
    requires Delivers(call)
  {
    match call
    case ProvideRandomness(seed, proofSeed, signatureOk, requestId) =>
      OracleDelivery(c, e, s, seed, proofSeed, signatureOk, requestId)
    case ProvideQuorumRandomness(oracle, seed, requestId) => QuorumDelivery(d, c, e, s, oracle, seed, requestId)
  }

  predicate Payout(call: Call)
  {
    match call
    case ClaimPrize(_, _) | SweepUnclaimed(_, _) => true
    case _ => false
  }

  function PayoutStep(c: Config, e: Env, s: State, call: Call): Outcome
    requires Payout(call)
  {
    match call
    case ClaimPrize(winner, tier) => Claim(c, e, s, winner, tier)
    case SweepUnclaimed(start, limit) => Sweep(c, e, s, start, limit)
  }

  predicate Refunds(call: Call)
  {
    match call
    case RefundPrize | RefundTicket(_) | BatchRefund(_, _) => true
    case _ => false
  }

  function RefundStep(c: Config, s: State, call: Call): Outcome
    requires Refunds(call)
  {
    match call
    case RefundPrize => RefundThePrize(c, s)
    case RefundTicket(ticket) => Refund(s, ticket)
    case BatchRefund(caller, ids) => Batch(c, s, caller, ids)
  }

  /** Calls that stop an undrawn raffle, or erase a settled one. */
  predicate Stops(call: Call)
  {
    match call
    case CancelRaffle(_) | ExecuteAdminCancel | EmergencyWithdraw(_) | WipeStorage => true
    case _ => false
  }

  function StopStep(c: Config, e: Env, s: State, call: Call): Outcome
    requires Stops(call)
  {
    match call
    case CancelRaffle(byAdmin) => Cancel(c, e, s, byAdmin)
    case ExecuteAdminCancel => ExecuteCancel(e, s)
    case EmergencyWithdraw(caller) => Emergency(c, e, s, caller)
    case WipeStorage => Wipe(c, s)
  }

  predicate Transfer(call: Call)
  {
    match call
    case RescueTokens(_, _) | SweepDust | WithdrawFees(_, _) | Donate(_) => true
    case _ => false
  }

  function TransferStep(c: Config, s: State, call: Call): Outcome
    requires Transfer(call)
  {
    match call
    case RescueTokens(to, amount) => Rescue(c, s, to, amount)
    case SweepDust => Dust(c, s)
    case WithdrawFees(to, amount) => Withdraw(s, to, amount)
    case Donate(gift) => Accept(s.(purse := Pay(s.purse, DonationIn(gift))), 0)
  }

  predicate Settings(call: Call)
  {
    match call
    case SetProtocolFee(_) | SetPaused(_) | SetSalesPaused(_, _) => true
    case _ => false
  }

  function SettingStep(c: Config, s: State, call: Call): Outcome
    requires Settings(call)
  {
    match call
    case SetProtocolFee(bp) => SetFee(s, bp)
    case SetPaused(on) => Accept(s.(controls := s.controls.(paused := on)), 0)
    case SetSalesPaused(caller, on) => PauseSales(c, s, caller, on)
  }

  function Step(d: Digests, c: Config, e: Env, s: State, call: Call): Outcome
  {
    if Sale(call) then SaleStep(c, e, s, call)
    else if Draws(call) then DrawStep(d, c, e, s, call)
    else if Delivers(call) then DeliveryStep(d, c, e, s, call)
    else if Payout(call) then PayoutStep(c, e, s, call)
    else if Refunds(call) then RefundStep(c, s, call)
    else if Stops(call) then StopStep(c, e, s, call)
    else if Transfer(call) then TransferStep(c, s, call)
    else SettingStep(c, s, call)
  }

  /** A rejected call is rolled back. */
  function After(d: Digests, c: Config, e: Env, s: State, call: Call): State
  {
    var o := Step(d, c, e, s, call);
    if o.Accept? then o.post else s
  }

  type Run = seq<(Env, Call)>

  function Execute(d: Digests, c: Config, s: State, run: Run): State
    decreases |run|
  {
    if run == [] then s
    else
      var n := |run| - 1;
      After(d, c, run[n].0, Execute(d, c, s, run[..n]), run[n].1)
  }

  function Reached(d: Digests, c: Config, run: Run): State
  {
    Execute(d, c, Initial(c), run)
  }
}
