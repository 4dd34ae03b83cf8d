/** The raffle contract as an object whose entrypoints update its storage step by step. Each
    method is proved to do exactly what the state machine says: a call that succeeds moves the
    stored state to the specified successor, and a call that fails leaves it unchanged, because
    the host rolls a failing call back. */
module RaffleInstance {
  import opened Common
  import opened Config
  import opened Escrow
  import opened Invariants
  import opened QuorumSeeds
  import Draw
  import Outcomes
  import Pricing
  import TierPrizes
  import Winners

  class Raffle {
    const config: Config
    const digests: Digests

    var life: Life
    var book: Book
    var podium: Podium
    var panel: Panel
    var controls: Controls
    var purse: Purse

    ghost function Abs(): State
      reads this
    {
      State(life, book, podium, panel, controls, purse)
    }

    /** What the bodies need to index and count safely. */
    ghost predicate Ready()
      reads this
    {
      Valid(config) && book.sold <= config.maxTickets && |podium.winners| <= |config.prizes|
    }

    ghost predicate Consistent()
      reads this
    {
      Valid(config) && Inv(digests, config, Abs())
    }

    /** The call did what `o` says. */
    ghost predicate Performed(o: Outcome, before: State, r: Result<int>)
      reads this
    {
      match o
      case Accept(post, value) => r == Ok(value) && Abs() == post
      case Reject(error) => r == Err(error) && Abs() == before
    }

    constructor (c: Config, d: Digests)
      requires Valid(c)
      ensures Consistent() && config == c && digests == d && Abs() == Initial(c)
    {
      config, digests := c, d;
      life := Life(PendingPrize, false, false, None);
      book := Book(0, map[], map[], [], {}, map[]);
      podium := Podium([], None, None);
      panel := Panel([], map[]);
      controls := Controls(c.protocolFeeBp, None, false, false);
      purse := Purse(0, 0, []);
      InitialInv(d, c);
    }

    /** Initialisation succeeds exactly for acceptable configurations within the instance
        bounds, and then starts from the normalised configuration. */
    static method Init(c: Config, d: Digests, now: u64, tokenAnswers: bool, self: Address) returns (r: Result<Raffle>)
      ensures r.Ok? <==> Acceptable(c, now, tokenAnswers, self) && !InitRefuses(c, self)
      ensures r.Ok? ==>
                && fresh(r.value) && r.value.Consistent()
                && r.value.config == Normalised(c) && r.value.digests == d && r.value.Abs() == Initial(Normalised(c))
    {
      var validated := ValidateConfig(c, now, tokenAnswers, self);
      if validated.Err? {
        return Err(validated.error);
      }
      if ExceedsInternalRandomnessCap(c) {
        return Err(RandomnessSourceTooWeakForPrize);
      }
      if !InstanceBounds(c) || (c.source.Quorum? && self in c.source.oracles) {
        return Err(InvalidParameters);
      }
      NormalisedIsValid(c, now, tokenAnswers, self);
      var raffle := new Raffle(validated.value, d);
      return Ok(raffle);
    }

    // -------------------------------------------------------------------------
    // Deposit and purchase

    method DepositPrize(e: Env) returns (r: Result<int>)
      requires Ready()
      modifies this
      ensures Performed(Deposit(config, e, old(Abs())), old(Abs()), r)
    {
      if controls.paused {
        return Err(ContractPaused);
      }
      if life.prizeDeposited {
        return Err(PrizeAlreadyDeposited);
      }
      if e.payerFunds < config.prizeAmount {
        return Err(TokenTransferFailed);
      }
      if !CanTransition(life.status, Active) {
        return Err(InvalidStateTransition);
      }
      purse := Pay(purse, PrizeIn(config.prizeAmount));
      life := life.(prizeDeposited := true, status := Active);
      return Ok(0);
    }

    method CheckPurchase(e: Env, quantity: u32) returns (refused: Option<Error>)
      ensures refused == PurchaseGuard(config, e, Abs(), quantity)
    {
      if life.lock {
        return Some(DrawingAlreadyInProgress);
      }
      if quantity == 0 {
        return Some(InvalidQuantity);
      }
      if quantity > config.maxPerTx {
        return Some(ExceedsMaxTicketsPerTx);
      }
      if controls.paused || e.globalPaused {
        return Some(ContractPaused);
      }
      if life.status != Active {
        return Some(RaffleInactive);
      }
      if controls.salesPaused {
        return Some(ContractPaused);
      }
      if !life.prizeDeposited {
        return Some(InvalidStateTransition);
      }
      if !config.noDeadline && e.now >= config.endTime {
        return Some(RaffleExpired);
      }
      return None;
    }

    method CheckCaps(owner: Address, quantity: u32) returns (refused: Option<Error>)
      ensures refused == CapGuard(config, Abs(), owner, quantity)
    {
      var count := CountOf(book.counts, owner);
      if book.sold + quantity > config.maxTickets {
        return Some(TicketsSoldOut);
      }
      if config.maxPerAddress == 0 && !config.allowMultiple && (count > 0 || quantity > 1) {
        return Some(MultipleTicketsNotAllowed);
      }
      if config.maxPerAddress > 0 && count + quantity > config.maxPerAddress {
        return Some(ExceedsMaxTicketsPerAddress);
      }
      return None;
    }

    method BuyTickets(e: Env, buyer: Address, quantity: u32) returns (r: Result<int>)
      requires Ready()
      modifies this
      ensures Performed(Buy(config, e, old(Abs()), buyer, quantity), old(Abs()), r)
    {
      var refused := CheckPurchase(e, quantity);
      if refused.Some? {
        return Err(refused.value);
      }
      refused := CheckCaps(buyer, quantity);
      if refused.Some? {
        return Err(refused.value);
      }
      var quote := Pricing.CalculateBuyQuote(config, book.sold, controls.feeBp, quantity);
      if quote.Err? {
        return Err(quote.error);
      }
      if e.payerFunds < quote.value.netToPay {
        return Err(TokenTransferFailed);
      }
      r := CompletePurchase(e, buyer, buyer, quantity, quote.value.netToPay, quote.value.fee);
    }

    method BuyTicketsFor(e: Env, buyer: Address, recipient: Address, quantity: u32) returns (r: Result<int>)
      requires Ready()
      modifies this
      ensures Performed(BuyFor(config, e, old(Abs()), buyer, recipient, quantity), old(Abs()), r)
    {
      var refused := CheckPurchase(e, quantity);
      if refused.Some? {
        return Err(refused.value);
      }
      refused := CheckCaps(recipient, quantity);
      if refused.Some? {
        return Err(refused.value);
      }
      var price := config.ticketPrice * quantity;
      if price > I128_MAX || price * controls.feeBp > I128_MAX {
        return Err(ArithmeticOverflow);
      }
      if e.payerFunds < price {
        return Err(TokenTransferFailed);
      }
      r := CompletePurchase(e, buyer, recipient, quantity, price, Pricing.FeeOn(price, controls.feeBp));
    }

    /** Payment first, then the tickets, then the draw if they were the last ones. */
    method CompletePurchase(e: Env, payer: Address, owner: Address, quantity: u32, charge: int, fee: int)
      returns (r: Result<int>)
      modifies this
      ensures Performed(Sell(config, e, old(Abs()), payer, owner, quantity, charge, fee), old(Abs()), r)
    {
      var sold := book.sold + quantity;
      var asks := sold >= config.maxTickets && config.source.External?;
      if asks && life.request.Some? {
        return Err(RandomnessAlreadyRequested);
      }
      CollectPayment(payer, quantity, charge, fee);
      WriteTickets(e.now, payer, owner, quantity);
      if sold >= config.maxTickets {
        life := life.(status := Drawing, lock := true);
        if asks {
          life := life.(request := Some(Request(e.requestId, e.ledger)));
        }
      }
      return Ok(sold);
    }

    method CollectPayment(payer: Address, quantity: nat, charge: int, fee: int)
      modifies this`purse
      ensures purse == TakePayment(config, old(purse), payer, quantity, charge, fee)
    {
      purse := Pay(purse, SaleIn(payer, quantity, charge));
      if fee > 0 {
        if config.treasury.Some? {
          purse := Pay(purse, FeeOut(fee));
        }
        purse := purse.(fees := purse.fees + fee);
      }
    }

    method WriteTickets(now: u64, payer: Address, owner: Address, quantity: nat)
      modifies this`book
      ensures book == AddTickets(config, old(book), owner, payer, now, quantity)
    {
      var b := book;
      var count := CountOf(b.counts, owner);
      var buyers := if count == 0 then b.buyers + [owner] else b.buyers;
      var tickets := b.tickets;
      var i := 0;
      while i < quantity
        invariant i <= quantity
        invariant tickets == b.tickets + NewTickets(config, b.sold, owner, payer, now, i)
      {
        var id := b.sold + i + 1;
        OneMoreTicket(b.tickets, b.sold, owner, payer, now, i);
        tickets := tickets[id := Ticket(id, owner, payer, now, config.ticketPrice)];
        i := i + 1;
      }
      book := b.(buyers := buyers, tickets := tickets, counts := b.counts[owner := count + quantity], sold := b.sold + quantity);
    }

    lemma OneMoreTicket(tickets: map<int, Ticket>, sold: nat, owner: Address, payer: Address, now: u64, i: nat)
      ensures var id := sold + i + 1;
              (tickets + NewTickets(config, sold, owner, payer, now, i))[id := Ticket(id, owner, payer, now, config.ticketPrice)]
                == tickets + NewTickets(config, sold, owner, payer, now, i + 1)
    {
    }

    method SubmitCommit(e: Env, ticket: int, hash: int) returns (r: Result<int>)
      modifies this
      ensures Performed(Commit(config, e, old(Abs()), ticket, hash), old(Abs()), r)
    {
      if !config.source.CommitReveal? {
        return Err(InvalidParameters);
      }
      if life.status != Active {
        return Err(InvalidStatus);
      }
      if controls.paused || e.globalPaused {
        return Err(ContractPaused);
      }
      if ticket !in book.tickets {
        return Err(TicketNotFound);
      }
      if ticket in book.commits {
        return Err(CommitAlreadySubmitted);
      }
      book := book.(commits := book.commits[ticket := hash]);
      return Ok(0);
    }

    // -------------------------------------------------------------------------
    // The draw

    method LoadOwners() returns (owners: Option<seq<Address>>)
      ensures owners.Some? <==> AllTicketsPresent(book.tickets, book.sold)
      ensures owners.Some? ==> owners.value == Owners(book.tickets, book.sold)
    {
      var loaded: seq<Address> := [];
      var id := 1;
      while id <= book.sold
        invariant 1 <= id <= book.sold + 1
        invariant AllTicketsPresent(book.tickets, id - 1)
        invariant loaded == Owners(book.tickets, id - 1)
      {
        if id !in book.tickets {
          return None;
        }
        loaded := loaded + [book.tickets[id].owner];
        id := id + 1;
      }
      return Some(loaded);
    }

    /** Candidate indices from the seed, each replaced by the next free owner when winners must
        be unique. */
    method SelectWinners(owners: seq<Address>, seed: u64) returns (indices: seq<nat>, drawn: seq<Winner>)
      requires |config.prizes| <= |owners| < U32_LIMIT
      ensures indices == Winners.DrawOutcome(seed, owners, |config.prizes|, config.uniqueWinners)
      ensures drawn == NewWinners(owners, indices)
    {
      Draw.SelectionIsExact(seed, |owners|, |config.prizes|);
      var candidates := Draw.SelectWinnerIndices(seed, |owners|, |config.prizes|);
      indices, drawn := [], [];
      var won: seq<Address> := [];
      var i := 0;
      while i < |candidates|
        invariant 0 <= i <= |candidates| && |indices| == i
        invariant forall j :: 0 <= j < i ==> indices[j] < |owners|
        invariant won == Winners.OwnersAt(owners, indices) && drawn == NewWinners(owners, indices)
        invariant Winners.ResolvedSoFar(owners, config.uniqueWinners, candidates, indices, i)
      {
        var index := candidates[i];
        if config.uniqueWinners {
          index := Winners.ResolveUniqueWinner(owners, won, index);
        }
        Winners.OneMoreResolved(owners, config.uniqueWinners, candidates, indices, i);
        NewWinnersGrow(owners, indices, index);
        indices := indices + [index];
        won := won + [owners[index]];
        drawn := drawn + [Winner(owners[index], false)];
        i := i + 1;
      }
    }

    lemma NewWinnersGrow(owners: seq<Address>, indices: seq<nat>, index: nat)
      requires index < |owners| && forall i :: 0 <= i < |indices| ==> indices[i] < |owners|
      ensures NewWinners(owners, indices + [index]) == NewWinners(owners, indices) + [Winner(owners[index], false)]
      ensures Winners.OwnersAt(owners, indices + [index]) == Winners.OwnersAt(owners, indices) + [owners[index]]
    {
    }

    method ClearQuorumStorage()
      modifies this`panel
      ensures panel == Panel([], ClearQuorum(old(panel.submitted), old(panel.seeds)))
    {
      var submitted, seeds := panel.submitted, panel.seeds;
      var i := 0;
      while i < |submitted|
        invariant 0 <= i <= |submitted|
        invariant seeds == ClearQuorum(submitted[..i], panel.seeds)
      {
        assert submitted[..i + 1] == submitted[..i] + [submitted[i]];
        seeds := seeds - {submitted[i]};
        i := i + 1;
      }
      assert submitted[..|submitted|] == submitted;
      panel := Panel([], seeds);
    }

    method DoFinalizeWithSeed(e: Env, seed: u64, contributions: Option<seq<Delivery>>) returns (r: Result<int>)
      requires Ready()
      modifies this
      ensures Performed(FinalizeWithSeed(config, e, old(Abs()), seed, contributions), old(Abs()), r)
    {
      if book.sold == 0 {
        return Err(NoTicketsSold);
      }
      if |config.prizes| > book.sold {
        return Err(MorePrizesThanTickets);
      }
      var owners := LoadOwners();
      if owners.None? {
        return Err(TicketNotFound);
      }
      if !CanTransition(life.status, Finalized) {
        return Err(InvalidStateTransition);
      }
      var indices, drawn := SelectWinners(owners.value, seed);
      podium := Podium(drawn, Some(e.now), Some(Fairness(seed, indices, e.now, e.ledger, contributions)));
      life := life.(status := Finalized, request := None);
      ClearQuorumStorage();
      life := life.(lock := false);
      return Ok(0);
    }

    method ConcatCommits() returns (hashes: seq<int>)
      ensures hashes == CommitHashes(book.commits, book.sold)
    {
      hashes := [];
      var id := 1;
      while id <= book.sold
        invariant 1 <= id <= book.sold + 1
        invariant hashes == CommitHashes(book.commits, id - 1)
      {
        if id in book.commits {
          hashes := hashes + [book.commits[id]];
        }
        id := id + 1;
      }
    }

    method FinalizeRaffle(e: Env) returns (r: Result<int>)
      requires Ready()
      modifies this
      ensures Performed(Finalize(digests, config, e, old(Abs())), old(Abs()), r)
    {
      if life.lock {
        return Err(DrawingAlreadyInProgress);
      }
      if life.status != Active && life.status != Drawing {
        return Err(InvalidStatus);
      }
      if life.status == Active && !Expired(config, e) && book.sold < config.maxTickets {
        return Err(InvalidStateTransition);
      }
      if book.sold == 0 || book.sold < config.minTickets {
        if !CanTransition(life.status, Failed) {
          return Err(InvalidStateTransition);
        }
        life := life.(status := Failed);
        return Ok(0);
      }
      if life.status == Drawing {
        return Err(DrawingAlreadyInProgress);
      }
      if config.source.External? || config.source.Quorum? {
        if life.request.Some? {
          return Err(RandomnessAlreadyRequested);
        }
        life := life.(status := Drawing, lock := true, request := Some(Request(e.requestId, e.ledger)));
        if config.source.Quorum? {
          panel := panel.(submitted := []);
        }
        return Ok(0);
      }
      var seed := e.internalSeed;
      if config.source.CommitReveal? {
        var hashes := ConcatCommits();
        if hashes != [] {
          seed := digests.commits(hashes);
        }
      }
      var before := life;
      life := life.(status := Drawing, lock := true);
      r := DoFinalizeWithSeed(e, seed, None);
      if r.Err? {
        life := before; // rolled back
      }
    }

    method ProvideRandomness(e: Env, seed: u64, proofSeed: u64, signatureOk: bool, requestId: u64) returns (r: Result<int>)
      requires Ready()
      modifies this
      ensures Performed(OracleDelivery(config, e, old(Abs()), seed, proofSeed, signatureOk, requestId), old(Abs()), r)
    {
      if !life.lock {
        return Err(DrawingAlreadyComplete);
      }
      if config.source.Quorum? {
        return Err(InvalidParameters);
      }
      if config.oracle.None? {
        return Err(OracleNotSet);
      }
      if life.status != Drawing {
        return Err(InvalidStateTransition);
      }
      if life.request.None? {
        return Err(NoRandomnessRequest);
      }
      if life.request.value.ledger + RANDOMNESS_MIN_DELAY_LEDGERS >= U32_LIMIT {
        return Err(HostPanic);
      }
      if e.ledger < life.request.value.ledger + RANDOMNESS_MIN_DELAY_LEDGERS {
        return Err(RandomnessTooEarly);
      }
      if life.request.value.id != requestId || proofSeed != seed {
        return Err(InvalidParameters);
      }
      if !signatureOk {
        return Err(HostPanic);
      }
      r := DoFinalizeWithSeed(e, seed, None);
    }

    method LoadDeliveries() returns (ds: seq<Delivery>)
      ensures ds == Deliveries(panel.submitted, panel.seeds)
    {
      ds := [];
      var i := 0;
      while i < |panel.submitted|
        invariant 0 <= i <= |panel.submitted|
        invariant ds == Deliveries(panel.submitted[..i], panel.seeds)
      {
        assert panel.submitted[..i + 1][..i] == panel.submitted[..i];
        var oracle := panel.submitted[i];
        if oracle in panel.seeds {
          ds := ds + [(oracle, panel.seeds[oracle])];
        }
        i := i + 1;
      }
      assert panel.submitted[..|panel.submitted|] == panel.submitted;
    }

    method ProvideQuorumRandomness(e: Env, oracle: Address, seed: u64, requestId: u64) returns (r: Result<int>)
      requires Ready()
      modifies this
      ensures Performed(QuorumDelivery(digests, config, e, old(Abs()), oracle, seed, requestId), old(Abs()), r)
    {
      if !life.lock {
        return Err(DrawingNotStarted);
      }
      if life.request.None? {
        return Err(NoRandomnessRequest);
      }
      if life.request.value.id != requestId || !config.source.Quorum? {
        return Err(InvalidParameters);
      }
      if oracle !in config.source.oracles {
        return Err(OracleNotRegistered);
      }
      if oracle in panel.seeds {
        return Err(DuplicateOracleSubmission);
      }
      var before := panel;
      panel := Panel(panel.submitted + [oracle], panel.seeds[oracle := seed]);
      if |panel.submitted| < config.source.k {
        return Ok(0);
      }
      var ds := LoadDeliveries();
      var aggregate := AggregateQuorumSeeds(digests.seeds, ds);
      r := DoFinalizeWithSeed(e, aggregate, Some(ds));
      if r.Err? {
        panel := before; // rolled back
      }
    }

    method TriggerRandomnessFallback(e: Env, caller: Address, refund: bool) returns (r: Result<int>)
      requires Ready()
      modifies this
      ensures Performed(Fallback(config, e, old(Abs()), caller, refund), old(Abs()), r)
    {
      if life.lock {
        return Err(DrawingAlreadyInProgress);
      }
      if caller != config.creator && caller != config.admin {
        return Err(NotAuthorized);
      }
      if life.status != Drawing {
        return Err(InvalidStateTransition);
      }
      if life.request.None? {
        return Err(NoRandomnessRequest);
      }
      if life.request.value.ledger + ORACLE_TIMEOUT_LEDGERS >= U32_LIMIT {
        return Err(HostPanic);
      }
      if e.ledger < life.request.value.ledger + ORACLE_TIMEOUT_LEDGERS {
        return Err(FallbackTooEarly);
      }
      if refund {
        life := life.(request := None, lock := false, status := Cancelled);
        return Ok(0);
      }
      r := DoFinalizeWithSeed(e, e.internalSeed, None);
    }

    /** Everything a third party needs to replay the draw. */
    method GetDrawAttestation() returns (r: Result<Outcomes.Attestation>)
      ensures r == Outcomes.Attest(digests, config, Abs())
    {
      if life.status != Finalized && life.status != Claimed {
        return Err(InvalidStatus);
      }
      if podium.fairness.None? {
        return Err(InvalidStatus);
      }
      var f := podium.fairness.value;
      var ticketIds: seq<int> := [];
      while |ticketIds| < book.sold
        invariant ticketIds == Outcomes.TicketIds(|ticketIds|) && |ticketIds| <= book.sold
      {
        ticketIds := ticketIds + [|ticketIds| + 1];
      }
      var winning: seq<int> := [];
      while |winning| < |f.indices|
        invariant |winning| <= |f.indices|
        invariant forall i :: 0 <= i < |winning| ==> winning[i] == f.indices[i] + 1
      {
        winning := winning + [f.indices[|winning|] + 1];
      }
      var addresses: seq<Address> := [];
      while |addresses| < |podium.winners|
        invariant |addresses| <= |podium.winners|
        invariant forall i :: 0 <= i < |addresses| ==> addresses[i] == podium.winners[i].address
      {
        addresses := addresses + [podium.winners[|addresses|].address];
      }
      assert winning == Outcomes.OneBased(f.indices) && addresses == Outcomes.Addresses(podium.winners);
      return Ok(Outcomes.Attestation(f.seed, ticketIds, f.indices, f.timestamp, f.sequence, config.uniqueWinners,
                                     config.source, addresses, winning, book.sold, config.prizes, config.prizeAmount,
                                     config.ticketPrice, config.metadataHash, Outcomes.ConfigHash(digests, config)));
    }

    // -------------------------------------------------------------------------
    // Prizes

    method EveryClaimed(ws: seq<Winner>) returns (all: bool)
      ensures all == AllClaimed(ws)
    {
      var i := 0;
      while i < |ws|
        invariant 0 <= i <= |ws|
        invariant forall j :: 0 <= j < i ==> ws[j].claimed
      {
        if !ws[i].claimed {
          return false;
        }
        i := i + 1;
      }
      return true;
    }

    method ClaimPrize(e: Env, winner: Address, tier: u32) returns (r: Result<int>)
      requires Ready()
      modifies this
      ensures Performed(Claim(config, e, old(Abs()), winner, tier), old(Abs()), r)
    {
      if life.status != Finalized {
        return Err(InvalidStatus);
      }
      if podium.finalizedAt.Some? {
        var opens := podium.finalizedAt.value + LockupSeconds(config);
        if opens >= U64_LIMIT {
          return Err(HostPanic);
        }
        if e.now < opens {
          return Err(ClaimTooEarly);
        }
      }
      if tier >= |podium.winners| {
        return Err(InvalidParameters);
      }
      var entry := podium.winners[tier];
      if entry.address != winner {
        return Err(NotWinner);
      }
      if entry.claimed {
        return Err(PrizeAlreadyClaimed);
      }
      var prize := TierPrizes.CalculateTierPrize(config.prizeAmount, config.prizes, tier);
      var amount := prize.value;
      if amount <= 0 {
        return Err(ZeroPrize);
      }
      var fee := CeilFee(amount, controls.feeBp);
      if purse.balance < amount {
        return Err(InsufficientFunds);
      }
      podium := podium.(winners := podium.winners[tier := entry.(claimed := true)]);
      var settled := EveryClaimed(podium.winners);
      if settled {
        life := life.(status := Claimed);
      }
      PayWinner(tier, winner, amount, fee);
      return Ok(amount);
    }

    method PayWinner(tier: nat, to: Address, amount: int, fee: int)
      modifies this`purse
      ensures purse == PayPrize(config, old(purse), tier, to, amount, fee)
    {
      purse := Pay(purse, PrizeOut(tier, to, amount, amount - fee));
      if fee > 0 && config.treasury.Some? {
        purse := Pay(purse, FeeOut(fee));
      }
      purse := purse.(fees := purse.fees + fee);
    }

    method SweepUnclaimed(e: Env, start: u32, limit: u32) returns (r: Result<int>)
      requires Ready()
      modifies this
      ensures Performed(Sweep(config, e, old(Abs()), start, limit), old(Abs()), r)
    {
      if life.status != Finalized {
        return Err(InvalidStatus);
      }
      if ExpirySeconds(config) == 0 {
        return Err(InvalidStateTransition);
      }
      if podium.finalizedAt.None? {
        return Err(InvalidStatus);
      }
      var expires := podium.finalizedAt.value + ExpirySeconds(config);
      if expires >= U64_LIMIT {
        return Err(HostPanic);
      }
      if e.now < expires {
        return Err(ClaimTooEarly);
      }
      if config.treasury.None? {
        return Err(NotAuthorized);
      }
      if start >= |podium.winners| {
        return Ok(0);
      }
      var items := if limit == 0 then MAX_SWEEP_UNCLAIMED_PER_CALL else Min(limit, MAX_SWEEP_UNCLAIMED_PER_CALL);
      var end := Min(start + items, |podium.winners|);
      r := SweepRange(config.treasury.value, start, end);
      if r.Ok? {
        var settled := EveryClaimed(podium.winners);
        if settled {
          life := life.(status := Claimed);
        }
      }
    }

    /** Pay the tiers of a window to the treasury. The working copies are stored only if every
        transfer succeeds. */
    method SweepRange(treasury: Address, start: nat, end: nat) returns (r: Result<int>)
      requires Ready() && start <= end <= |podium.winners|
      modifies this`podium, this`purse
      ensures Performed(SweepTiers(config, old(Abs()), treasury, start, end), old(Abs()), r)
    {
      var ws, account, swept := podium.winners, purse, 0;
      ghost var s := Abs();
      var i := start;
      while i < end
        invariant start <= i <= end && |ws| == |s.podium.winners| && Abs() == s
        invariant Resumes(SweepTiers(config, s, treasury, start, end),
                          SweepTiers(config, s.(podium := s.podium.(winners := ws), purse := account), treasury, i, end), swept)
      {
        var prize := TierPrizes.CalculateTierPrize(config.prizeAmount, config.prizes, i);
        var amount := prize.value;
        if !ws[i].claimed && amount > 0 {
          if account.balance < amount {
            return Err(TokenTransferFailed);
          }
          account := Pay(account, PrizeOut(i, treasury, amount, amount));
          ws := ws[i := ws[i].(claimed := true)];
          swept := swept + 1;
        }
        i := i + 1;
      }
      podium := podium.(winners := ws);
      purse := account;
      return Ok(swept);
    }

    /** A loop that has counted `done` and has `rest` to go computes `whole`. */
    static predicate Resumes(whole: Outcome, rest: Outcome, done: int)
    {
      whole == if rest.Accept? then rest.(value := rest.value + done) else rest
    }

    // -------------------------------------------------------------------------
    // Refunds

    method RefundPrize() returns (r: Result<int>)
      modifies this
      ensures Performed(RefundThePrize(config, old(Abs())), old(Abs()), r)
    {
      if life.status != Cancelled && life.status != Failed {
        return Err(InvalidStatus);
      }
      if !life.prizeDeposited {
        return Err(PrizeNotDeposited);
      }
      if purse.balance < config.prizeAmount {
        return Err(TokenTransferFailed);
      }
      life := life.(prizeDeposited := false);
      purse := Pay(purse, PrizeRefundOut(config.prizeAmount));
      return Ok(0);
    }

    method RefundTicket(id: int) returns (r: Result<int>)
      modifies this
      ensures Performed(Refund(old(Abs()), id), old(Abs()), r)
    {
      if life.status != Cancelled && life.status != Failed {
        return Err(InvalidStatus);
      }
      if id !in book.tickets {
        return Err(TicketNotFound);
      }
      if id in book.refunded {
        return Err(PrizeAlreadyClaimed);
      }
      var ticket := book.tickets[id];
      if purse.balance < ticket.pricePaid {
        return Err(TokenTransferFailed);
      }
      book := book.(refunded := book.refunded + {id});
      purse := Pay(purse, TicketRefundOut(id, ticket.owner, ticket.pricePaid));
      return Ok(ticket.pricePaid);
    }

    method BatchRefundTickets(caller: Address, ids: seq<int>) returns (r: Result<int>)
      modifies this
      ensures Performed(Batch(config, old(Abs()), caller, ids), old(Abs()), r)
    {
      if life.status != Cancelled && life.status != Failed {
        return Err(InvalidStatus);
      }
      var refunded, account, total := book.refunded, purse, 0;
      ghost var s := Abs();
      var i := 0;
      while i < |ids|
        invariant 0 <= i <= |ids|
        invariant Resumes(RefundAll(config, s, caller, ids),
                          RefundAll(config, s.(book := s.book.(refunded := refunded), purse := account), caller, ids[i..]), total)
      {
        var id := ids[i];
        assert ids[i..][0] == id && ids[i..][1..] == ids[i + 1..];
        if id !in book.tickets {
          return Err(TicketNotFound);
        }
        var ticket := book.tickets[id];
        if caller != ticket.payer && caller != ticket.owner {
          return Err(NotAuthorized);
        }
        if id !in refunded {
          if account.balance < config.ticketPrice {
            return Err(TokenTransferFailed);
          }
          refunded := refunded + {id};
          account := Pay(account, TicketRefundOut(id, ticket.payer, config.ticketPrice));
          total := total + config.ticketPrice;
        }
        i := i + 1;
      }
      book := book.(refunded := refunded);
      purse := account;
      return Ok(total);
    }

    // -------------------------------------------------------------------------
    // Cancellation and administration

    method CancelRaffle(e: Env, byAdmin: bool) returns (r: Result<int>)
      modifies this
      ensures Performed(Cancel(config, e, old(Abs()), byAdmin), old(Abs()), r)
    {
      if byAdmin {
        if e.now + TIMELOCK_DELAY_SECONDS >= U64_LIMIT {
          return Err(ArithmeticOverflow);
        }
        controls := controls.(pendingCancel := Some(e.now + TIMELOCK_DELAY_SECONDS));
        return Ok(0);
      }
      if life.status == Finalized || life.status == Claimed || life.status == Cancelled {
        return Err(InvalidStatus);
      }
      if !CanTransition(life.status, Cancelled) {
        return Err(InvalidStateTransition);
      }
      life := life.(status := Cancelled);
      return Ok(0);
    }

    method ExecuteAdminCancel(e: Env) returns (r: Result<int>)
      modifies this
      ensures Performed(ExecuteCancel(e, old(Abs())), old(Abs()), r)
    {
      if controls.pendingCancel.None? {
        return Err(CancelNotScheduled);
      }
      if e.now < controls.pendingCancel.value {
        return Err(CancelTimelockActive);
      }
      if life.status == Finalized || life.status == Claimed || life.status == Cancelled {
        return Err(InvalidStatus);
      }
      if !CanTransition(life.status, Cancelled) {
        return Err(InvalidStateTransition);
      }
      life := life.(status := Cancelled);
      controls := controls.(pendingCancel := None);
      return Ok(0);
    }

    method SumTicketRefunds() returns (outstanding: int)
      ensures outstanding == OutstandingTicketRefunds(config, book.refunded, book.sold)
    {
      outstanding := 0;
      var id := 1;
      while id <= book.sold
        invariant 1 <= id <= book.sold + 1
        invariant outstanding == OutstandingTicketRefunds(config, book.refunded, id - 1)
      {
        if id !in book.refunded {
          outstanding := outstanding + config.ticketPrice;
        }
        id := id + 1;
      }
    }

    method SumOutstandingPrizes() returns (outstanding: int)
      requires Ready()
      ensures outstanding == OutstandingPrize(config, Abs())
    {
      if !life.prizeDeposited {
        return 0;
      }
      if life.status != Finalized {
        return config.prizeAmount;
      }
      outstanding := 0;
      var tier := 0;
      while tier < |podium.winners|
        invariant 0 <= tier <= |podium.winners|
        invariant outstanding == UnclaimedFrom(config, podium.winners, tier)
      {
        if !podium.winners[tier].claimed {
          var prize := TierPrizes.CalculateTierPrize(config.prizeAmount, config.prizes, tier);
          outstanding := outstanding + prize.value;
        }
        tier := tier + 1;
      }
    }

    /** What the administrative paths must leave in the contract. */
    method TokenEntitlement() returns (entitlement: int)
      requires Ready()
      ensures entitlement == Entitlement(config, Abs())
    {
      entitlement := SumOutstandingPrizes();
      if life.status != Finalized && life.status != Claimed {
        var refunds := SumTicketRefunds();
        entitlement := entitlement + refunds + purse.fees;
      }
    }

    method EmergencyWithdraw(e: Env, caller: Address) returns (r: Result<int>)
      requires Ready()
      modifies this
      ensures Performed(Emergency(config, e, old(Abs()), caller), old(Abs()), r)
    {
      if !life.prizeDeposited {
        return Err(PrizeNotDeposited);
      }
      if caller != config.creator && caller != config.admin {
        return Err(NotAuthorized);
      }
      if life.status != Drawing {
        return Err(InvalidStatus);
      }
      if !config.noDeadline && config.endTime + EMERGENCY_WITHDRAW_DELAY_SECONDS >= U64_LIMIT {
        return Err(HostPanic);
      }
      if !EmergencyDue(config, e, life.request) {
        return Err(EmergencyTooEarly);
      }
      var entitlement := TokenEntitlement();
      if purse.balance < config.prizeAmount || purse.balance - config.prizeAmount < entitlement - config.prizeAmount {
        return Err(InvalidStateTransition);
      }
      life := life.(prizeDeposited := false, status := Cancelled);
      purse := Pay(purse, PrizeRefundOut(config.prizeAmount));
      return Ok(0);
    }

    method RescueTokens(to: Address, amount: int) returns (r: Result<int>)
      requires Ready()
      modifies this
      ensures Performed(Rescue(config, old(Abs()), to, amount), old(Abs()), r)
    {
      if amount <= 0 {
        return Err(InvalidParameters);
      }
      var entitlement := TokenEntitlement();
      if entitlement > purse.balance || amount > purse.balance - entitlement {
        return Err(InvalidStateTransition);
      }
      purse := Pay(purse, SurplusOut(to, amount));
      return Ok(0);
    }

    method EveryRefundMade() returns (all: bool)
      ensures all <==> forall id | 1 <= id <= book.sold :: id in book.refunded
    {
      var id := 1;
      while id <= book.sold
        invariant 1 <= id <= book.sold + 1
        invariant forall j :: 1 <= j < id ==> j in book.refunded
      {
        if id !in book.refunded {
          return false;
        }
        id := id + 1;
      }
      return true;
    }

    method SweepDust() returns (r: Result<int>)
      requires Ready()
      modifies this
      ensures Performed(Dust(config, old(Abs())), old(Abs()), r)
    {
      if life.status != Claimed && life.status != Cancelled {
        return Err(InvalidStatus);
      }
      if life.status == Cancelled {
        var refunded := EveryRefundMade();
        if life.prizeDeposited || !refunded {
          return Err(InvalidStateTransition);
        }
      }
      if config.treasury.None? {
        return Err(InvalidParameters);
      }
      var entitlement := TokenEntitlement();
      var dust := purse.balance - entitlement;
      if dust < 0 {
        return Err(InvalidStateTransition);
      }
      if dust > 0 {
        purse := Pay(purse, SurplusOut(config.treasury.value, dust));
      }
      return Ok(0);
    }

    method WithdrawFees(to: Address, amount: int) returns (r: Result<int>)
      modifies this
      ensures Performed(Withdraw(old(Abs()), to, amount), old(Abs()), r)
    {
      if life.status != Finalized && life.status != Claimed {
        return Err(InvalidStatus);
      }
      if amount <= 0 {
        return Err(InvalidParameters);
      }
      if amount > purse.fees {
        return Err(InsufficientAccumulatedFees);
      }
      if purse.balance < amount {
        return Err(HostPanic);
      }
      purse := Pay(purse, FeeWithdrawal(to, amount)).(fees := purse.fees - amount);
      return Ok(0);
    }

    method WipeStorage() returns (r: Result<int>)
      modifies this
      ensures Performed(Wipe(config, old(Abs())), old(Abs()), r)
    {
      if life.status != Cancelled && life.status != Failed && life.status != Claimed {
        return Err(InvalidStatus);
      }
      if life.status != Claimed {
        var refunded := EveryRefundMade();
        if life.prizeDeposited || !refunded {
          return Err(InvalidStateTransition);
        }
      }
      if purse.balance != 0 {
        return Err(InvalidStateTransition);
      }
      EraseTickets();
      EraseCounts();
      controls := controls.(paused := false, pendingCancel := None);
      purse := purse.(fees := 0);
      life := life.(request := None, lock := false);
      return Ok(0);
    }

    method EraseTickets()
      modifies this`book
      ensures book == old(book).(tickets := old(book.tickets) - Ids(old(book.sold)),
                                 refunded := old(book.refunded) - Ids(old(book.sold)),
                                 commits := old(book.commits) - Ids(old(book.sold)))
    {
      var b := book;
      var tickets, refunded, commits := b.tickets, b.refunded, b.commits;
      var id := 1;
      assert Ids(0) == {};
      while id <= b.sold
        invariant 1 <= id <= b.sold + 1
        invariant tickets == b.tickets - Ids(id - 1)
        invariant refunded == b.refunded - Ids(id - 1)
        invariant commits == b.commits - Ids(id - 1)
      {
        assert Ids(id) == Ids(id - 1) + {id};
        tickets := tickets - {id};
        refunded := refunded - {id};
        commits := commits - {id};
        id := id + 1;
      }
      book := b.(tickets := tickets, refunded := refunded, commits := commits);
    }

    method EraseCounts()
      modifies this`book
      ensures book == old(book).(counts := old(book.counts) - (set a | a in old(book.buyers)), buyers := [])
    {
      var b := book;
      var counts := b.counts;
      var i := 0;
      while i < |b.buyers|
        invariant 0 <= i <= |b.buyers|
        invariant counts == b.counts - (set a | a in b.buyers[..i])
      {
        assert b.buyers[..i + 1] == b.buyers[..i] + [b.buyers[i]];
        counts := counts - {b.buyers[i]};
        i := i + 1;
      }
      assert b.buyers[..|b.buyers|] == b.buyers;
      book := b.(counts := counts, buyers := []);
    }

    method SetProtocolFee(bp: u32) returns (r: Result<int>)
      modifies this
      ensures Performed(SetFee(old(Abs()), bp), old(Abs()), r)
    {
      if bp > MAX_PROTOCOL_FEE_BP {
        return Err(InvalidParameters);
      }
      if book.sold > 0 {
        return Err(InvalidStatus);
      }
      controls := controls.(feeBp := bp);
      return Ok(0);
    }

    method SetSalesPaused(caller: Address, on: bool) returns (r: Result<int>)
      modifies this
      ensures Performed(PauseSales(config, old(Abs()), caller, on), old(Abs()), r)
    {
      if caller != config.creator && caller != config.admin {
        return Err(NotAuthorized);
      }
      if life.status != Active {
        return Err(InvalidStatus);
      }
      controls := controls.(salesPaused := on);
      return Ok(0);
    }

    // -------------------------------------------------------------------------
    // Any call, and any run of calls

    method ApplySale(e: Env, call: Call) returns (r: Result<int>)
      requires Ready() && Sale(call)
      modifies this
      ensures Performed(SaleStep(config, e, old(Abs()), call), old(Abs()), r)
    {
      match call {
        case DepositPrize => r := DepositPrize(e);
        case BuyTickets(buyer, quantity) => r := BuyTickets(e, buyer, quantity);
        case BuyTicketsFor(buyer, recipient, quantity) => r := BuyTicketsFor(e, buyer, recipient, quantity);
        case SubmitCommit(ticket, hash) => r := SubmitCommit(e, ticket, hash);
      }
    }

    method ApplyDraw(e: Env, call: Call) returns (r: Result<int>)
      requires Ready() && Draws(call)
      modifies this
      ensures Performed(DrawStep(digests, config, e, old(Abs()), call), old(Abs()), r)
    {
      match call {
        case FinalizeRaffle => r := FinalizeRaffle(e);
        case TriggerFallback(caller, refund) => r := TriggerRandomnessFallback(e, caller, refund);
      }
    }

    method ApplyDelivery(e: Env, call: Call) returns (r: Result<int>)
      requires Ready() && Delivers(call)
      modifies this
      ensures Performed(DeliveryStep(digests, config, e, old(Abs()), call), old(Abs()), r)
    {
      match call {
        case ProvideRandomness(seed, proofSeed, ok, id) => r := ProvideRandomness(e, seed, proofSeed, ok, id);
        case ProvideQuorumRandomness(oracle, seed, id) => r := ProvideQuorumRandomness(e, oracle, seed, id);
      }
    }

    method ApplyPayout(e: Env, call: Call) returns (r: Result<int>)
      requires Ready() && Payout(call)
      modifies this
      ensures Performed(PayoutStep(config, e, old(Abs()), call), old(Abs()), r)
    {
      match call {
        case ClaimPrize(winner, tier) => r := ClaimPrize(e, winner, tier);
        case SweepUnclaimed(start, limit) => r := SweepUnclaimed(e, start, limit);
      }
    }

    method ApplyRefund(call: Call) returns (r: Result<int>)
      requires Refunds(call)
      modifies this
      ensures Performed(RefundStep(config, old(Abs()), call), old(Abs()), r)
    {
      match call {
        case RefundPrize => r := RefundPrize();
        case RefundTicket(ticket) => r := RefundTicket(ticket);
        case BatchRefund(caller, ids) => r := BatchRefundTickets(caller, ids);
      }
    }

    method ApplyStop(e: Env, call: Call) returns (r: Result<int>)
      requires Ready() && Stops(call)
      modifies this
      ensures Performed(StopStep(config, e, old(Abs()), call), old(Abs()), r)
    {
      match call {
        case CancelRaffle(byAdmin) => r := CancelRaffle(e, byAdmin);
        case ExecuteAdminCancel => r := ExecuteAdminCancel(e);
        case EmergencyWithdraw(caller) => r := EmergencyWithdraw(e, caller);
        case WipeStorage => r := WipeStorage();
      }
    }

    method ApplyTransfer(call: Call) returns (r: Result<int>)
      requires Ready() && Transfer(call)
      modifies this
      ensures Performed(TransferStep(config, old(Abs()), call), old(Abs()), r)
    {
      match call {
        case RescueTokens(to, amount) => r := RescueTokens(to, amount);
        case SweepDust => r := SweepDust();
        case WithdrawFees(to, amount) => r := WithdrawFees(to, amount);
        case Donate(gift) =>
          purse := Pay(purse, DonationIn(gift));
          r := Ok(0);
      }
    }

    method ApplySetting(call: Call) returns (r: Result<int>)
      requires Settings(call)
      modifies this
      ensures Performed(SettingStep(config, old(Abs()), call), old(Abs()), r)
    {
      match call {
        case SetProtocolFee(bp) => r := SetProtocolFee(bp);
        case SetPaused(on) =>
          controls := controls.(paused := on);
          r := Ok(0);
        case SetSalesPaused(caller, on) => r := SetSalesPaused(caller, on);
      }
    }

    method Dispatch(e: Env, call: Call) returns (r: Result<int>)
      requires Ready()
      modifies this
      ensures Performed(Step(digests, config, e, old(Abs()), call), old(Abs()), r)
    {
      if Sale(call) {
        r := ApplySale(e, call);
      } else if Draws(call) {
        r := ApplyDraw(e, call);
      } else if Delivers(call) {
        r := ApplyDelivery(e, call);
      } else if Payout(call) {
        r := ApplyPayout(e, call);
      } else if Refunds(call) {
        r := ApplyRefund(call);
      } else if Stops(call) {
        r := ApplyStop(e, call);
      } else if Transfer(call) {
        r := ApplyTransfer(call);
      } else {
        r := ApplySetting(call);
      }
    }

    /** Every call does what the state machine says and keeps every invariant. */
    method Apply(e: Env, call: Call) returns (r: Result<int>)
      requires Consistent()
      modifies this
      ensures Consistent()
      ensures Abs() == After(digests, config, e, old(Abs()), call)
      ensures r.Err? ==> Abs() == old(Abs())
    {
      ghost var s := Abs();
      ConsistentIsReady();
      r := Dispatch(e, call);
      StepKeeps(digests, config, e, s, call);
    }

    lemma ConsistentIsReady()
      requires Consistent()
      ensures Ready()
    {
    }

    /** So any sequence of calls on the object is a run of the state machine. */
    method ApplyAll(run: Run)
      requires Consistent()
      modifies this
      ensures Consistent()
      ensures Abs() == Execute(digests, config, old(Abs()), run)
      decreases |run|
    {
      if run != [] {
        var n := |run| - 1;
        ApplyAll(run[..n]);
        var r := Apply(run[n].0, run[n].1);
      }
    }
  }
}
