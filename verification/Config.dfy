/** A raffle's configuration and its validation at initialisation. */
module Config {
  import opened Common

  const MAX_DESCRIPTION_LENGTH := 1_000
  const MAX_CATEGORY_LENGTH := 32
  const MAX_BUNDLES := 16
  const MAX_ORACLES := 10
  const DEFAULT_CLAIM_LOCKUP_SECONDS := 3_600
  const MAX_CLAIM_LOCKUP_SECONDS := 604_800
  const MIN_CLAIM_EXPIRY_SECONDS := 2_592_000
  const DEFAULT_CLAIM_EXPIRY_SECONDS := MIN_CLAIM_EXPIRY_SECONDS
  const DEFAULT_SWAP_DEADLINE_SECONDS := 300
  const MAX_SWAP_DEADLINE_SECONDS := 3_600

  datatype Bundle = Bundle(quantity: u32, price: int)

  datatype RandomnessSource =
    | Internal
    | External
    | CommitReveal
    | Quorum(k: u32, oracles: seq<Address>)

  /** `creator` and `admin` are the addresses `init` receives beside the configuration. */
  datatype Config = Config(
    creator: Address,
    admin: Address,
    description: string,
    endTime: u64,
    noDeadline: bool,
    maxTickets: u32,
    maxPerTx: u32,
    maxPerAddress: u32,
    minTickets: u32,
    allowMultiple: bool,
    ticketPrice: int,
    prizeAmount: int,
    prizes: seq<u32>,
    source: RandomnessSource,
    oracle: Option<Address>,
    protocolFeeBp: u32,
    treasury: Option<Address>,
    metadataHash: nat,
    claimLockup: Option<u64>,
    claimExpiry: Option<u64>,
    swapDeadline: Option<u64>,
    earlyBirdPercentage: u32,
    earlyBirdDiscountBp: u32,
    category: Option<string>,
    uniqueWinners: bool,
    bundles: seq<Bundle>)

  function GetOr(o: Option<u64>, default: u64): u64
  {
    match o
    case Some(v) => v
    case None => default
  }

  function LockupSeconds(c: Config): u64
  {
    GetOr(c.claimLockup, DEFAULT_CLAIM_LOCKUP_SECONDS)
  }

  function ExpirySeconds(c: Config): u64
  {
    GetOr(c.claimExpiry, DEFAULT_CLAIM_EXPIRY_SECONDS)
  }

  function SwapDeadlineSeconds(c: Config): u64
  {
    GetOr(c.swapDeadline, DEFAULT_SWAP_DEADLINE_SECONDS)
  }

  function Total(bps: seq<u32>): (t: nat)
  {
    if bps == [] then 0 else Total(bps[..|bps| - 1]) + bps[|bps| - 1]
  }

  lemma {:induction false} TotalGrows(bps: seq<u32>, k: nat)
    requires k <= |bps|
    ensures Total(bps[..k]) <= Total(bps)
    decreases |bps| - k
  {
    if k == |bps| {
      assert bps[..k] == bps;
    } else {
      assert bps[..k + 1][..k] == bps[..k];
      TotalGrows(bps, k + 1);
    }
  }

  ghost predicate PrizesOk(prizes: seq<u32>)
  {
    0 < |prizes| <= MAX_PRIZES && Total(prizes) == BASIS_POINTS
  }

  /** Quantities rise strictly and unit prices never rise. */
  ghost predicate BundlesOk(bundles: seq<Bundle>)
  {
    && |bundles| <= MAX_BUNDLES
    && (forall i :: 0 <= i < |bundles| ==> bundles[i].quantity > 0 && bundles[i].price >= MIN_TICKET_PRICE)
    && (forall i, j :: 0 <= i < j < |bundles| ==>
          bundles[i].quantity < bundles[j].quantity && bundles[j].price <= bundles[i].price)
  }

  predicate CategoryByte(ch: char)
  {
    'a' <= ch <= 'z' || 'A' <= ch <= 'Z' || '0' <= ch <= '9' || ch == '-'
  }

  ghost predicate CategoryOk(category: Option<string>)
  {
    category.Some? ==>
      && 0 < |category.value| <= MAX_CATEGORY_LENGTH
      && forall i :: 0 <= i < |category.value| ==> CategoryByte(category.value[i])
  }

  /** An effective per-address cap of 1 replaces "multiple tickets not allowed". */
  function AddressCap(c: Config): u32
  {
    if c.maxPerAddress == 0 && !c.allowMultiple then 1 else c.maxPerAddress
  }

  ghost predicate TicketsOk(c: Config)
  {
    && 0 < c.maxTickets <= MAX_TICKETS_LIMIT
    && c.minTickets <= c.maxTickets
    && 0 < c.maxPerTx <= c.maxTickets
    && AddressCap(c) <= c.maxTickets
  }

  ghost predicate MoneyOk(c: Config)
  {
    && MIN_TICKET_PRICE <= c.ticketPrice <= c.prizeAmount <= MAX_PRIZE_AMOUNT
    && c.protocolFeeBp <= BASIS_POINTS
    && (c.protocolFeeBp > 0 ==> c.treasury.Some?)
  }

  ghost predicate OracleOk(c: Config, self: Address)
  {
    c.oracle.Some? == (c.source == External) && c.oracle != Some(self)
  }

  ghost predicate DeadlineOk(c: Config, now: u64)
  {
    if c.noDeadline then c.endTime == 0 else c.endTime > now
  }

  ghost predicate DelaysOk(c: Config)
  {
    && LockupSeconds(c) <= MAX_CLAIM_LOCKUP_SECONDS
    && MIN_CLAIM_EXPIRY_SECONDS <= ExpirySeconds(c)
    && LockupSeconds(c) < ExpirySeconds(c)
    && SwapDeadlineSeconds(c) <= MAX_SWAP_DEADLINE_SECONDS
  }

  /** What the shared validation accepts, whatever the order of its checks. */
  ghost predicate Acceptable(c: Config, now: u64, tokenAnswers: bool, self: Address)
  {
    && |c.description| <= MAX_DESCRIPTION_LENGTH
    && DeadlineOk(c, now) && TicketsOk(c) && MoneyOk(c)
    && BundlesOk(c.bundles) && PrizesOk(c.prizes)
    && OracleOk(c, self) && c.metadataHash != 0 && CategoryOk(c.category)
    && tokenAnswers && DelaysOk(c)
  }

  function Normalised(c: Config): Config
  {
    c.(maxPerAddress := AddressCap(c),
       claimLockup := Some(LockupSeconds(c)),
       claimExpiry := Some(ExpirySeconds(c)),
       swapDeadline := Some(SwapDeadlineSeconds(c)))
  }

  method BundlesValid(bundles: seq<Bundle>) returns (ok: bool)
    ensures ok <==> BundlesOk(bundles)
  {
    if |bundles| > MAX_BUNDLES {
      return false;
    }
    var previousQuantity := 0;
    var index := 0;
    while index < |bundles|
      invariant 0 <= index <= |bundles|
      invariant BundlesOk(bundles[..index])
      invariant previousQuantity == if index == 0 then 0 else bundles[index - 1].quantity
    {
      var bundle := bundles[index];
      assert bundle == bundles[..index + 1][index];
      if bundle.quantity == 0 || bundle.price < MIN_TICKET_PRICE {
        return false;
      }
      if index > 0 {
        var previous := bundles[index - 1];
        if bundle.quantity <= previousQuantity || bundle.price > previous.price {
          assert previous == bundles[..index + 1][index - 1];
          return false;
        }
        assert previous == bundles[..index][index - 1];
      }
      previousQuantity := bundle.quantity;
      index := index + 1;
    }
    assert bundles[..index] == bundles;
    return true;
  }

  /** The running total is a checked `u32` addition: an overflow is rejected. */
  method PrizesTotalValid(prizes: seq<u32>) returns (ok: bool)
    ensures ok <==> Total(prizes) == BASIS_POINTS
  {
    var total := 0;
    var index := 0;
    while index < |prizes|
      invariant 0 <= index <= |prizes|
      invariant 0 <= total < U32_LIMIT && total == Total(prizes[..index])
    {
      assert prizes[..index + 1][..index] == prizes[..index];
      if total + prizes[index] >= U32_LIMIT {
        TotalGrows(prizes, index + 1);
        return false;
      }
      total := total + prizes[index];
      index := index + 1;
    }
    assert prizes[..index] == prizes;
    return total == BASIS_POINTS;
  }

  method CategoryValid(category: Option<string>) returns (ok: bool)
    ensures ok <==> CategoryOk(category)
  {
    if category.None? {
      return true;
    }
    var bytes := category.value;
    if |bytes| == 0 || |bytes| > MAX_CATEGORY_LENGTH {
      return false;
    }
    var i := 0;
    while i < |bytes|
      invariant 0 <= i <= |bytes|
      invariant forall j :: 0 <= j < i ==> CategoryByte(bytes[j])
    {
      if !CategoryByte(bytes[i]) {
        return false;
      }
      i := i + 1;
    }
    return true;
  }

  /** The shared validation, check by check. `tokenAnswers` says whether the payment token
      answered the decimals query, `self` is the instance's own address. */
  method ValidateConfig(config: Config, now: u64, tokenAnswers: bool, self: Address) returns (r: Result<Config>)
    ensures r.Ok? <==> Acceptable(config, now, tokenAnswers, self)
    ensures r.Ok? ==> r.value == Normalised(config)
    ensures r.Err? ==> r.error in {InvalidParameters, InvalidTicketRange, InvalidEndTime, TooManyPrizes,
                                   InvalidTokenAddress}
  {
    var c := config;
    if |c.description| > MAX_DESCRIPTION_LENGTH {
      return Err(InvalidParameters);
    }
    if (c.noDeadline && c.endTime != 0) || (!c.noDeadline && c.endTime <= now) {
      return Err(InvalidParameters);
    }
    if c.endTime != 0 && c.endTime <= now {
      return Err(InvalidEndTime);
    }
    if c.maxTickets == 0 || c.maxTickets > MAX_TICKETS_LIMIT {
      return Err(InvalidParameters);
    }
    if c.maxTickets < c.minTickets {
      return Err(InvalidTicketRange);
    }
    if c.maxPerTx == 0 || c.maxPerTx > c.maxTickets {
      return Err(InvalidParameters);
    }
    if c.maxPerAddress == 0 && !c.allowMultiple {
      c := c.(maxPerAddress := 1);
    }
    if c.maxPerAddress > c.maxTickets || c.ticketPrice < MIN_TICKET_PRICE {
      return Err(InvalidParameters);
    }
    var bundlesValid := BundlesValid(c.bundles);
    if !bundlesValid || c.prizeAmount < c.ticketPrice || c.prizeAmount > MAX_PRIZE_AMOUNT || c.prizes == [] {
      return Err(InvalidParameters);
    }
    if |c.prizes| > MAX_PRIZES {
      return Err(TooManyPrizes);
    }
    var prizesValid := PrizesTotalValid(c.prizes);
    if !prizesValid || c.protocolFeeBp > BASIS_POINTS || (c.protocolFeeBp > 0 && c.treasury.None?) {
      return Err(InvalidParameters);
    }
    if c.source == External {
      if c.oracle.None? || c.oracle == Some(self) {
        return Err(InvalidParameters);
      }
    } else if c.oracle.Some? {
      return Err(InvalidParameters);
    }
    var categoryValid := CategoryValid(c.category);
    if c.metadataHash == 0 || !categoryValid {
      return Err(InvalidParameters);
    }
    if !tokenAnswers {
      return Err(InvalidTokenAddress);
    }
    c := c.(claimLockup := Some(LockupSeconds(c)),
            claimExpiry := Some(ExpirySeconds(c)),
            swapDeadline := Some(SwapDeadlineSeconds(c)));
    if c.claimLockup.value > MAX_CLAIM_LOCKUP_SECONDS
       || c.claimExpiry.value < MIN_CLAIM_EXPIRY_SECONDS
       || c.claimExpiry.value <= c.claimLockup.value
       || c.swapDeadline.value > MAX_SWAP_DEADLINE_SECONDS
    {
      return Err(InvalidParameters);
    }
    return Ok(c);
  }

  /** The discount is bounded only while there is an early-bird window. */
  predicate EarlyBirdOk(c: Config)
  {
    c.earlyBirdPercentage > 0 ==> c.earlyBirdDiscountBp <= BASIS_POINTS
  }

  /** The early-bird and quorum bounds that the instance initialiser checks besides. */
  predicate InstanceBounds(c: Config)
  {
    && c.earlyBirdPercentage <= 100
    && EarlyBirdOk(c)
    && (c.source.Quorum? ==> 0 < c.source.k <= |c.source.oracles| <= MAX_ORACLES)
    && |c.prizes| <= c.maxTickets
  }

  /** Ledger-derived randomness is only allowed for small prizes. */
  predicate ExceedsInternalRandomnessCap(c: Config)
  {
    c.source.Internal? && c.prizeAmount > MAX_INTERNAL_RANDOMNESS_PRIZE_AMOUNT
  }

  /** What the initialiser refuses beside the shared validation. */
  predicate InitRefuses(c: Config, self: Address)
  {
    || ExceedsInternalRandomnessCap(c) || !InstanceBounds(c)
    || (c.source.Quorum? && self in c.source.oracles)
  }

  /** The configurations a raffle can be running with, and possibly more: no result here needs
      the cap on internal randomness. */
  ghost predicate Valid(c: Config)
  {
    && TicketsOk(c) && MoneyOk(c) && BundlesOk(c.bundles) && PrizesOk(c.prizes)
    && c.oracle.Some? == (c.source == External)
    && DelaysOk(c) && InstanceBounds(c)
    && (c.maxPerAddress == 0 ==> c.allowMultiple)
    && (c.noDeadline || c.endTime > 0)
  }

  /** Validation is idempotent, and what it accepts within the instance bounds is valid. */
  lemma NormalisedIsValid(c: Config, now: u64, tokenAnswers: bool, self: Address)
    requires Acceptable(c, now, tokenAnswers, self) && InstanceBounds(c)
    ensures Valid(Normalised(c))
    ensures Acceptable(Normalised(c), now, tokenAnswers, self)
    ensures Normalised(Normalised(c)) == Normalised(c)
  {
  }
}
