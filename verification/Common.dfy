/** Types, widths and constants shared by every component of the raffle model. */
module Common {

  /** Addresses are compared by equality and, in the quorum aggregation, by
      their XDR bytes. Both are modelled by one strict total order on numbers. */
  type Address = int

  const U32_LIMIT: int := 0x1_0000_0000
  const U64_LIMIT: int := 0x1_0000_0000_0000_0000
  const U64_MAX: int := U64_LIMIT - 1
  const I128_MAX: int := 0x7FFF_FFFF_FFFF_FFFF_FFFF_FFFF_FFFF_FFFF

  type u32 = x: int | 0 <= x < U32_LIMIT
  type u64 = x: int | 0 <= x < U64_LIMIT

  const BASIS_POINTS := 10_000
  const MAX_TICKETS_LIMIT := 100_000
  const MAX_PRIZES := 100
  const MIN_TICKET_PRICE := 10_000
  const MAX_PRIZE_AMOUNT := 1_000_000_000_000_000_000_000
  const MAX_PROTOCOL_FEE_BP := 2_000
  const MAX_INTERNAL_RANDOMNESS_PRIZE_AMOUNT := 5_000_000_000

  datatype Option<+T> = None | Some(value: T)

  datatype Result<+T> = Ok(value: T) | Err(error: Error)

  datatype Error =
    | RaffleInactive
    | TicketsSoldOut
    | InsufficientFunds
    | NotAuthorized
    | OracleNotSet
    | RandomnessAlreadyRequested
    | NoRandomnessRequest
    | FallbackTooEarly
    | PrizeNotDeposited
    | PrizeAlreadyClaimed
    | PrizeAlreadyDeposited
    | NotWinner
    | ClaimTooEarly
    | InvalidParameters
    | InvalidQuantity
    | InvalidStatus
    | ContractPaused
    | InvalidStateTransition
    | RaffleExpired
    | MultipleTicketsNotAllowed
    | NoTicketsSold
    | TicketNotFound
    | ArithmeticOverflow
    | TokenTransferFailed
    | InvalidIndex
    | MorePrizesThanTickets
    | ZeroPrize
    | InvalidTokenAddress
    | TooManyPrizes
    | EmergencyTooEarly
    | InvalidTicketRange
    | InsufficientAccumulatedFees
    | ExceedsMaxTicketsPerTx
    | DrawingAlreadyInProgress
    | DrawingAlreadyComplete
    | DrawingNotStarted
    | InvalidEndTime
    | RandomnessTooEarly
    | CancelTimelockActive
    | CancelNotScheduled
    | ExceedsMaxTicketsPerAddress
    | OracleNotRegistered
    | DuplicateOracleSubmission
    | CommitAlreadySubmitted
    | InvalidRaffleId
    | CallerNotRegisteredRaffle
    | RandomnessSourceTooWeakForPrize
    | HostPanic

  function Min(a: int, b: int): (r: int)
  {
    if a < b then a else b
  }

  function Max(a: int, b: int): (r: int)
  {
    if a < b then b else a
  }

  lemma ProductIsMonotone(a: int, b: int, c: int)
    requires 0 <= a && b <= c
    ensures a * b <= a * c
  {
  }
}
