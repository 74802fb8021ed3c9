/** Machine integers, errors, and the records kept in the order-book account. */
module Types {

  type U64 = x: int | 0 <= x <= 0xFFFF_FFFF_FFFF_FFFF
  type U16 = x: int | 0 <= x <= 0xFFFF
  type I64 = x: int | -0x8000_0000_0000_0000 <= x <= 0x7FFF_FFFF_FFFF_FFFF

  /** A 32-byte array (public key, digest), read as a number. */
  type Bytes32 = nat
  type Pubkey = Bytes32

  const U64_MAX: U64 := 0xFFFF_FFFF_FFFF_FFFF
  const I64_MIN: I64 := -0x8000_0000_0000_0000
  const I64_MAX: I64 := 0x7FFF_FFFF_FFFF_FFFF
  const U128_MAX: int := 0xFFFF_FFFF_FFFF_FFFF_FFFF_FFFF_FFFF_FFFF
  const I128_MIN: int := -0x8000_0000_0000_0000_0000_0000_0000_0000
  const I128_MAX: int := 0x7FFF_FFFF_FFFF_FFFF_FFFF_FFFF_FFFF_FFFF

  datatype Option<+T> = None | Some(value: T)

  /** The program's error codes, plus the failures raised around the handlers:
      a missing account, a failed token transfer, and an arithmetic panic
      (the release profile keeps overflow checks on). */
  datatype Error =
    | InvalidLeverage | InsufficientCollateral | OrderNotFound | CommitmentMismatch
    | BookNotDelegated | NotLiquidatable | MarketPaused | FillNotFound | InvalidSide
    | FillQueueFull | FundingIntervalNotElapsed | PositionNotOpen | Unauthorized
    | Overflow | InvalidPrice | WithdrawTooLarge | SelfLiquidation
    | AccountMissing | AccountExists | TransferFailed | ArithmeticPanic

  datatype Result<+T> = Ok(value: T) | Err(error: Error) {
    predicate IsFailure() { Err? }

    function PropagateFailure<U>(): Result<U>
      requires Err?
    {
      Err(error)
    }

    function Extract(): T
      requires Ok?
    {
      value
    }
  }

  datatype Outcome = Pass | Fail(error: Error) {
    predicate IsFailure() { Fail? }

    function PropagateFailure<U>(): Result<U>
      requires Fail?
    {
      Err(error)
    }
  }

  /** The `require!` macro. */
  function Require(condition: bool, error: Error): Outcome {
    if condition then Pass else Fail(error)
  }

  /** A checked operation whose exact result is `x`, followed by `ok_or(Overflow)?`. */
  function FitU64(x: int): Result<U64> {
    if 0 <= x <= U64_MAX then Ok(x) else Err(Overflow)
  }

  function FitI64(x: int): Result<I64> {
    if I64_MIN <= x <= I64_MAX then Ok(x) else Err(Overflow)
  }

  function FitU128(x: int): Result<int> {
    if 0 <= x <= U128_MAX then Ok(x) else Err(Overflow)
  }

  function FitI128(x: int): Result<int> {
    if I128_MIN <= x <= I128_MAX then Ok(x) else Err(Overflow)
  }

  datatype Side = Long | Short

  /** A resting order; `orderId == 0` marks an empty or tombstoned slot. */
  datatype Order = Order(
    orderId: U64,
    trader: Pubkey,
    side: nat,
    sizeBand: nat,
    leverageBps: U16,
    priceTicks: U64,
    commitment: Bytes32,
    placedSlot: U64)

  const ZERO_ORDER := Order(0, 0, 0, 0, 0, 0, 0, 0)

  /** A recorded match; `fillId == 0` marks a slot never used. */
  datatype Fill = Fill(
    fillId: U64,
    takerOrderId: U64,
    makerOrderId: U64,
    taker: Pubkey,
    maker: Pubkey,
    priceTicks: U64,
    sizeBand: nat,
    claimed: nat,
    matchedSlot: U64)

  const ZERO_FILL := Fill(0, 0, 0, 0, 0, 0, 0, 0, 0)
}
