/** The market, user and position records, and the sizing rules shared by the handlers. */
module Accounts {
  import opened Types

  datatype Status = Open | Closed | Liquidated

  datatype Market = Market(
    paused: bool,
    maxLeverageBps: U16,
    fundingIntervalSecs: I64,
    lastFundingTs: I64,
    totalLongSize: U64,
    totalShortSize: U64,
    cumFundingLong: I64,
    cumFundingShort: I64,
    realizedLossPool: U64)

  datatype UserAccount = UserAccount(
    depositedAmount: U64,
    lockedAmount: U64,
    realizedPnl: I64,
    nextPositionIdx: U64)
  {
    /** Saturating subtraction. */
    function Unlocked(): U64 {
      if depositedAmount <= lockedAmount then 0 else depositedAmount - lockedAmount
    }
  }

  datatype Position = Position(
    owner: Pubkey,
    side: Side,
    sizeLots: U64,
    entryPriceTicks: U64,
    collateralLocked: U64,
    openedTs: I64,
    lastFundingIndex: I64,
    status: Status,
    leverageBps: U16,
    positionIdx: U64)

  datatype SizeBand = Small | Medium | Large | Whale {
    function Code(): nat {
      match this case Small => 0 case Medium => 1 case Large => 2 case Whale => 3
    }
  }

  /** Lots assumed per band when an order's collateral is estimated. */
  function EstimateLots(band: nat): Result<U64> {
    match band
    case 0 => Ok(10)
    case 1 => Ok(100)
    case 2 => Ok(1_000)
    case 3 => Ok(10_000)
    case _ => Err(InvalidLeverage)
  }

  /** Largest size that may be revealed for a band. */
  function BandMaxLots(band: nat): Result<U64> {
    match band
    case 0 => Ok(10)
    case 1 => Ok(100)
    case 2 => Ok(1_000)
    case 3 => Ok(1_000_000)
    case _ => Err(InvalidSide)
  }

  /** `compute_collateral`: notional x 100 / leverage, in 128-bit intermediate arithmetic. */
  function ComputeCollateral(sizeLots: U64, priceTicks: U64, leverageBps: U16): Result<U64> {
    if leverageBps == 0 then Err(InvalidLeverage)
    else
      var notional :- FitU128(sizeLots * priceTicks);
      var scaled :- FitU128(notional * 100);
      FitU64(scaled / leverageBps)
  }

  /** The 128-bit steps never fail on their own: the call succeeds exactly when the exact
      quotient fits 64 bits. */
  lemma {:induction false} CollateralExact(sizeLots: U64, priceTicks: U64, leverageBps: U16)
    requires leverageBps > 0
    ensures ComputeCollateral(sizeLots, priceTicks, leverageBps)
         == FitU64(sizeLots * priceTicks * 100 / leverageBps)
  {
    var notional := sizeLots * priceTicks;
    ScaledExact(notional, leverageBps);
  }

  lemma {:induction false} ScaledExact(notional: nat, leverageBps: U16)
    requires leverageBps > 0
    ensures notional * 100 > U128_MAX ==> notional * 100 / leverageBps > U64_MAX
    ensures notional > U128_MAX ==> notional * 100 > U128_MAX
  {
    if notional * 100 > U128_MAX {
      DivAntitone(notional * 100, leverageBps, 0xFFFF);
    }
  }

  lemma {:induction false} DivAntitone(x: nat, small: int, large: int)
    requires 0 < small <= large
    ensures x / large <= x / small
  {
    var q := x / large;
    MulMono(small, large, q);
    assert small * q <= x;
    QuotientBound(x, q, small);
  }

  lemma {:induction false} MulMono(a: int, b: int, c: nat)
    requires a <= b
    ensures a * c <= b * c
  {
  }

  lemma {:induction false} QuotientBound(x: nat, q: nat, d: int)
    requires 0 < d && d * q <= x
    ensures q <= x / d
  {
    var r := x / d;
    assert x < d * (r + 1);
    assert r + 1 <= q ==> d * (r + 1) <= d * q by {
      if r + 1 <= q {
        MulMono(r + 1, q, d);
      }
    }
  }

  /** `compute_order_collateral_from_band`, also inlined in `place_order`. */
  function OrderCollateral(band: nat, priceTicks: U64, leverageBps: U16): Result<U64> {
    if leverageBps == 0 then Err(InvalidLeverage)
    else
      var lots :- EstimateLots(band);
      ComputeCollateral(lots, priceTicks, leverageBps)
  }

  /** The checks of `place_order` before it touches the book. */
  function PlaceCheck(market: Market, user: UserAccount, priceTicks: U64, band: SizeBand, leverageBps: U16): Outcome {
    if market.paused then Fail(MarketPaused)
    else if priceTicks == 0 then Fail(InvalidPrice)
    else if leverageBps == 0 || leverageBps > market.maxLeverageBps then Fail(InvalidLeverage)
    else
      match OrderCollateral(band.Code(), priceTicks, leverageBps)
      case Err(e) => Fail(e)
      case Ok(needed) => Require(user.Unlocked() >= needed, InsufficientCollateral)
  }

  /** What a placement is asked for: lots of the band, price and leverage give the collateral, which
      must be unlocked. */
  lemma {:induction false} PlaceExact(market: Market, user: UserAccount, priceTicks: U64, band: SizeBand, leverageBps: U16)
    ensures PlaceCheck(market, user, priceTicks, band, leverageBps) ==
      if market.paused then Fail(MarketPaused)
      else if priceTicks == 0 then Fail(InvalidPrice)
      else if leverageBps == 0 || leverageBps > market.maxLeverageBps then Fail(InvalidLeverage)
      else
        var lots := match band case Small => 10 case Medium => 100 case Large => 1_000 case Whale => 10_000;
        var needed := lots * priceTicks * 100 / leverageBps;
        if needed > U64_MAX then Fail(Overflow)
        else if needed > 0 && needed > user.depositedAmount - user.lockedAmount then Fail(InsufficientCollateral)
        else Pass
  {
    if leverageBps > 0 {
      var lots: U64 := match band case Small => 10 case Medium => 100 case Large => 1_000 case Whale => 10_000;
      CollateralExact(lots, priceTicks, leverageBps);
      hide ComputeCollateral;
      NonNegative(lots * priceTicks * 100, leverageBps);
    }
  }

  lemma {:induction false} NonNegative(x: nat, d: nat)
    requires d > 0
    ensures x / d >= 0
  {
  }
}
