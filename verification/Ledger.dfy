/** The margin ledger as a value, and what each instruction does to it. An instruction either
    yields the whole next state or fails, and then the transaction leaves the state as it was. */
module Ledger {
  import opened Types
  import opened Accounts
  import opened Ring

  const LIQUIDATION_THRESHOLD_BPS := 8_000
  const LIQUIDATION_BOUNTY_BPS := 500
  const MAX_FUNDING_BPS_PER_INTERVAL := 2_000

  /** A position address: its owner and the owner's running index. */
  type PosKey = (Pubkey, U64)

  datatype State = State(
    market: Market,
    users: map<Pubkey, UserAccount>,
    positions: map<PosKey, Position>,
    vault: U64)

  // ----- arithmetic

  /** Division rounding toward zero, as on the machine. */
  function TruncDiv(x: int, d: int): int
    requires d != 0
  {
    if (x >= 0) == (d > 0) then Abs(x) / Abs(d) else -(Abs(x) / Abs(d))
  }

  lemma {:induction false} QuotientBelow(x: nat, d: nat, q: nat)
    requires d > 0
    ensures x / d < q <==> x < q * d
  {
    assert x == d * (x / d) + x % d;
    if x / d < q {
      assert d * (x / d + 1) <= d * q;
    } else {
      assert d * q <= d * (x / d);
    }
  }

  function Abs(x: int): nat {
    if x >= 0 then x else -x
  }

  /** The `as i64` cast of a 64-bit size: it wraps. */
  function AsI64(x: U64): I64 {
    if x <= I64_MAX then x else x - 0x1_0000_0000_0000_0000
  }

  /** Price difference in the position's favour. */
  function PriceDiff(p: Position, mark: U64): int {
    if p.side == Long then mark as int - p.entryPriceTicks else p.entryPriceTicks as int - mark
  }

  /** Profit (or loss, if negative) of a position at a mark, before any range check. */
  function Pnl(p: Position, mark: U64): int {
    PriceDiff(p, mark) * p.sizeLots
  }

  /** `compute_pnl`, in 128-bit intermediate arithmetic. */
  function ComputePnl(p: Position, mark: U64): Result<I64> {
    var pnl :- FitI128(Pnl(p, mark));
    FitI64(pnl)
  }

  /** The 128-bit steps never fail on their own. */
  lemma {:induction false} PnlExact(p: Position, mark: U64)
    ensures ComputePnl(p, mark) == FitI64(Pnl(p, mark))
  {
  }

  /** `collateral_after_pnl`. */
  function CollateralAfterPnl(collateral: U64, pnl: I64): Result<U64> {
    if pnl >= 0 then FitU64(collateral as int + pnl)
    else if pnl == I64_MIN then Err(Overflow)
    else if -pnl >= collateral then Ok(0)
    else Ok(collateral + pnl)
  }

  /** `realized_loss_from_pnl`. */
  function RealizedLossFromPnl(collateral: U64, pnl: I64): Result<U64> {
    if pnl >= 0 then Ok(0)
    else if pnl == I64_MIN then Err(Overflow)
    else Ok(if -pnl <= collateral then -pnl else collateral)
  }

  function CumFunding(m: Market, side: Side): I64 {
    if side == Long then m.cumFundingLong else m.cumFundingShort
  }

  /** `accrue_funding_internal`: positive is owed by the position. */
  function AccrueFundingInternal(p: Position, m: Market): Result<I64> {
    var notional :- FitU64(p.sizeLots * p.entryPriceTicks);
    var product :- FitI128((CumFunding(m, p.side) as int - p.lastFundingIndex) * notional);
    FitI64(TruncDiv(product, 10_000))
  }

  /** Funding rate per interval in bps, from the open-interest imbalance. */
  function FundingRate(m: Market): Result<I64> {
    var long, short := AsI64(m.totalLongSize), AsI64(m.totalShortSize);
    var total :- FitI64(long as int + short);
    if total == 0 then Ok(0)
    else
      var imbalance :- FitI64(long as int - short);
      var scaled :- FitI64(imbalance as int * MAX_FUNDING_BPS_PER_INTERVAL);
      var raw :- FitI64(TruncDiv(scaled, total));
      Ok(Clamp(raw))
  }

  function Clamp(raw: I64): I64 {
    if raw > MAX_FUNDING_BPS_PER_INTERVAL then MAX_FUNDING_BPS_PER_INTERVAL
    else if raw < -MAX_FUNDING_BPS_PER_INTERVAL then -MAX_FUNDING_BPS_PER_INTERVAL
    else raw
  }

  // ----- funding

  /** `update_funding` on the market record. */
  function UpdatedFunding(m: Market, now: I64): Result<Market> {
    var elapsed :- FitI64(now as int - m.lastFundingTs);
    if elapsed < m.fundingIntervalSecs || m.fundingIntervalSecs <= 0 then Err(FundingIntervalNotElapsed)
    else
      var intervals := elapsed / m.fundingIntervalSecs;
      var rate :- FundingRate(m);
      var scaled :- FitI64(rate * intervals);
      var cumLong :- FitI64(m.cumFundingLong as int + scaled);
      var cumShort :- FitI64(m.cumFundingShort as int - scaled);
      Ok(m.(
        cumFundingLong := cumLong,
        cumFundingShort := cumShort,
        lastFundingTs := now - elapsed % m.fundingIntervalSecs))
  }

  /** What funding touches: the market, the owner and the position. */
  datatype Trio = Trio(market: Market, user: UserAccount, position: Position)

  /** `apply_funding_delta`: the amount leaves (or enters) the collateral, the locked and the
      deposited balance alike, and enters (or leaves) the loss pool. */
  function ApplyFundingDelta(t: Trio, delta: I64): Result<Trio> {
    if delta < 0 && delta != I64_MIN && t.market.realizedLossPool < -delta then Err(InsufficientCollateral)
    else if delta == I64_MIN then Err(Overflow)
    else
      var collateral :- FitU64(t.position.collateralLocked as int - delta);
      var locked :- FitU64(t.user.lockedAmount as int - delta);
      var deposited :- FitU64(t.user.depositedAmount as int - delta);
      var pool :- FitU64(t.market.realizedLossPool as int + delta);
      Ok(Trio(
        t.market.(realizedLossPool := pool),
        t.user.(lockedAmount := locked, depositedAmount := deposited),
        t.position.(collateralLocked := collateral)))
  }

  /** Pending funding applied and the position's index brought up to date. */
  function Accrued(t: Trio): Result<Trio> {
    var delta :- AccrueFundingInternal(t.position, t.market);
    var t' :- ApplyFundingDelta(t, delta);
    Ok(t'.(position := t'.position.(lastFundingIndex := CumFunding(t'.market, t'.position.side))))
  }

  // ----- ending a position

  /** Open interest without the position. */
  function ReduceInterest(m: Market, p: Position): Result<Market> {
    if p.side == Long then
      var size :- FitU64(m.totalLongSize as int - p.sizeLots);
      Ok(m.(totalLongSize := size))
    else
      var size :- FitU64(m.totalShortSize as int - p.sizeLots);
      Ok(m.(totalShortSize := size))
  }

  /** The record changes of a close at `mark`: the whole profit or loss moves between the owner's
      deposit and the loss pool. A loss of 2^63 panics on negation. */
  function AfterClose(t: Trio, mark: U64): Result<Trio> {
    var pnl :- ComputePnl(t.position, mark);
    var m :- ReduceInterest(t.market, t.position);
    var locked :- FitU64(t.user.lockedAmount as int - t.position.collateralLocked);
    if pnl > t.market.realizedLossPool then Err(InsufficientCollateral)
    else if pnl == I64_MIN then Err(ArithmeticPanic)
    else
      var deposited :- FitU64(t.user.depositedAmount as int + pnl);
      var pool :- FitU64(t.market.realizedLossPool as int - pnl);
      var realized :- FitI64(t.user.realizedPnl as int + pnl);
      Ok(Trio(
        m.(realizedLossPool := pool),
        t.user.(lockedAmount := locked, depositedAmount := deposited, realizedPnl := realized),
        t.position.(status := Closed, collateralLocked := 0)))
  }

  /** What a liquidation at `mark` would pay, for a position whose funding is settled. */
  datatype Verdict = Verdict(pnl: I64, remaining: U64, bounty: U64)

  function Judge(p: Position, mark: U64): Result<Verdict> {
    var pnl :- ComputePnl(p, mark);
    var remaining :- CollateralAfterPnl(p.collateralLocked, pnl);
    var scaled :- FitU64(if p.collateralLocked == 0 then 0 else remaining * 10_000);
    var ratio := if p.collateralLocked == 0 then 0 else scaled / p.collateralLocked;
    if ratio >= LIQUIDATION_THRESHOLD_BPS then Err(NotLiquidatable)
    else
      var reward :- FitU64(remaining * LIQUIDATION_BOUNTY_BPS);
      Ok(Verdict(pnl, remaining, reward / 10_000))
  }

  /** The record changes of a liquidation: the loss, capped at the collateral, goes to the pool,
      the bounty leaves the vault, and what remains stays deposited. */
  function AfterLiquidation(t: Trio, v: Verdict): Result<Trio> {
    var c := t.position.collateralLocked;
    var m :- ReduceInterest(t.market, t.position);
    var locked :- FitU64(t.user.lockedAmount as int - c);
    var loss :- RealizedLossFromPnl(c, v.pnl);
    var pool :- FitU64(t.market.realizedLossPool as int + loss);
    var rest := if v.remaining < v.bounty then 0 else v.remaining - v.bounty;
    var refund := if rest <= c then rest else c;
    var deposited :- FitU64(t.user.depositedAmount as int - (c - refund));
    var realized :- FitI64(t.user.realizedPnl as int + v.pnl);
    var bounty :- FitI64(v.bounty);
    var realized' :- FitI64(realized as int - bounty);
    Ok(Trio(
      m.(realizedLossPool := pool),
      t.user.(lockedAmount := locked, depositedAmount := deposited, realizedPnl := realized'),
      t.position.(status := Liquidated, collateralLocked := 0)))
  }

  // ----- opening a pair

  /** The arguments of `claim_fill`: the two user accounts passed, and per side the revealed size
      and leverage, the digest computed from the revealed values and the commitment argument. */
  datatype Reveal = Reveal(user: Pubkey, size: U64, leverageBps: U16, digest: Bytes32, commitment: Bytes32)

  /** One side of a settled fill: lock the collateral and write the position. */
  function OpenPosition(u: UserAccount, owner: Pubkey, side: Side, size: U64, priceTicks: U64, leverageBps: U16,
      cumFunding: I64, now: I64): Result<(UserAccount, Position)>
  {
    var collateral :- ComputeCollateral(size, priceTicks, leverageBps);
    if u.Unlocked() < collateral then Err(InsufficientCollateral)
    else
      var locked :- FitU64(u.lockedAmount as int + collateral);
      var nextIdx :- FitU64(u.nextPositionIdx as int + 1);
      Ok((u.(lockedAmount := locked, nextPositionIdx := nextIdx),
          Position(owner, side, size, priceTicks, collateral, now, cumFunding, Open, leverageBps, u.nextPositionIdx)))
  }

  /** The checks of `claim_fill` on the fill and the revealed values, in order. */
  function ClaimCheck(fill: Fill, taker: Reveal, maker: Reveal): Outcome {
    if fill.taker == fill.maker then Fail(Unauthorized)
    else if taker.user != fill.taker || maker.user != fill.maker then Fail(Unauthorized)
    else
      match BandMaxLots(fill.sizeBand)
      case Err(e) => Fail(e)
      case Ok(bandMax) =>
        if taker.size > bandMax || maker.size > bandMax then Fail(InvalidLeverage)
        else if taker.digest != taker.commitment || maker.digest != maker.commitment then Fail(CommitmentMismatch)
        else Require(taker.size == maker.size, CommitmentMismatch)
  }

  /** The next position addresses of the two users. */
  function NextKey(s: State, user: Pubkey): PosKey
    requires user in s.users
  {
    (user, s.users[user].nextPositionIdx)
  }

  /** Account creation before the handler runs: both users exist, both addresses are unused. */
  function ClaimAccounts(s: State, taker: Pubkey, maker: Pubkey): Outcome {
    if taker !in s.users || maker !in s.users then Fail(AccountMissing)
    else Require(NextKey(s, taker) !in s.positions && NextKey(s, maker) !in s.positions && taker != maker, AccountExists)
  }

  // ----- the instructions

  datatype Step =
    | SetPaused(paused: bool)
    | InitializeUser(owner: Pubkey)
    | Deposit(owner: Pubkey, amount: U64, wallet: U64)
    | Withdraw(owner: Pubkey, amount: U64)
    | Claim(fill: Fill, taker: Reveal, maker: Reveal, now: I64)
    | UpdateFunding(now: I64)
    | Accrue(key: PosKey)
    | Liquidate(key: PosKey, liquidator: Pubkey, mark: U64)
    | Close(key: PosKey, caller: Pubkey, mark: U64)
    | CloseAndWithdraw(key: PosKey, caller: Pubkey, mark: U64, payout: U64)

  predicate Loaded(s: State, key: PosKey) {
    key in s.positions && s.positions[key].owner in s.users
  }

  function TrioAt(s: State, key: PosKey): Trio
    requires Loaded(s, key)
  {
    Trio(s.market, s.users[s.positions[key].owner], s.positions[key])
  }

  function Store(s: State, key: PosKey, t: Trio): State
    requires Loaded(s, key)
  {
    s.(market := t.market,
       users := s.users[s.positions[key].owner := t.user],
       positions := s.positions[key := t.position])
  }

  function DepositStep(s: State, owner: Pubkey, amount: U64, wallet: U64): Result<State> {
    if owner !in s.users then Err(AccountMissing)
    else if s.market.paused then Err(MarketPaused)
    else if amount == 0 then Err(InsufficientCollateral)
    else if amount > wallet || s.vault as int + amount > U64_MAX then Err(TransferFailed)
    else
      var deposited :- FitU64(s.users[owner].depositedAmount as int + amount);
      Ok(s.(vault := s.vault + amount, users := s.users[owner := s.users[owner].(depositedAmount := deposited)]))
  }

  function WithdrawStep(s: State, owner: Pubkey, amount: U64): Result<State> {
    if owner !in s.users then Err(AccountMissing)
    else if s.market.paused then Err(MarketPaused)
    else if amount > s.users[owner].Unlocked() then Err(WithdrawTooLarge)
    else if amount > s.vault then Err(TransferFailed)
    else
      var u := s.users[owner];
      Ok(s.(vault := s.vault - amount, users := s.users[owner := u.(depositedAmount := u.depositedAmount - amount)]))
  }

  function ClaimStep(s: State, fill: Fill, taker: Reveal, maker: Reveal, now: I64): Result<State> {
    match ClaimAccounts(s, taker.user, maker.user)
    case Fail(e) => Err(e)
    case Pass =>
      if s.market.paused then Err(MarketPaused)
      else
        match ClaimCheck(fill, taker, maker)
        case Fail(e) => Err(e)
        case Pass => OpenPair(s, fill, taker, maker, now)
  }

  /** `claim_fill` from the ring: the fill is looked up after the account and pause checks. */
  function ClaimFillStep(s: State, ring: seq<Fill>, fillId: U64, taker: Reveal, maker: Reveal, now: I64): Result<State> {
    match ClaimAccounts(s, taker.user, maker.user)
    case Fail(e) => Err(e)
    case Pass =>
      if s.market.paused then Err(MarketPaused)
      else
        match FindFill(ring, fillId)
        case None => Err(FillNotFound)
        case Some(i) => ClaimStep(s, ring[i], taker, maker, now)
  }

  function OpenPair(s: State, fill: Fill, taker: Reveal, maker: Reveal, now: I64): Result<State>
    requires ClaimAccounts(s, taker.user, maker.user) == Pass
  {
    var m := s.market;
    var longSize :- FitU64(m.totalLongSize as int + taker.size);
    var shortSize :- FitU64(m.totalShortSize as int + maker.size);
    var long :- OpenPosition(s.users[taker.user], taker.user, Long, taker.size, fill.priceTicks, taker.leverageBps, m.cumFundingLong, now);
    var short :- OpenPosition(s.users[maker.user], maker.user, Short, maker.size, fill.priceTicks, maker.leverageBps, m.cumFundingShort, now);
    Ok(s.(
      market := m.(totalLongSize := longSize, totalShortSize := shortSize),
      users := s.users[taker.user := long.0][maker.user := short.0],
      positions := s.positions[NextKey(s, taker.user) := long.1][NextKey(s, maker.user) := short.1]))
  }

  function AccrueStep(s: State, key: PosKey): Result<State> {
    if !Loaded(s, key) then Err(AccountMissing)
    else if s.positions[key].status != Open then Err(PositionNotOpen)
    else
      var t :- Accrued(TrioAt(s, key));
      Ok(Store(s, key, t))
  }

  function LiquidateCheck(s: State, key: PosKey, liquidator: Pubkey): Outcome
    requires Loaded(s, key)
  {
    var p := s.positions[key];
    if s.market.paused then Fail(MarketPaused)
    else if p.status != Open then Fail(PositionNotOpen)
    else if liquidator == p.owner then Fail(SelfLiquidation)
    else Require(p.collateralLocked > 0, PositionNotOpen)
  }

  function LiquidateStep(s: State, key: PosKey, liquidator: Pubkey, mark: U64): Result<State> {
    if !Loaded(s, key) then Err(AccountMissing)
    else
      match LiquidateCheck(s, key, liquidator)
      case Fail(e) => Err(e)
      case Pass =>
        var t :- Accrued(TrioAt(s, key));
        var v :- Judge(t.position, mark);
        if v.bounty > s.vault then Err(TransferFailed)
        else
          var t' :- AfterLiquidation(t, v);
          Ok(Store(s, key, t').(vault := s.vault - v.bounty))
  }

  function CloseStep(s: State, key: PosKey, caller: Pubkey, mark: U64): Result<State> {
    if key !in s.positions || caller !in s.users then Err(AccountMissing)
    else if s.market.paused then Err(MarketPaused)
    else if s.positions[key].status != Open then Err(PositionNotOpen)
    else if s.positions[key].owner != caller then Err(Unauthorized)
    else
      var t :- AfterClose(TrioAt(s, key), mark);
      Ok(Store(s, key, t))
  }

  /** A close and, for a positive payout, a withdrawal by the owner. */
  function CloseAndWithdrawStep(s: State, key: PosKey, caller: Pubkey, mark: U64, payout: U64): Result<State> {
    var closed :- CloseStep(s, key, caller, mark);
    if payout == 0 then Ok(closed) else WithdrawStep(closed, caller, payout)
  }

  function Perform(s: State, step: Step): Result<State> {
    match step
    case SetPaused(paused) => Ok(s.(market := s.market.(paused := paused)))
    case InitializeUser(owner) =>
      if owner in s.users then Err(AccountExists) else Ok(s.(users := s.users[owner := UserAccount(0, 0, 0, 0)]))
    case Deposit(owner, amount, wallet) => DepositStep(s, owner, amount, wallet)
    case Withdraw(owner, amount) => WithdrawStep(s, owner, amount)
    case Claim(fill, taker, maker, now) => ClaimStep(s, fill, taker, maker, now)
    case UpdateFunding(now) =>
      var m :- UpdatedFunding(s.market, now);
      Ok(s.(market := m))
    case Accrue(key) => AccrueStep(s, key)
    case Liquidate(key, liquidator, mark) => LiquidateStep(s, key, liquidator, mark)
    case Close(key, caller, mark) => CloseStep(s, key, caller, mark)
    case CloseAndWithdraw(key, caller, mark, payout) => CloseAndWithdrawStep(s, key, caller, mark, payout)
  }

  /** The state after a transaction: a failing one changes nothing. */
  function Next(s: State, step: Step): State {
    match Perform(s, step)
    case Ok(s') => s'
    case Err(_) => s
  }

  function Run(s: State, steps: seq<Step>): State
    decreases |steps|
  {
    if steps == [] then s else Run(Next(s, steps[0]), steps[1..])
  }

  lemma {:induction false} RunAppend(s: State, first: seq<Step>, second: seq<Step>)
    ensures Run(s, first + second) == Run(Run(s, first), second)
    decreases |first|
  {
    if first == [] {
      assert first + second == second;
    } else {
      hide Next;
      assert (first + second)[1..] == first[1..] + second;
      RunAppend(Next(s, first[0]), first[1..], second);
    }
  }

  /** A market just initialized, with no user and an empty vault. */
  function Genesis(interval: I64, maxLeverageBps: U16, now: I64): State {
    State(Market(false, maxLeverageBps, interval, now, 0, 0, 0, 0, 0), map[], map[], 0)
  }
}
