/** When a liquidation goes through, and how it divides the collateral. */
module Liquidation {
  import opened Types
  import opened Accounts
  import opened Ledger
  import opened Conservation
  import opened Consistency
  import opened Solvency
  import Funding

  /** What a profit or loss leaves of the collateral. */
  function Remaining(c: nat, pnl: int): nat {
    if c + pnl <= 0 then 0 else c + pnl
  }

  /** The part of the profit or loss that the collateral pays for. */
  function CappedLoss(c: nat, pnl: int): nat {
    if pnl >= 0 then 0 else if -pnl <= c then -pnl else c
  }

  /** The part of the collateral that stays deposited once the bounty, a twentieth of what
      remains, is paid. */
  function Refund(c: nat, left: nat): nat {
    if left - left / 20 <= c then left - left / 20 else c
  }

  /** The collateral test on exact numbers, for collateral `c`: the loss exceeds a fifth of it, or
      there is none. The test itself overflows while ten thousand times the remainder (five
      hundred times the profit, without collateral) exceeds 64 bits. */
  predicate Liquidatable(c: nat, pnl: int) {
    && I64_MIN < pnl <= I64_MAX
    && (c > 0 ==> 5 * -pnl > c)
    && Remaining(c, pnl) * (if c > 0 then 10_000 else 500) <= U64_MAX
  }

  lemma {:induction false} JudgeExact(p: Position, mark: U64)
    ensures Judge(p, mark).Ok? <==> Liquidatable(p.collateralLocked, Pnl(p, mark))
    ensures Judge(p, mark).Ok? ==>
      var left := Remaining(p.collateralLocked, Pnl(p, mark));
      Judge(p, mark).value == Verdict(Pnl(p, mark), left, left / 20)
  {
    PnlExact(p, mark);
    hide ComputePnl, Pnl;
    var pnl, c := Pnl(p, mark), p.collateralLocked;
    if c > 0 && I64_MIN < pnl <= I64_MAX && c + pnl <= U64_MAX {
      RatioBelow(Remaining(c, pnl), c);
    }
  }

  /** A position with collateral is refused as healthy exactly if the test can be computed and the loss
      is at most a fifth of the collateral. */
  lemma {:induction false} HealthyExact(p: Position, mark: U64)
    ensures Judge(p, mark) == Err(NotLiquidatable) <==>
      && p.collateralLocked > 0 && I64_MIN < Pnl(p, mark) <= I64_MAX
      && 5 * -Pnl(p, mark) <= p.collateralLocked
      && (p.collateralLocked + Pnl(p, mark)) * 10_000 <= U64_MAX
  {
    PnlExact(p, mark);
    hide ComputePnl, Pnl;
    var pnl, c := Pnl(p, mark), p.collateralLocked;
    if c > 0 && I64_MIN < pnl <= I64_MAX && c + pnl <= U64_MAX {
      RatioBelow(Remaining(c, pnl), c);
    }
  }

  /** Falling marks keep a long liquidatable, rising marks a short, exactly until the loss leaves
      64 bits. */
  lemma {:induction false} LiquidatableMonotone(p: Position, mark: U64, worse: U64)
    requires Liquidatable(p.collateralLocked, Pnl(p, mark))
    requires if p.side == Long then worse <= mark else worse >= mark
    ensures Liquidatable(p.collateralLocked, Pnl(p, worse)) <==> I64_MIN < Pnl(p, worse)
  {
    MulMono(PriceDiff(p, worse), PriceDiff(p, mark), p.sizeLots);
  }

  /** A liquidation of collateral `c` can be settled: the vault holds the bounty, the owner's
      deposit holds what leaves it, and pool and profit counter have room. */
  predicate Settleable(c: nat, pnl: int, vault: int, deposited: int, pool: int, realized: int) {
    var left := Remaining(c, pnl);
    && left / 20 <= vault
    && c - Refund(c, left) <= deposited
    && pool + CappedLoss(c, pnl) <= U64_MAX
    && realized + pnl <= I64_MAX && I64_MIN <= realized + pnl - left / 20
  }

  /** A liquidation goes through exactly when the market is not paused, the position is open and has
      collateral, the caller is not its owner, the pending funding can be charged and, on what that
      leaves, the position is liquidatable and can be settled. Locked balance and open interest are
      never in the way. */
  lemma {:induction false} LiquidationExact(s: State, key: PosKey, liquidator: Pubkey, mark: U64)
    requires Consistent(s)
    ensures LiquidateStep(s, key, liquidator, mark).Ok? <==>
      && Loaded(s, key)
      && var p, u, pool := s.positions[key], s.users[s.positions[key].owner], s.market.realizedLossPool;
      && !s.market.paused && p.status == Open && liquidator != p.owner && p.collateralLocked > 0
      && Chargeable(s.market, u, p)
      && var due, pnl := Due(s.market, p), Pnl(p, mark);
      && due <= p.collateralLocked
      && Liquidatable(p.collateralLocked - due, pnl)
      && Settleable(p.collateralLocked - due, pnl, s.vault, u.depositedAmount - due, pool + due, u.realizedPnl)
  {
    if Loaded(s, key) && s.positions[key].status == Open {
      ChargeExact(s, key);
      DueWithin(s, key);
      hide Due, Chargeable, Accrued, Settleable, Liquidatable, Pnl, Consistent;
      if LiquidateCheck(s, key, liquidator) == Pass && Accrued(TrioAt(s, key)).Ok? {
        var t := Accrued(TrioAt(s, key)).value;
        assert Pnl(t.position, mark) == Pnl(s.positions[key], mark);
        ChargedLiquidation(s, key, liquidator, mark, t);
      }
    }
  }

  /** Who may not liquidate what, whatever the mark: the tests that come first, in order. */
  lemma {:induction false} LiquidationRefused(s: State, key: PosKey, liquidator: Pubkey, mark: U64)
    ensures
      var r := LiquidateStep(s, key, liquidator, mark);
      if !Loaded(s, key) then r == Err(AccountMissing)
      else if s.market.paused then r == Err(MarketPaused)
      else if s.positions[key].status != Open then r == Err(PositionNotOpen)
      else if s.positions[key].owner == liquidator then r == Err(SelfLiquidation)
      else if s.positions[key].collateralLocked == 0 then r == Err(PositionNotOpen)
      else r.Err? ==> r.error in {Overflow, InsufficientCollateral, NotLiquidatable, TransferFailed}
  {
    if Loaded(s, key) {
      ErrorsOf(TrioAt(s, key), mark);
    }
    hide Accrued, Judge, AfterLiquidation;
  }

  lemma {:induction false} ErrorsOf(t: Trio, mark: U64)
    ensures Accrued(t).Err? ==> Accrued(t).error in {Overflow, InsufficientCollateral}
    ensures Accrued(t).Ok? ==>
      var p := Accrued(t).value.position;
      Judge(p, mark).Err? ==> Judge(p, mark).error in {Overflow, NotLiquidatable}
    ensures forall v | Accrued(t).Ok? && Judge(Accrued(t).value.position, mark) == Ok(v) ::
      AfterLiquidation(Accrued(t).value, v).Err? ==> AfterLiquidation(Accrued(t).value, v).error == Overflow
  {
    Funding.AccrualExact(t.position, t.market);
    hide Funding.Payment, AccrueFundingInternal, Pnl;
  }

  lemma {:induction false} DueWithin(s: State, key: PosKey)
    requires Loaded(s, key)
    ensures Chargeable(s.market, s.users[s.positions[key].owner], s.positions[key]) ==>
      Due(s.market, s.positions[key]) <= s.positions[key].collateralLocked
  {
    hide Due;
  }

  /** Once funding is charged. */
  lemma {:induction false} ChargedLiquidation(s: State, key: PosKey, liquidator: Pubkey, mark: U64, t: Trio)
    requires Consistent(s) && Loaded(s, key) && LiquidateCheck(s, key, liquidator) == Pass
    requires Accrued(TrioAt(s, key)) == Ok(t)
    ensures
      var c, pnl := t.position.collateralLocked, Pnl(t.position, mark);
      LiquidateStep(s, key, liquidator, mark).Ok? <==>
        && Liquidatable(c, pnl)
        && Settleable(c, pnl, s.vault, t.user.depositedAmount, t.market.realizedLossPool, t.user.realizedPnl)
  {
    JudgeExact(t.position, mark);
    AccruedBalance(TrioAt(s, key));
    NoUnderflow(s, key);
    hide Pnl, ComputePnl, AccrueFundingInternal, Judge;
    if Judge(t.position, mark).Ok? {
      var v := Judge(t.position, mark).value;
      assert LiquidateStep(s, key, liquidator, mark).Ok? <==> v.bounty <= s.vault && AfterLiquidation(t, v).Ok?;
      SettlementExact(t, v);
    }
  }

  /** The record changes alone, when the totals cannot underflow. */
  lemma {:induction false} SettlementExact(t: Trio, v: Verdict)
    requires ReduceInterest(t.market, t.position).Ok? && t.position.collateralLocked <= t.user.lockedAmount
    requires v.pnl > I64_MIN && v.remaining == Remaining(t.position.collateralLocked, v.pnl) && v.bounty == v.remaining / 20
    requires t.position.collateralLocked > 0 ==> v.pnl < 0
    ensures AfterLiquidation(t, v).Ok? <==>
      && t.position.collateralLocked - Refund(t.position.collateralLocked, v.remaining) <= t.user.depositedAmount
      && t.market.realizedLossPool + CappedLoss(t.position.collateralLocked, v.pnl) <= U64_MAX
      && t.user.realizedPnl + v.pnl <= I64_MAX && I64_MIN <= t.user.realizedPnl + v.pnl - v.bounty
  {
  }

  /** So where the vault holds every deposit and the pool, a solvent owner's open position is liquidated
      by others exactly when a debit is within its collateral and a credit within the pool, it is
      liquidatable on what funding leaves, the vault holds the bounty even if that is nothing,
      and the owner's profit counter has room. */
  lemma {:induction false} SolventLiquidation(s: State, key: PosKey, liquidator: Pubkey, mark: U64)
    requires Consistent(s) && Backed(s) && Loaded(s, key) && Solvent(s.users[s.positions[key].owner])
    ensures
      var p, u, pool := s.positions[key], s.users[s.positions[key].owner], s.market.realizedLossPool;
      var due, pnl := Due(s.market, p), Pnl(p, mark);
      LiquidateStep(s, key, liquidator, mark).Ok? <==>
        && !s.market.paused && p.status == Open && liquidator != p.owner && p.collateralLocked > 0
        && Funding.Notional(p) <= U64_MAX && I64_MIN < due <= I64_MAX
        && due <= p.collateralLocked && -due <= pool
        && Liquidatable(p.collateralLocked - due, pnl)
        && (due == p.collateralLocked ==> pnl / 20 <= s.vault && u.realizedPnl + pnl <= I64_MAX)
        && I64_MIN <= u.realizedPnl + pnl - Remaining(p.collateralLocked - due, pnl) / 20
  {
    LiquidationExact(s, key, liquidator, mark);
    var p, u, pool := s.positions[key], s.users[s.positions[key].owner], s.market.realizedLossPool;
    var due, pnl := Due(s.market, p), Pnl(p, mark);
    VaultCovers(s, p.owner);
    if p.status == Open {
      NoUnderflow(s, key);
    }
    hide Due, Pnl, Funding.Notional, LiquidateStep, Consistent, Settleable, Liquidatable;
    if p.status == Open && due <= p.collateralLocked && -due <= pool && Liquidatable(p.collateralLocked - due, pnl) {
      SolventSettleable(p.collateralLocked - due, pnl, s.vault, u.depositedAmount - due, pool + due, u.realizedPnl);
    }
  }

  /** With the collateral in the deposit, and deposit and pool in the vault, only a bounty on no
      collateral and the profit counter can be in the way. */
  lemma {:induction false} SolventSettleable(c: nat, pnl: int, vault: U64, deposited: int, pool: int, realized: I64)
    requires Liquidatable(c, pnl) && c <= deposited && 0 <= pool && deposited + pool <= vault
    ensures Settleable(c, pnl, vault, deposited, pool, realized) <==>
      && (c == 0 ==> pnl / 20 <= vault && realized + pnl <= I64_MAX)
      && I64_MIN <= realized + pnl - Remaining(c, pnl) / 20
  {
  }

  /** A position whose pending funding cannot be charged is out of reach of every liquidator at
      every mark. */
  lemma {:induction false} Unreachable(s: State, key: PosKey, liquidator: Pubkey, mark: U64)
    requires Consistent(s) && Loaded(s, key) && s.positions[key].status == Open
    requires !Chargeable(s.market, s.users[s.positions[key].owner], s.positions[key])
    ensures LiquidateStep(s, key, liquidator, mark).Err? && AccrueStep(s, key).Err?
  {
    hide Chargeable, Accrued;
    ChargeExact(s, key);
  }

  /** A liquidation splits the collateral left after funding without remainder: the loss (capped
      at the collateral) to the pool, a twentieth of the rest, rounded down and at most a
      twenty-fifth of the whole, to the liquidator, and the refund stays deposited. */
  lemma {:induction false} LiquidationSplits(s: State, key: PosKey, liquidator: Pubkey, mark: U64, t: Trio)
    requires Loaded(s, key) && Accrued(TrioAt(s, key)) == Ok(t) && t.position.collateralLocked > 0
    requires LiquidateStep(s, key, liquidator, mark).Ok?
    ensures
      var s', u, c := LiquidateStep(s, key, liquidator, mark).value, t.user, t.position.collateralLocked;
      var loss, bounty := s'.market.realizedLossPool - t.market.realizedLossPool, s.vault - s'.vault;
      var u' := s'.users[t.position.owner];
      var refund := c - (u.depositedAmount - u'.depositedAmount);
      && loss + bounty + refund == c
      && loss == (if -Pnl(t.position, mark) <= c then -Pnl(t.position, mark) else c)
      && 0 <= refund && 0 <= 25 * bounty <= c
      && 20 * bounty <= c - loss < 20 * bounty + 20
      && u.lockedAmount - u'.lockedAmount == c
      && u'.realizedPnl - u.realizedPnl == Pnl(t.position, mark) - bounty
      && s'.positions[key].status == Liquidated && s'.positions[key].collateralLocked == 0
  {
    hide Pnl, ComputePnl, AccrueFundingInternal, Judge;
    JudgeExact(t.position, mark);
    JudgedLoss(t.position, mark);
  }
}
