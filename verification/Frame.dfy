/** Which field of which record an instruction may change. */
module Frames {
  import opened Types
  import opened Accounts
  import opened Ledger
  import opened Consistency

  predicate Closes(step: Step) {
    step.Close? || step.CloseAndWithdraw?
  }

  /** The market record: the pause flag is what was asked for, the limits given at the start stay,
      each total moves with the instructions that concern it only. */
  lemma {:induction false} MarketFrame(s: State, step: Step)
    requires Perform(s, step).Ok?
    ensures
      var m, m' := s.market, Next(s, step).market;
      && m'.paused == (if step.SetPaused? then step.paused else m.paused)
      && m'.maxLeverageBps == m.maxLeverageBps && m'.fundingIntervalSecs == m.fundingIntervalSecs
      && (!step.UpdateFunding? ==>
            m'.cumFundingLong == m.cumFundingLong && m'.cumFundingShort == m.cumFundingShort && m'.lastFundingTs == m.lastFundingTs)
      && (!step.Claim? && !step.Liquidate? && !Closes(step) ==>
            m'.totalLongSize == m.totalLongSize && m'.totalShortSize == m.totalShortSize)
      && (!step.Accrue? && !step.Liquidate? && !Closes(step) ==> m'.realizedLossPool == m.realizedLossPool)
  {
    hide AccrueStep, LiquidateStep, CloseStep, ClaimStep, UpdatedFunding;
    match step
    case UpdateFunding(now) => FundingMarket(s.market, now);
    case Accrue(key) => AccrueMarket(s, key);
    case Liquidate(key, liquidator, mark) => LiquidateMarket(s, key, liquidator, mark);
    case Close(key, caller, mark) => CloseMarket(s, key, caller, mark);
    case CloseAndWithdraw(key, caller, mark, payout) => CloseMarket(s, key, caller, mark);
    case Claim(fill, taker, maker, now) => ClaimMarket(s, fill, taker, maker, now);
    case _ =>
  }

  predicate SameLimits(m: Market, m': Market) {
    m'.paused == m.paused && m'.maxLeverageBps == m.maxLeverageBps && m'.fundingIntervalSecs == m.fundingIntervalSecs
  }

  predicate SameIndexes(m: Market, m': Market) {
    m'.cumFundingLong == m.cumFundingLong && m'.cumFundingShort == m.cumFundingShort && m'.lastFundingTs == m.lastFundingTs
  }

  lemma {:induction false} FundingMarket(m: Market, now: I64)
    requires UpdatedFunding(m, now).Ok?
    ensures
      var m' := UpdatedFunding(m, now).value;
      && SameLimits(m, m') && m'.totalLongSize == m.totalLongSize && m'.totalShortSize == m.totalShortSize
      && m'.realizedLossPool == m.realizedLossPool
  {
    hide FundingRate;
  }

  lemma {:induction false} AccrueMarket(s: State, key: PosKey)
    requires AccrueStep(s, key).Ok?
    ensures
      var m, m' := s.market, AccrueStep(s, key).value.market;
      SameLimits(m, m') && SameIndexes(m, m') && m'.totalLongSize == m.totalLongSize && m'.totalShortSize == m.totalShortSize
  {
    hide AccrueFundingInternal;
  }

  lemma {:induction false} LiquidateMarket(s: State, key: PosKey, liquidator: Pubkey, mark: U64)
    requires LiquidateStep(s, key, liquidator, mark).Ok?
    ensures
      var m' := LiquidateStep(s, key, liquidator, mark).value.market;
      SameLimits(s.market, m') && SameIndexes(s.market, m')
  {
    hide AccrueFundingInternal, Judge;
  }

  lemma {:induction false} CloseMarket(s: State, key: PosKey, caller: Pubkey, mark: U64)
    requires CloseStep(s, key, caller, mark).Ok?
    ensures
      var m' := CloseStep(s, key, caller, mark).value.market;
      SameLimits(s.market, m') && SameIndexes(s.market, m')
  {
    hide ComputePnl;
  }

  lemma {:induction false} ClaimMarket(s: State, fill: Fill, taker: Reveal, maker: Reveal, now: I64)
    requires ClaimStep(s, fill, taker, maker, now).Ok?
    ensures
      var m' := ClaimStep(s, fill, taker, maker, now).value.market;
      SameLimits(s.market, m') && SameIndexes(s.market, m') && m'.realizedLossPool == s.market.realizedLossPool
  {
    hide ComputeCollateral, ClaimCheck;
  }

  /** A user's record: deposits and withdrawals move the deposit only, a settled fill the locked balance
      and the running index only, funding both balances alike; the profit counter moves when a
      position ends, and the index never otherwise. */
  lemma {:induction false} UserFrame(s: State, step: Step, owner: Pubkey)
    requires Perform(s, step).Ok? && owner in s.users
    ensures owner in Next(s, step).users
    ensures
      var u, u' := s.users[owner], Next(s, step).users[owner];
      && (!step.Liquidate? && !Closes(step) ==> u'.realizedPnl == u.realizedPnl)
      && (!step.Claim? ==> u'.nextPositionIdx == u.nextPositionIdx)
      && (step.Claim? ==> u'.nextPositionIdx == u.nextPositionIdx + (if owner == step.fill.taker || owner == step.fill.maker then 1 else 0))
      && (step.Deposit? || step.Withdraw? ==> u'.lockedAmount == u.lockedAmount)
      && (step.Claim? ==> u'.depositedAmount == u.depositedAmount && u'.lockedAmount >= u.lockedAmount)
      && (step.Accrue? ==> u'.depositedAmount - u.depositedAmount == u'.lockedAmount - u.lockedAmount)
  {
    hide ComputePnl, ComputeCollateral, AccrueFundingInternal, Judge, UpdatedFunding;
    match step
    case Claim(fill, taker, maker, now) => ClaimUsers(s, fill, taker, maker, now, owner);
    case _ =>
  }

  lemma {:induction false} ClaimUsers(s: State, fill: Fill, taker: Reveal, maker: Reveal, now: I64, owner: Pubkey)
    requires ClaimStep(s, fill, taker, maker, now).Ok? && owner in s.users
    ensures
      var u, u' := s.users[owner], ClaimStep(s, fill, taker, maker, now).value.users[owner];
      && u'.depositedAmount == u.depositedAmount && u'.realizedPnl == u.realizedPnl && u'.lockedAmount >= u.lockedAmount
      && u'.nextPositionIdx == u.nextPositionIdx + (if owner == fill.taker || owner == fill.maker then 1 else 0)
  {
    hide ComputeCollateral;
  }

  /** Joining creates an empty account, once. */
  lemma {:induction false} JoinExact(s: State, owner: Pubkey)
    ensures
      if owner in s.users then Perform(s, InitializeUser(owner)) == Err(AccountExists)
      else
        var r := Perform(s, InitializeUser(owner));
        && r.Ok? && r.value.users.Keys == s.users.Keys + {owner} && r.value.users[owner] == UserAccount(0, 0, 0, 0)
        && r.value.vault == s.vault
  {
    assert s.users[owner := UserAccount(0, 0, 0, 0)].Keys == s.users.Keys + {owner};
  }

  /** A position's record: who holds what, since when, at what price and leverage never changes; only
      the instructions on the position itself change the rest, and no position disappears. */
  lemma {:induction false} PositionFrame(s: State, step: Step, key: PosKey)
    requires Perform(s, step).Ok? && key in s.positions && Consistent(s)
    ensures key in Next(s, step).positions
    ensures
      var p, p' := s.positions[key], Next(s, step).positions[key];
      && p' == p.(collateralLocked := p'.collateralLocked, lastFundingIndex := p'.lastFundingIndex, status := p'.status)
      && (!((step.Accrue? || step.Liquidate? || Closes(step)) && step.key == key) ==> p' == p)
      && (Closes(step) && step.key == key ==> p' == p.(collateralLocked := 0, status := Closed))
      && (step.Liquidate? && step.key == key ==> p'.collateralLocked == 0 && p'.status == Liquidated)
      && (step.Accrue? && step.key == key ==> p'.status == p.status)
  {
    hide ComputePnl, ComputeCollateral, AccrueFundingInternal, Judge, UpdatedFunding;
    match step
    case Claim(fill, taker, maker, now) =>
      hide Consistent, ClaimCheck;
      NextAddressFree(s, taker.user);
      NextAddressFree(s, maker.user);
    case _ => hide Consistent;
  }
}
