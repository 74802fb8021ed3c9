/** The margin instructions as they run: account copies are loaded, changed step by step with
    checked arithmetic, and written back only when the handler returns without an error. Each
    one is proved to do exactly what `Ledger` says. */
module Programs {
  import opened Types
  import opened Accounts
  import opened Levels
  import opened Ring
  import opened OrderBooks
  import opened Ledger
  import opened Conservation
  import opened Consistency

  /** `apply_funding_delta`. */
  method ApplyDelta(market: Market, user: UserAccount, position: Position, delta: I64) returns (r: Result<Trio>)
    ensures r == ApplyFundingDelta(Trio(market, user, position), delta)
  {
    var m, u, p := market, user, position;
    if delta > 0 {
      var debit := delta;
      var collateral :- FitU64(p.collateralLocked as int - debit);
      p := p.(collateralLocked := collateral);
      var locked :- FitU64(u.lockedAmount as int - debit);
      u := u.(lockedAmount := locked);
      var deposited :- FitU64(u.depositedAmount as int - debit);
      u := u.(depositedAmount := deposited);
      var pool :- FitU64(m.realizedLossPool as int + debit);
      m := m.(realizedLossPool := pool);
    } else if delta < 0 {
      var credit :- FitI64(-(delta as int));
      :- Require(m.realizedLossPool >= credit, InsufficientCollateral);
      m := m.(realizedLossPool := m.realizedLossPool - credit);
      var collateral :- FitU64(p.collateralLocked as int + credit);
      p := p.(collateralLocked := collateral);
      var locked :- FitU64(u.lockedAmount as int + credit);
      u := u.(lockedAmount := locked);
      var deposited :- FitU64(u.depositedAmount as int + credit);
      u := u.(depositedAmount := deposited);
    }
    return Ok(Trio(m, u, p));
  }

  /** The market block of `update_funding`. */
  method AdvanceFunding(market: Market, now: I64) returns (r: Result<Market>)
    ensures r == UpdatedFunding(market, now)
  {
    hide FundingRate;
    var m := market;
    var elapsed :- FitI64(now as int - m.lastFundingTs);
    :- Require(elapsed >= m.fundingIntervalSecs, FundingIntervalNotElapsed);
    :- Require(m.fundingIntervalSecs > 0, FundingIntervalNotElapsed);
    var intervals := elapsed / m.fundingIntervalSecs;
    var rate :- FundingRate(m);
    var scaledRate :- FitI64(rate * intervals);
    var cumLong :- FitI64(m.cumFundingLong as int + scaledRate);
    m := m.(cumFundingLong := cumLong);
    var cumShort :- FitI64(m.cumFundingShort as int - scaledRate);
    m := m.(cumFundingShort := cumShort);
    var advanced := intervals * m.fundingIntervalSecs;
    assert advanced == elapsed - elapsed % m.fundingIntervalSecs;
    m := m.(lastFundingTs := m.lastFundingTs + advanced);
    return Ok(m);
  }

  /** The open-interest block of the closing handlers. */
  method DropInterest(market: Market, position: Position) returns (r: Result<Market>)
    ensures r == ReduceInterest(market, position)
    ensures r.Ok? ==>
      r.value.totalLongSize + r.value.totalShortSize + position.sizeLots == market.totalLongSize + market.totalShortSize as int
  {
    var m := market;
    match position.side {
      case Long =>
        var size :- FitU64(m.totalLongSize as int - position.sizeLots);
        m := m.(totalLongSize := size);
      case Short =>
        var size :- FitU64(m.totalShortSize as int - position.sizeLots);
        m := m.(totalShortSize := size);
    }
    return Ok(m);
  }

  /** The record updates of `liquidate_position`. */
  method SettleLiquidation(market: Market, user: UserAccount, position: Position, v: Verdict) returns (r: Result<Trio>)
    ensures r == AfterLiquidation(Trio(market, user, position), v)
    ensures r.Ok? ==>
      && user.lockedAmount - r.value.user.lockedAmount == position.collateralLocked
      && 0 <= user.depositedAmount - r.value.user.depositedAmount <= position.collateralLocked
      && r.value.user.realizedPnl == user.realizedPnl + v.pnl as int - v.bounty
      && r.value.position.status == Liquidated && r.value.market.realizedLossPool >= market.realizedLossPool
  {
    var u, p := user, position;
    var m :- DropInterest(market, position);
    var collateral := p.collateralLocked;
    var locked :- FitU64(u.lockedAmount as int - collateral);
    u := u.(lockedAmount := locked);
    var loss :- RealizedLossFromPnl(collateral, v.pnl);
    var pool :- FitU64(m.realizedLossPool as int + loss);
    m := m.(realizedLossPool := pool);
    var afterBounty := if v.remaining < v.bounty then 0 else v.remaining - v.bounty;
    if afterBounty > collateral {
      afterBounty := collateral;
    }
    var netLoss := collateral - afterBounty;
    var deposited :- FitU64(u.depositedAmount as int - netLoss);
    u := u.(depositedAmount := deposited);
    var realized :- FitI64(u.realizedPnl as int + v.pnl);
    var bounty :- FitI64(v.bounty);
    realized :- FitI64(realized as int - bounty);
    u := u.(realizedPnl := realized);
    p := p.(status := Liquidated, collateralLocked := 0);
    return Ok(Trio(m, u, p));
  }

  /** The settlement shared, word for word, by the two closing handlers. */
  method SettleClose(market: Market, user: UserAccount, position: Position, mark: U64) returns (r: Result<Trio>)
    ensures r == AfterClose(Trio(market, user, position), mark)
    ensures r.Ok? ==> r.value.market.paused == market.paused
  {
    var u, p := user, position;
    var pnl :- ComputePnl(p, mark);
    var m :- DropInterest(market, p);
    var locked :- FitU64(u.lockedAmount as int - p.collateralLocked);
    u := u.(lockedAmount := locked);
    if pnl >= 0 {
      var profit := pnl;
      :- Require(m.realizedLossPool >= profit, InsufficientCollateral);
      m := m.(realizedLossPool := m.realizedLossPool - profit);
      var deposited :- FitU64(u.depositedAmount as int + profit);
      u := u.(depositedAmount := deposited);
    } else {
      :- Require(pnl != I64_MIN, ArithmeticPanic);
      var loss := -pnl;
      var deposited :- FitU64(u.depositedAmount as int - loss);
      u := u.(depositedAmount := deposited);
      var pool :- FitU64(m.realizedLossPool as int + loss);
      m := m.(realizedLossPool := pool);
    }
    var realized :- FitI64(u.realizedPnl as int + pnl);
    u := u.(realizedPnl := realized);
    p := p.(status := Closed, collateralLocked := 0);
    return Ok(Trio(m, u, p));
  }

  /** One side of `claim_fill`. */
  method OpenSide(user: UserAccount, owner: Pubkey, side: Side, size: U64, priceTicks: U64, leverageBps: U16,
      cumFunding: I64, now: I64) returns (r: Result<(UserAccount, Position)>)
    ensures r == OpenPosition(user, owner, side, size, priceTicks, leverageBps, cumFunding, now)
    ensures r.Ok? ==>
      && r.value.0.Unlocked() + r.value.1.collateralLocked == user.Unlocked()
      && r.value.0.depositedAmount == user.depositedAmount
      && r.value.1.positionIdx < r.value.0.nextPositionIdx && r.value.1.status == Open
  {
    var u := user;
    var collateral :- ComputeCollateral(size, priceTicks, leverageBps);
    :- Require(u.Unlocked() >= collateral, InsufficientCollateral);
    var locked :- FitU64(u.lockedAmount as int + collateral);
    u := u.(lockedAmount := locked);
    var idx := u.nextPositionIdx;
    var nextIdx :- FitU64(u.nextPositionIdx as int + 1);
    u := u.(nextPositionIdx := nextIdx);
    return Ok((u, Position(owner, side, size, priceTicks, collateral, now, cumFunding, Open, leverageBps, idx)));
  }

  /** The part of `claim_fill` that reads the fill: check the reveals, raise open interest, open
      the long for the taker and the short for the maker. */
  method SettlePair(s: State, fill: Fill, taker: Reveal, maker: Reveal, now: I64) returns (r: Result<State>)
    requires ClaimAccounts(s, taker.user, maker.user) == Pass && !s.market.paused
    ensures r == ClaimStep(s, fill, taker, maker, now)
    ensures r.Ok? ==> fill.taker != fill.maker && r.value.vault == s.vault
  {
    var m := s.market;
    :- ClaimCheck(fill, taker, maker);
    var longSize :- FitU64(m.totalLongSize as int + taker.size);
    m := m.(totalLongSize := longSize);
    var shortSize :- FitU64(m.totalShortSize as int + maker.size);
    m := m.(totalShortSize := shortSize);
    var long :- OpenSide(s.users[taker.user], taker.user, Long, taker.size, fill.priceTicks, taker.leverageBps, m.cumFundingLong, now);
    var short :- OpenSide(s.users[maker.user], maker.user, Short, maker.size, fill.priceTicks, maker.leverageBps, m.cumFundingShort, now);
    return Ok(s.(
      market := m,
      users := s.users[taker.user := long.0][maker.user := short.0],
      positions := s.positions[NextKey(s, taker.user) := long.1][NextKey(s, maker.user) := short.1]));
  }

  /** What is proved of every step of the ledger, for the handler that takes it. */
  lemma {:induction false} KeepsBalance(s: State, step: Step, s': State)
    requires Perform(s, step) == Ok(s')
    ensures Gap(s') == Gap(s) + UnfundedBounty(s, step) && (Consistent(s) ==> Consistent(s'))
    ensures !step.Liquidate? ==> UnfundedBounty(s, step) == 0
  {
    StepGap(s, step);
    if Consistent(s) {
      StepKeepsConsistent(s, step);
    }
  }

  class Program {
    var market: Market
    var users: map<Pubkey, UserAccount>
    var positions: map<PosKey, Position>
    var vault: U64

    ghost function State(): State
      reads this
    {
      Ledger.State(market, users, positions, vault)
    }

    /** The instruction took effect as `step`, or failed with its error and changed nothing. */
    twostate predicate Performed(step: Step, new r: Result<()>)
      reads this
    {
      match Perform(old(State()), step)
      case Ok(s) => r == Ok(()) && State() == s
      case Err(e) => r == Err(e) && State() == old(State())
    }

    /** The balance of claims and holdings has moved by `unfunded`, and locked balances, open
        interest, funding indexes and addresses are still in order if they were. */
    twostate predicate Balanced(unfunded: nat)
      reads this
    {
      Gap(State()) == old(Gap(State())) + unfunded && (old(Consistent(State())) ==> Consistent(State()))
    }

    /** `initialize_market`. */
    constructor (interval: I64, maxLeverageBps: U16, now: I64)
      ensures State() == Genesis(interval, maxLeverageBps, now)
    {
      market := Market(false, maxLeverageBps, interval, now, 0, 0, 0, 0, 0);
      users, positions, vault := map[], map[], 0;
    }

    method InitializeUser(owner: Pubkey) returns (r: Result<()>)
      modifies this
      ensures Performed(Step.InitializeUser(owner), r)
      ensures Balanced(0)
    {
      hide Gap, Consistent, UnfundedBounty;
      if owner in users {
        return Err(AccountExists);
      }
      users := users[owner := UserAccount(0, 0, 0, 0)];
      KeepsBalance(old(State()), Step.InitializeUser(owner), State());
      return Ok(());
    }

    method SetMarketPaused(paused: bool) returns (r: Result<()>)
      modifies this
      ensures Performed(SetPaused(paused), r)
      ensures Balanced(0)
    {
      hide Gap, Consistent, UnfundedBounty;
      market := market.(paused := paused);
      KeepsBalance(old(State()), SetPaused(paused), State());
      return Ok(());
    }

    method DepositCollateral(owner: Pubkey, amount: U64, wallet: U64) returns (r: Result<()>)
      modifies this
      ensures Performed(Deposit(owner, amount, wallet), r)
      ensures Balanced(0)
    {
      hide Gap, Consistent, UnfundedBounty;
      if owner !in users {
        return Err(AccountMissing);
      }
      var user := users[owner];
      :- Require(!market.paused, MarketPaused);
      :- Require(amount > 0, InsufficientCollateral);
      :- Require(amount <= wallet && vault as int + amount <= U64_MAX, TransferFailed);
      var deposited :- FitU64(user.depositedAmount as int + amount);
      user := user.(depositedAmount := deposited);
      users, vault := users[owner := user], vault + amount;
      KeepsBalance(old(State()), Deposit(owner, amount, wallet), State());
      return Ok(());
    }

    method WithdrawCollateral(owner: Pubkey, amount: U64) returns (r: Result<()>)
      modifies this
      ensures Performed(Withdraw(owner, amount), r)
      ensures Balanced(0)
    {
      hide Gap, Consistent, UnfundedBounty;
      if owner !in users {
        return Err(AccountMissing);
      }
      var user := users[owner];
      :- Require(!market.paused, MarketPaused);
      var unlocked := user.Unlocked();
      :- Require(amount <= unlocked, WithdrawTooLarge);
      :- Require(amount <= vault, TransferFailed);
      user := user.(depositedAmount := user.depositedAmount - amount);
      users, vault := users[owner := user], vault - amount;
      KeepsBalance(old(State()), Withdraw(owner, amount), State());
      return Ok(());
    }

    /** `update_funding`; the oracle read after the update only logs. */
    method UpdateFunding(now: I64) returns (r: Result<()>)
      modifies this
      ensures Performed(Step.UpdateFunding(now), r)
      ensures Balanced(0)
    {
      hide Gap, Consistent, UnfundedBounty;
      hide UpdatedFunding;
      var m :- AdvanceFunding(market, now);
      market := m;
      KeepsBalance(old(State()), Step.UpdateFunding(now), State());
      return Ok(());
    }

    /** `accrue_funding`. */
    method AccrueFunding(key: PosKey) returns (r: Result<()>)
      modifies this
      ensures Performed(Accrue(key), r)
      ensures Balanced(0)
    {
      hide Gap, Consistent, UnfundedBounty, AccrueFundingInternal, ApplyFundingDelta;
      if key !in positions || positions[key].owner !in users {
        return Err(AccountMissing);
      }
      var owner := positions[key].owner;
      :- Require(positions[key].status == Open, PositionNotOpen);
      var delta :- AccrueFundingInternal(positions[key], market);
      var t :- ApplyDelta(market, users[owner], positions[key], delta);
      var position := t.position.(lastFundingIndex :=
        if t.position.side == Long then t.market.cumFundingLong else t.market.cumFundingShort);
      market, users, positions := t.market, users[owner := t.user], positions[key := position];
      KeepsBalance(old(State()), Accrue(key), State());
      return Ok(());
    }

    /** `liquidate_position`; `mark` is the oracle price. */
    method LiquidatePosition(key: PosKey, liquidator: Pubkey, mark: U64) returns (r: Result<()>)
      modifies this
      ensures Performed(Liquidate(key, liquidator, mark), r)
      ensures Balanced(if r.Ok? then UnfundedBounty(old(State()), Liquidate(key, liquidator, mark)) else 0)
    {
      hide Gap, Consistent, UnfundedBounty, AccrueFundingInternal, ApplyFundingDelta, Judge, AfterLiquidation;
      if key !in positions || positions[key].owner !in users {
        return Err(AccountMissing);
      }
      var owner := positions[key].owner;
      :- Require(!market.paused, MarketPaused);
      :- Require(positions[key].status == Open, PositionNotOpen);
      :- Require(liquidator != owner, SelfLiquidation);
      :- Require(positions[key].collateralLocked > 0, PositionNotOpen);
      var delta :- AccrueFundingInternal(positions[key], market);
      var t :- ApplyDelta(market, users[owner], positions[key], delta);
      var index := if t.position.side == Long then t.market.cumFundingLong else t.market.cumFundingShort;
      t := t.(position := t.position.(lastFundingIndex := index));
      var verdict :- Judge(t.position, mark);
      if verdict.bounty > 0 {
        :- Require(verdict.bounty <= vault, TransferFailed);
      }
      t :- SettleLiquidation(t.market, t.user, t.position, verdict);
      market, users, positions := t.market, users[owner := t.user], positions[key := t.position];
      vault := vault - verdict.bounty;
      KeepsBalance(old(State()), Liquidate(key, liquidator, mark), State());
      return Ok(());
    }

    /** `close_position`; `mark` is the oracle price. */
    method ClosePosition(key: PosKey, caller: Pubkey, mark: U64) returns (r: Result<()>)
      modifies this
      ensures Performed(Close(key, caller, mark), r)
      ensures Balanced(0)
    {
      hide Gap, Consistent, UnfundedBounty, AfterClose;
      if key !in positions || caller !in users {
        return Err(AccountMissing);
      }
      :- Require(!market.paused, MarketPaused);
      :- Require(positions[key].status == Open, PositionNotOpen);
      :- Require(positions[key].owner == caller, Unauthorized);
      var t :- SettleClose(market, users[caller], positions[key], mark);
      market, users, positions := t.market, users[caller := t.user], positions[key := t.position];
      KeepsBalance(old(State()), Close(key, caller, mark), State());
      return Ok(());
    }

    /** `close_position_and_withdraw`: the same settlement, then a payout in the same transaction. */
    method ClosePositionAndWithdraw(key: PosKey, caller: Pubkey, mark: U64, payout: U64) returns (r: Result<()>)
      modifies this
      ensures Performed(CloseAndWithdraw(key, caller, mark, payout), r)
      ensures Balanced(0)
    {
      hide Gap, Consistent, UnfundedBounty, AfterClose;
      if key !in positions || caller !in users {
        return Err(AccountMissing);
      }
      :- Require(!market.paused, MarketPaused);
      :- Require(positions[key].status == Open, PositionNotOpen);
      :- Require(positions[key].owner == caller, Unauthorized);
      var t :- SettleClose(market, users[caller], positions[key], mark);
      ghost var closed := Store(State(), key, t);
      assert CloseStep(State(), key, caller, mark) == Ok(closed);
      var user, paid := t.user, 0;
      if payout > 0 {
        var unlocked := user.Unlocked();
        :- Require(payout <= unlocked, WithdrawTooLarge);
        :- Require(payout <= vault, TransferFailed);
        paid := payout;
        user := user.(depositedAmount := user.depositedAmount - payout);
      }
      market, users, positions := t.market, users[caller := user], positions[key := t.position];
      vault := vault - paid;
      assert State().users == (if payout == 0 then closed.users else closed.users[caller := user]);
      KeepsBalance(old(State()), CloseAndWithdraw(key, caller, mark, payout), State());
      return Ok(());
    }

    /** The part of `claim_fill` before its writes: the account and pause checks, the lookup of the
        fill and the pair it opens. Yields the fill's slot and the ledger to be written. */
    method PrepareClaim(book: OrderBook, fillId: U64, taker: Reveal, maker: Reveal, now: I64)
      returns (r: Result<(nat, State)>)
      requires book.fills.Length == MAX_FILLS
      ensures match ClaimFillStep(State(), book.fills[..], fillId, taker, maker, now)
              case Err(e) => r == Err(e)
              case Ok(s) => r.Ok? && r.value.1 == s && Ring.FindFill(book.fills[..], fillId) == Some(r.value.0)
      ensures r.Ok? ==> book.fills[r.value.0].taker != book.fills[r.value.0].maker && r.value.1.vault == vault
      ensures r.Ok? ==> Gap(r.value.1) == Gap(State()) && (Consistent(State()) ==> Consistent(r.value.1))
    {
      hide ClaimStep, OpenPair, ClaimCheck, Gap, Consistent, UnfundedBounty;
      :- Require(taker.user in users && maker.user in users, AccountMissing);
      var takerKey := (taker.user, users[taker.user].nextPositionIdx);
      var makerKey := (maker.user, users[maker.user].nextPositionIdx);
      :- Require(takerKey !in positions && makerKey !in positions && taker.user != maker.user, AccountExists);
      :- Require(!market.paused, MarketPaused);
      var idx := book.FindFill(fillId);
      :- Require(idx.Some?, FillNotFound);
      var fill := book.fills[idx.value];
      var after :- SettlePair(Ledger.State(market, users, positions, vault), fill, taker, maker, now);
      KeepsBalance(State(), Claim(fill, taker, maker, now), after);
      return Ok((idx.value, after));
    }

    /** `claim_fill`: consume one recorded fill and open its two positions. `taker` and `maker`
        carry the accounts passed and the values revealed. The slot is marked with the other
        account writes, once nothing can fail any more. */
    method ClaimFill(book: OrderBook, fillId: U64, taker: Reveal, maker: Reveal, now: I64) returns (r: Result<()>)
      requires book.Valid()
      modifies this, book.fills
      ensures book.Valid()
      ensures match ClaimFillStep(old(State()), old(book.fills[..]), fillId, taker, maker, now)
              case Err(e) => r == Err(e) && State() == old(State()) && book.Abstract() == old(book.Abstract())
              case Ok(s) =>
                && r == Ok(()) && State() == s
                && var fill := old(book.fills[..])[Ring.FindFill(old(book.fills[..]), fillId).value];
                && fill in old(book.Abstract()).pending && fill.fillId == fillId
                && book.Abstract() == old(book.Abstract()).(pending := old(book.Abstract()).pending - {fill})
      ensures Balanced(0)
    {
      hide ArrayOk, LevelsOk, View, DistinctIds, Pending, Gap, Consistent, ClaimFillStep;
      var prepared :- PrepareClaim(book, fillId, taker, maker, now);
      var (slot, after) := prepared;
      book.MarkClaimed(slot);
      market, users, positions := after.market, after.users, after.positions;
      assert State() == after;
      return Ok(());
    }
  }
}
