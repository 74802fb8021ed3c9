/** What the ledger's totals mean in every reachable state: a user's locked balance is the
    collateral of that user's open positions, and open interest is the sum of open sizes. */
module Consistency {
  import opened Types
  import opened Accounts
  import opened Ledger
  import opened Sums

  function Collateral(owner: Pubkey): Position -> int {
    (p: Position) => if p.status == Open && p.owner == owner then p.collateralLocked else 0
  }

  function Lots(side: Side): Position -> int {
    (p: Position) => if p.status == Open && p.side == side then p.sizeLots else 0
  }

  /** Every position sits at its owner's address, under an index already used. */
  ghost predicate WellAddressed(s: State) {
    forall key | key in s.positions ::
      && s.positions[key].owner == key.0 && s.positions[key].positionIdx == key.1
      && key.0 in s.users && key.1 < s.users[key.0].nextPositionIdx
  }

  ghost predicate LockedIsCollateral(s: State) {
    forall owner | owner in s.users :: s.users[owner].lockedAmount == Sum(s.positions, Collateral(owner))
  }

  ghost predicate InterestIsLots(s: State) {
    && s.market.totalLongSize == Sum(s.positions, Lots(Long))
    && s.market.totalShortSize == Sum(s.positions, Lots(Short))
  }

  /** What longs owe, shorts are owed. */
  predicate FundingMirrored(m: Market) {
    m.cumFundingLong + m.cumFundingShort == 0
  }

  ghost predicate Consistent(s: State) {
    WellAddressed(s) && LockedIsCollateral(s) && InterestIsLots(s) && FundingMirrored(s.market)
  }

  lemma {:induction false} GenesisConsistent(interval: I64, maxLeverageBps: U16, now: I64)
    ensures Consistent(Genesis(interval, maxLeverageBps, now))
  {
  }

  /** Three records changed together, when the open position's collateral and the owner's locked
      balance change alike and open interest follows the position. */
  lemma {:induction false} StoreConsistent(s: State, key: PosKey, t: Trio)
    requires Consistent(s) && Loaded(s, key) && s.positions[key].status == Open
    requires t.position.owner == s.positions[key].owner && t.position.positionIdx == s.positions[key].positionIdx
    requires t.position.side == s.positions[key].side
    requires t.user.nextPositionIdx == s.users[key.0].nextPositionIdx
    requires t.user.lockedAmount - s.users[s.positions[key].owner].lockedAmount
          == Collateral(t.position.owner)(t.position) - s.positions[key].collateralLocked
    requires t.market.totalLongSize - s.market.totalLongSize
          == Lots(Long)(t.position) - Lots(Long)(s.positions[key])
    requires t.market.totalShortSize - s.market.totalShortSize
          == Lots(Short)(t.position) - Lots(Short)(s.positions[key])
    requires FundingMirrored(t.market)
    ensures Consistent(Store(s, key, t))
  {
    var s' := Store(s, key, t);
    forall owner | owner in s'.users
      ensures s'.users[owner].lockedAmount == Sum(s'.positions, Collateral(owner))
    {
      SumUpdate(s.positions, Collateral(owner), key, t.position);
    }
    SumUpdate(s.positions, Lots(Long), key, t.position);
    SumUpdate(s.positions, Lots(Short), key, t.position);
  }

  lemma {:induction false} AccrueConsistent(s: State, key: PosKey)
    requires Consistent(s) && AccrueStep(s, key).Ok?
    ensures Consistent(AccrueStep(s, key).value)
  {
    hide AccrueFundingInternal;
    StoreConsistent(s, key, Accrued(TrioAt(s, key)).value);
  }

  lemma {:induction false} CloseConsistent(s: State, key: PosKey, caller: Pubkey, mark: U64)
    requires Consistent(s) && CloseStep(s, key, caller, mark).Ok?
    ensures Consistent(CloseStep(s, key, caller, mark).value)
  {
    hide ComputePnl;
    StoreConsistent(s, key, AfterClose(TrioAt(s, key), mark).value);
  }

  lemma {:induction false} LiquidateConsistent(s: State, key: PosKey, liquidator: Pubkey, mark: U64)
    requires Consistent(s) && LiquidateStep(s, key, liquidator, mark).Ok?
    ensures Consistent(LiquidateStep(s, key, liquidator, mark).value)
  {
    hide AccrueFundingInternal, Judge;
    var t := Accrued(TrioAt(s, key)).value;
    var v := Judge(t.position, mark).value;
    StoreConsistent(s, key, AfterLiquidation(t, v).value);
  }

  lemma {:induction false} WithdrawConsistent(s: State, owner: Pubkey, amount: U64)
    requires Consistent(s) && WithdrawStep(s, owner, amount).Ok?
    ensures Consistent(WithdrawStep(s, owner, amount).value)
  {
  }

  /** Opening one position at its owner's next address. */
  function Opened(s: State, m: Market, user: Pubkey, u: UserAccount, p: Position): State
    requires user in s.users
  {
    s.(market := m, users := s.users[user := u], positions := s.positions[NextKey(s, user) := p])
  }

  lemma {:induction false} OpenConsistent(s: State, m: Market, user: Pubkey, u: UserAccount, p: Position)
    requires Consistent(s) && user in s.users
    requires p.status == Open && p.owner == user && p.positionIdx == s.users[user].nextPositionIdx
    requires u.nextPositionIdx == s.users[user].nextPositionIdx + 1
    requires u.lockedAmount == s.users[user].lockedAmount + p.collateralLocked
    requires m.totalLongSize == s.market.totalLongSize + Lots(Long)(p)
    requires m.totalShortSize == s.market.totalShortSize + Lots(Short)(p)
    requires FundingMirrored(m)
    ensures Consistent(Opened(s, m, user, u, p))
  {
    var s', key := Opened(s, m, user, u, p), NextKey(s, user);
    NextAddressFree(s, user);
    forall owner | owner in s'.users
      ensures s'.users[owner].lockedAmount == Sum(s'.positions, Collateral(owner))
    {
      SumUpdate(s.positions, Collateral(owner), key, p);
    }
    SumUpdate(s.positions, Lots(Long), key, p);
    SumUpdate(s.positions, Lots(Short), key, p);
  }

  lemma {:induction false} ClaimConsistent(s: State, fill: Fill, taker: Reveal, maker: Reveal, now: I64)
    requires Consistent(s) && ClaimStep(s, fill, taker, maker, now).Ok?
    ensures Consistent(ClaimStep(s, fill, taker, maker, now).value)
  {
    hide ComputeCollateral, ClaimCheck, Consistent;
    var s' := ClaimStep(s, fill, taker, maker, now).value;
    var long, short := s'.positions[NextKey(s, taker.user)], s'.positions[NextKey(s, maker.user)];
    var m := s.market.(totalLongSize := s'.market.totalLongSize);
    var mid := Opened(s, m, taker.user, s'.users[taker.user], long);
    MirroredIn(s);
    OpenConsistent(s, m, taker.user, s'.users[taker.user], long);
    OpenConsistent(mid, s'.market, maker.user, s'.users[maker.user], short);
    assert s' == Opened(mid, s'.market, maker.user, s'.users[maker.user], short);
  }

  lemma {:induction false} MirroredIn(s: State)
    requires Consistent(s)
    ensures FundingMirrored(s.market)
  {
  }

  lemma {:induction false} StepKeepsConsistent(s: State, step: Step)
    requires Consistent(s)
    ensures Consistent(Next(s, step))
  {
    hide Consistent;
    if Perform(s, step).Ok? {
      match step
      case SetPaused(_) => OnlyMarket(s, Next(s, step));
      case InitializeUser(owner) => NewUser(s, owner);
      case Deposit(owner, amount, wallet) => DepositConsistent(s, owner, amount, wallet);
      case Withdraw(owner, amount) => WithdrawConsistent(s, owner, amount);
      case Claim(fill, taker, maker, now) => ClaimConsistent(s, fill, taker, maker, now);
      case UpdateFunding(now) => OnlyMarket(s, Next(s, step));
      case Accrue(key) => AccrueConsistent(s, key);
      case Liquidate(key, liquidator, mark) => LiquidateConsistent(s, key, liquidator, mark);
      case Close(key, caller, mark) => CloseConsistent(s, key, caller, mark);
      case CloseAndWithdraw(key, caller, mark, payout) =>
        CloseConsistent(s, key, caller, mark);
        if payout > 0 {
          WithdrawConsistent(CloseStep(s, key, caller, mark).value, caller, payout);
        }
    }
  }

  lemma {:induction false} OnlyMarket(s: State, s': State)
    requires Consistent(s) && s'.users == s.users && s'.positions == s.positions
    requires s'.market.totalLongSize == s.market.totalLongSize && s'.market.totalShortSize == s.market.totalShortSize
    requires s'.market.cumFundingLong + s'.market.cumFundingShort == s.market.cumFundingLong + s.market.cumFundingShort
    ensures Consistent(s')
  {
  }

  lemma {:induction false} NewUser(s: State, owner: Pubkey)
    requires Consistent(s) && owner !in s.users
    ensures Consistent(s.(users := s.users[owner := UserAccount(0, 0, 0, 0)]))
  {
    forall key | key in s.positions ensures Collateral(owner)(s.positions[key]) == 0 {
      assert s.positions[key].owner == key.0 && key.0 in s.users;
    }
    SumZero(s.positions, Collateral(owner));
  }

  lemma {:induction false} DepositConsistent(s: State, owner: Pubkey, amount: U64, wallet: U64)
    requires Consistent(s) && DepositStep(s, owner, amount, wallet).Ok?
    ensures Consistent(DepositStep(s, owner, amount, wallet).value)
  {
  }

  /** The ledger is consistent after every run. */
  lemma {:induction false} RunStaysConsistent(s: State, steps: seq<Step>)
    requires Consistent(s)
    ensures Consistent(Run(s, steps))
    decreases |steps|
  {
    if steps != [] {
      StepKeepsConsistent(s, steps[0]);
      RunStaysConsistent(Next(s, steps[0]), steps[1..]);
    }
  }

  /** So ending an open position never underflows its side's open interest or its owner's
      locked balance, and the address of the next position is always free. */
  lemma {:induction false} NoUnderflow(s: State, key: PosKey)
    requires Consistent(s) && key in s.positions && s.positions[key].status == Open
    ensures Loaded(s, key)
    ensures s.positions[key].collateralLocked <= s.users[s.positions[key].owner].lockedAmount
    ensures ReduceInterest(s.market, s.positions[key]).Ok?
  {
    var p := s.positions[key];
    SumCovers(s.positions, Collateral(p.owner), key);
    SumCovers(s.positions, Lots(p.side), key);
  }

  lemma {:induction false} NextAddressFree(s: State, user: Pubkey)
    requires Consistent(s) && user in s.users
    ensures NextKey(s, user) !in s.positions
  {
  }
}
