/** Who can always be paid: `locked <= deposited`, withdrawals, and closes. */
module Solvency {
  import opened Types
  import opened Accounts
  import opened Ledger
  import opened Sums
  import opened Conservation
  import opened Consistency
  import Funding

  predicate Solvent(u: UserAccount) {
    u.lockedAmount <= u.depositedAmount
  }

  /** A close whose loss exceeds the position's collateral plus the owner's unlocked balance. */
  predicate Overdraws(s: State, step: Step) {
    match step
    case Close(key, _, mark) => key in s.positions && LosesMore(s, key, mark)
    case CloseAndWithdraw(key, _, mark, _) => key in s.positions && LosesMore(s, key, mark)
    case _ => false
  }

  predicate LosesMore(s: State, key: PosKey, mark: U64)
    requires key in s.positions
  {
    var p := s.positions[key];
    p.owner in s.users && -Pnl(p, mark) > p.collateralLocked + s.users[p.owner].Unlocked()
  }

  /** The users an instruction can touch. */
  predicate Concerns(s: State, step: Step, owner: Pubkey) {
    match step
    case Close(key, _, _) => key in s.positions && s.positions[key].owner == owner
    case CloseAndWithdraw(key, _, _, _) => key in s.positions && s.positions[key].owner == owner
    case _ => false
  }

  lemma {:induction false} CloseSolvency(s: State, key: PosKey, caller: Pubkey, mark: U64)
    requires CloseStep(s, key, caller, mark).Ok? && Solvent(s.users[caller])
    ensures Solvent(CloseStep(s, key, caller, mark).value.users[caller]) <==> !LosesMore(s, key, mark)
  {
    hide ComputePnl, Pnl;
    PnlExact(s.positions[key], mark);
  }

  lemma {:induction false} LiquidateSolvency(s: State, key: PosKey, liquidator: Pubkey, mark: U64)
    requires LiquidateStep(s, key, liquidator, mark).Ok? && Solvent(s.users[s.positions[key].owner])
    ensures Solvent(LiquidateStep(s, key, liquidator, mark).value.users[s.positions[key].owner])
  {
    LiquidationSparesRest(s, key, liquidator, mark);
  }

  /** A liquidation never takes more from the owner than the position's own collateral: what the
      deposit holds beyond the locked balance does not shrink. */
  lemma {:induction false} LiquidationSparesRest(s: State, key: PosKey, liquidator: Pubkey, mark: U64)
    requires LiquidateStep(s, key, liquidator, mark).Ok?
    ensures
      var u, u' := s.users[s.positions[key].owner], LiquidateStep(s, key, liquidator, mark).value.users[s.positions[key].owner];
      u'.depositedAmount - u'.lockedAmount >= u.depositedAmount - u.lockedAmount
  {
    hide AccrueFundingInternal, Judge;
    var t := Accrued(TrioAt(s, key)).value;
    AccruedBalance(TrioAt(s, key));
  }

  /** A solvent user stays solvent through every instruction except exactly an overdrawing close. */
  lemma {:induction false} StepKeepsSolvent(s: State, step: Step, owner: Pubkey)
    requires Perform(s, step).Ok? && owner in s.users && Solvent(s.users[owner])
    ensures owner in Next(s, step).users
    ensures Solvent(Next(s, step).users[owner]) <==> !(Concerns(s, step, owner) && Overdraws(s, step))
  {
    hide ComputePnl, Pnl, ComputeCollateral, UpdatedFunding, AccrueFundingInternal, Judge;
    match step
    case Liquidate(key, liquidator, mark) =>
      if s.positions[key].owner == owner {
        LiquidateSolvency(s, key, liquidator, mark);
      }
    case Close(key, caller, mark) =>
      if caller == owner {
        CloseSolvency(s, key, caller, mark);
      }
    case CloseAndWithdraw(key, caller, mark, payout) =>
      if caller == owner {
        CloseSolvency(s, key, caller, mark);
      }
    case Claim(fill, taker, maker, now) =>
    case _ =>
  }

  ghost predicate AllSolvent(s: State) {
    forall owner | owner in s.users :: Solvent(s.users[owner])
  }

  predicate NeverOverdrawn(s: State, steps: seq<Step>)
    decreases |steps|
  {
    steps == [] ||
    ((Perform(s, steps[0]).Ok? ==> !Overdraws(s, steps[0])) && NeverOverdrawn(Next(s, steps[0]), steps[1..]))
  }

  lemma {:induction false} NewUsersSolvent(s: State, step: Step, owner: Pubkey)
    requires owner in Next(s, step).users && owner !in s.users
    ensures Solvent(Next(s, step).users[owner])
  {
    hide ComputePnl, ComputeCollateral, UpdatedFunding, AccrueFundingInternal, Judge;
  }

  /** Every user of a run without overdrawing closes is solvent at its end. */
  lemma {:induction false} RunStaysSolvent(s: State, steps: seq<Step>)
    requires AllSolvent(s) && NeverOverdrawn(s, steps)
    ensures AllSolvent(Run(s, steps))
    decreases |steps|
  {
    if steps != [] {
      var s1 := Next(s, steps[0]);
      forall owner | owner in s1.users ensures Solvent(s1.users[owner]) {
        if owner !in s.users {
          NewUsersSolvent(s, steps[0], owner);
        } else if Perform(s, steps[0]).Ok? {
          StepKeepsSolvent(s, steps[0], owner);
        }
      }
      RunStaysSolvent(s1, steps[1..]);
    }
  }

  // ----- what the vault covers

  /** In a backed state the vault covers every deposit and the loss pool together. */
  lemma {:induction false} VaultCovers(s: State, owner: Pubkey)
    requires Backed(s) && owner in s.users
    ensures s.users[owner].depositedAmount + s.market.realizedLossPool <= s.vault
  {
    SumCovers(s.users, Deposited, owner);
  }

  /** The vault holds at least what users have deposited: the pool absorbs the shortfall. */
  ghost predicate DepositsCovered(s: State) {
    Gap(s) <= s.market.realizedLossPool
  }

  lemma {:induction false} DepositCovered(s: State, owner: Pubkey)
    requires DepositsCovered(s) && owner in s.users
    ensures s.users[owner].depositedAmount <= s.vault
  {
    SumCovers(s.users, Deposited, owner);
  }

  /** A withdrawal is paid exactly if the market is not paused and the amount is what the deposit holds
      beyond the locked balance, or less, and in the vault; while deposits are covered the vault
      always holds it. It leaves the vault and the deposit. */
  lemma {:induction false} WithdrawPaid(s: State, owner: Pubkey, amount: U64)
    ensures WithdrawStep(s, owner, amount).Ok? <==>
      && owner in s.users && !s.market.paused
      && (amount == 0 || amount <= s.users[owner].depositedAmount - s.users[owner].lockedAmount) && amount <= s.vault
    ensures WithdrawStep(s, owner, amount).Err? ==>
      WithdrawStep(s, owner, amount).error ==
      if owner !in s.users then AccountMissing
      else if s.market.paused then MarketPaused
      else if amount > 0 && amount > s.users[owner].depositedAmount - s.users[owner].lockedAmount then WithdrawTooLarge
      else TransferFailed
    ensures DepositsCovered(s) && owner in s.users ==> s.users[owner].depositedAmount <= s.vault
    ensures WithdrawStep(s, owner, amount).Ok? ==>
      var s' := WithdrawStep(s, owner, amount).value;
      && s.vault - s'.vault == amount == s.users[owner].depositedAmount - s'.users[owner].depositedAmount
      && s'.users[owner].lockedAmount == s.users[owner].lockedAmount
      && (DepositsCovered(s') <==> DepositsCovered(s))
  {
    if DepositsCovered(s) && owner in s.users {
      DepositCovered(s, owner);
    }
    if WithdrawStep(s, owner, amount).Ok? {
      WithdrawGap(s, owner, amount);
    }
  }

  /** A deposit is accepted up to what the wallet, the vault and the owner's balance can hold; while
      deposits are covered the balance always can. */
  lemma {:induction false} DepositExact(s: State, owner: Pubkey, amount: U64, wallet: U64)
    ensures DepositStep(s, owner, amount, wallet).Ok? <==>
      && owner in s.users && !s.market.paused && 0 < amount <= wallet && s.vault + amount as int <= U64_MAX
      && s.users[owner].depositedAmount + amount as int <= U64_MAX
    ensures DepositStep(s, owner, amount, wallet).Err? ==>
      DepositStep(s, owner, amount, wallet).error ==
      if owner !in s.users then AccountMissing
      else if s.market.paused then MarketPaused
      else if amount == 0 then InsufficientCollateral
      else if amount > wallet || s.vault + amount as int > U64_MAX then TransferFailed
      else Overflow
    ensures DepositsCovered(s) && owner in s.users ==> s.users[owner].depositedAmount <= s.vault
    ensures DepositStep(s, owner, amount, wallet).Ok? ==>
      var s' := DepositStep(s, owner, amount, wallet).value;
      && s'.vault - s.vault == amount == s'.users[owner].depositedAmount - s.users[owner].depositedAmount
      && (DepositsCovered(s') <==> DepositsCovered(s))
  {
    if DepositsCovered(s) && owner in s.users {
      DepositCovered(s, owner);
    }
    DepositGap(s, owner, amount, wallet);
  }

  /** What a position owes in funding (is owed, if negative) at the market's present index. */
  function Due(m: Market, p: Position): int {
    Funding.Payment(Funding.Notional(p), p.lastFundingIndex, CumFunding(m, p.side))
  }

  /** A debit is within the collateral and the owner's deposit, a credit within the pool, all as
      64-bit amounts, and the amounts paid into have room. */
  predicate Chargeable(m: Market, u: UserAccount, p: Position) {
    var due, pool := Due(m, p), m.realizedLossPool;
    && Funding.Notional(p) <= U64_MAX && I64_MIN < due <= I64_MAX
    && due <= p.collateralLocked && due <= u.depositedAmount && pool + due <= U64_MAX
    && -due <= pool && u.lockedAmount - due <= U64_MAX && u.depositedAmount - due <= U64_MAX
  }

  /** Funding can be applied to an open position exactly when it is chargeable. The locked
      balance is never in the way. */
  lemma {:induction false} ChargeExact(s: State, key: PosKey)
    requires Consistent(s) && Loaded(s, key) && s.positions[key].status == Open
    ensures
      var p, u := s.positions[key], s.users[s.positions[key].owner];
      && (Accrued(TrioAt(s, key)).Ok? <==> Chargeable(s.market, u, p))
      && (Accrued(TrioAt(s, key)).Ok? ==>
            var t, due := Accrued(TrioAt(s, key)).value, Due(s.market, p);
            && t.user.depositedAmount == u.depositedAmount - due && t.user.lockedAmount == u.lockedAmount - due
            && t.position.collateralLocked == p.collateralLocked - due
            && t.market.realizedLossPool == s.market.realizedLossPool + due
            && t.user.realizedPnl == u.realizedPnl && (forall mark: U64 :: Pnl(t.position, mark) == Pnl(p, mark)))
  {
    hide Funding.Payment, Funding.Notional, AccrueFundingInternal, Consistent;
    Funding.AccrualExact(s.positions[key], s.market);
    NoUnderflow(s, key);
  }

  lemma {:induction false} AccrueExact(s: State, key: PosKey)
    requires Consistent(s)
    ensures AccrueStep(s, key).Ok? <==>
      && Loaded(s, key) && s.positions[key].status == Open
      && Chargeable(s.market, s.users[s.positions[key].owner], s.positions[key])
    ensures !Loaded(s, key) ==> AccrueStep(s, key) == Err(AccountMissing)
    ensures Loaded(s, key) && s.positions[key].status != Open ==> AccrueStep(s, key) == Err(PositionNotOpen)
  {
    hide Accrued, Chargeable, Consistent;
    if Loaded(s, key) && s.positions[key].status == Open {
      ChargeExact(s, key);
    }
  }

  /** So in a backed state a solvent owner's position accrues exactly when a debit is within its
      collateral and a credit within the pool, as 64-bit amounts. */
  lemma {:induction false} SolventAccrual(s: State, key: PosKey)
    requires Consistent(s) && Backed(s) && key in s.positions && s.positions[key].status == Open
    requires s.positions[key].owner in s.users && Solvent(s.users[s.positions[key].owner])
    ensures
      var p, due := s.positions[key], Due(s.market, s.positions[key]);
      AccrueStep(s, key).Ok? <==>
        && Funding.Notional(p) <= U64_MAX && I64_MIN < due <= I64_MAX
        && due <= p.collateralLocked && -due <= s.market.realizedLossPool
  {
    hide Due, Funding.Notional, AccrueStep;
    AccrueExact(s, key);
    NoUnderflow(s, key);
    VaultCovers(s, s.positions[key].owner);
  }

  /** A list of withdrawals, each within the unlocked balance left by those before it. */
  predicate WithinUnlocked(s: State, requests: seq<(Pubkey, U64)>)
    decreases |requests|
  {
    requests == [] ||
    (&& requests[0].0 in s.users && requests[0].1 <= s.users[requests[0].0].Unlocked()
     && WithinUnlocked(Next(s, Withdraw(requests[0].0, requests[0].1)), requests[1..]))
  }

  predicate AllPaid(s: State, requests: seq<(Pubkey, U64)>)
    decreases |requests|
  {
    requests == [] ||
    (&& WithdrawStep(s, requests[0].0, requests[0].1).Ok?
     && AllPaid(Next(s, Withdraw(requests[0].0, requests[0].1)), requests[1..]))
  }

  function Requested(requests: seq<(Pubkey, U64)>): nat {
    if requests == [] then 0 else requests[0].1 + Requested(requests[1..])
  }

  /** A list of withdrawals within the unlocked balances is paid in full, in any order the users
      choose, exactly when the vault holds the total; while deposits are covered it always is. */
  lemma {:induction false} WithdrawalsPaid(s: State, requests: seq<(Pubkey, U64)>)
    requires !s.market.paused && WithinUnlocked(s, requests)
    ensures AllPaid(s, requests) <==> Requested(requests) <= s.vault
    ensures DepositsCovered(s) ==> AllPaid(s, requests)
    decreases |requests|
  {
    if requests != [] {
      var owner, amount, rest := requests[0].0, requests[0].1, requests[1..];
      var s1 := Next(s, Withdraw(owner, amount));
      if DepositsCovered(s) {
        WithdrawPaid(s, owner, amount);
      }
      if WithdrawStep(s, owner, amount).Ok? {
        WithdrawalsPaid(s1, rest);
      }
    }
  }

  /** What a close settles: the same profit or loss on the deposit, the profit counter and, with
      the opposite sign, the pool; the collateral is released and the position is over. */
  lemma {:induction false} CloseSettles(s: State, key: PosKey, caller: Pubkey, mark: U64)
    requires CloseStep(s, key, caller, mark).Ok?
    ensures
      var s', pnl := CloseStep(s, key, caller, mark).value, Pnl(s.positions[key], mark);
      var u, u' := s.users[caller], s'.users[caller];
      && u'.depositedAmount - u.depositedAmount == pnl == u'.realizedPnl - u.realizedPnl
      && s'.market.realizedLossPool - s.market.realizedLossPool == -pnl
      && u.lockedAmount - u'.lockedAmount == s.positions[key].collateralLocked
      && s'.positions[key].status == Closed && s'.positions[key].collateralLocked == 0
      && s'.vault == s.vault && u'.nextPositionIdx == u.nextPositionIdx
  {
    hide Pnl, ComputePnl;
    PnlExact(s.positions[key], mark);
  }

  /** The users whose account an instruction may change. */
  function Touched(s: State, step: Step): set<Pubkey> {
    match step
    case SetPaused(_) => {}
    case UpdateFunding(_) => {}
    case InitializeUser(owner) => {owner}
    case Deposit(owner, _, _) => {owner}
    case Withdraw(owner, _) => {owner}
    case Claim(fill, _, _, _) => {fill.taker, fill.maker}
    case Accrue(key) => if key in s.positions then {s.positions[key].owner} else {}
    case Liquidate(key, _, _) => if key in s.positions then {s.positions[key].owner} else {}
    case Close(_, caller, _) => {caller}
    case CloseAndWithdraw(_, caller, _, _) => {caller}
  }

  /** Everyone else's account is as before; while the market is paused no money leaves the vault
      or enters it and no position is opened or ended. */
  lemma {:induction false} OthersUntouched(s: State, step: Step, other: Pubkey)
    requires other !in Touched(s, step)
    ensures other in s.users <==> other in Next(s, step).users
    ensures other in s.users ==> Next(s, step).users[other] == s.users[other]
    ensures s.market.paused && Perform(s, step).Ok? ==>
      && Next(s, step).vault == s.vault && Next(s, step).positions.Keys == s.positions.Keys
      && (step.SetPaused? || step.InitializeUser? || step.UpdateFunding? || step.Accrue?)
  {
    hide ComputePnl, ComputeCollateral, UpdatedFunding, AccrueFundingInternal, Judge;
  }

  /** A profit is in the pool, a loss within the owner's whole deposit, and the amounts paid into have
      room. */
  predicate Payable(u: UserAccount, pool: U64, pnl: int) {
    && I64_MIN < pnl <= I64_MAX
    && pnl <= pool && u.depositedAmount + pnl <= U64_MAX
    && -pnl <= u.depositedAmount && pool - pnl <= U64_MAX
    && I64_MIN <= u.realizedPnl + pnl <= I64_MAX
  }

  /** When a close goes through: the owner closes an open position while the market is not paused,
      and the profit or loss is payable. Locked balance and open interest are never in the way. */
  lemma {:induction false} CloseExact(s: State, key: PosKey, caller: Pubkey, mark: U64)
    requires Consistent(s)
    ensures CloseStep(s, key, caller, mark).Ok? <==>
      && key in s.positions && caller in s.users && !s.market.paused
      && s.positions[key].status == Open && s.positions[key].owner == caller
      && Payable(s.users[caller], s.market.realizedLossPool, Pnl(s.positions[key], mark))
  {
    if key in s.positions && s.positions[key].status == Open {
      NoUnderflow(s, key);
      PnlExact(s.positions[key], mark);
    }
    hide ComputePnl, Pnl, ReduceInterest, Consistent;
  }

  /** And why it does not. */
  lemma {:induction false} CloseRefused(s: State, key: PosKey, caller: Pubkey, mark: U64)
    requires Consistent(s) && CloseStep(s, key, caller, mark).Err?
    ensures CloseStep(s, key, caller, mark).error ==
      if key !in s.positions || caller !in s.users then AccountMissing
      else if s.market.paused then MarketPaused
      else if s.positions[key].status != Open then PositionNotOpen
      else if s.positions[key].owner != caller then Unauthorized
      else
        var pnl := Pnl(s.positions[key], mark);
        if I64_MIN <= pnl <= I64_MAX && pnl > s.market.realizedLossPool then InsufficientCollateral
        else if pnl == I64_MIN then ArithmeticPanic
        else Overflow
  {
    if key in s.positions && s.positions[key].status == Open {
      NoUnderflow(s, key);
      PnlExact(s.positions[key], mark);
    }
    hide ComputePnl, Pnl, ReduceInterest, Consistent;
  }

  /** In a backed state there is always room. */
  lemma {:induction false} BackedClose(s: State, key: PosKey, caller: Pubkey, mark: U64)
    requires Consistent(s) && Backed(s)
    requires key in s.positions && s.positions[key].status == Open && s.positions[key].owner == caller
    requires !s.market.paused && caller in s.users
    ensures CloseStep(s, key, caller, mark).Ok? <==>
      && I64_MIN < Pnl(s.positions[key], mark) <= I64_MAX
      && Pnl(s.positions[key], mark) <= s.market.realizedLossPool
      && -Pnl(s.positions[key], mark) <= s.users[caller].depositedAmount
      && I64_MIN <= s.users[caller].realizedPnl + Pnl(s.positions[key], mark) <= I64_MAX
  {
    hide CloseStep, Pnl;
    CloseExact(s, key, caller, mark);
    VaultCovers(s, caller);
  }

  /** A close with a payout pays it: it goes through exactly if the close does and the payout, unless
      it is zero, is within what the deposit then holds beyond the locked balance, and in the
      vault; and the payout leaves the vault and the deposit. */
  lemma {:induction false} CloseAndWithdrawExact(s: State, key: PosKey, caller: Pubkey, mark: U64, payout: U64)
    requires Consistent(s)
    ensures CloseAndWithdrawStep(s, key, caller, mark, payout).Ok? <==>
      && key in s.positions && caller in s.users && !s.market.paused
      && s.positions[key].status == Open && s.positions[key].owner == caller
      && var p, u, pnl := s.positions[key], s.users[caller], Pnl(s.positions[key], mark);
      && Payable(u, s.market.realizedLossPool, pnl)
      && (payout > 0 ==>
            payout <= u.depositedAmount + pnl - (u.lockedAmount - p.collateralLocked) && payout <= s.vault)
    ensures CloseAndWithdrawStep(s, key, caller, mark, payout).Ok? ==>
      var s', p, pnl := CloseAndWithdrawStep(s, key, caller, mark, payout).value, s.positions[key], Pnl(s.positions[key], mark);
      var u, u' := s.users[caller], s'.users[caller];
      && s.vault - s'.vault == payout
      && u'.depositedAmount - u.depositedAmount == pnl - payout && u'.realizedPnl - u.realizedPnl == pnl
      && u.lockedAmount - u'.lockedAmount == p.collateralLocked
      && s'.market.realizedLossPool - s.market.realizedLossPool == -pnl
      && s'.positions[key].status == Closed && s'.positions[key].collateralLocked == 0
    ensures CloseAndWithdrawStep(s, key, caller, mark, payout).Err? && CloseStep(s, key, caller, mark).Ok? ==>
      CloseAndWithdrawStep(s, key, caller, mark, payout).error ==
        var p, u, pnl := s.positions[key], s.users[caller], Pnl(s.positions[key], mark);
        if payout > u.depositedAmount + pnl - (u.lockedAmount - p.collateralLocked) then WithdrawTooLarge else TransferFailed
  {
    CloseExact(s, key, caller, mark);
    if CloseStep(s, key, caller, mark).Ok? {
      var s1 := CloseStep(s, key, caller, mark).value;
      CloseSettles(s, key, caller, mark);
      CloseKeepsPaused(s, key, caller, mark);
      WithdrawPaid(s1, caller, payout);
      if WithdrawStep(s1, caller, payout).Ok? {
        WithdrawKeeps(s1, caller, payout);
      }
    }
    hide CloseStep, WithdrawStep, Payable, Pnl, Consistent;
  }

  lemma {:induction false} CloseKeepsPaused(s: State, key: PosKey, caller: Pubkey, mark: U64)
    requires CloseStep(s, key, caller, mark).Ok?
    ensures
      var s' := CloseStep(s, key, caller, mark).value;
      s'.market.paused == s.market.paused && s'.vault == s.vault && caller in s'.users && key in s'.positions
  {
    hide ComputePnl;
  }

  lemma {:induction false} WithdrawKeeps(s: State, owner: Pubkey, amount: U64)
    requires WithdrawStep(s, owner, amount).Ok?
    ensures
      var s' := WithdrawStep(s, owner, amount).value;
      && s'.market == s.market && s'.positions == s.positions
      && s'.users[owner].realizedPnl == s.users[owner].realizedPnl
  {
  }

  /** Two positions of one size and entry price on opposite sides: one gains what the other loses. */
  lemma {:induction false} PairZeroSum(long: Position, short: Position, mark: U64)
    requires long.side == Long && short.side == Short
    requires long.sizeLots == short.sizeLots && long.entryPriceTicks == short.entryPriceTicks
    ensures Pnl(long, mark) + Pnl(short, mark) == 0
  {
    assert PriceDiff(long, mark) == -PriceDiff(short, mark);
  }

  /** Of two opposite positions, closed at one mark one after the other, the second is refused only
      for lack of room for its profit, and leaves the pool where it was before the first. */
  lemma {:induction false} OppositeClosed(s: State, loser: PosKey, winner: PosKey, mark: U64)
    requires Consistent(s) && loser in s.positions && winner in s.positions
    requires s.positions[loser].owner != s.positions[winner].owner
    requires s.positions[winner].status == Open
    requires Pnl(s.positions[loser], mark) + Pnl(s.positions[winner], mark) == 0 <= Pnl(s.positions[winner], mark)
    requires CloseStep(s, loser, s.positions[loser].owner, mark).Ok?
    ensures SecondPaid(s, loser, winner, mark)
    ensures Backed(s) ==> s.users[s.positions[winner].owner].depositedAmount + Pnl(s.positions[winner], mark) <= U64_MAX
  {
    hide Pnl, ComputePnl, CloseStep, Consistent, Gap;
    var caller, owner := s.positions[loser].owner, s.positions[winner].owner;
    var s1 := CloseStep(s, loser, caller, mark).value;
    NoUnderflow(s, winner);
    CloseConsistent(s, loser, caller, mark);
    CloseSettles(s, loser, caller, mark);
    CloseFrame(s, loser, caller, mark, winner, owner);
    CloseExact(s1, winner, owner, mark);
    if CloseStep(s1, winner, owner, mark).Ok? {
      CloseSettles(s1, winner, owner, mark);
    }
    if Backed(s) {
      CloseGap(s, loser, caller, mark);
      VaultCovers(s1, owner);
    }
  }

  /** A close leaves the other positions and users alone. */
  lemma {:induction false} CloseFrame(s: State, key: PosKey, caller: Pubkey, mark: U64, other: PosKey, owner: Pubkey)
    requires CloseStep(s, key, caller, mark).Ok? && other != key && owner != caller
    requires other in s.positions && owner in s.users
    ensures
      var s' := CloseStep(s, key, caller, mark).value;
      && key in s.positions && s.positions[key].owner == caller
      && I64_MIN < Pnl(s.positions[key], mark) <= I64_MAX
      && !s.market.paused && !s'.market.paused
      && other in s'.positions && s'.positions[other] == s.positions[other]
      && owner in s'.users && s'.users[owner] == s.users[owner]
  {
    PnlExact(s.positions[key], mark);
    hide Pnl, ComputePnl;
  }

  /** With `loser` closed at `mark`, the close of `winner` there succeeds exactly if the profit fits
      the owner's deposit and profit counter, and brings the pool back to its present value. */
  predicate SecondPaid(s: State, loser: PosKey, winner: PosKey, mark: U64)
    requires loser in s.positions && winner in s.positions && s.positions[winner].owner in s.users
    requires CloseStep(s, loser, s.positions[loser].owner, mark).Ok?
  {
    var s1, owner := CloseStep(s, loser, s.positions[loser].owner, mark).value, s.positions[winner].owner;
    var profit, u := Pnl(s.positions[winner], mark), s.users[owner];
    && (CloseStep(s1, winner, owner, mark).Ok? <==>
          u.realizedPnl + profit <= I64_MAX && u.depositedAmount + profit <= U64_MAX)
    && (CloseStep(s1, winner, owner, mark).Ok? ==>
          && CloseStep(s1, winner, owner, mark).value.market.realizedLossPool == s.market.realizedLossPool
          && CloseStep(s1, winner, owner, mark).value.users[owner].depositedAmount == u.depositedAmount + profit)
  }

  /** The pair of positions that a claim opened, after any run that has left both open: which half
      loses at a mark, and which gains as much. */
  lemma {:induction false} PairOverRun(s: State, fill: Fill, taker: Reveal, maker: Reveal, now: I64, steps: seq<Step>, mark: U64)
    requires Consistent(s) && ClaimStep(s, fill, taker, maker, now).Ok?
    requires Funding.IsOpen(AfterClaim(s, fill, taker, maker, now, steps), NextKey(s, fill.taker))
    requires Funding.IsOpen(AfterClaim(s, fill, taker, maker, now, steps), NextKey(s, fill.maker))
    ensures
      var end := AfterClaim(s, fill, taker, maker, now, steps);
      var long, short := end.positions[NextKey(s, fill.taker)], end.positions[NextKey(s, fill.maker)];
      && Consistent(end) && long.owner == fill.taker != fill.maker == short.owner
      && Pnl(long, mark) + Pnl(short, mark) == 0
  {
    var start, end := ClaimStep(s, fill, taker, maker, now).value, AfterClaim(s, fill, taker, maker, now, steps);
    var longKey, shortKey := NextKey(s, fill.taker), NextKey(s, fill.maker);
    ClaimConsistent(s, fill, taker, maker, now);
    RunStaysConsistent(start, steps);
    Funding.ClaimOpensMirrored(s, fill, taker, maker, now);
    Funding.FundingOverRun(start, steps, longKey);
    Funding.FundingOverRun(start, steps, shortKey);
    hide Pnl, Run, Consistent, Funding.Payment;
    PairZeroSum(end.positions[longKey], end.positions[shortKey], mark);
  }

  function AfterClaim(s: State, fill: Fill, taker: Reveal, maker: Reveal, now: I64, steps: seq<Step>): State
    requires ClaimStep(s, fill, taker, maker, now).Ok?
  {
    Run(ClaimStep(s, fill, taker, maker, now).value, steps)
  }

  /** Of a pair opened by one claim, and still open after any run, the half that gains at a mark is
      paid in full once the half that loses there has closed, as far as the owner's balance (always,
      in a backed state) and profit counter have room, and the pool is back where it was. */
  lemma {:induction false} WinnerPaid(s: State, fill: Fill, taker: Reveal, maker: Reveal, now: I64, steps: seq<Step>, mark: U64)
    requires Consistent(s) && ClaimStep(s, fill, taker, maker, now).Ok?
    requires Funding.IsOpen(AfterClaim(s, fill, taker, maker, now, steps), NextKey(s, fill.taker))
    requires Funding.IsOpen(AfterClaim(s, fill, taker, maker, now, steps), NextKey(s, fill.maker))
    ensures
      var end, long, short := AfterClaim(s, fill, taker, maker, now, steps), NextKey(s, fill.taker), NextKey(s, fill.maker);
      var loser, winner := if Pnl(end.positions[long], mark) <= 0 then long else short,
                           if Pnl(end.positions[long], mark) <= 0 then short else long;
      && Pnl(end.positions[winner], mark) >= 0 && end.positions[winner].owner in end.users
      && (CloseStep(end, loser, end.positions[loser].owner, mark).Ok? ==>
            && SecondPaid(end, loser, winner, mark)
            && (Backed(end) ==> end.users[end.positions[winner].owner].depositedAmount + Pnl(end.positions[winner], mark) <= U64_MAX))
  {
    PairOverRun(s, fill, taker, maker, now, steps, mark);
    hide Pnl, CloseStep, SecondPaid, ClaimStep, Backed;
    var end, long, short := AfterClaim(s, fill, taker, maker, now, steps), NextKey(s, fill.taker), NextKey(s, fill.maker);
    var loser, winner := if Pnl(end.positions[long], mark) <= 0 then long else short,
                         if Pnl(end.positions[long], mark) <= 0 then short else long;
    NoUnderflow(end, winner);
    if CloseStep(end, loser, end.positions[loser].owner, mark).Ok? {
      OppositeClosed(end, loser, winner, mark);
    }
  }
}
