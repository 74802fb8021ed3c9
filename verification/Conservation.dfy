/** Conservation of money: what the vault holds is what users have deposited plus the loss pool,
    up to the one kind of liquidation that pays a bounty nobody is charged for. */
module Conservation {
  import opened Types
  import opened Accounts
  import opened Ledger
  import opened Sums

  function Deposited(u: UserAccount): int {
    u.depositedAmount
  }

  /** Claims on the vault minus its balance. */
  ghost function Gap(s: State): int {
    Sum(s.users, Deposited) + s.market.realizedLossPool - s.vault
  }

  /** The bounty of a liquidation whose position has no collateral left once funding is settled
      and yet a profit: it leaves the vault without being charged to anyone. */
  function UnfundedBounty(s: State, step: Step): nat {
    match step
    case Liquidate(key, liquidator, mark) =>
      if Perform(s, step).Err? then 0
      else
        var t := Accrued(TrioAt(s, key)).value;
        var v := Judge(t.position, mark).value;
        if t.position.collateralLocked == 0 then v.bounty else 0
    case _ => 0
  }

  /** Three records changed together move the gap by the change of deposit and pool. */
  lemma {:induction false} StoreGap(s: State, key: PosKey, t: Trio)
    requires Loaded(s, key)
    ensures Gap(Store(s, key, t)) == Gap(s)
      + (t.user.depositedAmount - s.users[s.positions[key].owner].depositedAmount)
      + (t.market.realizedLossPool - s.market.realizedLossPool)
  {
    SumUpdate(s.users, Deposited, s.positions[key].owner, t.user);
  }

  lemma {:induction false} DepositGap(s: State, owner: Pubkey, amount: U64, wallet: U64)
    ensures Gap(Next(s, Deposit(owner, amount, wallet))) == Gap(s)
  {
    if DepositStep(s, owner, amount, wallet).Ok? {
      var u := s.users[owner];
      SumUpdate(s.users, Deposited, owner, u.(depositedAmount := u.depositedAmount + amount));
    }
  }

  lemma {:induction false} WithdrawGap(s: State, owner: Pubkey, amount: U64)
    requires WithdrawStep(s, owner, amount).Ok?
    ensures Gap(WithdrawStep(s, owner, amount).value) == Gap(s)
  {
    var u := s.users[owner];
    SumUpdate(s.users, Deposited, owner, u.(depositedAmount := u.depositedAmount - amount));
  }

  lemma {:induction false} ClaimGap(s: State, fill: Fill, taker: Reveal, maker: Reveal, now: I64)
    requires ClaimStep(s, fill, taker, maker, now).Ok?
    ensures Gap(ClaimStep(s, fill, taker, maker, now).value) == Gap(s)
  {
    var s' := ClaimStep(s, fill, taker, maker, now).value;
    var t, m := s'.users[taker.user], s'.users[maker.user];
    SumUpdate(s.users, Deposited, taker.user, t);
    SumUpdate(s.users[taker.user := t], Deposited, maker.user, m);
  }

  /** Funding moves money between the owner's deposit and the pool only. */
  lemma {:induction false} AccruedBalance(t: Trio)
    requires Accrued(t).Ok?
    ensures
      var t', delta := Accrued(t).value, AccrueFundingInternal(t.position, t.market).value;
      && t'.user.depositedAmount == t.user.depositedAmount - delta
      && t'.user.lockedAmount == t.user.lockedAmount - delta
      && t'.position.collateralLocked == t.position.collateralLocked - delta
      && t'.market.realizedLossPool == t.market.realizedLossPool + delta
  {
  }

  /** A judged position with collateral has lost more than a fifth of it, and what is left of
      the collateral after the loss is what the verdict shares out. */
  lemma {:induction false} JudgedLoss(p: Position, mark: U64)
    requires Judge(p, mark).Ok? && p.collateralLocked > 0
    ensures
      var v, c := Judge(p, mark).value, p.collateralLocked;
      && v.pnl < 0 && c < 5 * -v.pnl
      && v.remaining == (if -v.pnl >= c then 0 else c + v.pnl)
      && v.bounty <= v.remaining && 25 * v.bounty <= c
      && RealizedLossFromPnl(c, v.pnl) == Ok(c - v.remaining)
  {
    hide ComputePnl;
    var v, c := Judge(p, mark).value, p.collateralLocked;
    RatioBelow(v.remaining, c);
  }

  /** The threshold test on the rounded ratio, without the rounding. */
  lemma {:induction false} RatioBelow(remaining: nat, c: nat)
    requires c > 0
    ensures remaining * 10_000 / c < LIQUIDATION_THRESHOLD_BPS <==> 5 * remaining < 4 * c
  {
    QuotientBelow(remaining * 10_000, c, LIQUIDATION_THRESHOLD_BPS);
  }

  lemma {:induction false} LiquidateGap(s: State, key: PosKey, liquidator: Pubkey, mark: U64)
    requires LiquidateStep(s, key, liquidator, mark).Ok?
    ensures Gap(LiquidateStep(s, key, liquidator, mark).value)
         == Gap(s) + UnfundedBounty(s, Liquidate(key, liquidator, mark))
  {
    var t := Accrued(TrioAt(s, key)).value;
    var v := Judge(t.position, mark).value;
    var t' := AfterLiquidation(t, v).value;
    AccruedBalance(TrioAt(s, key));
    StoreGap(s, key, t');
    if t.position.collateralLocked > 0 {
      JudgedLoss(t.position, mark);
    }
  }

  lemma {:induction false} CloseGap(s: State, key: PosKey, caller: Pubkey, mark: U64)
    requires CloseStep(s, key, caller, mark).Ok?
    ensures Gap(CloseStep(s, key, caller, mark).value) == Gap(s)
  {
    StoreGap(s, key, AfterClose(TrioAt(s, key), mark).value);
  }

  /** Exactly what every instruction does to the balance of claims and holdings. */
  lemma {:induction false} StepGap(s: State, step: Step)
    ensures Gap(Next(s, step)) == Gap(s) + UnfundedBounty(s, step)
  {
    if Perform(s, step).Ok? {
      match step
      case SetPaused(_) =>
      case InitializeUser(owner) => SumUpdate(s.users, Deposited, owner, UserAccount(0, 0, 0, 0));
      case Deposit(owner, amount, wallet) => DepositGap(s, owner, amount, wallet);
      case Withdraw(owner, amount) => WithdrawGap(s, owner, amount);
      case Claim(fill, taker, maker, now) => ClaimGap(s, fill, taker, maker, now);
      case UpdateFunding(now) =>
      case Accrue(key) =>
        AccruedBalance(TrioAt(s, key));
        StoreGap(s, key, Accrued(TrioAt(s, key)).value);
      case Liquidate(key, liquidator, mark) => LiquidateGap(s, key, liquidator, mark);
      case Close(key, caller, mark) => CloseGap(s, key, caller, mark);
      case CloseAndWithdraw(key, caller, mark, payout) =>
        CloseGap(s, key, caller, mark);
        if payout > 0 {
          WithdrawGap(CloseStep(s, key, caller, mark).value, caller, payout);
        }
    }
  }

  function UnfundedBounties(s: State, steps: seq<Step>): nat
    decreases |steps|
  {
    if steps == [] then 0 else UnfundedBounty(s, steps[0]) + UnfundedBounties(Next(s, steps[0]), steps[1..])
  }

  /** Over every run, the vault is short by exactly the unfunded bounties paid out. */
  lemma {:induction false} RunGap(s: State, steps: seq<Step>)
    ensures Gap(Run(s, steps)) == Gap(s) + UnfundedBounties(s, steps)
    decreases |steps|
  {
    if steps != [] {
      StepGap(s, steps[0]);
      RunGap(Next(s, steps[0]), steps[1..]);
    }
  }

  /** Funding due takes the whole collateral, and the price has moved at least 20 micro-units
      in the position's favour. */
  predicate DrainedInProfit(s: State, key: PosKey, mark: U64) {
    && Loaded(s, key)
    && AccrueFundingInternal(s.positions[key], s.market) == Ok(s.positions[key].collateralLocked)
    && Pnl(s.positions[key], mark) >= 20
  }

  /** A successful instruction keeps the balance exactly unless it liquidates such a position. */
  lemma {:induction false} StepConservesUnlessDrained(s: State, step: Step)
    requires Perform(s, step).Ok?
    ensures Gap(Next(s, step)) == Gap(s) <==>
      !(step.Liquidate? && DrainedInProfit(s, step.key, step.mark))
  {
    StepGap(s, step);
    if step.Liquidate? {
      hide AccrueFundingInternal, AfterLiquidation;
      var t := Accrued(TrioAt(s, step.key)).value;
      AccruedBalance(TrioAt(s, step.key));
      assert Pnl(t.position, step.mark) == Pnl(s.positions[step.key], step.mark);
    }
  }

  ghost predicate Backed(s: State) {
    Gap(s) == 0
  }

  /** No step of the run liquidates a drained position in profit. */
  predicate NeverDrained(s: State, steps: seq<Step>)
    decreases |steps|
  {
    steps == [] ||
    (&& (steps[0].Liquidate? && Perform(s, steps[0]).Ok? ==> !DrainedInProfit(s, steps[0].key, steps[0].mark))
     && NeverDrained(Next(s, steps[0]), steps[1..]))
  }

  /** From a fresh market, every such run ends with vault = deposits + loss pool. */
  lemma {:induction false} RunStaysBacked(s: State, steps: seq<Step>)
    requires Backed(s) && NeverDrained(s, steps)
    ensures Backed(Run(s, steps))
    decreases |steps|
  {
    if steps != [] {
      if Perform(s, steps[0]).Ok? {
        StepConservesUnlessDrained(s, steps[0]);
      }
      RunStaysBacked(Next(s, steps[0]), steps[1..]);
    }
  }

  lemma {:induction false} GenesisBacked(interval: I64, maxLeverageBps: U16, now: I64)
    ensures Backed(Genesis(interval, maxLeverageBps, now))
  {
  }
}
