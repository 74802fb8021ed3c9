/** Short runs of the ledger from a fresh market: liquidations that pay a bounty nobody is charged
    for, one of them out of another trader's deposit; an ordinary liquidation; and positions that
    cannot be liquidated, because they owe more funding than they hold, because they are owed more
    than the pool holds, or because a close has overdrawn their owner's deposit. */
module Scenario {
  import opened Types
  import opened Accounts
  import opened Ledger
  import opened Sums
  import opened Conservation
  import opened Solvency
  import opened Liquidation
  import Funding

  const FILL := Fill(1, 1, 2, 1, 2, 100, 0, 0, 0)

  /** Ten lots at leverage code 100: the collateral equals the notional, 1000. */
  const TAKER := Reveal(1, 10, 100, 0, 0)
  const MAKER := Reveal(2, 10, 100, 0, 0)

  const MARKET := Market(false, 20_000, 3_600, 0, 0, 0, 0, 0, 0)
  const LONG := Position(1, Long, 10, 100, 1_000, 0, 0, Open, 100, 0)
  const SHORT := Position(2, Short, 10, 100, 1_000, 0, 0, Open, 100, 0)

  /** Both traders have joined and deposited 1000. */
  const FUNDED := State(MARKET, map[1 := UserAccount(1_000, 0, 0, 0), 2 := UserAccount(1_000, 0, 0, 0)], map[], 2_000)

  /** Their fill has been claimed. */
  const OPENED := State(
    MARKET.(totalLongSize := 10, totalShortSize := 10),
    map[1 := UserAccount(1_000, 1_000, 0, 1), 2 := UserAccount(1_000, 1_000, 0, 1)],
    map[(1, 0) := LONG, (2, 0) := SHORT],
    2_000)

  /** The long was liquidated at mark 70, having lost 300. */
  const LIQUIDATED := State(
    OPENED.market.(totalLongSize := 0, realizedLossPool := 300),
    OPENED.users[1 := UserAccount(665, 0, -335, 1)],
    OPENED.positions[(1, 0) := LONG.(status := Liquidated, collateralLocked := 0)],
    1_965)

  /** The short has closed at the entry price instead. */
  const ONE_SIDED := State(
    MARKET.(totalLongSize := 10),
    map[1 := UserAccount(1_000, 1_000, 0, 1), 2 := UserAccount(1_000, 0, 0, 1)],
    map[(1, 0) := LONG, (2, 0) := SHORT.(status := Closed, collateralLocked := 0)],
    2_000)

  /** `n` funding intervals have passed with only the long open. */
  function Charging(n: nat): Market
    requires n <= 10
  {
    ONE_SIDED.market.(cumFundingLong := 2_000 * n, cumFundingShort := -2_000 * n, lastFundingTs := 3_600 * n)
  }

  /** Five intervals: the long owes its whole collateral. */
  const DRAINED := ONE_SIDED.(market := Charging(5))

  /** Six: it owes more than that. */
  const OVERDUE := ONE_SIDED.(market := Charging(6))

  /** And was then liquidated at mark 104, with a profit of 40. */
  const OVERPAID := State(
    DRAINED.market.(totalLongSize := 0, realizedLossPool := 1_000),
    DRAINED.users[1 := UserAccount(0, 0, 38, 1)],
    DRAINED.positions[(1, 0) := LONG.(status := Liquidated, collateralLocked := 0, lastFundingIndex := 10_000)],
    1_998)

  lemma {:induction false} Fund(s: State)
    requires s == Genesis(3_600, 20_000, 0)
    ensures
      var s2 := Next(Next(s, InitializeUser(1)), InitializeUser(2));
      Next(Next(s2, Deposit(1, 1_000, 1_000)), Deposit(2, 1_000, 1_000)) == FUNDED
  {
  }

  lemma {:induction false} OpenThePair(s: State, taker: Reveal, maker: Reveal)
    requires s == FUNDED && taker == TAKER && maker == MAKER
    ensures Next(s, Claim(FILL, taker, maker, 0)) == OPENED
  {
    CollateralExact(taker.size, 100, taker.leverageBps);
    hide ComputeCollateral;
  }

  lemma {:induction false} FlatClose(t: Trio, mark: U64)
    requires t == Trio(OPENED.market, OPENED.users[2], SHORT) && mark == 100
    ensures AfterClose(t, mark) == Ok(Trio(
      t.market.(totalShortSize := 0), UserAccount(1_000, 0, 0, 1), t.position.(status := Closed, collateralLocked := 0)))
  {
    assert ComputePnl(t.position, mark) == Ok(0);
  }

  lemma {:induction false} CloseShort(s: State, step: Step)
    requires s == OPENED && step == Close((2, 0), 2, 100)
    ensures Perform(s, step) == Ok(ONE_SIDED)
  {
    hide AfterClose;
    FlatClose(TrioAt(s, (2, 0)), 100);
    assert ONE_SIDED.users == s.users[2 := UserAccount(1_000, 0, 0, 1)];
    assert ONE_SIDED.positions == s.positions[(2, 0) := SHORT.(status := Closed, collateralLocked := 0)];
  }

  lemma {:induction false} Intervals(m: Market, n: nat)
    requires m == ONE_SIDED.market && 1 <= n <= 10
    ensures UpdatedFunding(m, 3_600 * n) == Ok(Charging(n))
  {
    OneSidedRate(m);
    hide FundingRate, UpdatedFunding;
    Funding.UpdateIs(m, 3_600 * n, n, 0, 2_000, Charging(n));
  }

  lemma {:induction false} ChargeLong(s: State, n: nat, step: Step)
    requires s == ONE_SIDED && 1 <= n <= 10 && step == UpdateFunding(3_600 * n)
    ensures Perform(s, step) == Ok(s.(market := Charging(n)))
  {
    Intervals(s.market, n);
    hide UpdatedFunding, Charging;
  }

  lemma {:induction false} Owed(p: Position, m: Market, amount: I64)
    requires p == LONG && m.cumFundingLong == 10 * amount && 0 <= amount <= 2_000
    ensures AccrueFundingInternal(p, m) == Ok(amount)
  {
  }

  lemma {:induction false} ChargedLong(t: Trio, t': Trio)
    requires t == Trio(DRAINED.market, DRAINED.users[1], LONG)
    requires t' == Trio(DRAINED.market.(realizedLossPool := 1_000), UserAccount(0, 0, 0, 1),
      LONG.(collateralLocked := 0, lastFundingIndex := 10_000))
    ensures Accrued(t) == Ok(t')
  {
    Owed(t.position, t.market, 1_000);
    hide AccrueFundingInternal;
  }

  lemma {:induction false} UnchargedLong(t: Trio)
    requires t == Trio(OPENED.market, OPENED.users[1], LONG)
    ensures Accrued(t) == Ok(t)
  {
    Owed(t.position, t.market, 0);
    hide AccrueFundingInternal;
  }

  lemma {:induction false} DrainedVerdict(p: Position, mark: U64)
    requires p == LONG.(collateralLocked := 0, lastFundingIndex := 10_000) && mark == 104
    ensures Judge(p, mark) == Ok(Verdict(40, 40, 2))
  {
  }

  lemma {:induction false} OpenedVerdict(p: Position, mark: U64)
    requires p == LONG && mark == 70
    ensures Judge(p, mark) == Ok(Verdict(-300, 700, 35))
  {
  }

  lemma {:induction false} DrainedSettlement(t: Trio, v: Verdict)
    requires t == Trio(DRAINED.market.(realizedLossPool := 1_000), UserAccount(0, 0, 0, 1),
      LONG.(collateralLocked := 0, lastFundingIndex := 10_000))
    requires v == Verdict(40, 40, 2)
    ensures AfterLiquidation(t, v) == Ok(Trio(
      t.market.(totalLongSize := 0), UserAccount(0, 0, 38, 1), t.position.(status := Liquidated)))
  {
  }

  lemma {:induction false} OpenedSettlement(t: Trio, v: Verdict)
    requires t == Trio(OPENED.market, OPENED.users[1], LONG) && v == Verdict(-300, 700, 35)
    ensures AfterLiquidation(t, v) == Ok(Trio(
      t.market.(totalLongSize := 0, realizedLossPool := 300), UserAccount(665, 0, -335, 1),
      t.position.(status := Liquidated, collateralLocked := 0)))
  {
  }

  lemma {:induction false} LiquidateDrained(s: State, step: Step)
    requires s == DRAINED && step == Liquidate((1, 0), 3, 104)
    ensures Perform(s, step) == Ok(OVERPAID) && DrainedInProfit(s, (1, 0), 104)
  {
    hide AccrueFundingInternal, Accrued, Judge, AfterLiquidation;
    var t := Trio(DRAINED.market.(realizedLossPool := 1_000), UserAccount(0, 0, 0, 1),
      LONG.(collateralLocked := 0, lastFundingIndex := 10_000));
    Owed(LONG, s.market, 1_000);
    ChargedLong(TrioAt(s, (1, 0)), t);
    DrainedVerdict(t.position, 104);
    DrainedSettlement(t, Verdict(40, 40, 2));
  }

  lemma {:induction false} LiquidateOpened(s: State, step: Step)
    requires s == OPENED && step == Liquidate((1, 0), 3, 70)
    ensures Perform(s, step) == Ok(LIQUIDATED)
  {
    hide AccrueFundingInternal, Accrued, Judge, AfterLiquidation;
    var t := TrioAt(s, (1, 0));
    UnchargedLong(t);
    OpenedVerdict(t.position, 70);
    OpenedSettlement(t, Verdict(-300, 700, 35));
  }

  /** Two users: the balance of claims and holdings. */
  lemma {:induction false} GapOfTwo(s: State)
    requires s.users.Keys == {1, 2}
    ensures Gap(s) == s.users[1].depositedAmount + s.users[2].depositedAmount + s.market.realizedLossPool - s.vault
  {
    SumTake(s.users, Deposited, 1);
    SumTake(s.users - {1}, Deposited, 2);
    assert s.users - {1} - {2} == map[];
  }

  lemma {:induction false} RunFirst(s: State, step: Step, rest: seq<Step>)
    ensures Run(s, [step] + rest) == Run(Next(s, step), rest)
  {
    assert ([step] + rest)[1..] == rest;
  }

  /** Two traders join, deposit and have their fill settled. */
  const OPENING: seq<Step> := [InitializeUser(1), InitializeUser(2)]
    + [Deposit(1, 1_000, 1_000), Deposit(2, 1_000, 1_000)] + [Claim(FILL, TAKER, MAKER, 0)]

  /** The short closes flat and five funding intervals pass. */
  const DRAINING: seq<Step> := [Close((2, 0), 2, 100), UpdateFunding(18_000)]

  lemma {:induction false} RunTwo(s: State, first: Step, second: Step)
    ensures Run(s, [first, second]) == Next(Next(s, first), second)
  {
    hide Next;
    RunFirst(s, first, [second]);
    RunFirst(Next(s, first), second, []);
    assert [first] + [second] == [first, second] && [second] + [] == [second];
  }

  lemma {:induction false} RunOne(s: State, step: Step)
    ensures Run(s, [step]) == Next(s, step)
  {
    hide Next;
    RunFirst(s, step, []);
    assert [step] + [] == [step];
  }

  lemma {:induction false} RunOpening(s: State)
    requires s == Genesis(3_600, 20_000, 0)
    ensures Run(s, OPENING) == OPENED
  {
    Fund(s);
    OpenThePair(FUNDED, TAKER, MAKER);
    hide Next, Run;
    var joined := Next(Next(s, InitializeUser(1)), InitializeUser(2));
    RunTwo(s, InitializeUser(1), InitializeUser(2));
    RunTwo(joined, Deposit(1, 1_000, 1_000), Deposit(2, 1_000, 1_000));
    RunOne(FUNDED, Claim(FILL, TAKER, MAKER, 0));
    RunAppend(s, [InitializeUser(1), InitializeUser(2)], [Deposit(1, 1_000, 1_000), Deposit(2, 1_000, 1_000)]);
    RunAppend(s, [InitializeUser(1), InitializeUser(2)] + [Deposit(1, 1_000, 1_000), Deposit(2, 1_000, 1_000)],
      [Claim(FILL, TAKER, MAKER, 0)]);
  }

  lemma {:induction false} RunDraining(s: State)
    requires s == Genesis(3_600, 20_000, 0)
    ensures Run(s, OPENING + DRAINING) == DRAINED
  {
    RunOpening(s);
    CloseShort(OPENED, Close((2, 0), 2, 100));
    ChargeLong(ONE_SIDED, 5, UpdateFunding(18_000));
    hide Run, Perform;
    RunTwo(OPENED, Close((2, 0), 2, 100), UpdateFunding(18_000));
    RunAppend(s, OPENING, DRAINING);
  }

  /** Conservation does not hold in every run. From a fresh market: the pair opens, the short closes
      flat, five intervals pass, and the drained long is liquidated 4 ticks up. The vault held
      exactly the deposits and the pool until then; afterwards it is 2 short, the bounty paid. */
  lemma {:induction false} DrainedLiquidation(s: State)
    requires s == Genesis(3_600, 20_000, 0)
    ensures
      var drained := Run(s, OPENING + DRAINING);
      && Backed(Run(s, OPENING)) && Backed(drained) && DrainedInProfit(drained, (1, 0), 104)
      && Gap(Next(drained, Liquidate((1, 0), 3, 104))) == 2
  {
    RunOpening(s);
    RunDraining(s);
    LiquidateDrained(DRAINED, Liquidate((1, 0), 3, 104));
    hide Run, Perform, DrainedInProfit;
    GapOfTwo(OPENED);
    GapOfTwo(DRAINED);
    GapOfTwo(OVERPAID);
  }

  // ----- a bounty the deposits pay for

  /** The drained long was liquidated at mark 3100 instead, with a profit of 30000. */
  const UNPAYABLE := State(
    DRAINED.market.(totalLongSize := 0, realizedLossPool := 1_000),
    DRAINED.users[1 := UserAccount(0, 0, 28_500, 1)],
    DRAINED.positions[(1, 0) := LONG.(status := Liquidated, collateralLocked := 0, lastFundingIndex := 10_000)],
    500)

  lemma {:induction false} RichVerdict(p: Position, mark: U64)
    requires p == LONG.(collateralLocked := 0, lastFundingIndex := 10_000) && mark == 3_100
    ensures Judge(p, mark) == Ok(Verdict(30_000, 30_000, 1_500))
  {
  }

  lemma {:induction false} RichSettlement(t: Trio, v: Verdict)
    requires t == Trio(DRAINED.market.(realizedLossPool := 1_000), UserAccount(0, 0, 0, 1),
      LONG.(collateralLocked := 0, lastFundingIndex := 10_000))
    requires v == Verdict(30_000, 30_000, 1_500)
    ensures AfterLiquidation(t, v) == Ok(Trio(
      t.market.(totalLongSize := 0), UserAccount(0, 0, 28_500, 1), t.position.(status := Liquidated)))
  {
  }

  lemma {:induction false} LiquidateRich(s: State, step: Step)
    requires s == DRAINED && step == Liquidate((1, 0), 3, 3_100)
    ensures Perform(s, step) == Ok(UNPAYABLE)
  {
    hide AccrueFundingInternal, Accrued, Judge, AfterLiquidation;
    var t := Trio(DRAINED.market.(realizedLossPool := 1_000), UserAccount(0, 0, 0, 1),
      LONG.(collateralLocked := 0, lastFundingIndex := 10_000));
    ChargedLong(TrioAt(s, (1, 0)), t);
    RichVerdict(t.position, 3_100);
    RichSettlement(t, Verdict(30_000, 30_000, 1_500));
  }

  lemma {:induction false} NotPaid(s: State)
    requires s == UNPAYABLE
    ensures s.users[2].Unlocked() == 1_000 && WithdrawStep(s, 2, 1_000) == Err(TransferFailed)
  {
  }

  /** Unlocked balances are not always paid. From a fresh market, the drained long is liquidated
      3000 ticks up: the bounty of 1500 exceeds the pool, and the vault is left with 500 of the
      other trader's 1000, all of it unlocked. */
  lemma {:induction false} UnpaidWithdrawal(s: State)
    requires s == Genesis(3_600, 20_000, 0)
    ensures
      var drained := Run(s, OPENING + DRAINING);
      var end := Next(drained, Liquidate((1, 0), 3, 3_100));
      && Backed(drained) && !DepositsCovered(end) && end.vault == 500
      && 2 in end.users && end.users[2].Unlocked() == 1_000
      && WithdrawStep(end, 2, 1_000) == Err(TransferFailed)
  {
    RunDraining(s);
    LiquidateRich(DRAINED, Liquidate((1, 0), 3, 3_100));
    NotPaid(UNPAYABLE);
    hide Run, Perform, WithdrawStep;
    GapOfTwo(DRAINED);
    GapOfTwo(UNPAYABLE);
  }

  // ----- funding that cannot be charged

  lemma {:induction false} OverdueAccrual(t: Trio)
    requires t == Trio(OVERDUE.market, OVERDUE.users[1], LONG)
    ensures Accrued(t) == Err(Overflow)
  {
    Owed(t.position, t.market, 1_200);
    hide AccrueFundingInternal;
  }

  lemma {:induction false} OverdueSteps(s: State, liquidator: Pubkey, mark: U64)
    requires s == OVERDUE && liquidator != 1
    ensures LiquidateCheck(s, (1, 0), liquidator) == Pass
    ensures LiquidateStep(s, (1, 0), liquidator, mark) == Err(Overflow) && AccrueStep(s, (1, 0)) == Err(Overflow)
  {
    hide Accrued;
    OverdueAccrual(TrioAt(s, (1, 0)));
  }

  lemma {:induction false} OverdueDue(m: Market, p: Position)
    requires m == OVERDUE.market && p == LONG
    ensures Due(m, p) == 1_200
  {
  }

  lemma {:induction false} RunOverdue(s: State)
    requires s == Genesis(3_600, 20_000, 0)
    ensures Run(s, OPENING + [Close((2, 0), 2, 100), UpdateFunding(21_600)]) == OVERDUE
  {
    RunOpening(s);
    CloseShort(OPENED, Close((2, 0), 2, 100));
    ChargeLong(ONE_SIDED, 6, UpdateFunding(21_600));
    hide Run, Perform;
    RunTwo(OPENED, Close((2, 0), 2, 100), UpdateFunding(21_600));
    RunAppend(s, OPENING, [Close((2, 0), 2, 100), UpdateFunding(21_600)]);
  }

  /** From a fresh market: the short closes flat, and six intervals later the long owes 1200 on a
      collateral of 1000. Every balance is in order, and yet nobody can liquidate the long, at any
      mark, nor charge its funding. */
  lemma {:induction false} OverdueFunding(s: State, liquidator: Pubkey, mark: U64)
    requires s == Genesis(3_600, 20_000, 0) && liquidator != 1
    ensures
      var overdue := Run(s, OPENING + [Close((2, 0), 2, 100), UpdateFunding(21_600)]);
      && Backed(overdue) && AllSolvent(overdue) && Loaded(overdue, (1, 0))
      && overdue.positions[(1, 0)].collateralLocked == 1_000 && Due(overdue.market, overdue.positions[(1, 0)]) == 1_200
      && LiquidateCheck(overdue, (1, 0), liquidator) == Pass
      && LiquidateStep(overdue, (1, 0), liquidator, mark) == Err(Overflow)
      && AccrueStep(overdue, (1, 0)) == Err(Overflow)
  {
    RunOverdue(s);
    OverdueSteps(OVERDUE, liquidator, mark);
    OverdueDue(OVERDUE.market, LONG);
    hide Run, LiquidateStep, AccrueStep, LiquidateCheck, Due;
    GapOfTwo(OVERDUE);
    AllOfTwo(OVERDUE);
  }

  lemma {:induction false} AllOfTwo(s: State)
    requires s.users.Keys == {1, 2} && Solvent(s.users[1]) && Solvent(s.users[2])
    ensures AllSolvent(s)
  {
    assert forall owner | owner in s.users :: owner in {1, 2};
  }

  /** An ordinary liquidation at mark 70: of the collateral of 1000 the loss of 300 goes to the
      pool, 35 to the liquidator, 665 stays with the owner, and the balance is kept. */
  lemma {:induction false} OrdinaryLiquidation(s: State)
    requires s == Genesis(3_600, 20_000, 0)
    ensures Next(Run(s, OPENING), Liquidate((1, 0), 3, 70)) == LIQUIDATED
    ensures Backed(Run(s, OPENING)) && Backed(LIQUIDATED)
  {
    RunOpening(s);
    LiquidateOpened(OPENED, Liquidate((1, 0), 3, 70));
    hide Run, Perform;
    GapOfTwo(OPENED);
    GapOfTwo(LIQUIDATED);
  }

  // ----- an overdrawing close

  const SECOND_FILL := Fill(2, 3, 4, 1, 2, 100, 0, 0, 0)

  /** Ten lots at leverage code 1000: the collateral is a tenth of the notional, 100. */
  const THIN_TAKER := Reveal(1, 10, 1_000, 0, 0)
  const THIN_MAKER := Reveal(2, 10, 1_000, 0, 0)

  function ThinLong(idx: U64): Position {
    Position(1, Long, 10, 100, 100, 0, 0, Open, 1_000, idx)
  }

  function ThinShort(idx: U64): Position {
    Position(2, Short, 10, 100, 100, 0, 0, Open, 1_000, idx)
  }

  const THIN_FUNDED := State(MARKET, map[1 := UserAccount(200, 0, 0, 0), 2 := UserAccount(200, 0, 0, 0)], map[], 400)

  const THIN_PAIR := State(
    MARKET.(totalLongSize := 10, totalShortSize := 10),
    map[1 := UserAccount(200, 100, 0, 1), 2 := UserAccount(200, 100, 0, 1)],
    map[(1, 0) := ThinLong(0), (2, 0) := ThinShort(0)],
    400)

  /** Both fills are settled, and with them each deposit is locked. */
  const STACKED := State(
    MARKET.(totalLongSize := 20, totalShortSize := 20),
    map[1 := UserAccount(200, 200, 0, 2), 2 := UserAccount(200, 200, 0, 2)],
    map[(1, 0) := ThinLong(0), (2, 0) := ThinShort(0), (1, 1) := ThinLong(1), (2, 1) := ThinShort(1)],
    400)

  /** The first long has closed at mark 81, losing 190. */
  const OVERDRAWN := State(
    STACKED.market.(totalLongSize := 10, realizedLossPool := 190),
    STACKED.users[1 := UserAccount(10, 100, -190, 2)],
    STACKED.positions[(1, 0) := ThinLong(0).(status := Closed, collateralLocked := 0)],
    400)

  const STACKING: seq<Step> := [InitializeUser(1), InitializeUser(2)]
    + [Deposit(1, 200, 200), Deposit(2, 200, 200)]
    + [Claim(FILL, THIN_TAKER, THIN_MAKER, 0), Claim(SECOND_FILL, THIN_TAKER, THIN_MAKER, 0)]

  lemma {:induction false} FundThin(s: State)
    requires s == Genesis(3_600, 20_000, 0)
    ensures
      var s2 := Next(Next(s, InitializeUser(1)), InitializeUser(2));
      Next(Next(s2, Deposit(1, 200, 200)), Deposit(2, 200, 200)) == THIN_FUNDED
  {
  }

  lemma {:induction false} OpenFirst(s: State, taker: Reveal, maker: Reveal)
    requires s == THIN_FUNDED && taker == THIN_TAKER && maker == THIN_MAKER
    ensures Next(s, Claim(FILL, taker, maker, 0)) == THIN_PAIR
  {
    CollateralExact(taker.size, 100, taker.leverageBps);
    hide ComputeCollateral;
  }

  lemma {:induction false} OpenSecond(s: State, taker: Reveal, maker: Reveal)
    requires s == THIN_PAIR && taker == THIN_TAKER && maker == THIN_MAKER
    ensures Next(s, Claim(SECOND_FILL, taker, maker, 0)) == STACKED
  {
    CollateralExact(taker.size, 100, taker.leverageBps);
    hide ComputeCollateral;
  }

  lemma {:induction false} RunStacking(s: State)
    requires s == Genesis(3_600, 20_000, 0)
    ensures Run(s, STACKING) == STACKED
  {
    FundThin(s);
    OpenFirst(THIN_FUNDED, THIN_TAKER, THIN_MAKER);
    OpenSecond(THIN_PAIR, THIN_TAKER, THIN_MAKER);
    hide Next, Run;
    var joined := Next(Next(s, InitializeUser(1)), InitializeUser(2));
    var first, second := Claim(FILL, THIN_TAKER, THIN_MAKER, 0), Claim(SECOND_FILL, THIN_TAKER, THIN_MAKER, 0);
    RunTwo(s, InitializeUser(1), InitializeUser(2));
    RunTwo(joined, Deposit(1, 200, 200), Deposit(2, 200, 200));
    RunTwo(THIN_FUNDED, first, second);
    RunAppend(s, [InitializeUser(1), InitializeUser(2)], [Deposit(1, 200, 200), Deposit(2, 200, 200)]);
    RunAppend(s, [InitializeUser(1), InitializeUser(2)] + [Deposit(1, 200, 200), Deposit(2, 200, 200)], [first, second]);
  }

  lemma {:induction false} LosingClose(t: Trio, mark: U64)
    requires t == Trio(STACKED.market, STACKED.users[1], ThinLong(0)) && mark == 81
    ensures AfterClose(t, mark) == Ok(Trio(
      t.market.(totalLongSize := 10, realizedLossPool := 190), UserAccount(10, 100, -190, 2),
      t.position.(status := Closed, collateralLocked := 0)))
  {
    assert ComputePnl(t.position, mark) == Ok(-190);
    hide ComputePnl;
  }

  lemma {:induction false} CloseAtLoss(s: State, step: Step)
    requires s == STACKED && step == Close((1, 0), 1, 81)
    ensures Perform(s, step) == Ok(OVERDRAWN) && Overdraws(s, step)
  {
    hide AfterClose;
    LosingClose(TrioAt(s, (1, 0)), 81);
  }

  lemma {:induction false} UnchargedThin(t: Trio)
    requires t == Trio(OVERDRAWN.market, OVERDRAWN.users[1], ThinLong(1))
    ensures Accrued(t) == Ok(t)
  {
    assert AccrueFundingInternal(t.position, t.market) == Ok(0);
    hide AccrueFundingInternal;
  }

  lemma {:induction false} ThinVerdict(p: Position, mark: U64)
    requires p == ThinLong(1) && mark == 81
    ensures Judge(p, mark) == Ok(Verdict(-190, 0, 0)) && Liquidatable(p.collateralLocked, Pnl(p, mark))
  {
  }

  lemma {:induction false} NothingLeft(t: Trio, v: Verdict)
    requires t == Trio(OVERDRAWN.market, OVERDRAWN.users[1], ThinLong(1)) && v == Verdict(-190, 0, 0)
    ensures AfterLiquidation(t, v) == Err(Overflow)
  {
  }

  lemma {:induction false} LiquidateShielded(s: State)
    requires s == OVERDRAWN
    ensures LiquidateStep(s, (1, 1), 3, 81) == Err(Overflow) && Liquidatable(100, Pnl(s.positions[(1, 1)], 81))
  {
    hide AccrueFundingInternal, Accrued, Judge, AfterLiquidation, Liquidatable;
    var t := TrioAt(s, (1, 1));
    UnchargedThin(t);
    ThinVerdict(t.position, 81);
    NothingLeft(t, Verdict(-190, 0, 0));
  }

  /** From a fresh market: a trader with all of a deposit of 200 locked under two longs closes one
      at a loss of 190, which the other one's collateral pays. The trader is left with 10
      deposited and 100 locked, and the other long, which has lost 190 as well and is
      liquidatable, cannot be liquidated. */
  lemma {:induction false} OverdrawingClose(s: State)
    requires s == Genesis(3_600, 20_000, 0)
    ensures
      var before, close := Run(s, STACKING), Close((1, 0), 1, 81);
      var after := Next(before, close);
      && AllSolvent(before) && Overdraws(before, close) && Perform(before, close).Ok?
      && 1 in after.users && after.users[1].depositedAmount == 10 && after.users[1].lockedAmount == 100
      && (1, 1) in after.positions && after.positions[(1, 1)].collateralLocked == 100
      && Liquidatable(100, Pnl(after.positions[(1, 1)], 81))
      && LiquidateStep(after, (1, 1), 3, 81) == Err(Overflow)
  {
    RunStacking(s);
    CloseAtLoss(STACKED, Close((1, 0), 1, 81));
    LiquidateShielded(OVERDRAWN);
    hide Run, Perform, LiquidateStep, Liquidatable, Overdraws;
  }

  // ----- a credit nobody has paid for yet

  /** One of the two shorts has closed flat. */
  const HALVED := State(
    STACKED.market.(totalShortSize := 10),
    STACKED.users[2 := UserAccount(200, 100, 0, 2)],
    STACKED.positions[(2, 1) := ThinShort(1).(status := Closed, collateralLocked := 0)],
    400)

  /** An interval later longs owe, and the other short is owed, funding. */
  const CREDITED := HALVED.(
    market := HALVED.market.(cumFundingLong := 666, cumFundingShort := -666, lastFundingTs := 3_600))

  lemma {:induction false} FlatHalf(t: Trio, mark: U64)
    requires t == Trio(STACKED.market, STACKED.users[2], ThinShort(1)) && mark == 100
    ensures AfterClose(t, mark) == Ok(Trio(
      t.market.(totalShortSize := 10), UserAccount(200, 100, 0, 2), t.position.(status := Closed, collateralLocked := 0)))
  {
    assert ComputePnl(t.position, mark) == Ok(0);
    hide ComputePnl;
  }

  lemma {:induction false} CloseHalf(s: State, step: Step)
    requires s == STACKED && step == Close((2, 1), 2, 100)
    ensures Perform(s, step) == Ok(HALVED)
  {
    hide AfterClose;
    FlatHalf(TrioAt(s, (2, 1)), 100);
  }

  lemma {:induction false} ThirdRate(m: Market)
    requires m == HALVED.market
    ensures FundingRate(m) == Ok(666)
  {
    assert TruncDiv(20_000, 30) == 666;
  }

  lemma {:induction false} OneInterval(m: Market, now: I64)
    requires m == HALVED.market && now == 3_600
    ensures UpdatedFunding(m, now) == Ok(CREDITED.market)
  {
    ThirdRate(m);
    hide FundingRate, UpdatedFunding;
    Funding.UpdateIs(m, now, 1, 0, 666, CREDITED.market);
  }

  lemma {:induction false} CreditShort(s: State, step: Step)
    requires s == HALVED && step == UpdateFunding(3_600)
    ensures Perform(s, step) == Ok(CREDITED)
  {
    OneInterval(s.market, 3_600);
    hide UpdatedFunding;
  }

  lemma {:induction false} CreditDue(p: Position, m: Market)
    requires p == ThinShort(0) && m == CREDITED.market
    ensures AccrueFundingInternal(p, m) == Ok(-66) && Due(m, p) == -66
  {
    assert TruncDiv(-666_000, 10_000) == -66;
  }

  lemma {:induction false} CreditRefused(s: State)
    requires s == CREDITED
    ensures LiquidateStep(s, (2, 0), 3, 104) == Err(InsufficientCollateral)
  {
    CreditDue(ThinShort(0), s.market);
    hide AccrueFundingInternal, Judge, AfterLiquidation;
  }

  lemma {:induction false} RunCredited(s: State)
    requires s == Genesis(3_600, 20_000, 0)
    ensures Run(s, STACKING + [Close((2, 1), 2, 100), UpdateFunding(3_600)]) == CREDITED
  {
    RunStacking(s);
    CloseHalf(STACKED, Close((2, 1), 2, 100));
    CreditShort(HALVED, UpdateFunding(3_600));
    hide Run, Perform;
    RunTwo(STACKED, Close((2, 1), 2, 100), UpdateFunding(3_600));
    RunAppend(s, STACKING, [Close((2, 1), 2, 100), UpdateFunding(3_600)]);
  }

  /** From a fresh market: with two longs and one short open, the short is owed 66 while the pool is
      empty, and past its liquidation mark it cannot be liquidated until a long has paid. */
  lemma {:induction false} UnfundedCredit(s: State)
    requires s == Genesis(3_600, 20_000, 0)
    ensures
      var credited := Run(s, STACKING + [Close((2, 1), 2, 100), UpdateFunding(3_600)]);
      && (2, 0) in credited.positions && credited.positions[(2, 0)].collateralLocked == 100
      && Due(credited.market, credited.positions[(2, 0)]) == -66 && credited.market.realizedLossPool == 0
      && Liquidatable(166, Pnl(credited.positions[(2, 0)], 104))
      && LiquidateStep(credited, (2, 0), 3, 104) == Err(InsufficientCollateral)
  {
    RunCredited(s);
    CreditRefused(CREDITED);
    CreditDue(ThinShort(0), CREDITED.market);
    hide Run, LiquidateStep, Due;
  }

  // ----- a funding update at the end of time

  /** The same state in a market with another funding interval. */
  function WithInterval(s: State, interval: I64): State {
    s.(market := s.market.(fundingIntervalSecs := interval))
  }

  /** Joining, depositing, settling a fill and closing do not look at the interval. */
  predicate Plain(step: Step) {
    step.InitializeUser? || step.Deposit? || step.Claim? || step.Close?
  }

  lemma {:induction false} CloseIgnoresInterval(s: State, interval: I64, key: PosKey, caller: Pubkey, mark: U64)
    ensures Next(WithInterval(s, interval), Close(key, caller, mark)) == WithInterval(Next(s, Close(key, caller, mark)), interval)
  {
    hide ComputePnl;
  }

  lemma {:induction false} ClaimIgnoresInterval(s: State, interval: I64, step: Step)
    requires step.Claim?
    ensures Next(WithInterval(s, interval), step) == WithInterval(Next(s, step), interval)
  {
    hide ComputeCollateral, ClaimCheck;
  }

  lemma {:induction false} StepIgnoresInterval(s: State, interval: I64, step: Step)
    requires Plain(step)
    ensures Next(WithInterval(s, interval), step) == WithInterval(Next(s, step), interval)
  {
    match step
    case Close(key, caller, mark) => CloseIgnoresInterval(s, interval, key, caller, mark);
    case Claim(_, _, _, _) => ClaimIgnoresInterval(s, interval, step);
    case InitializeUser(_) =>
    case Deposit(_, _, _) =>
  }

  lemma {:induction false} RunIgnoresInterval(s: State, interval: I64, steps: seq<Step>)
    requires forall step | step in steps :: Plain(step)
    ensures Run(WithInterval(s, interval), steps) == WithInterval(Run(s, steps), interval)
    decreases |steps|
  {
    if steps != [] {
      assert steps[0] in steps;
      StepIgnoresInterval(s, interval, steps[0]);
      hide Next, WithInterval;
      RunIgnoresInterval(Next(s, steps[0]), interval, steps[1..]);
    }
  }

  lemma {:induction false} RunOneSided(s: State)
    requires s == Genesis(1, 20_000, 0)
    ensures Run(s, OPENING + [Close((2, 0), 2, 100)]) == WithInterval(ONE_SIDED, 1)
  {
    var slow := Genesis(3_600, 20_000, 0);
    assert s == WithInterval(slow, 1);
    RunOpening(slow);
    CloseShort(OPENED, Close((2, 0), 2, 100));
    hide Run, Perform, WithInterval;
    RunOne(OPENED, Close((2, 0), 2, 100));
    RunAppend(slow, OPENING, [Close((2, 0), 2, 100)]);
    RunIgnoresInterval(slow, 1, OPENING + [Close((2, 0), 2, 100)]);
  }

  lemma {:induction false} LateMoves(m: Market)
    requires m.fundingIntervalSecs == 1 && m.lastFundingTs == 0 && m.cumFundingLong == 0 && m.cumFundingShort == 0
    requires FundingRate(m) == Ok(2_000)
    ensures Funding.Updatable(m, 1) && Funding.IntervalPassed(m, I64_MAX) && !Funding.MoveFits(m, I64_MAX)
  {
    hide FundingRate;
  }

  lemma {:induction false} LateCalls(m: Market, times: seq<I64>)
    requires Funding.Updatable(m, 1) && Funding.IntervalPassed(m, I64_MAX) && !Funding.MoveFits(m, I64_MAX)
    requires |times| == 2 && times[0] == 1 && times[1] == I64_MAX
    ensures UpdatedFunding(m, 1).Ok? && UpdatedFunding(m, I64_MAX) == Err(Overflow)
    ensures Funding.Calls(m, times) != Funding.Calls(m, [times[1]])
  {
    hide FundingRate, UpdatedFunding, Funding.Updatable, Funding.MoveFits, Funding.IntervalPassed, Funding.Calls;
    Funding.UpdateExact(m, 1);
    Funding.UpdateExact(m, I64_MAX);
    Funding.ScheduleIndependent(m, times);
  }

  lemma {:induction false} OneSidedRate(m: Market)
    requires m.totalLongSize == 10 && m.totalShortSize == 0
    ensures FundingRate(m) == Ok(2_000)
  {
  }

  /** The bound on the clock is needed. In a market with an interval of one second the index moves
      by 2000 a second while only the long is open; left alone until the clock ends, the one
      update overflows, and the schedule makes a difference. */
  lemma {:induction false} LateUpdate(s: State)
    requires s == Genesis(1, 20_000, 0)
    ensures
      var m := Run(s, OPENING + [Close((2, 0), 2, 100)]).market;
      && UpdatedFunding(m, 1).Ok? && UpdatedFunding(m, I64_MAX) == Err(Overflow)
      && Funding.Calls(m, [1, I64_MAX]) != Funding.Calls(m, [I64_MAX])
  {
    RunOneSided(s);
    var m := WithInterval(ONE_SIDED, 1).market;
    OneSidedRate(m);
    LateMoves(m);
    hide Run, FundingRate, UpdatedFunding, Funding.Updatable, Funding.MoveFits, Funding.IntervalPassed, Funding.Calls;
    LateCalls(m, [1, I64_MAX]);
  }
}
