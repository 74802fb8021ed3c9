/** When users can all be paid: what the vault holds beyond their deposits, what every step does
    to it, and what a run leaves of it. */
module Coverage {
  import opened Types
  import opened Accounts
  import opened Ledger
  import opened Sums
  import opened Conservation
  import opened Solvency
  import opened Liquidation
  import Funding

  /** Vault balance beyond the users' deposits. */
  ghost function Slack(s: State): int {
    s.vault - Sum(s.users, Deposited)
  }

  lemma {:induction false} SlackCovers(s: State)
    ensures Slack(s) == s.market.realizedLossPool - Gap(s)
    ensures DepositsCovered(s) <==> Slack(s) >= 0
  {
  }

  /** What a liquidation adds to the deposits' share of the vault (takes from it, if negative): it
      pays funding and loss out of the owner's deposit and the bounty out of the vault. */
  function LiquidationDrain(collateral: nat, due: int, pnl: int): int {
    if due < collateral then -due - CappedLoss(collateral - due, pnl)
    else (if pnl > 0 then pnl / 20 else 0) - due
  }

  /** By how much a successful step lowers the slack: a profit paid out, a funding credit, or the
      bounty of a drained position. */
  function Drain(s: State, step: Step): int
    requires Perform(s, step).Ok?
  {
    match step
    case Close(key, _, mark) => Pnl(s.positions[key], mark)
    case CloseAndWithdraw(key, _, mark, _) => Pnl(s.positions[key], mark)
    case Accrue(key) => -Due(s.market, s.positions[key])
    case Liquidate(key, _, mark) =>
      var p := s.positions[key];
      LiquidationDrain(p.collateralLocked, Due(s.market, p), Pnl(p, mark))
    case _ => 0
  }

  /** The pool after a close. */
  lemma {:induction false} CloseSlack(s: State, key: PosKey, caller: Pubkey, mark: U64)
    requires CloseStep(s, key, caller, mark).Ok?
    ensures Slack(CloseStep(s, key, caller, mark).value) == Slack(s) - Pnl(s.positions[key], mark)
  {
    CloseGap(s, key, caller, mark);
    CloseSettles(s, key, caller, mark);
    hide CloseStep, Pnl, Gap, Slack;
    SlackCovers(s);
    SlackCovers(CloseStep(s, key, caller, mark).value);
  }

  lemma {:induction false} ChargedPool(s: State, key: PosKey)
    requires Loaded(s, key) && Accrued(TrioAt(s, key)).Ok?
    ensures
      var t, p := Accrued(TrioAt(s, key)).value, s.positions[key];
      && t.position.collateralLocked == p.collateralLocked - Due(s.market, p)
      && t.market.realizedLossPool == s.market.realizedLossPool + Due(s.market, p)
      && (forall mark: U64 :: Pnl(t.position, mark) == Pnl(p, mark))
  {
    Funding.AccrualExact(s.positions[key], s.market);
    AccruedBalance(TrioAt(s, key));
    hide Funding.Payment, AccrueFundingInternal;
  }

  /** Pool and bounty of a liquidation, once funding is charged. */
  lemma {:induction false} LiquidationPays(s: State, key: PosKey, liquidator: Pubkey, mark: U64, t: Trio)
    requires LiquidateStep(s, key, liquidator, mark).Ok? && Accrued(TrioAt(s, key)) == Ok(t)
    ensures
      var s', c, pnl := LiquidateStep(s, key, liquidator, mark).value, t.position.collateralLocked, Pnl(t.position, mark);
      && s'.market.realizedLossPool == t.market.realizedLossPool + CappedLoss(c, pnl)
      && UnfundedBounty(s, Liquidate(key, liquidator, mark)) == (if c == 0 && pnl > 0 then pnl / 20 else 0)
  {
    JudgeExact(t.position, mark);
    hide Judge, Pnl, AccrueFundingInternal, Accrued;
  }

  lemma {:induction false} LiquidateSlack(s: State, key: PosKey, liquidator: Pubkey, mark: U64)
    requires LiquidateStep(s, key, liquidator, mark).Ok?
    ensures
      var p := s.positions[key];
      Slack(LiquidateStep(s, key, liquidator, mark).value)
        == Slack(s) - LiquidationDrain(p.collateralLocked, Due(s.market, p), Pnl(p, mark))
  {
    var t, p := Accrued(TrioAt(s, key)).value, s.positions[key];
    ChargedPool(s, key);
    LiquidationPays(s, key, liquidator, mark, t);
    LiquidateGap(s, key, liquidator, mark);
    assert Pnl(t.position, mark) == Pnl(p, mark);
    hide LiquidateStep, Accrued, Due, Pnl, UnfundedBounty, Gap, Slack;
    SlackCovers(s);
    SlackCovers(LiquidateStep(s, key, liquidator, mark).value);
  }

  /** Exactly what every successful step does to the slack, in terms of the state before it. */
  lemma {:induction false} SlackStep(s: State, step: Step)
    requires Perform(s, step).Ok?
    ensures Slack(Next(s, step)) == Slack(s) - Drain(s, step)
  {
    StepGap(s, step);
    SlackCovers(s);
    SlackCovers(Next(s, step));
    hide Gap, Slack, Due, Pnl, UpdatedFunding, CloseStep, LiquidateStep, AccrueFundingInternal, UnfundedBounty;
    match step
    case Close(key, caller, mark) => CloseSlack(s, key, caller, mark);
    case CloseAndWithdraw(key, caller, mark, payout) =>
      CloseSlack(s, key, caller, mark);
      if payout > 0 {
        WithdrawSlack(CloseStep(s, key, caller, mark).value, caller, payout);
      }
    case Accrue(key) =>
      ChargedPool(s, key);
      NoBounty(s, step);
    case Liquidate(key, liquidator, mark) => LiquidateSlack(s, key, liquidator, mark);
    case UpdateFunding(now) =>
      SamePool(s.market, now);
      NoBounty(s, step);
    case _ => NoBounty(s, step);
  }

  lemma {:induction false} NoBounty(s: State, step: Step)
    requires !step.Liquidate?
    ensures UnfundedBounty(s, step) == 0
  {
  }

  lemma {:induction false} SamePool(m: Market, now: I64)
    requires UpdatedFunding(m, now).Ok?
    ensures UpdatedFunding(m, now).value.realizedLossPool == m.realizedLossPool
  {
  }

  lemma {:induction false} WithdrawSlack(s: State, owner: Pubkey, amount: U64)
    requires WithdrawStep(s, owner, amount).Ok?
    ensures Slack(WithdrawStep(s, owner, amount).value) == Slack(s)
  {
    WithdrawGap(s, owner, amount);
    SlackCovers(s);
    SlackCovers(WithdrawStep(s, owner, amount).value);
  }

  /** A step leaves the deposits covered exactly when it takes no more than the slack: a close when
      its profit is at most the pool less the shortfall, a funding credit likewise, a drained
      liquidation when the bounty is at most that and the funding it collects. */
  lemma {:induction false} CoverageSurvives(s: State, step: Step)
    requires Perform(s, step).Ok?
    ensures DepositsCovered(Next(s, step)) <==> Drain(s, step) <= s.market.realizedLossPool - Gap(s)
    ensures Backed(s) && !step.Liquidate? ==> DepositsCovered(Next(s, step))
  {
    SlackStep(s, step);
    SlackCovers(s);
    SlackCovers(Next(s, step));
    StepGap(s, step);
    hide Drain, Slack, Gap, Perform;
    if !step.Liquidate? {
      NoBounty(s, step);
    }
  }

  function Drains(s: State, steps: seq<Step>): int
    decreases |steps|
  {
    if steps == [] then 0
    else (if Perform(s, steps[0]).Ok? then Drain(s, steps[0]) else 0) + Drains(Next(s, steps[0]), steps[1..])
  }

  lemma {:induction false} SlackOverRun(s: State, steps: seq<Step>)
    ensures Slack(Run(s, steps)) == Slack(s) - Drains(s, steps)
    decreases |steps|
  {
    if steps != [] {
      if Perform(s, steps[0]).Ok? {
        SlackStep(s, steps[0]);
      }
      SlackOverRun(Next(s, steps[0]), steps[1..]);
    }
  }

  /** A run leaves the deposits covered exactly when its profits, credits and drained bounties took
      no more than there was, losses and funding included; starting from a backed state that is
      when the unfunded bounties are at most what the pool is left with. */
  lemma {:induction false} CoveredAfterRun(s: State, steps: seq<Step>)
    ensures DepositsCovered(Run(s, steps)) <==> Drains(s, steps) <= s.market.realizedLossPool - Gap(s)
    ensures Backed(s) ==>
      (DepositsCovered(Run(s, steps)) <==> UnfundedBounties(s, steps) <= Run(s, steps).market.realizedLossPool)
  {
    SlackOverRun(s, steps);
    RunGap(s, steps);
    SlackCovers(s);
    SlackCovers(Run(s, steps));
    hide Run, Drains, Slack, Gap;
  }
}
