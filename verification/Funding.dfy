/** Funding: rounding over many accruals, cancellation between the two halves of a pair, and
    independence of `update_funding` from when it is called. */
module Funding {
  import opened Types
  import opened Accounts
  import opened Ledger

  /** What a position of this notional owes when its index moves from `a` to `b`. */
  function Payment(notional: nat, a: int, b: int): int {
    TruncDiv((b - a) * notional, 10_000)
  }

  function Notional(p: Position): nat {
    p.sizeLots * p.entryPriceTicks
  }

  lemma {:induction false} TruncOdd(x: int, d: int)
    requires d > 0
    ensures TruncDiv(-x, d) == -TruncDiv(x, d)
  {
  }

  /** Truncation toward zero: splitting an amount moves at most one unit. */
  lemma {:induction false} TruncSplit(x: int, y: int)
    ensures -1 <= TruncDiv(x, 10_000) + TruncDiv(y, 10_000) - TruncDiv(x + y, 10_000) <= 1
  {
  }

  lemma {:induction false} PaymentSplit(notional: nat, a: int, b: int, c: int)
    ensures -1 <= Payment(notional, a, b) + Payment(notional, b, c) - Payment(notional, a, c) <= 1
    ensures a == b ==> Payment(notional, a, b) == 0
  {
    assert (b - a) * notional + (c - b) * notional == (c - a) * notional;
    TruncSplit((b - a) * notional, (c - b) * notional);
  }

  /** The 128-bit product never decides: the accrual is the exact payment or out of range. */
  lemma {:induction false} AccrualExact(p: Position, m: Market)
    ensures AccrueFundingInternal(p, m) ==
      if Notional(p) > U64_MAX then Err(Overflow)
      else FitI64(Payment(Notional(p), p.lastFundingIndex, CumFunding(m, p.side)))
  {
    if Notional(p) <= U64_MAX {
      var x := (CumFunding(m, p.side) - p.lastFundingIndex as int) * Notional(p);
      if x > I128_MAX {
        assert TruncDiv(x, 10_000) > I64_MAX;
      } else if x < I128_MIN {
        assert TruncDiv(x, 10_000) < I64_MIN;
      }
    }
  }

  // ----- one position over a run

  predicate IsOpen(s: State, key: PosKey) {
    key in s.positions && s.positions[key].status == Open
  }

  predicate AccruesAt(s: State, step: Step, key: PosKey) {
    step == Accrue(key) && Perform(s, step).Ok?
  }

  /** An open position that stays open is changed by its own accruals only. */
  lemma {:induction false} StepOnPosition(s: State, step: Step, key: PosKey)
    requires key in s.positions
    ensures key in Next(s, step).positions
    ensures s.positions[key].status != Open ==> Next(s, step).positions[key].status != Open
    ensures IsOpen(s, key) && IsOpen(Next(s, step), key) ==>
      var p, p' := s.positions[key], Next(s, step).positions[key];
      if AccruesAt(s, step, key)
      then p' == p.(
        collateralLocked := p'.collateralLocked,
        lastFundingIndex := CumFunding(s.market, p.side))
        && p'.collateralLocked == p.collateralLocked - Payment(Notional(p), p.lastFundingIndex, p'.lastFundingIndex)
      else p' == p
  {
    hide Payment, Notional, ComputePnl, ComputeCollateral, Judge, UpdatedFunding, AccrueFundingInternal, ApplyFundingDelta;
    if step.Accrue? {
      AccrualExact(s.positions[key], s.market);
      if AccrueStep(s, step.key).Ok? {
        DeltaOnPosition(TrioAt(s, step.key), AccrueFundingInternal(s.positions[step.key], s.market).value);
      }
    }
  }

  lemma {:induction false} DeltaOnPosition(t: Trio, delta: I64)
    requires ApplyFundingDelta(t, delta).Ok?
    ensures
      var t' := ApplyFundingDelta(t, delta).value;
      && t'.position == t.position.(collateralLocked := t'.position.collateralLocked)
      && t'.position.collateralLocked == t.position.collateralLocked - delta
      && t'.market.cumFundingLong == t.market.cumFundingLong && t'.market.cumFundingShort == t.market.cumFundingShort
  {
  }

  function Accruals(s: State, steps: seq<Step>, key: PosKey): nat
    decreases |steps|
  {
    if steps == [] then 0
    else (if AccruesAt(s, steps[0], key) then 1 else 0) + Accruals(Next(s, steps[0]), steps[1..], key)
  }

  /** A position that is no longer open never opens again. */
  lemma {:induction false} NeverReopens(s: State, steps: seq<Step>, key: PosKey)
    requires key in s.positions && s.positions[key].status != Open
    ensures !IsOpen(Run(s, steps), key)
    decreases |steps|
  {
    if steps != [] {
      StepOnPosition(s, steps[0], key);
      NeverReopens(Next(s, steps[0]), steps[1..], key);
    }
  }

  /** Funding paid in `k` accruals is the payment over the whole window, give or take `k - 1`. */
  lemma {:induction false} FundingOverRun(s: State, steps: seq<Step>, key: PosKey)
    requires IsOpen(s, key) && IsOpen(Run(s, steps), key)
    ensures
      var p, e, k := s.positions[key], Run(s, steps).positions[key], Accruals(s, steps, key);
      var paid := p.collateralLocked - e.collateralLocked;
      var owed := Payment(Notional(p), p.lastFundingIndex, e.lastFundingIndex);
      && e == p.(collateralLocked := e.collateralLocked, lastFundingIndex := e.lastFundingIndex)
      && (k == 0 ==> e == p)
      && (k > 0 ==> -(k - 1) <= paid - owed <= k - 1)
    decreases |steps|
  {
    if steps != [] {
      var s1 := Next(s, steps[0]);
      StepOnPosition(s, steps[0], key);
      if !IsOpen(s1, key) {
        NeverReopens(s1, steps[1..], key);
      }
      FundingOverRun(s1, steps[1..], key);
      hide Payment, Notional;
      var p, p1, e := s.positions[key], s1.positions[key], Run(s, steps).positions[key];
      assert Notional(p1) == Notional(p) by { NotionalOf(p, p1); }
      PaymentSplit(Notional(p), p.lastFundingIndex, p1.lastFundingIndex, e.lastFundingIndex);
      PaymentSplit(Notional(p), p1.lastFundingIndex, e.lastFundingIndex, e.lastFundingIndex);
    }
  }

  lemma {:induction false} NotionalOf(p: Position, q: Position)
    requires p.sizeLots == q.sizeLots && p.entryPriceTicks == q.entryPriceTicks
    ensures Notional(p) == Notional(q)
  {
  }

  // ----- the two halves of a pair

  /** Opposite sides, one size, one price, and indexes that mirror each other. */
  predicate Mirrored(long: Position, short: Position) {
    && long.side == Long && short.side == Short
    && long.sizeLots == short.sizeLots && long.entryPriceTicks == short.entryPriceTicks
    && long.lastFundingIndex + short.lastFundingIndex == 0
  }

  /** The position a claim opens for one side: the common size at the fill's price, the exact
      collateral for the side's leverage, and the side's present funding index. */
  predicate OpenedFor(p: Position, owner: Pubkey, side: Side, size: U64, price: U64, leverageBps: U16, index: I64, now: I64) {
    && p.owner == owner && p.side == side && p.status == Open && p.openedTs == now
    && p.sizeLots == size && p.entryPriceTicks == price
    && p.leverageBps == leverageBps > 0 && p.collateralLocked == size * price * 100 / leverageBps
    && p.lastFundingIndex == index
  }

  /** One claim opens such a pair: the taker long, the maker short. */
  lemma {:induction false} ClaimOpensMirrored(s: State, fill: Fill, taker: Reveal, maker: Reveal, now: I64)
    requires ClaimStep(s, fill, taker, maker, now).Ok? && s.market.cumFundingLong + s.market.cumFundingShort == 0
    ensures
      var s' := ClaimStep(s, fill, taker, maker, now).value;
      var long, short := s'.positions[NextKey(s, fill.taker)], s'.positions[NextKey(s, fill.maker)];
      && OpenedFor(long, fill.taker, Long, taker.size, fill.priceTicks, taker.leverageBps, s.market.cumFundingLong, now)
      && OpenedFor(short, fill.maker, Short, taker.size, fill.priceTicks, maker.leverageBps, s.market.cumFundingShort, now)
      && Mirrored(long, short)
  {
    CollateralOk(taker.size, fill.priceTicks, taker.leverageBps);
    CollateralOk(maker.size, fill.priceTicks, maker.leverageBps);
    hide ComputeCollateral;
  }

  lemma {:induction false} CollateralOk(size: U64, price: U64, leverageBps: U16)
    ensures ComputeCollateral(size, price, leverageBps).Ok? ==>
      leverageBps > 0 && ComputeCollateral(size, price, leverageBps).value == size * price * 100 / leverageBps
  {
    if leverageBps > 0 {
      CollateralExact(size, price, leverageBps);
    }
  }

  lemma {:induction false} MirroredPayments(notional: nat, a: int, b: int)
    ensures Payment(notional, a, b) + Payment(notional, -a, -b) == 0
  {
    assert (-b - -a) * notional == -((b - a) * notional);
    TruncOdd((b - a) * notional, 10_000);
  }

  function Slack(accruals: nat): nat {
    if accruals == 0 then 0 else accruals - 1
  }

  /** What one half of a pair pays the other receives, up to one unit for every accrual after the
      first on either side; accrued once each over the same window, they cancel exactly. */
  lemma {:induction false} PairFundingCancels(s: State, steps: seq<Step>, longKey: PosKey, shortKey: PosKey)
    requires IsOpen(s, longKey) && IsOpen(s, shortKey)
    requires IsOpen(Run(s, steps), longKey) && IsOpen(Run(s, steps), shortKey)
    requires Mirrored(s.positions[longKey], s.positions[shortKey])
    requires Mirrored(Run(s, steps).positions[longKey], Run(s, steps).positions[shortKey])
    ensures
      var end := Run(s, steps);
      var paidByLong := s.positions[longKey].collateralLocked - end.positions[longKey].collateralLocked;
      var paidByShort := s.positions[shortKey].collateralLocked - end.positions[shortKey].collateralLocked;
      var slack := Slack(Accruals(s, steps, longKey)) + Slack(Accruals(s, steps, shortKey));
      -slack <= paidByLong + paidByShort <= slack
  {
    FundingOverRun(s, steps, longKey);
    FundingOverRun(s, steps, shortKey);
    var long, short := s.positions[longKey], s.positions[shortKey];
    var a, b := long.lastFundingIndex, Run(s, steps).positions[longKey].lastFundingIndex;
    hide Payment, Notional;
    NotionalOf(long, short);
    MirroredPayments(Notional(long), a, b);
    PaymentSplit(Notional(long), a, a, a);
    PaymentSplit(Notional(long), -a, -a, -a);
  }

  // ----- the rate

  /** With open interest in range the wrap-around cast is exact, the rate is the truncated share
      of 2000 bps, and the clamp never changes it. */
  lemma {:induction false} RateExact(m: Market)
    requires (m.totalLongSize + m.totalShortSize as int) * MAX_FUNDING_BPS_PER_INTERVAL <= I64_MAX
    ensures FundingRate(m) == Ok(
      if m.totalLongSize + m.totalShortSize as int == 0 then 0
      else TruncDiv((m.totalLongSize - m.totalShortSize as int) * MAX_FUNDING_BPS_PER_INTERVAL,
                    m.totalLongSize + m.totalShortSize as int))
    ensures -MAX_FUNDING_BPS_PER_INTERVAL <= FundingRate(m).value <= MAX_FUNDING_BPS_PER_INTERVAL
  {
    var total, diff := m.totalLongSize + m.totalShortSize as int, m.totalLongSize - m.totalShortSize as int;
    assert AsI64(m.totalLongSize) == m.totalLongSize && AsI64(m.totalShortSize) == m.totalShortSize;
    if total > 0 {
      ShareBound(diff, total, MAX_FUNDING_BPS_PER_INTERVAL);
    }
  }

  /** Whatever the open interest, a rate that is computed is at most 2000 bps either way. */
  lemma {:induction false} RateBounded(m: Market)
    requires FundingRate(m).Ok?
    ensures -2_000 <= FundingRate(m).value <= 2_000
  {
    hide TruncDiv, AsI64;
  }

  /** Division on the machine rounds toward zero. */
  lemma {:induction false} TruncExact(x: int, d: int)
    requires d > 0
    ensures 0 <= x ==> TruncDiv(x, d) == x / d
    ensures x < 0 ==> TruncDiv(x, d) == -(-x / d)
  {
  }

  /** The cast of a 64-bit size wraps. */
  lemma {:induction false} CastExact(x: U64)
    ensures AsI64(x) == if x < 0x8000_0000_0000_0000 then x else x - 0x1_0000_0000_0000_0000
  {
  }

  /** A share of `scale` no larger than the whole is at most `scale`, rounded or not. */
  lemma {:induction false} ShareBound(part: int, total: int, scale: int)
    requires 0 < total && -total <= part <= total && 0 <= scale
    ensures -scale <= TruncDiv(part * scale, total) <= scale
    ensures -(total * scale) <= part * scale <= total * scale
  {
    var size := Abs(part) * scale;
    AbsScaled(part, scale);
    MulMono(Abs(part), total, scale);
    MulMono(scale, scale + 1, total);
    QuotientBelow(size, total, scale + 1);
    TruncSize(part * scale, total);
  }

  lemma {:induction false} AbsScaled(part: int, scale: nat)
    ensures Abs(part * scale) == Abs(part) * scale
  {
    if part < 0 {
      assert part * scale == -(-part * scale);
      MulMono(0, -part, scale);
    } else {
      MulMono(0, part, scale);
    }
  }

  lemma {:induction false} TruncSize(x: int, d: int)
    requires d > 0
    ensures Abs(TruncDiv(x, d)) == Abs(x) / d
  {
  }

  // ----- the calling schedule

  /** The index after a successful update: within one interval of now, a whole number of intervals
      later, and the funding index moved by the rate once per interval. */
  lemma {:induction false} UpdateAdvances(m: Market, now: I64)
    requires UpdatedFunding(m, now).Ok?
    ensures
      var m', i := UpdatedFunding(m, now).value, m.fundingIntervalSecs;
      var n := (now - m.lastFundingTs as int) / i;
      && 0 <= now - m'.lastFundingTs as int < i && n >= 1
      && m'.lastFundingTs == m.lastFundingTs as int + n * i
      && m'.cumFundingLong - m.cumFundingLong as int == FundingRate(m).value * n
      && m'.cumFundingShort - m.cumFundingShort as int == -(FundingRate(m).value * n)
  {
    hide FundingRate;
    var elapsed, i := now - m.lastFundingTs as int, m.fundingIntervalSecs;
    assert elapsed == i * (elapsed / i) + elapsed % i;
    QuotientBelow(elapsed, i, 1);
  }

  lemma {:induction false} DivUnique(x: int, d: int, q: int, r: int)
    requires 0 <= r < d && x == d * q + r
    ensures x / d == q && x % d == r
  {
    var q', r' := x / d, x % d;
    assert d * (q - q') == r' - r && d * (q' - q) == r - r';
    if q' < q {
      MulMono(1, q - q', d);
    } else if q < q' {
      MulMono(1, q' - q, d);
    }
  }

  /** Multiplication under a name, for proofs that only use the facts stated about it. */
  function Times(a: int, b: int): int {
    a * b
  }

  /** A multiple of the rate lies between zero and any larger multiple. */
  lemma {:induction false} Between(rate: int, n: nat, all: nat)
    requires n <= all
    ensures 0 <= Times(rate, n) <= Times(rate, all) || Times(rate, all) <= Times(rate, n) <= 0
    ensures Times(rate, n) + Times(rate, all - n) == Times(rate, all)
  {
    MulMono(n, all, Abs(rate));
    MulMono(0, n, Abs(rate));
  }

  /** The market moved by `shift` index points, up to date as of `ts`. */
  predicate Moved(m: Market, shift: int, ts: int, m': Market) {
    && I64_MIN <= shift <= I64_MAX
    && m'.cumFundingLong == m.cumFundingLong as int + shift
    && m'.cumFundingShort == m.cumFundingShort as int - shift
    && m'.lastFundingTs == ts
    && m' == m.(cumFundingLong := m'.cumFundingLong, cumFundingShort := m'.cumFundingShort, lastFundingTs := m'.lastFundingTs)
  }

  /** `update_funding` in terms of the number of whole intervals elapsed. */
  lemma {:induction false} UpdateIs(m: Market, now: I64, n: nat, rest: nat, rate: I64, m': Market)
    requires rest < m.fundingIntervalSecs && n >= 1
    requires now - m.lastFundingTs as int == n * m.fundingIntervalSecs + rest <= I64_MAX
    requires FundingRate(m) == Ok(rate) && Moved(m, rate * n, now - rest, m')
    ensures UpdatedFunding(m, now) == Ok(m')
  {
    hide FundingRate;
    DivUnique(now - m.lastFundingTs as int, m.fundingIntervalSecs, n, rest);
    MulMono(1, n, m.fundingIntervalSecs);
  }

  /** A successful update, as a number of whole intervals and what is left of the last one. */
  lemma {:induction false} UpdateShape(m: Market, now: I64) returns (n: nat, rest: nat, shift: int)
    requires UpdatedFunding(m, now).Ok?
    ensures n >= 1 && rest < m.fundingIntervalSecs
    ensures now - m.lastFundingTs as int == Times(n, m.fundingIntervalSecs) + rest <= I64_MAX
    ensures FundingRate(m).Ok? && shift == Times(FundingRate(m).value, n)
    ensures Moved(m, shift, now - rest, UpdatedFunding(m, now).value)
  {
    hide FundingRate;
    var elapsed, i := now - m.lastFundingTs as int, m.fundingIntervalSecs;
    n, rest := elapsed / i, elapsed % i;
    shift := FundingRate(m).value * n;
  }

  /** From a market moved to `m1`, the update at `now` makes the rest of the move to `m2`. */
  lemma {:induction false} UpdateRest(m: Market, a: int, ts: int, m1: Market, b: int, m2: Market,
      now: I64, n: nat, rest: nat, rate: I64)
    requires Moved(m, a, ts, m1) && Moved(m, b, now - rest, m2)
    requires 0 <= a <= b || b <= a <= 0
    requires FundingRate(m) == Ok(rate) && b - a == Times(rate, n)
    requires rest < m.fundingIntervalSecs && now - ts == Times(n, m.fundingIntervalSecs) + rest <= I64_MAX
    ensures if n >= 1 then UpdatedFunding(m1, now) == Ok(m2)
            else UpdatedFunding(m1, now) == Err(FundingIntervalNotElapsed) && m1 == m2
  {
    assert FundingRate(m1) == FundingRate(m);
    if n >= 1 {
      UpdateIs(m1, now, n, rest, rate, m2);
    } else {
      TooEarly(m1, now);
    }
  }

  /** Calling at `t` and then at `now` gives what the one call at `now` gives; a second call that
      comes too early means that the first had already done everything. */
  lemma {:induction false} UpdateTwice(m: Market, t: I64, now: I64, m1: Market)
    requires t <= now && UpdatedFunding(m, t) == Ok(m1) && UpdatedFunding(m, now).Ok?
    ensures UpdatedFunding(m1, now) == UpdatedFunding(m, now)
      || (UpdatedFunding(m1, now) == Err(FundingIntervalNotElapsed) && UpdatedFunding(m, now) == Ok(m1))
  {
    hide FundingRate, UpdatedFunding, Moved, Times;
    var n1, rest1, shift1 := UpdateShape(m, t);
    var n2, rest2, shift2 := UpdateShape(m, now);
    MoreIntervals(n1, rest1, n2, rest2, m.fundingIntervalSecs);
    Between(FundingRate(m).value, n1, n2);
    UpdateRest(m, shift1, t - rest1, m1, shift2, UpdatedFunding(m, now).value, now, n2 - n1, rest2, FundingRate(m).value);
  }

  lemma {:induction false} MoreIntervals(n1: nat, rest1: nat, n2: nat, rest2: nat, i: int)
    requires rest1 < i && rest2 < i && Times(n1, i) + rest1 <= Times(n2, i) + rest2
    ensures n1 <= n2 && Times(n2 - n1, i) == Times(n2, i) - Times(n1, i) && Times(n1, i) >= 0
  {
    MulMono(0, n1, i);
    if n2 < n1 {
      MulMono(n2 + 1, n1, i);
    }
  }

  lemma {:induction false} TooEarly(m: Market, now: I64)
    requires 0 <= now - m.lastFundingTs as int < m.fundingIntervalSecs
    ensures UpdatedFunding(m, now) == Err(FundingIntervalNotElapsed)
  {
  }

  /** If the call at `now` succeeds, an earlier one succeeds too or comes too early. */
  lemma {:induction false} EarlierCall(m: Market, t: I64, now: I64)
    requires t <= now
    ensures UpdatedFunding(m, now).Ok? ==>
      UpdatedFunding(m, t).Ok? || UpdatedFunding(m, t).error == FundingIntervalNotElapsed || t < m.lastFundingTs
    ensures UpdatedFunding(m, now) == Err(FundingIntervalNotElapsed) ==> UpdatedFunding(m, t).Err?
  {
    if UpdatedFunding(m, now).Ok? && t >= m.lastFundingTs && t - m.lastFundingTs as int >= m.fundingIntervalSecs {
      var i, rate := m.fundingIntervalSecs, FundingRate(m).value;
      var n, all := (t - m.lastFundingTs as int) / i, (now - m.lastFundingTs as int) / i;
      UpdateAdvances(m, now);
      hide FundingRate;
      assert n <= all by {
        QuotientBelow(t - m.lastFundingTs as int, i, all + 1);
        QuotientBelow(now - m.lastFundingTs as int, i, all + 1);
      }
      Between(rate, n, all);
    }
  }

  /** The market after a list of calls; a rejected call changes nothing. */
  function Calls(m: Market, times: seq<I64>): Market
    decreases |times|
  {
    if times == [] then m
    else Calls(match UpdatedFunding(m, times[0]) case Ok(m1) => m1 case Err(_) => m, times[1..])
  }

  predicate Increasing(times: seq<I64>) {
    forall i, j | 0 <= i < j < |times| :: times[i] <= times[j]
  }

  /** With open interest unchanged, an increasing schedule of calls ends in the result of its last
      call if that succeeds, and unchanged if that comes too early. */
  lemma {:induction false} ScheduleFollowsLast(m: Market, times: seq<I64>)
    requires times != [] && Increasing(times)
    ensures UpdatedFunding(m, times[|times| - 1]).Ok? ==>
      Ok(Calls(m, times)) == UpdatedFunding(m, times[|times| - 1])
    ensures UpdatedFunding(m, times[|times| - 1]) == Err(FundingIntervalNotElapsed) ==> Calls(m, times) == m
    decreases |times|
  {
    var t, now, rest := times[0], times[|times| - 1], times[1..];
    hide UpdatedFunding;
    if rest == [] {
      assert Calls(m, times) == match UpdatedFunding(m, t) case Ok(m1) => m1 case Err(_) => m;
    } else {
      assert rest[|rest| - 1] == now && t <= now;
      EarlierCall(m, t, now);
      match UpdatedFunding(m, t) {
        case Ok(m1) =>
          if UpdatedFunding(m, now).Ok? {
            UpdateTwice(m, t, now, m1);
          }
          ScheduleFollowsLast(m1, rest);
        case Err(_) => ScheduleFollowsLast(m, rest);
      }
    }
  }

  /** A whole interval has passed. */
  predicate IntervalPassed(m: Market, now: I64) {
    0 < m.fundingIntervalSecs as int <= now - m.lastFundingTs
  }

  /** The move of the indexes stays within 64 bits. */
  predicate MoveFits(m: Market, now: I64)
    requires m.fundingIntervalSecs > 0
  {
    var elapsed := now - m.lastFundingTs as int;
    && elapsed <= I64_MAX && FundingRate(m).Ok?
    && var move := FundingRate(m).value * (elapsed / m.fundingIntervalSecs);
    && I64_MIN <= move <= I64_MAX
    && I64_MIN <= m.cumFundingLong + move <= I64_MAX
    && I64_MIN <= m.cumFundingShort - move <= I64_MAX
  }

  /** When an update succeeds, as a test on clock and market. */
  predicate Updatable(m: Market, now: I64) {
    IntervalPassed(m, now) && MoveFits(m, now)
  }

  lemma {:induction false} UpdateExact(m: Market, now: I64)
    ensures UpdatedFunding(m, now).Ok? <==> Updatable(m, now)
    ensures UpdatedFunding(m, now).Err? ==> UpdatedFunding(m, now).error in {Overflow, FundingIntervalNotElapsed}
    ensures IntervalPassed(m, now) && !MoveFits(m, now) ==> UpdatedFunding(m, now) == Err(Overflow)
    ensures !IntervalPassed(m, now) && I64_MIN <= now - m.lastFundingTs as int <= I64_MAX ==>
      UpdatedFunding(m, now) == Err(FundingIntervalNotElapsed)
  {
    assert FundingRate(m).Err? ==> FundingRate(m).error == Overflow;
    hide FundingRate;
  }

  predicate SomeUpdatable(m: Market, times: seq<I64>) {
    exists i :: 0 <= i < |times| && Updatable(m, times[i])
  }

  /** A list of calls changes the market exactly if one of them would succeed on its own. */
  lemma {:induction false} CallsAdvance(m: Market, times: seq<I64>)
    ensures Calls(m, times).lastFundingTs >= m.lastFundingTs
    ensures Calls(m, times) != m <==> SomeUpdatable(m, times)
    decreases |times|
  {
    hide UpdatedFunding, Updatable;
    if times != [] {
      UpdateExact(m, times[0]);
      match UpdatedFunding(m, times[0]) {
        case Ok(m1) =>
          UpdateAdvances(m, times[0]);
          LaterBy((times[0] - m.lastFundingTs as int) / m.fundingIntervalSecs, m.fundingIntervalSecs);
          CallsAdvance(m1, times[1..]);
        case Err(_) =>
          CallsAdvance(m, times[1..]);
          assert forall i | 0 < i < |times| :: times[i] == times[1..][i - 1];
      }
    }
  }

  lemma {:induction false} LaterBy(n: int, i: int)
    requires n >= 1 && i > 0
    ensures n * i > 0
  {
  }

  /** With open interest unchanged, an increasing schedule of calls ends where its last call alone
      would have ended, exactly unless at the last one the indexes would leave 64 bits and at
      another one they would not. */
  lemma {:induction false} ScheduleIndependent(m: Market, times: seq<I64>)
    requires times != [] && Increasing(times)
    ensures Calls(m, times) == Calls(m, [times[|times| - 1]]) <==>
      !(IntervalPassed(m, times[|times| - 1]) && !MoveFits(m, times[|times| - 1]) && SomeUpdatable(m, times))
  {
    var now := times[|times| - 1];
    ScheduleFollowsLast(m, times);
    CallsAdvance(m, times);
    UpdateExact(m, now);
    if i :| 0 <= i < |times| && Updatable(m, times[i]) {
      assert times[i] <= now;
      assert IntervalPassed(m, times[i]) && IntervalPassed(m, now);
    }
    hide UpdatedFunding, MoveFits;
    assert [now][1..] == [];
    assert Calls(m, [now]) == Calls(match UpdatedFunding(m, now) case Ok(m1) => m1 case Err(_) => m, []);
  }

  // ----- the indexes of a market that started at `start`

  /** The indexes have moved by at most the largest rate per interval since the start. */
  predicate IndexesBounded(m: Market, start: int) {
    && start <= m.lastFundingTs
    && m.cumFundingLong + m.cumFundingShort == 0
    && Abs(m.cumFundingLong) * Abs(m.fundingIntervalSecs) <= MAX_FUNDING_BPS_PER_INTERVAL * (m.lastFundingTs - start)
  }

  predicate RateInRange(m: Market) {
    FundingRate(m).Ok? && -MAX_FUNDING_BPS_PER_INTERVAL <= FundingRate(m).value <= MAX_FUNDING_BPS_PER_INTERVAL
  }

  /** An index moved by `n` rates, weighed with the interval. */
  lemma {:induction false} MoveBound(index: int, rate: int, n: nat, i: int, bound: int)
    requires i >= 1 && Abs(index) * i <= bound && -MAX_FUNDING_BPS_PER_INTERVAL <= rate <= MAX_FUNDING_BPS_PER_INTERVAL
    ensures Abs(index + rate * n) * i <= bound + MAX_FUNDING_BPS_PER_INTERVAL * (n * i)
    ensures Abs(index + rate * n) <= bound + MAX_FUNDING_BPS_PER_INTERVAL * (n * i)
    ensures Abs(rate * n) <= MAX_FUNDING_BPS_PER_INTERVAL * (n * i)
  {
    var size := Abs(rate) * n;
    AbsScaled(rate, n);
    MulMono(Abs(rate), MAX_FUNDING_BPS_PER_INTERVAL, n);
    MulMono(1, i, n);
    MulMono(Abs(index + rate * n), Abs(index) + size, i);
    MulMono(size, MAX_FUNDING_BPS_PER_INTERVAL * n, i);
    Grouped(Abs(index), size, n, i);
    MulMono(1, i, Abs(index + rate * n));
  }

  lemma {:induction false} Grouped(index: nat, size: nat, n: nat, i: int)
    ensures (index + size) * i == index * i + size * i
    ensures MAX_FUNDING_BPS_PER_INTERVAL * n * i == MAX_FUNDING_BPS_PER_INTERVAL * (n * i)
  {
  }

  lemma {:induction false} UpdateKeepsBound(m: Market, now: I64, start: int)
    requires IndexesBounded(m, start) && RateInRange(m) && UpdatedFunding(m, now).Ok?
    ensures IndexesBounded(UpdatedFunding(m, now).value, start)
  {
    UpdateAdvances(m, now);
    var m', i, rate := UpdatedFunding(m, now).value, m.fundingIntervalSecs, FundingRate(m).value;
    var n := (now - m.lastFundingTs as int) / i;
    assert m'.fundingIntervalSecs == i && i > 0;
    hide FundingRate, UpdatedFunding;
    MoveBound(m.cumFundingLong, rate, n, i, MAX_FUNDING_BPS_PER_INTERVAL * (m.lastFundingTs - start));
    LaterBy(n, i);
  }

  /** While 2000 times the seconds since the start fit 64 bits, an update succeeds exactly if a
      whole interval has passed: the indexes cannot leave their range. */
  lemma {:induction false} UpdatesInTime(m: Market, now: I64, start: int)
    requires IndexesBounded(m, start) && RateInRange(m)
    requires MAX_FUNDING_BPS_PER_INTERVAL * (now - start) <= I64_MAX
    ensures UpdatedFunding(m, now).Ok? <==> IntervalPassed(m, now)
  {
    UpdateExact(m, now);
    hide FundingRate, UpdatedFunding;
    if IntervalPassed(m, now) {
      var elapsed, i, rate := now - m.lastFundingTs as int, m.fundingIntervalSecs, FundingRate(m).value;
      var n := elapsed / i;
      assert elapsed == i * n + elapsed % i;
      MoveBound(m.cumFundingLong, rate, n, i, MAX_FUNDING_BPS_PER_INTERVAL * (m.lastFundingTs - start));
      assert n * i <= elapsed;
      assert MoveFits(m, now);
    }
  }

  /** Within that time the calling schedule makes no difference at all. */
  lemma {:induction false} ScheduleFreeInTime(m: Market, times: seq<I64>, start: int)
    requires IndexesBounded(m, start) && RateInRange(m)
    requires times != [] && Increasing(times) && MAX_FUNDING_BPS_PER_INTERVAL * (times[|times| - 1] - start) <= I64_MAX
    ensures Calls(m, times) == Calls(m, [times[|times| - 1]])
  {
    ScheduleIndependent(m, times);
    UpdatesInTime(m, times[|times| - 1], start);
    UpdateExact(m, times[|times| - 1]);
    hide IndexesBounded, RateInRange, UpdatedFunding, Calls;
  }
}
