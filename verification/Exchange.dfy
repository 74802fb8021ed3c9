/** The order book and the ledger together: runs of the instructions of one market, where a
    claim takes a pending fill from the book and opens its pair on the ledger. */
module Exchange {
  import opened Types
  import opened Accounts
  import opened Ring
  import Lifecycle
  import opened Ledger
  import opened Consistency
  import Funding

  const LARGEST_BAND := 1_000_000

  datatype World = World(history: Lifecycle.History, ledger: State)

  datatype Instruction =
    | Place(isBid: bool, order: Order, accepted: bool)
    | Cancel(id: U64)
    | Match(slot: U64)
    | ClaimFill(fill: Fill, taker: Reveal, maker: Reveal, now: I64)
    | OnLedger(step: Step)

  function Advance(w: World, x: Instruction): World
    requires w.history.book.fillCount <= MAX_FILLS
  {
    match x
    case Place(isBid, order, accepted) => w.(history := Lifecycle.Apply(w.history, Lifecycle.Place(isBid, order, accepted)))
    case Cancel(id) => w.(history := Lifecycle.Apply(w.history, Lifecycle.Cancel(id)))
    case Match(slot) => w.(history := Lifecycle.Apply(w.history, Lifecycle.Match(slot)))
    case ClaimFill(fill, taker, maker, now) =>
      if fill in w.history.book.pending && ClaimStep(w.ledger, fill, taker, maker, now).Ok?
      then World(Lifecycle.Apply(w.history, Lifecycle.Settle(fill)), ClaimStep(w.ledger, fill, taker, maker, now).value)
      else w
    case OnLedger(step) => if step.Claim? then w else w.(ledger := Next(w.ledger, step))
  }

  /** Fills claimed so far. */
  function Claims(w: World): nat {
    |w.history.claims|
  }

  ghost predicate Bounded(s: State, claims: nat) {
    && s.market.totalLongSize <= LARGEST_BAND * claims
    && s.market.totalShortSize <= LARGEST_BAND * claims
    && |s.positions| == 2 * claims
    && (forall user | user in s.users :: s.users[user].nextPositionIdx <= claims)
  }

  ghost predicate WorldInvariant(w: World) {
    && Lifecycle.RunInvariant(w.history)
    && w.history.book.fillCount == |w.history.fills|
    && Consistent(w.ledger)
    && Bounded(w.ledger, Claims(w))
  }

  function Fresh(interval: I64, maxLeverageBps: U16, now: I64): World {
    World(Lifecycle.START, Genesis(interval, maxLeverageBps, now))
  }

  lemma {:induction false} FreshInvariant(interval: I64, maxLeverageBps: U16, now: I64)
    ensures WorldInvariant(Fresh(interval, maxLeverageBps, now))
  {
    Lifecycle.StartInvariant();
    GenesisConsistent(interval, maxLeverageBps, now);
  }

  function UpTo(n: nat): set<int> {
    if n == 0 then {} else UpTo(n - 1) + {n}
  }

  lemma {:induction false} UpToSize(n: nat)
    ensures |UpTo(n)| == n && forall x :: x in UpTo(n) <==> 1 <= x <= n
  {
    if n > 0 {
      UpToSize(n - 1);
    }
  }

  function Elements(xs: seq<int>): set<int> {
    set x | x in xs
  }

  lemma {:induction false} ElementsSize(xs: seq<int>)
    requires forall i, j | 0 <= i < j < |xs| :: xs[i] != xs[j]
    ensures |Elements(xs)| == |xs|
  {
    if xs != [] {
      ElementsSize(xs[1..]);
      assert Elements(xs) == Elements(xs[1..]) + {xs[0]};
    }
  }

  /** Numbers from 1 to `n` without repetition are at most `n` many. */
  lemma {:induction false} DistinctUpTo(xs: seq<int>, n: nat)
    requires forall i, j | 0 <= i < j < |xs| :: xs[i] != xs[j]
    requires forall x | x in xs :: 1 <= x <= n
    ensures |xs| <= n
  {
    UpToSize(n);
    ElementsSize(xs);
    assert UpTo(n) == Elements(xs) + (UpTo(n) - Elements(xs));
  }

  lemma {:induction false} ClaimsWithinFills(w: World)
    requires WorldInvariant(w)
    ensures Claims(w) <= |w.history.fills| <= MAX_FILLS
  {
    DistinctUpTo(w.history.claims, |w.history.fills|);
  }

  /** Three records changed together, open interest not raised. */
  lemma {:induction false} StoreBounded(s: State, key: PosKey, t: Trio, claims: nat)
    requires Bounded(s, claims) && Loaded(s, key)
    requires t.market.totalLongSize <= s.market.totalLongSize && t.market.totalShortSize <= s.market.totalShortSize
    requires t.user.nextPositionIdx == s.users[s.positions[key].owner].nextPositionIdx
    ensures Bounded(Store(s, key, t), claims)
  {
    assert |s.positions[key := t.position]| == |s.positions|;
  }

  lemma {:induction false} CloseBounded(s: State, key: PosKey, caller: Pubkey, mark: U64, claims: nat)
    requires Bounded(s, claims) && CloseStep(s, key, caller, mark).Ok?
    ensures Bounded(CloseStep(s, key, caller, mark).value, claims)
  {
    hide ComputePnl, Bounded;
    StoreBounded(s, key, AfterClose(TrioAt(s, key), mark).value, claims);
  }

  lemma {:induction false} LiquidateBounded(s: State, key: PosKey, liquidator: Pubkey, mark: U64, claims: nat)
    requires Bounded(s, claims) && LiquidateStep(s, key, liquidator, mark).Ok?
    ensures Bounded(LiquidateStep(s, key, liquidator, mark).value, claims)
  {
    var t := Accrued(TrioAt(s, key)).value;
    AccruedSizes(TrioAt(s, key));
    StoreBounded(s, key, AfterLiquidation(t, Judge(t.position, mark).value).value, claims);
    hide Accrued, Judge, AfterLiquidation, Store;
  }

  lemma {:induction false} AccruedSizes(t: Trio)
    requires Accrued(t).Ok?
    ensures Accrued(t).value.market.totalLongSize == t.market.totalLongSize
    ensures Accrued(t).value.market.totalShortSize == t.market.totalShortSize
    ensures Accrued(t).value.user.nextPositionIdx == t.user.nextPositionIdx
  {
    hide AccrueFundingInternal;
  }

  /** Only a claim adds open interest, positions or position indexes. */
  lemma {:induction false} LedgerStepBounded(s: State, step: Step, claims: nat)
    requires Bounded(s, claims) && !step.Claim?
    ensures Bounded(Next(s, step), claims)
  {
    hide UpdatedFunding, CloseStep, LiquidateStep, Accrued;
    if Perform(s, step).Ok? {
      match step
      case UpdateFunding(now) => OnlyFunding(s.market, now);
      case Accrue(key) =>
        AccruedSizes(TrioAt(s, key));
        StoreBounded(s, key, Accrued(TrioAt(s, key)).value, claims);
      case Liquidate(key, liquidator, mark) => LiquidateBounded(s, key, liquidator, mark, claims);
      case Close(key, caller, mark) => CloseBounded(s, key, caller, mark, claims);
      case CloseAndWithdraw(key, caller, mark, payout) => CloseBounded(s, key, caller, mark, claims);
      case _ =>
    }
  }

  lemma {:induction false} OnlyFunding(m: Market, now: I64)
    requires UpdatedFunding(m, now).Ok?
    ensures UpdatedFunding(m, now).value.totalLongSize == m.totalLongSize
    ensures UpdatedFunding(m, now).value.totalShortSize == m.totalShortSize
  {
  }

  lemma {:induction false} BandLimit(band: nat)
    requires BandMaxLots(band).Ok?
    ensures BandMaxLots(band).value <= LARGEST_BAND
  {
  }

  /** One claim opens exactly one pair, of at most the largest band's size. */
  lemma {:induction false} ClaimBounded(s: State, fill: Fill, taker: Reveal, maker: Reveal, now: I64, claims: nat)
    requires Bounded(s, claims) && ClaimStep(s, fill, taker, maker, now).Ok?
    ensures Bounded(ClaimStep(s, fill, taker, maker, now).value, claims + 1)
  {
    hide ComputeCollateral, BandMaxLots;
    BandLimit(fill.sizeBand);
    var s' := ClaimStep(s, fill, taker, maker, now).value;
    var longKey, shortKey := NextKey(s, taker.user), NextKey(s, maker.user);
    assert |s.positions[longKey := s'.positions[longKey]]| == |s.positions| + 1;
    assert s'.positions == s.positions[longKey := s'.positions[longKey]][shortKey := s'.positions[shortKey]];
  }

  lemma {:induction false} AdvanceKeepsInvariant(w: World, x: Instruction)
    requires WorldInvariant(w)
    ensures WorldInvariant(Advance(w, x))
  {
    hide Lifecycle.RunInvariant, Consistent, Bounded;
    match x
    case Place(isBid, order, accepted) => BookStep(w.history, Lifecycle.Place(isBid, order, accepted));
    case Cancel(id) => BookStep(w.history, Lifecycle.Cancel(id));
    case Match(slot) => BookStep(w.history, Lifecycle.Match(slot));
    case ClaimFill(fill, taker, maker, now) =>
      if fill in w.history.book.pending && ClaimStep(w.ledger, fill, taker, maker, now).Ok? {
        BookStep(w.history, Lifecycle.Settle(fill));
        ClaimConsistent(w.ledger, fill, taker, maker, now);
        ClaimBounded(w.ledger, fill, taker, maker, now, Claims(w));
      }
    case OnLedger(step) =>
      StepKeepsConsistent(w.ledger, step);
      if !step.Claim? {
        LedgerStepBounded(w.ledger, step, Claims(w));
      }
  }

  lemma {:induction false} BookStep(h: Lifecycle.History, op: Lifecycle.Op)
    requires Lifecycle.RunInvariant(h) && h.book.fillCount == |h.fills| && !op.Recycle?
    ensures Lifecycle.RunInvariant(Lifecycle.Apply(h, op))
    ensures Lifecycle.Apply(h, op).book.fillCount == |Lifecycle.Apply(h, op).fills|
    ensures !op.Settle? ==> Lifecycle.Apply(h, op).claims == h.claims
    ensures op.Settle? && op.fill in h.book.pending ==> |Lifecycle.Apply(h, op).claims| == |h.claims| + 1
  {
    Lifecycle.StepKeepsInvariant(h, op);
    Lifecycle.OnChainStep(h, op);
  }

  function Run(w: World, xs: seq<Instruction>): World
    requires WorldInvariant(w)
    decreases |xs|
  {
    if xs == [] then w
    else
      AdvanceKeepsInvariant(w, xs[0]);
      Run(Advance(w, xs[0]), xs[1..])
  }

  lemma {:induction false} RunInvariant(w: World, xs: seq<Instruction>)
    requires WorldInvariant(w)
    ensures WorldInvariant(Run(w, xs))
    decreases |xs|
  {
    if xs != [] {
      AdvanceKeepsInvariant(w, xs[0]);
      RunInvariant(Advance(w, xs[0]), xs[1..]);
    }
  }

  /** Over every run: at most 256 fills, at most one pair of positions for each, and open interest
      so small that the signed cast in the rate is exact and the clamp never binds. */
  lemma {:induction false} RunLimits(w: World, xs: seq<Instruction>)
    requires WorldInvariant(w)
    ensures
      var end := Run(w, xs);
      && Claims(end) <= |end.history.fills| <= MAX_FILLS
      && |end.ledger.positions| == 2 * Claims(end) <= 512
      && end.ledger.market.totalLongSize <= 256_000_000 && end.ledger.market.totalShortSize <= 256_000_000
      && FundingRate(end.ledger.market).Ok?
      && -MAX_FUNDING_BPS_PER_INTERVAL <= FundingRate(end.ledger.market).value <= MAX_FUNDING_BPS_PER_INTERVAL
  {
    RunInvariant(w, xs);
    hide WorldInvariant, FundingRate;
    var end := Run(w, xs);
    EndLimits(end);
    Funding.RateExact(end.ledger.market);
  }

  lemma {:induction false} EndLimits(w: World)
    requires WorldInvariant(w)
    ensures Claims(w) <= |w.history.fills| <= MAX_FILLS && |w.ledger.positions| == 2 * Claims(w)
    ensures w.ledger.market.totalLongSize <= 256_000_000 && w.ledger.market.totalShortSize <= 256_000_000
  {
    ClaimsWithinFills(w);
  }

  /** The collateral for the revealed size and leverage is a 64-bit amount and unlocked. */
  predicate Affordable(u: UserAccount, priceTicks: U64, size: U64, leverageBps: U16) {
    leverageBps > 0
    && var collateral := size * priceTicks * 100 / leverageBps;
    collateral <= U64_MAX && (collateral == 0 || collateral <= u.depositedAmount - u.lockedAmount)
  }

  lemma {:induction false} OpensExactly(u: UserAccount, owner: Pubkey, side: Side, size: U64, priceTicks: U64, leverageBps: U16,
      cumFunding: I64, now: I64)
    requires u.nextPositionIdx < U64_MAX
    ensures OpenPosition(u, owner, side, size, priceTicks, leverageBps, cumFunding, now).Ok? <==>
      Affordable(u, priceTicks, size, leverageBps)
    ensures OpenPosition(u, owner, side, size, priceTicks, leverageBps, cumFunding, now).Err? ==>
      OpenPosition(u, owner, side, size, priceTicks, leverageBps, cumFunding, now).error ==
        if leverageBps == 0 then InvalidLeverage
        else if size * priceTicks * 100 / leverageBps > U64_MAX then Overflow
        else InsufficientCollateral
  {
    if leverageBps > 0 {
      CollateralExact(size, priceTicks, leverageBps);
      NonNegative(size * priceTicks * 100, leverageBps);
    }
    hide ComputeCollateral;
  }

  /** The most lots that may be revealed for a band. */
  lemma {:induction false} BandExact(band: nat)
    ensures BandMaxLots(band) ==
      if band > 3 then Err(InvalidSide)
      else Ok(if band == 0 then 10 else if band == 1 then 100 else if band == 2 then 1_000 else 1_000_000)
  {
  }

  /** What settlement checks about a fill and the values revealed for it, and the error of each test. */
  lemma {:induction false} ClaimCheckExact(fill: Fill, taker: Reveal, maker: Reveal)
    ensures ClaimCheck(fill, taker, maker) ==
      if fill.taker == fill.maker || taker.user != fill.taker || maker.user != fill.maker then Fail(Unauthorized)
      else if fill.sizeBand > 3 then Fail(InvalidSide)
      else
        var limit := if fill.sizeBand == 0 then 10 else if fill.sizeBand == 1 then 100 else if fill.sizeBand == 2 then 1_000 else 1_000_000;
        if taker.size > limit || maker.size > limit then Fail(InvalidLeverage)
        else if taker.digest != taker.commitment || maker.digest != maker.commitment || taker.size != maker.size
        then Fail(CommitmentMismatch)
        else Pass
  {
    BandExact(fill.sizeBand);
    hide BandMaxLots;
  }

  /** The tests of `claim_fill` before it reads the fill, in order: both users have joined and their
      next addresses are free, the market is not paused, and some slot holds the id unclaimed; the
      first such slot is settled. */
  lemma {:induction false} ClaimFillRefused(s: State, ring: seq<Fill>, fillId: U64, taker: Reveal, maker: Reveal, now: I64)
    ensures
      var r, users := ClaimFillStep(s, ring, fillId, taker, maker, now), s.users;
      if taker.user !in users || maker.user !in users then r == Err(AccountMissing)
      else if taker.user == maker.user then r == Err(AccountExists)
      else if (taker.user, users[taker.user].nextPositionIdx) in s.positions then r == Err(AccountExists)
      else if (maker.user, users[maker.user].nextPositionIdx) in s.positions then r == Err(AccountExists)
      else if s.market.paused then r == Err(MarketPaused)
      else if forall f | f in ring :: f.fillId != fillId || f.claimed != 0 then r == Err(FillNotFound)
      else
        exists i :: 0 <= i < |ring| && FirstUnclaimed(ring, fillId, i) && r == ClaimStep(s, ring[i], taker, maker, now)
  {
    FindsFirst(ring, fillId);
    hide ClaimStep;
    match FindFill(ring, fillId)
    case None =>
    case Some(i) => assert ring[i] in ring;
  }

  predicate FirstUnclaimed(ring: seq<Fill>, fillId: U64, i: nat)
    requires i < |ring|
  {
    && ring[i].fillId == fillId && ring[i].claimed == 0
    && forall j | 0 <= j < i :: ring[j].fillId != fillId || ring[j].claimed != 0
  }

  lemma {:induction false} FindsFirst(ring: seq<Fill>, fillId: U64)
    ensures match FindFill(ring, fillId)
            case None => true
            case Some(i) => FirstUnclaimed(ring, fillId, i)
  {
    if ring != [] {
      FindsFirst(ring[1..], fillId);
      match FindFill(ring, fillId)
      case None =>
      case Some(i) => assert forall j | 0 < j < i :: ring[j] == ring[1..][j - 1];
    }
  }

  /** In a reachable market, a pending fill can be settled exactly by revealing, for the two
      accounts it names, one common size of at most 10, 100, 1000 or 1000000 lots for its band,
      values that open the commitments, and a leverage the unlocked balances cover. No counter and
      no address stands in the way. */
  lemma {:induction false} ClaimExact(w: World, fill: Fill, taker: Reveal, maker: Reveal, now: I64)
    requires WorldInvariant(w) && fill in w.history.book.pending
    ensures ClaimStep(w.ledger, fill, taker, maker, now).Ok? <==>
      && taker.user in w.ledger.users && maker.user in w.ledger.users
      && !w.ledger.market.paused
      && taker.user == fill.taker && maker.user == fill.maker
      && taker.size == maker.size
      && taker.size <= (if fill.sizeBand == 0 then 10 else if fill.sizeBand == 1 then 100 else if fill.sizeBand == 2 then 1_000 else 1_000_000)
      && taker.digest == taker.commitment && maker.digest == maker.commitment
      && Affordable(w.ledger.users[taker.user], fill.priceTicks, taker.size, taker.leverageBps)
      && Affordable(w.ledger.users[maker.user], fill.priceTicks, maker.size, maker.leverageBps)
    ensures fill.sizeBand <= 3 && fill.taker != fill.maker
  {
    EndLimits(w);
    PendingSound(w.history, fill);
    ClaimCheckExact(fill, taker, maker);
    if taker.user in w.ledger.users && maker.user in w.ledger.users {
      NextAddressFree(w.ledger, taker.user);
      NextAddressFree(w.ledger, maker.user);
      IndexesLow(w);
      hide ClaimCheck, OpenPair, Affordable, WorldInvariant, Consistent;
      if ClaimAccounts(w.ledger, taker.user, maker.user) == Pass && taker.size <= 1_000_000 && maker.size <= 1_000_000 {
        PairOpens(w.ledger, fill, taker, maker, now);
      }
    }
  }

  lemma {:induction false} IndexesLow(w: World)
    requires WorldInvariant(w)
    ensures forall user | user in w.ledger.users :: w.ledger.users[user].nextPositionIdx <= MAX_FILLS
  {
    ClaimsWithinFills(w);
  }

  /** With room in every counter, a pair opens exactly if both sides can be afforded. */
  lemma {:induction false} PairOpens(s: State, fill: Fill, taker: Reveal, maker: Reveal, now: I64)
    requires ClaimAccounts(s, taker.user, maker.user) == Pass
    requires s.market.totalLongSize + taker.size as int <= U64_MAX && s.market.totalShortSize + maker.size as int <= U64_MAX
    requires s.users[taker.user].nextPositionIdx < U64_MAX && s.users[maker.user].nextPositionIdx < U64_MAX
    ensures OpenPair(s, fill, taker, maker, now).Ok? <==>
      && Affordable(s.users[taker.user], fill.priceTicks, taker.size, taker.leverageBps)
      && Affordable(s.users[maker.user], fill.priceTicks, maker.size, maker.leverageBps)
  {
    var m := s.market;
    hide OpenPosition, Affordable;
    OpensExactly(s.users[taker.user], taker.user, Long, taker.size, fill.priceTicks, taker.leverageBps, m.cumFundingLong, now);
    OpensExactly(s.users[maker.user], maker.user, Short, maker.size, fill.priceTicks, maker.leverageBps, m.cumFundingShort, now);
  }

  lemma {:induction false} PendingSound(h: Lifecycle.History, fill: Fill)
    requires Lifecycle.RunInvariant(h) && fill in h.book.pending
    ensures fill.sizeBand <= 3 && fill.taker != fill.maker
  {
  }

  // ----- funding updates in reachable markets

  /** Only an update moves the funding indexes or their clock. */
  lemma {:induction false} StepKeepsBound(s: State, step: Step, start: int)
    requires Funding.IndexesBounded(s.market, start) && Funding.RateInRange(s.market)
    ensures Funding.IndexesBounded(Next(s, step).market, start)
  {
    hide UpdatedFunding, ComputePnl, ComputeCollateral, AccrueFundingInternal, Judge, Funding.RateInRange;
    if Perform(s, step).Ok? {
      match step
      case UpdateFunding(now) => Funding.UpdateKeepsBound(s.market, now, start);
      case Accrue(key) => SameIndexes(TrioAt(s, key));
      case Liquidate(key, liquidator, mark) => SameIndexes(TrioAt(s, key));
      case _ =>
    }
  }

  lemma {:induction false} SameIndexes(t: Trio)
    requires Accrued(t).Ok?
    ensures
      var m := Accrued(t).value.market;
      && m.cumFundingLong == t.market.cumFundingLong && m.cumFundingShort == t.market.cumFundingShort
      && m.lastFundingTs == t.market.lastFundingTs && m.fundingIntervalSecs == t.market.fundingIntervalSecs
  {
    hide AccrueFundingInternal;
  }

  lemma {:induction false} RateKnown(w: World)
    requires WorldInvariant(w)
    ensures Funding.RateInRange(w.ledger.market)
  {
    EndLimits(w);
    hide WorldInvariant, FundingRate;
    Funding.RateExact(w.ledger.market);
  }

  lemma {:induction false} RunKeepsBound(w: World, xs: seq<Instruction>, start: int)
    requires WorldInvariant(w) && Funding.IndexesBounded(w.ledger.market, start)
    ensures Funding.IndexesBounded(Run(w, xs).ledger.market, start)
    decreases |xs|
  {
    if xs != [] {
      AdvanceKeepsInvariant(w, xs[0]);
      RateKnown(w);
      AdvanceKeepsBound(w, xs[0], start);
      hide WorldInvariant, Advance, Funding.IndexesBounded;
      RunKeepsBound(Advance(w, xs[0]), xs[1..], start);
    }
  }

  lemma {:induction false} AdvanceKeepsBound(w: World, x: Instruction, start: int)
    requires WorldInvariant(w) && Funding.IndexesBounded(w.ledger.market, start) && Funding.RateInRange(w.ledger.market)
    ensures Funding.IndexesBounded(Advance(w, x).ledger.market, start)
  {
    hide WorldInvariant, Funding.IndexesBounded, Funding.RateInRange, Next, ClaimStep, Lifecycle.Apply;
    InvariantCount(w);
    match x
    case ClaimFill(fill, taker, maker, now) =>
      if ClaimStep(w.ledger, fill, taker, maker, now).Ok? {
        StepKeepsBound(w.ledger, Claim(fill, taker, maker, now), start);
        NextClaim(w.ledger, fill, taker, maker, now);
      }
    case OnLedger(step) => StepKeepsBound(w.ledger, step, start);
    case _ =>
  }

  lemma {:induction false} NextClaim(s: State, fill: Fill, taker: Reveal, maker: Reveal, now: I64)
    requires ClaimStep(s, fill, taker, maker, now).Ok?
    ensures Next(s, Claim(fill, taker, maker, now)) == ClaimStep(s, fill, taker, maker, now).value
  {
    hide ClaimStep;
  }

  lemma {:induction false} InvariantCount(w: World)
    requires WorldInvariant(w)
    ensures w.history.book.fillCount <= MAX_FILLS
  {
  }

  /** In every market reached from its start, as long as 2000 times its age in seconds fits 64 bits:
      `update_funding` succeeds exactly if a whole interval has passed, and any increasing
      schedule of calls ends where its last call alone would have ended. */
  lemma {:induction false} UpdatesNeverOverflow(interval: I64, maxLeverageBps: U16, start: I64, xs: seq<Instruction>, times: seq<I64>)
    requires times != [] && Funding.Increasing(times)
    requires MAX_FUNDING_BPS_PER_INTERVAL * (times[|times| - 1] - start) <= I64_MAX
    ensures WorldInvariant(Fresh(interval, maxLeverageBps, start))
    ensures
      var m, now := Run(Fresh(interval, maxLeverageBps, start), xs).ledger.market, times[|times| - 1];
      && (UpdatedFunding(m, now).Ok? <==> 0 < m.fundingIntervalSecs as int <= now - m.lastFundingTs)
      && Funding.Calls(m, times) == Funding.Calls(m, [now])
  {
    var w := Fresh(interval, maxLeverageBps, start);
    FreshInvariant(interval, maxLeverageBps, start);
    FreshBounded(interval, maxLeverageBps, start);
    hide Fresh, Run, WorldInvariant, UpdatedFunding, Funding.Calls, Funding.IndexesBounded, Funding.RateInRange, FundingRate;
    RunInvariant(w, xs);
    RunKeepsBound(w, xs, start);
    var end := Run(w, xs);
    RateKnown(end);
    Funding.UpdatesInTime(end.ledger.market, times[|times| - 1], start);
    Funding.ScheduleFreeInTime(end.ledger.market, times, start);
  }

  lemma {:induction false} FreshBounded(interval: I64, maxLeverageBps: U16, start: I64)
    ensures Funding.IndexesBounded(Fresh(interval, maxLeverageBps, start).ledger.market, start)
  {
  }
}
