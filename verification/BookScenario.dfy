/** Short runs of the book from its start that end where it does not do what it promises: a book
    worn out by 256 settlements, an order overtaken by a younger one at its own price, and a
    matching pair that a self-match at the top keeps apart. */
module BookScenario {
  import opened Types
  import opened Accounts
  import opened Levels
  import opened Ring
  import opened Books
  import opened Lifecycle
  import opened TimePriority
  import opened Stalls

  const BID := Order(0, 1, 0, 0, 100, 100, 0, 0)
  const ASK := Order(0, 2, 1, 0, 100, 100, 0, 0)

  function Bid(id: U64): Order {
    BID.(orderId := id)
  }

  function Ask(id: U64): Order {
    ASK.(orderId := id)
  }

  /** A bid and an ask meet, and their fill is settled: trade number `k`, counted from 0. */
  function Trade(k: nat): seq<Op>
    requires k < MAX_FILLS
  {
    [Place(true, BID, true), Place(false, ASK, true), Match(0), Settle(FillOf(Bid(2 * k + 1), Ask(2 * k + 2), k + 1, 0))]
  }

  /** The trades from number `k` to the last one, then one more bid and ask. */
  function Trades(k: nat): seq<Op>
    requires k <= MAX_FILLS
    decreases MAX_FILLS - k
  {
    if k == MAX_FILLS then [Place(true, BID, true), Place(false, ASK, true)] else Trade(k) + Trades(k + 1)
  }

  /** The book after `k` trades. */
  function Idle(k: nat): Book {
    Book([], [], {}, k, 2 * k + 1, k + 1)
  }

  /** And then one more bid and ask. */
  function Crossed(k: nat): Book
    requires k <= MAX_FILLS
  {
    Book([Bid(2 * k + 1)], [Ask(2 * k + 2)], {}, k, 2 * k + 3, k + 1)
  }

  /** The book in which the last bid and ask have met. */
  const WORN := Book([Bid(513)], [Ask(514)], {}, MAX_FILLS, 515, 257)

  lemma {:induction false} Quoted(b: Book, k: nat)
    requires b == Idle(k) && k <= MAX_FILLS
    ensures Effect(b, Place(true, BID, true)) == b.(bids := [Bid(2 * k + 1)], nextOrderId := 2 * k + 2)
    ensures Effect(b.(bids := [Bid(2 * k + 1)], nextOrderId := 2 * k + 2), Place(false, ASK, true))
         == Crossed(k)
  {
    assert OrderCollateral(0, 100, 100) == Ok(1_000);
    hide OrderCollateral;
  }

  lemma {:induction false} OnePair(bid: Order, ask: Order, cap: nat)
    requires Matches(bid, ask) && cap >= 1
    ensures MatchRounds([bid], [ask], cap) == 1
  {
  }

  lemma {:induction false} Matched(b: Book, k: nat, fill: Fill)
    requires k < MAX_FILLS && b == Crossed(k)
    requires fill == FillOf(Bid(2 * k + 1), Ask(2 * k + 2), k + 1, 0)
    ensures Effect(b, Match(0)) == Idle(k + 1).(pending := {fill})
    ensures Effect(Idle(k + 1).(pending := {fill}), Settle(fill)) == Idle(k + 1)
  {
    OnePair(b.bids[0], b.asks[0], Cap(b));
    assert Rounds(b) == 1 && Batch(b, 0) == [fill] && !SelfStop(b.bids, b.asks, Cap(b));
    hide MatchRounds, Insert;
    assert FillSet([fill]) == {fill};
  }

  lemma {:induction false} RunFirst(h: History, op: Op, rest: seq<Op>)
    requires RunInvariant(h)
    ensures RunInvariant(Apply(h, op)) && Run(h, [op] + rest) == Run(Apply(h, op), rest)
    ensures Apply(h, op).book == Effect(h.book, op)
  {
    StepKeepsInvariant(h, op);
    ApplyHasEffect(h, op);
    hide Apply, RunInvariant, Effect;
    assert ([op] + rest)[1..] == rest;
  }

  lemma {:induction false} RunQuotes(h: History, k: nat, rest: seq<Op>) returns (h2: History)
    requires RunInvariant(h) && h.book == Idle(k) && k <= MAX_FILLS
    ensures RunInvariant(h2) && h2.book == Crossed(k)
    ensures Run(h, [Place(true, BID, true), Place(false, ASK, true)] + rest) == Run(h2, rest)
  {
    Quoted(h.book, k);
    hide Apply, RunInvariant, Effect, Run;
    var bid, ask := Place(true, BID, true), Place(false, ASK, true);
    RunFirst(h, bid, [ask] + rest);
    RunFirst(Apply(h, bid), ask, rest);
    h2 := Apply(Apply(h, bid), ask);
    assert [bid, ask] + rest == [bid] + ([ask] + rest);
  }

  lemma {:induction false} RunMeeting(h: History, k: nat, meet: Op, settle: Op, rest: seq<Op>) returns (h2: History)
    requires RunInvariant(h) && k < MAX_FILLS && h.book == Crossed(k)
    requires meet == Match(0) && settle == Settle(FillOf(Bid(2 * k + 1), Ask(2 * k + 2), k + 1, 0))
    ensures RunInvariant(h2) && h2.book == Idle(k + 1) && Run(h, [meet, settle] + rest) == Run(h2, rest)
  {
    Matched(h.book, k, settle.fill);
    hide Apply, RunInvariant, Effect, Run, Idle, Crossed, FillOf;
    RunFirst(h, meet, [settle] + rest);
    RunFirst(Apply(h, meet), settle, rest);
    h2 := Apply(Apply(h, meet), settle);
    assert [meet, settle] + rest == [meet] + ([settle] + rest);
  }

  lemma {:induction false} RunTrade(h: History, k: nat, rest: seq<Op>) returns (h4: History)
    requires RunInvariant(h) && h.book == Idle(k) && k < MAX_FILLS
    ensures RunInvariant(h4) && h4.book == Idle(k + 1) && Run(h, Trade(k) + rest) == Run(h4, rest)
  {
    hide Apply, RunInvariant, Effect, Run, Idle, Crossed, FillOf;
    var meet, settle := Match(0), Settle(FillOf(Bid(2 * k + 1), Ask(2 * k + 2), k + 1, 0));
    var h2 := RunQuotes(h, k, [meet, settle] + rest);
    h4 := RunMeeting(h2, k, meet, settle, rest);
    assert Trade(k) + rest == [Place(true, BID, true), Place(false, ASK, true)] + ([meet, settle] + rest);
  }

  lemma {:induction false} RunTrades(h: History, k: nat)
    requires RunInvariant(h) && h.book == Idle(k) && k <= MAX_FILLS
    ensures Run(h, Trades(k)).book == WORN
    decreases MAX_FILLS - k
  {
    if k == MAX_FILLS {
      var h2 := RunQuotes(h, k, []);
      hide Idle;
      assert [Place(true, BID, true), Place(false, ASK, true)] + [] == Trades(k);
    } else {
      var h4 := RunTrade(h, k, Trades(k + 1));
      RunTrades(h4, k + 1);
    }
  }

  /** Slots are not used again on chain. After 256 trades, all of them settled, no fill waits in
      the ring; a bid and an ask that match meet in the book, and it does not fill them. */
  lemma {:induction false} WornOut(slot: U64)
    ensures RunInvariant(START)
    ensures
      var b := Run(START, Trades(0)).book;
      && b.pending == {} && b.fillCount == MAX_FILLS
      && b.bids == [Bid(513)] && b.asks == [Ask(514)] && Matches(b.bids[0], b.asks[0])
      && Effect(b, Match(slot)) == b
  {
    StartInvariant();
    RunTrades(START, 0);
    hide Run, Trades;
    Refused(WORN, slot);
  }

  lemma {:induction false} Refused(b: Book, slot: U64)
    requires b == WORN
    ensures Effect(b, Match(slot)) == b && Matches(b.bids[0], b.asks[0])
  {
    assert Rounds(b) == 0 && Batch(b, slot) == [];
    assert FillSet([]) == {};
  }

  // ----- a self-match

  /** Two bids at one price, then an ask by the older bid's own trader. */
  const QUOTES: seq<Op> := [Place(true, BID, true), Place(true, BID.(trader := 3), true), Place(false, ASK.(trader := 1), true)]

  const QUEUED := Book([Bid(1), Bid(2).(trader := 3)], [Ask(3).(trader := 1)], {}, 0, 4, 1)

  lemma {:induction false} QuoteEffects(b: Book)
    requires b == START.book
    ensures Effect(b, QUOTES[0]) == b.(bids := [Bid(1)], nextOrderId := 2)
    ensures Effect(b.(bids := [Bid(1)], nextOrderId := 2), QUOTES[1])
         == b.(bids := QUEUED.bids, nextOrderId := 3)
    ensures Effect(b.(bids := QUEUED.bids, nextOrderId := 3), QUOTES[2]) == QUEUED
  {
    assert OrderCollateral(0, 100, 100) == Ok(1_000);
    hide OrderCollateral;
  }

  lemma {:induction false} RunQueue(h: History)
    requires h == START
    ensures RunInvariant(h) && Run(h, QUOTES).book == QUEUED
  {
    StartInvariant();
    QuoteEffects(h.book);
    hide Apply, RunInvariant, Effect, Run;
    var h1, h2 := Apply(h, QUOTES[0]), Apply(Apply(h, QUOTES[0]), QUOTES[1]);
    RunFirst(h, QUOTES[0], QUOTES[1..]);
    RunFirst(h1, QUOTES[1], QUOTES[2..]);
    RunFirst(h2, QUOTES[2], []);
  }

  lemma {:induction false} InOrder(isBid: bool, s: seq<Order>)
    requires 1 <= |s| <= 2 && (|s| == 2 ==> Precedes(isBid, s[0], s[1]))
    ensures TimeOrdered(isBid, s)
  {
    var rest := s[1..];
    assert rest == if |s| == 2 then [s[1]] else [];
    assert rest != [] ==> rest[1..] == [];
    assert TimeOrdered(isBid, rest);
  }

  lemma {:induction false} SelfMatched(b: Book, slot: U64)
    requires b == QUEUED
    ensures Fair(b) && BreaksPriority(b, Match(slot))
    ensures Effect(b, Match(slot)) == b.(bids := [b.bids[1], b.bids[0]])
  {
    assert Rounds(b) == 0 && Batch(b, slot) == [] && SelfStop(b.bids, b.asks, Cap(b));
    InOrder(true, b.bids);
    InOrder(false, b.asks);
    hide MatchRounds, TimeOrdered;
    assert b.bids[0..] == b.bids && b.asks[0..] == b.asks;
    assert Insert(true, b.bids[1..], b.bids[0]) == [b.bids[1], b.bids[0]];
    assert FillSet([]) == {};
  }

  /** Time priority is not kept. From an empty book: the older of two bids at one price meets an
      ask of its own trader, and afterwards the younger bid is served first. */
  lemma {:induction false} Overtaken(slot: U64)
    ensures RunInvariant(START)
    ensures
      var b := Run(START, QUOTES).book;
      && b.fillCount == 0 && |b.bids| == 2 && Fair(b) && BreaksPriority(b, Match(slot)) && !Fair(Effect(b, Match(slot)))
      && Effect(b, Match(slot)).bids == [b.bids[1], b.bids[0]] && b.bids[0].orderId < b.bids[1].orderId
      && b.bids[0].priceTicks == b.bids[1].priceTicks
  {
    RunQueue(START);
    SelfMatched(QUEUED, slot);
    hide Run, Effect, BreaksPriority;
    var b := QUEUED.(bids := [QUEUED.bids[1], QUEUED.bids[0]]);
    assert QUEUED.bids[0] in b.bids[1..];
  }

  // ----- a self-match in the way

  /** The best bid and the only ask are one trader's; the bid behind would match the ask. */
  const BLOCKING: seq<Op> := [Place(true, BID.(priceTicks := 102), true), Place(true, BID.(trader := 3, priceTicks := 101), true),
    Place(false, ASK.(trader := 1), true)]

  const BLOCKED := Book([Bid(1).(priceTicks := 102), Bid(2).(trader := 3, priceTicks := 101)], [Ask(3).(trader := 1)], {}, 0, 4, 1)

  lemma {:induction false} BlockingEffects(b: Book)
    requires b == START.book
    ensures Effect(b, BLOCKING[0]) == b.(bids := [BLOCKED.bids[0]], nextOrderId := 2)
    ensures Effect(b.(bids := [BLOCKED.bids[0]], nextOrderId := 2), BLOCKING[1]) == b.(bids := BLOCKED.bids, nextOrderId := 3)
    ensures Effect(b.(bids := BLOCKED.bids, nextOrderId := 3), BLOCKING[2]) == BLOCKED
  {
    CollateralFits(100);
    CollateralFits(101);
    CollateralFits(102);
    hide OrderCollateral;
  }

  lemma {:induction false} CollateralFits(priceTicks: U64)
    requires priceTicks <= 1_000
    ensures OrderCollateral(0, priceTicks, 100).Ok?
  {
    CollateralExact(10, priceTicks, 100);
  }

  lemma {:induction false} RunBlocking(h: History)
    requires h == START
    ensures RunInvariant(h) && Run(h, BLOCKING).book == BLOCKED && RunInvariant(Run(h, BLOCKING))
  {
    StartInvariant();
    BlockingEffects(h.book);
    hide Apply, RunInvariant, Effect, Run;
    RunAppend(h, BLOCKING, []);
    var h1, h2 := Apply(h, BLOCKING[0]), Apply(Apply(h, BLOCKING[0]), BLOCKING[1]);
    RunFirst(h, BLOCKING[0], BLOCKING[1..]);
    RunFirst(h1, BLOCKING[1], BLOCKING[2..]);
    RunFirst(h2, BLOCKING[2], []);
  }

  lemma {:induction false} BlockedStalls(b: Book)
    requires b == BLOCKED
    ensures Stalled(b) && PriceSorted(true, b.bids) && PriceSorted(false, b.asks) && Matches(b.bids[1], b.asks[0])
  {
  }

  /** Matching can stop short of pairs that match. From an empty book: after these three orders the
      second bid and the ask match, and no number of calls of the engine fills them. */
  lemma {:induction false} SelfBlocked(calls: seq<Op>)
    requires forall op | op in calls :: op.Match?
    ensures RunInvariant(START)
    ensures
      var h := Run(START, BLOCKING);
      && |h.book.bids| == 2 && |h.book.asks| == 1 && Matches(h.book.bids[1], h.book.asks[0])
      && Run(START, BLOCKING + calls) == h
  {
    RunBlocking(START);
    BlockedStalls(BLOCKED);
    RunAppend(START, BLOCKING, calls);
    hide Run, RunInvariant, Stalled, PriceSorted;
    StalledForever(Run(START, BLOCKING), calls);
  }

  // ----- fill id 0

  function Ring1(f: Fill): seq<Fill> {
    seq(MAX_FILLS, i => if i == 0 then f else ZERO_FILL)
  }

  /** `OrderBook::claim_fill` with id 0 finds a slot never used and lowers the count, although the
      only fill is still to be claimed. */
  lemma {:induction false} ClaimOfNothing(f: Fill)
    requires Unclaimed(f) && f.fillId == 1
    ensures RingOk(Ring1(f), 1, 2) && Pending(Ring1(f)) == {f}
    ensures
      var claim := ClaimRing(Ring1(f), 1, 0);
      f in Pending(claim.0) && claim.1 == 0 && claim.2.Some? && !RingOk(claim.0, claim.1, 2)
  {
    var empty := seq(MAX_FILLS, i => ZERO_FILL);
    EmptyRing(empty);
    PushSlot(empty, 0, f, 0, 1);
    assert Ring1(f) == empty[0 := f];
    hide RingOk, DistinctIds;
    assert Ring1(f)[1] in Ring1(f) && Ring1(f)[1] == ZERO_FILL;
    ClaimKeepsRing(Ring1(f), 1, 2, 0);
    ClaimUnused(Ring1(f), FindFill(Ring1(f), 0).value);
  }
}
