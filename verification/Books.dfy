/** The order book as a value: two priority sequences, the pending fills and the counters,
    with matching as a prefix zip of the two sequences. */
module Books {
  import opened Types
  import opened Accounts
  import opened Levels
  import opened Ring

  const FILLS_PER_MATCH := 32

  datatype Book = Book(
    bids: seq<Order>,
    asks: seq<Order>,
    pending: set<Fill>,
    fillCount: nat,
    nextOrderId: nat,
    nextFillId: nat)

  const EMPTY_BOOK := Book([], [], {}, 0, 1, 1)

  predicate Crosses(bid: Order, ask: Order) {
    bid.priceTicks >= ask.priceTicks
  }

  predicate Matches(bid: Order, ask: Order) {
    Crosses(bid, ask) && bid.trader != ask.trader
  }

  /** The longest prefix, of length at most `cap`, whose pairs all match. */
  function MatchRounds(bids: seq<Order>, asks: seq<Order>, cap: nat): (n: nat)
    ensures n <= cap && n <= |bids| && n <= |asks|
    ensures forall i | 0 <= i < n :: Matches(bids[i], asks[i])
    ensures n == cap || n == |bids| || n == |asks| || !Matches(bids[n], asks[n])
    decreases cap
  {
    if cap == 0 || bids == [] || asks == [] || !Matches(bids[0], asks[0]) then 0
    else
      var n := MatchRounds(bids[1..], asks[1..], cap - 1);
      assert forall i | 0 < i <= n :: bids[i] == bids[1..][i - 1] && asks[i] == asks[1..][i - 1];
      1 + n
  }

  /** `MatchRounds` is the only number with its properties. */
  lemma {:induction false} MatchRoundsUnique(bids: seq<Order>, asks: seq<Order>, cap: nat, n: nat)
    requires n <= cap && n <= |bids| && n <= |asks|
    requires forall i | 0 <= i < n :: Matches(bids[i], asks[i])
    requires n == cap || n == |bids| || n == |asks| || !Matches(bids[n], asks[n])
    ensures n == MatchRounds(bids, asks, cap)
  {
  }

  /** The best pair left after the rounds crosses but has one trader on both sides. */
  predicate SelfStop(bids: seq<Order>, asks: seq<Order>, cap: nat) {
    var n := MatchRounds(bids, asks, cap);
    n < cap && n < |bids| && n < |asks| && Crosses(bids[n], asks[n])
  }

  /** The record of a bid meeting an ask: the bid takes, the ask's price holds. */
  function FillOf(bid: Order, ask: Order, id: U64, slot: U64): Fill {
    Fill(id, bid.orderId, ask.orderId, bid.trader, ask.trader, ask.priceTicks, bid.sizeBand, 0, slot)
  }

  function FillSet(fills: seq<Fill>): set<Fill> {
    set f | f in fills
  }

  function NewFills(bids: seq<Order>, asks: seq<Order>, n: nat, firstId: nat, slot: U64): (fills: seq<Fill>)
    requires n <= |bids| && n <= |asks|
    requires firstId + n <= U64_MAX + 1
    ensures |fills| == n
    ensures forall i | 0 <= i < n :: fills[i] == FillOf(bids[i], asks[i], firstId + i, slot)
  {
    seq(n, i requires 0 <= i < n => FillOf(bids[i], asks[i], firstId + i, slot))
  }

  /** The first order of a sequence sent to the back of its price level. */
  function Rotate(isBid: bool, s: seq<Order>): seq<Order>
    requires s != []
  {
    Insert(isBid, s[1..], s[0])
  }

  /** What is left of one side after `n` rounds. */
  function Rest(isBid: bool, s: seq<Order>, n: nat, selfStop: bool): seq<Order>
    requires n <= |s| && (selfStop ==> n < |s|)
  {
    if selfStop then Rotate(isBid, s[n..]) else s[n..]
  }

  lemma {:induction false} NewFillsNext(bids: seq<Order>, asks: seq<Order>, n: nat, firstId: nat, slot: U64)
    requires n < |bids| && n < |asks| && firstId + n <= U64_MAX
    ensures FillSet(NewFills(bids, asks, n + 1, firstId, slot))
         == FillSet(NewFills(bids, asks, n, firstId, slot)) + {FillOf(bids[n], asks[n], firstId + n, slot)}
  {
    assert NewFills(bids, asks, n + 1, firstId, slot)
        == NewFills(bids, asks, n, firstId, slot) + [FillOf(bids[n], asks[n], firstId + n, slot)];
  }

  function Min(a: int, b: int): int {
    if a <= b then a else b
  }

  /** Rounds allowed by the batch limit and the room in the ring. */
  function Cap(b: Book): nat
    requires b.fillCount <= MAX_FILLS
  {
    Min(FILLS_PER_MATCH, MAX_FILLS - b.fillCount)
  }

  function Rounds(b: Book): nat
    requires b.fillCount <= MAX_FILLS
  {
    MatchRounds(b.bids, b.asks, Cap(b))
  }

  function Batch(b: Book, slot: U64): seq<Fill>
    requires b.fillCount <= MAX_FILLS && b.nextFillId + Rounds(b) <= U64_MAX
  {
    NewFills(b.bids, b.asks, Rounds(b), b.nextFillId, slot)
  }

  /** How one pass of the matching loop ends. */
  datatype Round = NoMatch | SelfMatch | Filled

  function RoundOf(b: Book): Round {
    if b.fillCount >= MAX_FILLS || b.bids == [] || b.asks == [] || !Crosses(b.bids[0], b.asks[0]) then NoMatch
    else if b.bids[0].trader == b.asks[0].trader then SelfMatch
    else Filled
  }

  function AfterRound(b: Book, slot: U64): Book
    requires RoundOf(b) == Filled ==> b.nextFillId < U64_MAX
  {
    match RoundOf(b)
    case NoMatch => b
    case SelfMatch => b.(bids := Rotate(true, b.bids), asks := Rotate(false, b.asks))
    case Filled => b.(
      bids := b.bids[1..],
      asks := b.asks[1..],
      pending := b.pending + {FillOf(b.bids[0], b.asks[0], b.nextFillId, slot)},
      fillCount := b.fillCount + 1,
      nextFillId := b.nextFillId + 1)
  }

  /** The book after `k` fills of a batch. */
  function Partial(b: Book, k: nat, slot: U64): Book
    requires b.fillCount <= MAX_FILLS && k <= Rounds(b) && b.nextFillId + k <= U64_MAX
  {
    Book(
      b.bids[k..],
      b.asks[k..],
      b.pending + FillSet(NewFills(b.bids, b.asks, k, b.nextFillId, slot)),
      b.fillCount + k,
      b.nextOrderId,
      b.nextFillId + k)
  }

  /** The next pass fills exactly while rounds are left in the batch. */
  lemma {:induction false} RoundOfPartial(b: Book, k: nat, slot: U64)
    requires b.fillCount <= MAX_FILLS && k <= Rounds(b) && b.nextFillId + k <= U64_MAX && k < FILLS_PER_MATCH
    ensures RoundOf(Partial(b, k, slot)) == Filled <==> k < Rounds(b)
    ensures RoundOf(Partial(b, k, slot)) == SelfMatch <==> k == Rounds(b) && SelfStop(b.bids, b.asks, Cap(b))
    ensures k < Rounds(b) && b.nextFillId + k < U64_MAX ==>
      AfterRound(Partial(b, k, slot), slot) == Partial(b, k + 1, slot)
  {
    hide MatchRounds, NewFills;
    if k < Rounds(b) {
      assert Matches(b.bids[k], b.asks[k]);
      if b.nextFillId + k < U64_MAX {
        NewFillsNext(b.bids, b.asks, k, b.nextFillId, slot);
      }
    }
  }

  /** One call of the matching engine. */
  function MatchBook(b: Book, slot: U64): Book
    requires b.fillCount <= MAX_FILLS && b.nextFillId + Rounds(b) <= U64_MAX
  {
    var n, stop := Rounds(b), SelfStop(b.bids, b.asks, Cap(b));
    Book(
      Rest(true, b.bids, n, stop),
      Rest(false, b.asks, n, stop),
      b.pending + FillSet(Batch(b, slot)),
      b.fillCount + n,
      b.nextOrderId,
      b.nextFillId + n)
  }

  /** A filling pass whose fill takes the last id: the counter does not move, and the call fails. */
  function Overrun(b: Book, slot: U64): Book
    requires b.bids != [] && b.asks != [] && b.nextFillId <= U64_MAX
  {
    b.(bids := b.bids[1..],
       asks := b.asks[1..],
       pending := b.pending + {FillOf(b.bids[0], b.asks[0], b.nextFillId, slot)},
       fillCount := b.fillCount + 1)
  }

  /** What a batch that runs out of ids has made of the book when it fails. */
  function OverrunBook(b: Book, slot: U64): Book
    requires b.fillCount <= MAX_FILLS && b.nextFillId <= U64_MAX < b.nextFillId + Rounds(b)
  {
    Overrun(Partial(b, U64_MAX - b.nextFillId, slot), slot)
  }

  /** A batch ends at the first pass that does not fill, or after 32 fills. */
  lemma {:induction false} BatchEnd(b: Book, k: nat, slot: U64)
    requires b.fillCount <= MAX_FILLS && k <= Rounds(b) && b.nextFillId + k <= U64_MAX
    requires k == FILLS_PER_MATCH || RoundOf(Partial(b, k, slot)) != Filled
    ensures k == Rounds(b)
    ensures MatchBook(b, slot) == if k == FILLS_PER_MATCH then Partial(b, k, slot) else AfterRound(Partial(b, k, slot), slot)
  {
    hide MatchRounds, NewFills, RoundOf, Insert;
    if k < FILLS_PER_MATCH {
      RoundOfPartial(b, k, slot);
    }
  }

  /** The fills of a batch are pending afterwards, under consecutive ids. */
  lemma {:induction false} BatchPending(b: Book, slot: U64)
    requires b.fillCount <= MAX_FILLS && b.nextFillId + Rounds(b) <= U64_MAX
    ensures |Batch(b, slot)| == Rounds(b) && MatchBook(b, slot).nextFillId == b.nextFillId + Rounds(b)
    ensures forall k | 0 <= k < |Batch(b, slot)| ::
      Batch(b, slot)[k] in MatchBook(b, slot).pending && Batch(b, slot)[k].fillId == b.nextFillId + k
  {
  }

  /** The side holding order `id` (bids are searched first) and the order. */
  function Locate(b: Book, id: U64): Option<(bool, Order)> {
    match Find(b.bids, id)
    case Some(o) => Some((true, o))
    case None =>
      match Find(b.asks, id)
      case Some(o) => Some((false, o))
      case None => None
  }

  /** The checks of `cancel_order`; `digest` is the commitment computed from the revealed values. */
  function CancelCheck(b: Book, paused: bool, id: U64, digest: Bytes32, leverageBps: U16): Outcome {
    if paused then Fail(MarketPaused)
    else
      match Locate(b, id)
      case None => Fail(OrderNotFound)
      case Some((_, o)) => RevealCheck(o, digest, leverageBps)
  }

  function RevealCheck(o: Order, digest: Bytes32, leverageBps: U16): Outcome {
    if digest != o.commitment then Fail(CommitmentMismatch)
    else if o.leverageBps != leverageBps then Fail(CommitmentMismatch)
    else
      match OrderCollateral(o.sizeBand, o.priceTicks, leverageBps)
      case Err(e) => Fail(e)
      case Ok(_) => Pass
  }

  function CancelBook(b: Book, id: U64): Book {
    if Find(b.bids, id).Some? then b.(bids := Remove(b.bids, id)) else b.(asks := Remove(b.asks, id))
  }

  /** No two live orders share an id, on one side or across. */
  ghost predicate DistinctOrders(b: Book) {
    && (forall i, j | 0 <= i < j < |b.bids| :: b.bids[i].orderId != b.bids[j].orderId)
    && (forall i, j | 0 <= i < j < |b.asks| :: b.asks[i].orderId != b.asks[j].orderId)
    && (forall x, y | x in b.bids && y in b.asks :: x.orderId != y.orderId)
  }

  /** The collateral of every live order can be computed, as placement has checked. */
  ghost predicate Priceable(b: Book) {
    && (forall o | o in b.bids :: OrderCollateral(o.sizeBand, o.priceTicks, o.leverageBps).Ok?)
    && (forall o | o in b.asks :: OrderCollateral(o.sizeBand, o.priceTicks, o.leverageBps).Ok?)
  }

  /** Some live order, bid or ask, has this id. */
  ghost predicate IsLive(b: Book, id: U64) {
    exists o :: (o in b.bids || o in b.asks) && o.orderId == id
  }

  /** And carries this commitment and leverage. */
  ghost predicate Opens(b: Book, id: U64, digest: Bytes32, leverageBps: U16) {
    exists o :: (o in b.bids || o in b.asks) && o.orderId == id && o.commitment == digest && o.leverageBps == leverageBps
  }

  /** `after` is `before` without one order, which is called `id`; the others keep their order. */
  ghost predicate OneGone(before: seq<Order>, after: seq<Order>, id: U64) {
    exists i :: 0 <= i < |before| && before[i].orderId == id && after == before[..i] + before[i + 1..]
  }

  /** Exactly one order is gone, from the side it was on, and nothing else has changed. */
  ghost predicate CancelledIn(b: Book, b': Book, id: U64) {
    && b' == b.(bids := b'.bids, asks := b'.asks)
    && ((OneGone(b.bids, b'.bids, id) && b'.asks == b.asks) || (b'.bids == b.bids && OneGone(b.asks, b'.asks, id)))
    && (forall o | o in b'.bids || o in b'.asks :: o.orderId != id)
  }

  lemma {:induction false} FindExact(s: seq<Order>, id: U64)
    ensures match Find(s, id)
            case Some(o) => o in s && o.orderId == id
            case None => forall o | o in s :: o.orderId != id
  {
    if s != [] && s[0].orderId != id {
      FindExact(s[1..], id);
    }
  }

  lemma {:induction false} RemovedAt(s: seq<Order>, id: U64) returns (i: nat)
    requires Find(s, id).Some?
    ensures i < |s| && s[i].orderId == id && Remove(s, id) == s[..i] + s[i + 1..]
  {
    if s[0].orderId == id {
      i := 0;
    } else {
      var k := RemovedAt(s[1..], id);
      i := k + 1;
      assert [s[0]] + (s[1..][..k] + s[1..][k + 1..]) == s[..i] + s[i + 1..];
    }
  }

  lemma {:induction false} RemoveExact(s: seq<Order>, id: U64)
    requires Find(s, id).Some?
    ensures OneGone(s, Remove(s, id), id)
  {
    var i := RemovedAt(s, id);
  }

  /** Where ids are distinct, a cancel answers by the live orders of both sides alike. */
  lemma {:induction false} CancelExact(b: Book, paused: bool, id: U64, digest: Bytes32, leverageBps: U16)
    requires DistinctOrders(b) && Priceable(b)
    ensures CancelCheck(b, paused, id, digest, leverageBps) ==
      if paused then Fail(MarketPaused)
      else if !IsLive(b, id) then Fail(OrderNotFound)
      else if !Opens(b, id, digest, leverageBps) then Fail(CommitmentMismatch)
      else Pass
    ensures IsLive(b, id) ==> CancelledIn(b, CancelBook(b, id), id)
  {
    FindExact(b.bids, id);
    FindExact(b.asks, id);
    hide OrderCollateral, Find, Remove;
    if Find(b.bids, id).Some? {
      OnlyOne(b, id, Find(b.bids, id).value);
      RemoveExact(b.bids, id);
      GoneForGood(b.bids, Remove(b.bids, id), id);
    } else if Find(b.asks, id).Some? {
      OnlyOne(b, id, Find(b.asks, id).value);
      RemoveExact(b.asks, id);
      GoneForGood(b.asks, Remove(b.asks, id), id);
    }
  }

  lemma {:induction false} LocatedIsLive(b: Book, id: U64)
    ensures Locate(b, id).Some? <==> IsLive(b, id)
  {
    FindExact(b.bids, id);
    FindExact(b.asks, id);
    hide Find;
  }

  lemma {:induction false} OnlyOne(b: Book, id: U64, o: Order)
    requires DistinctOrders(b) && (o in b.bids || o in b.asks) && o.orderId == id
    ensures forall x | x in b.bids || x in b.asks :: x.orderId == id ==> x == o
  {
  }

  lemma {:induction false} GoneForGood(s: seq<Order>, s': seq<Order>, id: U64)
    requires forall i, j | 0 <= i < j < |s| :: s[i].orderId != s[j].orderId
    requires OneGone(s, s', id)
    ensures forall o | o in s' :: o.orderId != id
  {
  }

  /** The number of fills of a batch: the longest matching prefix of at most 32 pairs, and of at
      most the room that 256 slots leave. */
  lemma {:induction false} RoundsExact(b: Book, n: nat)
    requires b.fillCount <= MAX_FILLS
    ensures n == Rounds(b) <==>
      && n <= 32 && n <= 256 - b.fillCount && n <= |b.bids| && n <= |b.asks|
      && (forall i | 0 <= i < n :: b.bids[i].priceTicks >= b.asks[i].priceTicks && b.bids[i].trader != b.asks[i].trader)
      && (n == 32 || n == 256 - b.fillCount || n == |b.bids| || n == |b.asks|
          || b.bids[n].priceTicks < b.asks[n].priceTicks || b.bids[n].trader == b.asks[n].trader)
  {
    assert forall i | 0 <= i < |b.bids| && i < |b.asks| ::
      Matches(b.bids[i], b.asks[i]) <==> b.bids[i].priceTicks >= b.asks[i].priceTicks && b.bids[i].trader != b.asks[i].trader;
    if n <= Cap(b) && n <= |b.bids| && n <= |b.asks| && (forall i | 0 <= i < n :: Matches(b.bids[i], b.asks[i]))
      && (n == Cap(b) || n == |b.bids| || n == |b.asks| || !Matches(b.bids[n], b.asks[n]))
    {
      MatchRoundsUnique(b.bids, b.asks, Cap(b), n);
    }
    hide MatchRounds;
  }

  /** The order record written by `place_order`. */
  function NewOrder(id: U64, trader: Pubkey, side: Side, priceTicks: U64, band: SizeBand, leverageBps: U16,
      commitment: Bytes32, slot: U64): Order
  {
    Order(id, trader, if side == Long then 0 else 1, band.Code(), leverageBps, priceTicks, commitment, slot)
  }

  function PlaceBook(b: Book, isBid: bool, order: Order): Book {
    var placed := if isBid then b.(bids := Insert(true, b.bids, order)) else b.(asks := Insert(false, b.asks, order));
    placed.(nextOrderId := b.nextOrderId + 1)
  }
}
