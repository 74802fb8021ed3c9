/** Runs of the order book: what becomes of every order and every fill, and when time
    priority survives. */
module Lifecycle {
  import opened Types
  import opened Accounts
  import opened Levels
  import opened Ring
  import opened Books

  /** The operations that change the book. `accepted` is the storage's answer to an insertion
      (`Levels.Accepts`); `Settle` is the claim made by the settlement instruction, `Recycle`
      the one made by `OrderBook::claim_fill`. */
  datatype Op =
    | Place(isBid: bool, order: Order, accepted: bool)
    | Cancel(id: U64)
    | Match(slot: U64)
    | Settle(fill: Fill)
    | Recycle(fill: Fill)

  /** A book with everything that ever left it. */
  datatype History = History(book: Book, cancelled: multiset<int>, fills: seq<Fill>, claims: seq<int>)

  const START := History(EMPTY_BOOK, multiset{}, [], [])

  /** What `place_order` has checked about an order it stores. */
  predicate WellPlaced(o: Order) {
    o.sizeBand <= 3 && OrderCollateral(o.sizeBand, o.priceTicks, o.leverageBps).Ok?
  }

  /** One operation; a refused one changes nothing. */
  function Apply(h: History, op: Op): History
    requires h.book.fillCount <= MAX_FILLS
  {
    var b := h.book;
    match op
    case Place(isBid, order, accepted) =>
      if accepted && WellPlaced(order) && b.nextOrderId < U64_MAX
      then h.(book := PlaceBook(b, isBid, order.(orderId := b.nextOrderId)))
      else h
    case Cancel(id) =>
      if Locate(b, id).Some? then h.(book := CancelBook(b, id), cancelled := h.cancelled + multiset{id}) else h
    case Match(slot) =>
      if b.nextFillId + Rounds(b) <= U64_MAX
      then h.(book := MatchBook(b, slot), fills := h.fills + Batch(b, slot))
      else h
    case Settle(f) =>
      if f in b.pending then h.(book := b.(pending := b.pending - {f}), claims := h.claims + [f.fillId]) else h
    case Recycle(f) =>
      if f in b.pending && b.fillCount > 0
      then h.(book := b.(pending := b.pending - {f}, fillCount := b.fillCount - 1), claims := h.claims + [f.fillId])
      else h
  }

  /** What an operation makes of the book, whatever the history. */
  function Effect(b: Book, op: Op): Book
    requires b.fillCount <= MAX_FILLS
  {
    Apply(History(b, multiset{}, [], []), op).book
  }

  lemma {:induction false} ApplyHasEffect(h: History, op: Op)
    requires h.book.fillCount <= MAX_FILLS
    ensures Apply(h, op).book == Effect(h.book, op)
  {
    hide Insert, MatchRounds;
  }

  /** An order that passes the checks of `place_order` can be cancelled as far as its collateral
      is concerned. */
  lemma {:induction false} CheckedIsWellPlaced(id: U64, market: Market, user: UserAccount, trader: Pubkey, side: Side,
      priceTicks: U64, band: SizeBand, leverageBps: U16, commitment: Bytes32, slot: U64)
    requires PlaceCheck(market, user, priceTicks, band, leverageBps) == Pass
    ensures WellPlaced(NewOrder(id, trader, side, priceTicks, band, leverageBps, commitment, slot))
  {
  }

  // ----- counting order ids

  /** How often `id` occurs among the orders of a side. */
  function Count(s: seq<Order>, id: int): nat {
    if s == [] then 0 else (if s[0].orderId == id then 1 else 0) + Count(s[1..], id)
  }

  /** How often `f` used up order `id`. */
  function UsesOf(f: Fill, id: int): nat {
    (if f.takerOrderId == id then 1 else 0) + (if f.makerOrderId == id then 1 else 0)
  }

  function Uses(fills: seq<Fill>, id: int): nat {
    if fills == [] then 0 else Uses(fills[..|fills| - 1], id) + UsesOf(fills[|fills| - 1], id)
  }

  /** In how many places order `id` is: live, cancelled, or in a fill. */
  function Places(h: History, id: int): nat {
    Count(h.book.bids, id) + Count(h.book.asks, id) + h.cancelled[id] + Uses(h.fills, id)
  }

  lemma {:induction false} CountInsert(isBid: bool, s: seq<Order>, o: Order, id: int)
    ensures Count(Insert(isBid, s, o), id) == Count(s, id) + (if o.orderId == id then 1 else 0)
  {
    if s == [] || Better(isBid, o.priceTicks, s[0].priceTicks) {
      assert ([o] + s)[1..] == s;
    } else {
      CountInsert(isBid, s[1..], o, id);
      assert Insert(isBid, s, o)[1..] == Insert(isBid, s[1..], o);
    }
  }

  lemma {:induction false} CountRemove(s: seq<Order>, gone: U64, id: int)
    requires Find(s, gone).Some?
    ensures Count(s, id) == Count(Remove(s, gone), id) + (if gone == id then 1 else 0)
  {
    if s[0].orderId != gone {
      CountRemove(s[1..], gone, id);
      assert Remove(s, gone)[1..] == Remove(s[1..], gone);
    }
  }

  lemma {:induction false} UsesNext(fills: seq<Fill>, f: Fill, id: int)
    ensures Uses(fills + [f], id) == Uses(fills, id) + UsesOf(f, id)
  {
    assert (fills + [f])[..|fills|] == fills;
  }

  /** A batch moves the ids of the pairs it matched from the book to the fills. */
  lemma {:induction false} BatchMoves(past: seq<Fill>, bids: seq<Order>, asks: seq<Order>, n: nat, first: nat, slot: U64, id: int)
    requires n <= |bids| && n <= |asks| && first + n <= U64_MAX + 1
    ensures Count(bids, id) + Count(asks, id) + Uses(past, id)
         == Count(bids[n..], id) + Count(asks[n..], id) + Uses(past + NewFills(bids, asks, n, first, slot), id)
  {
    hide Uses;
    var fills := NewFills(bids, asks, n, first, slot);
    if n == 0 {
      assert bids[0..] == bids && asks[0..] == asks && past + fills == past;
    } else {
      BatchMoves(past, bids, asks, n - 1, first, slot, id);
      var earlier := NewFills(bids, asks, n - 1, first, slot);
      assert past + fills == (past + earlier) + [fills[n - 1]];
      UsesNext(past + earlier, fills[n - 1], id);
      assert bids[n - 1..][1..] == bids[n..] && asks[n - 1..][1..] == asks[n..];
    }
  }

  // ----- the invariant of every run

  /** Every id handed out is live on one side, cancelled, or in one fill: once in all. */
  ghost predicate OrdersAccounted(h: History) {
    forall id: int :: Places(h, id) == if 1 <= id < h.book.nextOrderId then 1 else 0
  }

  /** Fills are numbered 1, 2, ...; the pending ones are those never claimed; nothing is claimed twice. */
  ghost predicate FillsAccounted(h: History) {
    && h.book.nextFillId == |h.fills| + 1
    && (forall i | 0 <= i < |h.fills| :: h.fills[i].fillId == i + 1 && h.fills[i].claimed == 0)
    && (forall f :: f in h.book.pending <==> f in h.fills && f.fillId !in h.claims)
    && (forall i, j | 0 <= i < j < |h.claims| :: h.claims[i] != h.claims[j])
    && (forall id | id in h.claims :: 1 <= id <= |h.fills|)
  }

  /** Fills have two different traders and a size band settlement accepts. */
  ghost predicate FillsSound(h: History) {
    forall f | f in h.fills :: f.taker != f.maker && f.sizeBand <= 3
  }

  ghost predicate OrdersSound(b: Book) {
    && (forall o | o in b.bids :: WellPlaced(o))
    && (forall o | o in b.asks :: WellPlaced(o))
  }

  ghost predicate RunInvariant(h: History) {
    && |h.book.pending| <= h.book.fillCount <= MAX_FILLS
    && 1 <= h.book.nextOrderId <= U64_MAX
    && OrdersAccounted(h) && FillsAccounted(h) && FillsSound(h) && OrdersSound(h.book)
  }

  lemma {:induction false} InsertMembers(isBid: bool, s: seq<Order>, o: Order, x: Order)
    ensures x in Insert(isBid, s, o) <==> x == o || x in s
  {
    if s != [] && !Better(isBid, o.priceTicks, s[0].priceTicks) {
      InsertMembers(isBid, s[1..], o, x);
    }
  }

  lemma {:induction false} RemoveMembers(s: seq<Order>, id: U64, x: Order)
    requires x in Remove(s, id)
    ensures x in s
  {
    if s[0].orderId != id && x != s[0] {
      RemoveMembers(s[1..], id, x);
    }
  }

  lemma {:induction false} PlaceStep(h: History, isBid: bool, order: Order)
    requires RunInvariant(h) && WellPlaced(order) && h.book.nextOrderId < U64_MAX
    ensures RunInvariant(Apply(h, Place(isBid, order, true)))
  {
    var s, o := if isBid then h.book.bids else h.book.asks, order.(orderId := h.book.nextOrderId);
    var h' := Apply(h, Place(isBid, order, true));
    forall id: int ensures Places(h', id) == if 1 <= id < h'.book.nextOrderId then 1 else 0 {
      CountInsert(isBid, s, o, id);
      assert Places(h, id) == if 1 <= id < h.book.nextOrderId then 1 else 0;
    }
    forall x | x in Insert(isBid, s, o) ensures WellPlaced(x) {
      InsertMembers(isBid, s, o, x);
    }
  }

  lemma {:induction false} CancelStep(h: History, gone: U64)
    requires RunInvariant(h)
    ensures RunInvariant(Apply(h, Cancel(gone)))
  {
    var b, h' := h.book, Apply(h, Cancel(gone));
    if Locate(b, gone).Some? {
      var s := if Find(b.bids, gone).Some? then b.bids else b.asks;
      forall id: int ensures Places(h', id) == if 1 <= id < h'.book.nextOrderId then 1 else 0 {
        CountRemove(s, gone, id);
        assert Places(h, id) == if 1 <= id < h.book.nextOrderId then 1 else 0;
      }
      forall x | x in Remove(s, gone) ensures WellPlaced(x) {
        RemoveMembers(s, gone, x);
      }
    }
  }

  lemma {:induction false} RestCount(isBid: bool, s: seq<Order>, n: nat, stop: bool, id: int)
    requires n <= |s| && (stop ==> n < |s|)
    ensures Count(Rest(isBid, s, n, stop), id) == Count(s[n..], id)
  {
    if stop {
      CountInsert(isBid, s[n..][1..], s[n], id);
    }
  }

  lemma {:induction false} RestMembers(isBid: bool, s: seq<Order>, n: nat, stop: bool, x: Order)
    requires n <= |s| && (stop ==> n < |s|) && x in Rest(isBid, s, n, stop)
    ensures x in s
  {
    if stop {
      InsertMembers(isBid, s[n..][1..], s[n], x);
    }
  }

  lemma {:induction false} MatchAccountsOrders(h: History, slot: U64)
    requires RunInvariant(h) && h.book.nextFillId + Rounds(h.book) <= U64_MAX
    ensures OrdersAccounted(Apply(h, Match(slot))) && OrdersSound(Apply(h, Match(slot)).book)
  {
    var b, n, h' := h.book, Rounds(h.book), Apply(h, Match(slot));
    var stop := SelfStop(b.bids, b.asks, Cap(b));
    forall id: int ensures Places(h', id) == if 1 <= id < h'.book.nextOrderId then 1 else 0 {
      RestCount(true, b.bids, n, stop, id);
      RestCount(false, b.asks, n, stop, id);
      BatchMoves(h.fills, b.bids, b.asks, n, b.nextFillId, slot, id);
      assert Places(h, id) == if 1 <= id < h.book.nextOrderId then 1 else 0;
    }
    forall x | x in h'.book.bids ensures WellPlaced(x) {
      RestMembers(true, b.bids, n, stop, x);
    }
    forall x | x in h'.book.asks ensures WellPlaced(x) {
      RestMembers(false, b.asks, n, stop, x);
    }
  }

  /** New fills with the next ids, all pending. */
  lemma {:induction false} AppendBatch(h: History, batch: seq<Fill>, h': History)
    requires FillsAccounted(h)
    requires forall i | 0 <= i < |batch| :: batch[i].fillId == h.book.nextFillId + i && batch[i].claimed == 0
    requires h'.fills == h.fills + batch && h'.claims == h.claims
    requires h'.book.pending == h.book.pending + FillSet(batch)
    requires h'.book.nextFillId == h.book.nextFillId + |batch|
    ensures FillsAccounted(h')
  {
    forall f ensures f in h'.book.pending <==> f in h'.fills && f.fillId !in h'.claims {
      assert f in h'.fills <==> f in h.fills || f in batch;
      assert f in batch ==> f.fillId > |h.fills| && f.fillId !in h.claims;
    }
  }

  lemma {:induction false} MatchAccountsFills(h: History, slot: U64)
    requires FillsAccounted(h) && FillsSound(h) && OrdersSound(h.book)
    requires h.book.fillCount <= MAX_FILLS && h.book.nextFillId + Rounds(h.book) <= U64_MAX
    ensures FillsAccounted(Apply(h, Match(slot))) && FillsSound(Apply(h, Match(slot)))
  {
    hide FillsAccounted, Rounds, Rest, Batch, MatchRounds;
    var b, batch, h' := h.book, Batch(h.book, slot), Apply(h, Match(slot));
    BatchPending(b, slot);
    BatchShape(b, slot);
    AppendBatch(h, batch, h');
    forall f | f in batch ensures f.taker != f.maker && f.sizeBand <= 3 {
      var i :| 0 <= i < |batch| && batch[i] == f;
      assert WellPlaced(b.bids[i]);
    }
  }

  /** Fill `i` of a batch pairs the `i`-th best bid (taker) with the `i`-th best ask (maker) at the
      ask's price, which the bid reaches; the traders differ; ids are consecutive. */
  lemma {:induction false} BatchShape(b: Book, slot: U64)
    requires b.fillCount <= MAX_FILLS && b.nextFillId + Rounds(b) <= U64_MAX
    ensures |Batch(b, slot)| == Rounds(b) <= |b.bids| && Rounds(b) <= |b.asks|
    ensures forall i | 0 <= i < |Batch(b, slot)| ::
      var f := Batch(b, slot)[i];
      && f.fillId == b.nextFillId + i && f.claimed == 0 && f.matchedSlot == slot
      && f.takerOrderId == b.bids[i].orderId && f.makerOrderId == b.asks[i].orderId
      && f.taker == b.bids[i].trader && f.maker == b.asks[i].trader && f.taker != f.maker
      && f.priceTicks == b.asks[i].priceTicks <= b.bids[i].priceTicks
      && f.sizeBand == b.bids[i].sizeBand
    ensures forall f | f in Batch(b, slot) :: f.fillId >= b.nextFillId
  {
    forall i | 0 <= i < Rounds(b) ensures Matches(b.bids[i], b.asks[i]) {
    }
  }

  lemma {:induction false} FillSetSize(fills: seq<Fill>)
    ensures |FillSet(fills)| <= |fills|
  {
    if fills != [] {
      FillSetSize(fills[1..]);
      assert FillSet(fills) == FillSet(fills[1..]) + {fills[0]};
    }
  }

  lemma {:induction false} MatchCounts(h: History, slot: U64)
    requires RunInvariant(h) && h.book.nextFillId + Rounds(h.book) <= U64_MAX
    ensures |MatchBook(h.book, slot).pending| <= MatchBook(h.book, slot).fillCount <= MAX_FILLS
  {
    FillSetSize(Batch(h.book, slot));
  }

  /** Taking one pending fill out, under an id not claimed before. */
  lemma {:induction false} ClaimStep(h: History, f: Fill, h': History)
    requires FillsAccounted(h) && f in h.book.pending
    requires h'.book.pending == h.book.pending - {f} && h'.claims == h.claims + [f.fillId]
    requires h'.fills == h.fills && h'.book.nextFillId == h.book.nextFillId
    ensures FillsAccounted(h') && |h'.book.pending| == |h.book.pending| - 1
  {
    forall g ensures g in h'.book.pending <==> g in h'.fills && g.fillId !in h'.claims {
      assert g.fillId in h'.claims <==> g.fillId in h.claims || g.fillId == f.fillId;
      assert g in h.fills && g.fillId == f.fillId ==> g == f;
    }
  }

  lemma {:induction false} SamePlaces(h: History, h': History)
    requires OrdersAccounted(h) && h'.cancelled == h.cancelled && h'.fills == h.fills
    requires h'.book.bids == h.book.bids && h'.book.asks == h.book.asks && h'.book.nextOrderId == h.book.nextOrderId
    ensures OrdersAccounted(h')
  {
    assert forall id: int :: Places(h', id) == Places(h, id);
  }

  /** Every operation keeps the account of orders and fills. */
  lemma {:induction false} StepKeepsInvariant(h: History, op: Op)
    requires RunInvariant(h)
    ensures RunInvariant(Apply(h, op))
  {
    hide OrdersAccounted, FillsAccounted, MatchBook, Rounds;
    match op
    case Place(isBid, order, accepted) =>
      if accepted && WellPlaced(order) && h.book.nextOrderId < U64_MAX {
        PlaceStep(h, isBid, order);
      }
    case Cancel(id) => CancelStep(h, id);
    case Match(slot) =>
      if h.book.nextFillId + Rounds(h.book) <= U64_MAX {
        MatchAccountsOrders(h, slot);
        MatchAccountsFills(h, slot);
        MatchCounts(h, slot);
        MatchIds(h.book, slot);
      }
    case Settle(f) =>
      if f in h.book.pending {
        ClaimStep(h, f, Apply(h, op));
        SamePlaces(h, Apply(h, op));
      }
    case Recycle(f) =>
      if f in h.book.pending && h.book.fillCount > 0 {
        ClaimStep(h, f, Apply(h, op));
        SamePlaces(h, Apply(h, op));
      }
  }

  lemma {:induction false} MatchIds(b: Book, slot: U64)
    requires b.fillCount <= MAX_FILLS && b.nextFillId + Rounds(b) <= U64_MAX
    ensures MatchBook(b, slot).nextOrderId == b.nextOrderId
  {
  }

  // ----- whole runs

  function Run(h: History, ops: seq<Op>): History
    requires RunInvariant(h)
    decreases |ops|
  {
    if ops == [] then h
    else
      StepKeepsInvariant(h, ops[0]);
      Run(Apply(h, ops[0]), ops[1..])
  }

  /** Over every run: each order id handed out is live, cancelled or consumed by one fill,
      exactly once in all; ids never handed out are nowhere; and no fill is claimed twice. */
  lemma {:induction false} ExactlyOnce(h: History, ops: seq<Op>)
    requires RunInvariant(h)
    ensures
      var end := Run(h, ops);
      && RunInvariant(end)
      && (forall id: int | 1 <= id < end.book.nextOrderId :: Places(end, id) == 1)
      && (forall id: int | id < 1 || end.book.nextOrderId <= id :: Places(end, id) == 0)
      && (forall i, j | 0 <= i < j < |end.claims| :: end.claims[i] != end.claims[j])
    decreases |ops|
  {
    if ops != [] {
      StepKeepsInvariant(h, ops[0]);
      ExactlyOnce(Apply(h, ops[0]), ops[1..]);
    }
  }

  lemma {:induction false} RunAppend(h: History, first: seq<Op>, second: seq<Op>)
    requires RunInvariant(h)
    ensures RunInvariant(Run(h, first)) && Run(h, first + second) == Run(Run(h, first), second)
    decreases |first|
  {
    if first == [] {
      assert first + second == second;
    } else {
      StepKeepsInvariant(h, first[0]);
      assert (first + second)[1..] == first[1..] + second;
      hide Apply, RunInvariant;
      RunAppend(Apply(h, first[0]), first[1..], second);
    }
  }

  lemma {:induction false} StartInvariant()
    ensures RunInvariant(START)
  {
  }

  predicate OnChain(op: Op) {
    !op.Recycle?
  }

  predicate InMemory(op: Op) {
    !op.Settle?
  }

  lemma {:induction false} OnChainStep(h: History, op: Op)
    requires RunInvariant(h) && h.book.fillCount == |h.fills| && OnChain(op)
    ensures Apply(h, op).book.fillCount == |Apply(h, op).fills|
    ensures h.book.fillCount == MAX_FILLS ==> Apply(h, op).fills == h.fills
  {
    hide OrdersAccounted, FillsAccounted, Insert, Batch;
    if op.Match? && h.book.nextFillId + Rounds(h.book) <= U64_MAX {
      BatchPending(h.book, op.slot);
      assert h.book.fillCount == MAX_FILLS ==> Batch(h.book, op.slot) == [];
    }
  }

  /** The instructions never give a ring slot's count back: the counter is the number of fills
      ever made. So a book produces at most 256 fills in its life, settled or not. */
  lemma {:induction false} OnChainFillLimit(h: History, ops: seq<Op>)
    requires RunInvariant(h) && h.book.fillCount == |h.fills|
    requires forall op | op in ops :: OnChain(op)
    ensures Run(h, ops).book.fillCount == |Run(h, ops).fills| <= MAX_FILLS
    ensures h.book.fillCount == MAX_FILLS ==> Run(h, ops).fills == h.fills
    decreases |ops|
  {
    if ops != [] {
      StepKeepsInvariant(h, ops[0]);
      OnChainStep(h, ops[0]);
      hide Apply, OrdersAccounted, FillsAccounted;
      OnChainFillLimit(Apply(h, ops[0]), ops[1..]);
    }
  }

  /** The operation claims a pending fill the way the settlement instruction does. */
  predicate Settles(h: History, op: Op) {
    op.Settle? && op.fill in h.book.pending
  }

  /** Counted fills that no longer wait to be claimed. */
  function Stale(h: History): int {
    h.book.fillCount - |h.book.pending|
  }

  /** Each settlement adds one to them; nothing else changes their number. */
  lemma {:induction false} StaleStep(h: History, op: Op)
    requires RunInvariant(h)
    ensures Stale(Apply(h, op)) == Stale(h) + (if Settles(h, op) then 1 else 0)
  {
    hide OrdersAccounted, Insert, Batch;
    if op.Match? && h.book.nextFillId + Rounds(h.book) <= U64_MAX {
      BatchSize(h, op.slot);
    } else if (op.Settle? || op.Recycle?) && op.fill in h.book.pending {
      assert |h.book.pending - {op.fill}| == |h.book.pending| - 1;
    }
  }

  function Settlements(h: History, ops: seq<Op>): nat
    requires RunInvariant(h)
    decreases |ops|
  {
    if ops == [] then 0
    else
      StepKeepsInvariant(h, ops[0]);
      (if Settles(h, ops[0]) then 1 else 0) + Settlements(Apply(h, ops[0]), ops[1..])
  }

  /** Over every run, whichever way each claim is made, the counter exceeds the number of pending
      fills by exactly one for every settlement; so a book sees at most 256 settlements. */
  lemma {:induction false} CountOverRun(h: History, ops: seq<Op>)
    requires RunInvariant(h)
    ensures Stale(Run(h, ops)) == Stale(h) + Settlements(h, ops) <= MAX_FILLS
    decreases |ops|
  {
    hide OrdersAccounted, FillsAccounted, Apply, Stale;
    if ops == [] {
      StaleAtMost(h);
    } else {
      StepKeepsInvariant(h, ops[0]);
      StaleStep(h, ops[0]);
      CountOverRun(Apply(h, ops[0]), ops[1..]);
    }
  }

  lemma {:induction false} StaleAtMost(h: History)
    requires RunInvariant(h)
    ensures Stale(h) <= MAX_FILLS
  {
  }

  /** The counter stays the number of pending fills exactly until the first settlement. */
  lemma {:induction false} CountExactUntilSettled(h: History, ops: seq<Op>)
    requires RunInvariant(h) && h.book.fillCount == |h.book.pending|
    ensures Run(h, ops).book.fillCount == |Run(h, ops).book.pending| <==> Settlements(h, ops) == 0
  {
    CountOverRun(h, ops);
  }

  /** Once 256 fills have been settled the book never fills again, whatever happens to it. */
  lemma {:induction false} ExhaustedForever(h: History, ops: seq<Op>)
    requires RunInvariant(h) && Stale(h) == MAX_FILLS
    ensures Run(h, ops).fills == h.fills && Stale(Run(h, ops)) == MAX_FILLS
    decreases |ops|
  {
    if ops != [] {
      StepKeepsInvariant(h, ops[0]);
      StaleStep(h, ops[0]);
      StaleAtMost(Apply(h, ops[0]));
      ExhaustedStep(h, ops[0]);
      hide Apply, OrdersAccounted, FillsAccounted, Stale;
      ExhaustedForever(Apply(h, ops[0]), ops[1..]);
    }
  }

  lemma {:induction false} ExhaustedStep(h: History, op: Op)
    requires RunInvariant(h) && Stale(h) == MAX_FILLS
    ensures Apply(h, op).fills == h.fills && !Settles(h, op)
  {
    hide OrdersAccounted, FillsAccounted, Insert, Batch;
    assert h.book.pending == {};
    if op.Match? && h.book.nextFillId + Rounds(h.book) <= U64_MAX {
      BatchPending(h.book, op.slot);
      assert Batch(h.book, op.slot) == [];
    }
  }

  lemma {:induction false} NoSettlements(h: History, ops: seq<Op>)
    requires RunInvariant(h) && forall op | op in ops :: InMemory(op)
    ensures Settlements(h, ops) == 0
    decreases |ops|
  {
    hide Apply, OrdersAccounted, FillsAccounted;
    if ops != [] {
      assert InMemory(ops[0]);
      StepKeepsInvariant(h, ops[0]);
      NoSettlements(Apply(h, ops[0]), ops[1..]);
    }
  }

  /** When claims go through `OrderBook::claim_fill` instead, the counter is exactly the number
      of pending fills, so claimed slots are filled again and the number of fills is unlimited. */
  lemma {:induction false} InMemoryCountExact(h: History, ops: seq<Op>)
    requires RunInvariant(h) && h.book.fillCount == |h.book.pending|
    requires forall op | op in ops :: InMemory(op)
    ensures Run(h, ops).book.fillCount == |Run(h, ops).book.pending|
  {
    NoSettlements(h, ops);
    CountExactUntilSettled(h, ops);
  }

  /** The fills of a batch are new and different from one another. */
  lemma {:induction false} BatchSize(h: History, slot: U64)
    requires RunInvariant(h) && h.book.nextFillId + Rounds(h.book) <= U64_MAX
    ensures |MatchBook(h.book, slot).pending| == |h.book.pending| + Rounds(h.book)
  {
    var batch := Batch(h.book, slot);
    BatchPending(h.book, slot);
    SetOfDistinct(batch);
    assert h.book.pending !! FillSet(batch);
  }

  /** After a batch that neither hit its limits nor met a self-match, no bid reaches any ask. */
  lemma {:induction false} MatchUncrosses(b: Book, slot: U64)
    requires b.fillCount <= MAX_FILLS && b.nextFillId + Rounds(b) <= U64_MAX
    requires PriceSorted(true, b.bids) && PriceSorted(false, b.asks)
    requires Rounds(b) < Cap(b) && !SelfStop(b.bids, b.asks, Cap(b))
    ensures forall bid, ask | bid in MatchBook(b, slot).bids && ask in MatchBook(b, slot).asks :: bid.priceTicks < ask.priceTicks
  {
    var n := Rounds(b);
    assert n == |b.bids| || n == |b.asks| || !Crosses(b.bids[n], b.asks[n]);
    assert MatchBook(b, slot).bids == b.bids[n..] && MatchBook(b, slot).asks == b.asks[n..];
    hide MatchRounds, SelfStop, MatchBook;
    forall bid, ask | bid in b.bids[n..] && ask in b.asks[n..] ensures !Crosses(bid, ask) {
      var i :| 0 <= i < |b.bids[n..]| && b.bids[n..][i] == bid;
      var j :| 0 <= j < |b.asks[n..]| && b.asks[n..][j] == ask;
      assert b.bids[n + i] == bid && b.asks[n + j] == ask;
    }
  }

  lemma {:induction false} CountIndex(s: seq<Order>, i: nat, id: int)
    requires i < |s| && s[i].orderId == id
    ensures Count(s, id) == 1 + Count(s[..i] + s[i + 1..], id)
  {
    if i == 0 {
      assert s[..0] + s[1..] == s[1..];
    } else {
      CountIndex(s[1..], i - 1, id);
      var rest := s[..i] + s[i + 1..];
      assert rest[0] == s[0] && rest[1..] == s[1..][..i - 1] + s[1..][i..];
    }
  }

  lemma {:induction false} CountHas(s: seq<Order>, x: Order)
    requires x in s
    ensures Count(s, x.orderId) >= 1
  {
    var i :| 0 <= i < |s| && s[i] == x;
    CountIndex(s, i, x.orderId);
  }

  lemma {:induction false} DistinctBySingleCount(s: seq<Order>)
    requires forall id: int :: Count(s, id) <= 1
    ensures forall i, j | 0 <= i < j < |s| :: s[i].orderId != s[j].orderId
  {
    forall i, j | 0 <= i < j < |s| ensures s[i].orderId != s[j].orderId {
      CountIndex(s, j, s[j].orderId);
      var rest := s[..j] + s[j + 1..];
      assert rest[i] == s[i];
      CountHas(rest, s[i]);
      assert Count(s, s[j].orderId) <= 1;
    }
  }

  /** The live orders of a run have distinct ids and computable collateral. */
  lemma {:induction false} RunsAreDistinct(h: History)
    requires RunInvariant(h)
    ensures DistinctOrders(h.book) && Priceable(h.book)
  {
    assert forall id: int :: Places(h, id) <= 1;
    assert forall id: int :: Count(h.book.bids, id) <= Places(h, id) && Count(h.book.asks, id) <= Places(h, id);
    DistinctBySingleCount(h.book.bids);
    DistinctBySingleCount(h.book.asks);
    forall x, y | x in h.book.bids && y in h.book.asks ensures x.orderId != y.orderId {
      CountHas(h.book.bids, x);
      CountHas(h.book.asks, y);
      assert Places(h, x.orderId) <= 1;
    }
  }

  /** In every run a cancel passes exactly if some live order, bid or ask, has the id and carries the
      opened commitment and leverage. It takes exactly that order off its side. */
  lemma {:induction false} CancelSucceeds(h: History, id: U64, digest: Bytes32, leverageBps: U16)
    requires RunInvariant(h)
    ensures CancelCheck(h.book, false, id, digest, leverageBps) ==
      if forall o | o in h.book.bids || o in h.book.asks :: o.orderId != id then Fail(OrderNotFound)
      else if exists o :: (o in h.book.bids || o in h.book.asks) && o.orderId == id && o.commitment == digest && o.leverageBps == leverageBps
      then Pass
      else Fail(CommitmentMismatch)
    ensures IsLive(h.book, id) ==>
      CancelledIn(h.book, Apply(h, Cancel(id)).book, id) && Apply(h, Cancel(id)).cancelled == h.cancelled + multiset{id}
    ensures !IsLive(h.book, id) ==> Apply(h, Cancel(id)) == h
  {
    RunsAreDistinct(h);
    CancelExact(h.book, false, id, digest, leverageBps);
    FindExact(h.book.bids, id);
    FindExact(h.book.asks, id);
    hide RunInvariant, DistinctOrders, Priceable, CancelCheck, CancelledIn, Find, Remove;
  }
}
