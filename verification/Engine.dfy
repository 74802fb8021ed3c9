/** The book as a machine that decides by itself: the book value together with the shapes of its
    two sides, which say what each of them has room for. */
module Engines {
  import opened Types
  import opened Levels
  import opened Shapes
  import opened Ring
  import opened Books
  import Lifecycle

  datatype Engine = Engine(book: Book, bidShape: map<U64, bool>, askShape: map<U64, bool>) {
    /** One side: its live orders and its levels. */
    function Side(isBid: bool): SideState {
      if isBid then SideState(book.bids, bidShape) else SideState(book.asks, askShape)
    }
  }

  const IDLE := Engine(EMPTY_BOOK, map[], map[])

  /** What the instructions ask for; nothing about the answer is given. */
  datatype Command =
    | Place(isBid: bool, order: Order)
    | Cancel(id: U64)
    | Match(slot: U64)
    | Settle(fill: Fill)
    | Recycle(fill: Fill)

  /** The operation of a run that the command turns into here. */
  function Decide(e: Engine, c: Command): Lifecycle.Op {
    match c
    case Place(isBid, order) => Lifecycle.Place(isBid, order, HasRoom(e.Side(isBid), order.priceTicks))
    case Cancel(id) => Lifecycle.Cancel(id)
    case Match(slot) => Lifecycle.Match(slot)
    case Settle(fill) => Lifecycle.Settle(fill)
    case Recycle(fill) => Lifecycle.Recycle(fill)
  }

  /** A side after `n` pops. */
  function Taken(isBid: bool, s: SideState, n: nat): SideState {
    if n == 0 then s else Respond(isBid, Taken(isBid, s, n - 1), Take).0
  }

  /** A side after its head was popped and put back. */
  function Returned(isBid: bool, s: SideState): SideState {
    if s.orders == [] then s else Respond(isBid, Respond(isBid, s, Take).0, Put(s.orders[0])).0
  }

  /** A side after one pass of the matching loop. */
  function AfterRound(isBid: bool, s: SideState, round: Round): SideState {
    match round
    case NoMatch => s
    case Filled => Respond(isBid, s, Take).0
    case SelfMatch => Returned(isBid, s)
  }

  /** A side after a batch. */
  function AfterBatch(isBid: bool, s: SideState, n: nat, selfStop: bool): SideState {
    if selfStop then Returned(isBid, Taken(isBid, s, n)) else Taken(isBid, s, n)
  }

  function ShapeAfter(e: Engine, c: Command, isBid: bool): map<U64, bool>
    requires e.book.fillCount <= MAX_FILLS
  {
    var b, side := e.book, e.Side(isBid);
    match c
    case Place(onBid, order) =>
      if onBid == isBid && Lifecycle.WellPlaced(order) && b.nextOrderId < U64_MAX
      then Respond(isBid, side, Put(order)).0.shape
      else side.shape
    case Cancel(id) =>
      if Locate(b, id).Some? && Locate(b, id).value.0 == isBid then Respond(isBid, side, Drop(id)).0.shape else side.shape
    case Match(slot) =>
      if b.nextFillId + Rounds(b) <= U64_MAX
      then AfterBatch(isBid, side, Rounds(b), SelfStop(b.bids, b.asks, Cap(b))).shape
      else side.shape
    case Settle(_) => side.shape
    case Recycle(_) => side.shape
  }

  function Obey(e: Engine, c: Command): (e': Engine)
    requires e.book.fillCount <= MAX_FILLS
    ensures e'.book.fillCount <= MAX_FILLS
  {
    Engine(Lifecycle.Effect(e.book, Decide(e, c)), ShapeAfter(e, c, true), ShapeAfter(e, c, false))
  }

  function ObeyAll(e: Engine, cs: seq<Command>): Engine
    requires e.book.fillCount <= MAX_FILLS
    decreases |cs|
  {
    if cs == [] then e else ObeyAll(Obey(e, cs[0]), cs[1..])
  }

  /** The operations a list of commands turns into, each refusal decided where it happens. */
  function Decided(e: Engine, cs: seq<Command>): seq<Lifecycle.Op>
    requires e.book.fillCount <= MAX_FILLS
    decreases |cs|
  {
    if cs == [] then [] else [Decide(e, cs[0])] + Decided(Obey(e, cs[0]), cs[1..])
  }

  /** What the machine does with any list of commands is a run of the book, so what is proved of
      all runs holds of it: ids and fills are accounted for, and so on. */
  lemma {:induction false} ObeyedIsRun(h: Lifecycle.History, e: Engine, cs: seq<Command>)
    requires Lifecycle.RunInvariant(h) && h.book == e.book
    ensures Lifecycle.Run(h, Decided(e, cs)).book == ObeyAll(e, cs).book
    ensures Lifecycle.RunInvariant(Lifecycle.Run(h, Decided(e, cs)))
    decreases |cs|
  {
    if cs != [] {
      var op, rest := Decide(e, cs[0]), Decided(Obey(e, cs[0]), cs[1..]);
      Lifecycle.StepKeepsInvariant(h, op);
      Lifecycle.ApplyHasEffect(h, op);
      hide Lifecycle.Apply, Lifecycle.Effect, Lifecycle.OrdersAccounted, Lifecycle.FillsAccounted, Decide, ShapeAfter;
      assert ([op] + rest)[1..] == rest;
      ObeyedIsRun(Lifecycle.Apply(h, op), Obey(e, cs[0]), cs[1..]);
    }
  }

  /** One side has answered an insertion; the rest is as it was. */
  predicate Inserted(e: Engine, isBid: bool, order: Order, e': Engine) {
    && e'.Side(isBid) == Respond(isBid, e.Side(isBid), Put(order)).0 && e'.Side(!isBid) == e.Side(!isBid)
    && e'.book == e.book.(bids := e'.book.bids, asks := e'.book.asks)
  }

  /** A placement past its checks: the machine and the answer. */
  function Stored(e: Engine, isBid: bool, order: Order): (Engine, Result<U64>)
    requires e.book.fillCount <= MAX_FILLS && e.book.nextOrderId <= U64_MAX
  {
    if e.book.nextOrderId == U64_MAX then (e, Err(Overflow))
    else if !HasRoom(e.Side(isBid), order.priceTicks) then (e, Err(FillQueueFull))
    else (Obey(e, Place(isBid, order)), Ok(e.book.nextOrderId))
  }

  /** The insertion, and the next id if it found room. */
  lemma {:induction false} PlaceObeyed(e: Engine, isBid: bool, order: Order, e': Engine)
    requires e.book.fillCount <= MAX_FILLS && e.book.nextOrderId < U64_MAX
    requires Lifecycle.WellPlaced(order) && order.orderId == e.book.nextOrderId && Inserted(e, isBid, order, e')
    ensures Stored(e, isBid, order) ==
      if HasRoom(e.Side(isBid), order.priceTicks)
      then (e'.(book := e'.book.(nextOrderId := e.book.nextOrderId + 1)), Ok(e.book.nextOrderId))
      else (e', Err(FillQueueFull))
  {
    hide HasRoom, Insert, Lifecycle.WellPlaced;
  }

  /** What a stored order has done to the book; a refused one has done nothing, on the machine as well. */
  lemma {:induction false} StoredIs(e: Engine, isBid: bool, order: Order)
    requires e.book.fillCount <= MAX_FILLS && e.book.nextOrderId <= U64_MAX
    requires Lifecycle.WellPlaced(order) && order.orderId == e.book.nextOrderId
    ensures Stored(e, isBid, order).1.Ok? ==> Stored(e, isBid, order).0.book == e.book.(
      bids := if isBid then Insert(true, e.book.bids, order) else e.book.bids,
      asks := if isBid then e.book.asks else Insert(false, e.book.asks, order),
      nextOrderId := e.book.nextOrderId + 1)
    ensures e.book.nextOrderId < U64_MAX ==> Stored(e, isBid, order).0 == Obey(e, Place(isBid, order))
  {
    hide HasRoom, Insert, Lifecycle.WellPlaced;
  }

  lemma {:induction false} StoredAnswer(e: Engine, isBid: bool, order: Order)
    requires e.book.fillCount <= MAX_FILLS && e.book.nextOrderId <= U64_MAX
    ensures Stored(e, isBid, order).1 ==
      if e.book.nextOrderId == U64_MAX then Err(Overflow)
      else if !HasRoom(e.Side(isBid), order.priceTicks) then Err(FillQueueFull)
      else Ok(e.book.nextOrderId)
    ensures Stored(e, isBid, order).1.Err? ==> Stored(e, isBid, order).0 == e
  {
    hide HasRoom, Obey;
  }

  /** A cancel, seen from the sides. */
  lemma {:induction false} CancelObeyed(e: Engine, isBid: bool, id: U64, e': Engine)
    requires e.book.fillCount <= MAX_FILLS && Locate(e.book, id).Some? && Locate(e.book, id).value.0 == isBid
    requires e'.Side(isBid) == Respond(isBid, e.Side(isBid), Drop(id)).0 && e'.Side(!isBid) == e.Side(!isBid)
    requires e'.book == e.book.(bids := e'.book.bids, asks := e'.book.asks)
    ensures e' == Obey(e, Cancel(id)) && e'.book == CancelBook(e.book, id)
  {
    hide Find, Remove, LastAtPrice, Stamped;
  }

  /** The machine after one pass of the matching loop. */
  function AfterPass(e: Engine, slot: U64): Engine
    requires RoundOf(e.book) == Filled ==> e.book.nextFillId < U64_MAX
  {
    var round := RoundOf(e.book);
    Engine(Books.AfterRound(e.book, slot), AfterRound(true, e.Side(true), round).shape, AfterRound(false, e.Side(false), round).shape)
  }

  /** The machine after `k` fills of a batch. */
  ghost predicate InBatch(e: Engine, k: nat, slot: U64, e': Engine) {
    && e.book.fillCount <= MAX_FILLS && k <= Rounds(e.book) && e.book.nextFillId + k <= U64_MAX
    && e'.book == Partial(e.book, k, slot)
    && e'.Side(true) == Taken(true, e.Side(true), k) && e'.Side(false) == Taken(false, e.Side(false), k)
  }

  lemma {:induction false} BatchStarts(e: Engine, slot: U64)
    requires e.book.fillCount <= MAX_FILLS && e.book.nextFillId <= U64_MAX
    ensures InBatch(e, 0, slot, e)
  {
    assert FillSet([]) == {};
  }

  /** While rounds are left, a pass fills the next pair, if there is an id for it. */
  lemma {:induction false} BatchContinues(e: Engine, k: nat, slot: U64, e': Engine)
    requires InBatch(e, k, slot, e') && k < FILLS_PER_MATCH
    ensures RoundOf(e'.book) == Filled <==> k < Rounds(e.book)
    ensures k < Rounds(e.book) && e'.book.nextFillId < U64_MAX ==> InBatch(e, k + 1, slot, AfterPass(e', slot))
    ensures k < Rounds(e.book) && e'.book.nextFillId == U64_MAX ==>
      e.book.nextFillId + Rounds(e.book) > U64_MAX && Overrun(e'.book, slot) == OverrunBook(e.book, slot)
  {
    RoundOfPartial(e.book, k, slot);
    hide MatchRounds, RoundOf, NewFills, Respond;
    if k < Rounds(e.book) && e'.book.nextFillId < U64_MAX {
      PassSides(e, k, slot, e');
    }
  }

  lemma {:induction false} PassSides(e: Engine, k: nat, slot: U64, e': Engine)
    requires InBatch(e, k, slot, e') && RoundOf(e'.book) == Filled && e'.book.nextFillId < U64_MAX
    ensures AfterPass(e', slot).Side(true) == Taken(true, e.Side(true), k + 1)
    ensures AfterPass(e', slot).Side(false) == Taken(false, e.Side(false), k + 1)
  {
    hide MatchRounds, NewFills, Reaped, AloneAtHead, Partial;
  }

  lemma {:induction false} MatchEffect(e: Engine, slot: U64)
    requires e.book.fillCount <= MAX_FILLS && e.book.nextFillId + Rounds(e.book) <= U64_MAX
    ensures Obey(e, Match(slot)).book == MatchBook(e.book, slot)
  {
    hide MatchBook, Rounds, ShapeAfter;
  }

  /** A batch ends in a self-match exactly if its last pass is one. */
  lemma {:induction false} StopsHow(b: Book, k: nat, slot: U64)
    requires b.fillCount <= MAX_FILLS && b.nextFillId + k <= U64_MAX && k == Rounds(b)
    ensures SelfStop(b.bids, b.asks, Cap(b)) <==> k < FILLS_PER_MATCH && RoundOf(Partial(b, k, slot)) == SelfMatch
  {
    if k < FILLS_PER_MATCH {
      RoundOfPartial(b, k, slot);
    }
    hide MatchRounds, RoundOf, NewFills;
  }

  /** One side at the end of the batch. */
  lemma {:induction false} SideEnds(e: Engine, k: nat, slot: U64, isBid: bool, last: Round)
    requires e.book.fillCount <= MAX_FILLS && e.book.nextFillId + k <= U64_MAX && k == Rounds(e.book)
    requires last != Filled && (SelfStop(e.book.bids, e.book.asks, Cap(e.book)) <==> last == SelfMatch)
    ensures ShapeAfter(e, Match(slot), isBid) == AfterRound(isBid, Taken(isBid, e.Side(isBid), k), last).shape
  {
    hide Rounds, SelfStop, Taken, Returned, Respond;
  }

  /** The machine after a whole batch of `k` fills. */
  ghost predicate Ended(e: Engine, k: nat, slot: U64, e': Engine) {
    && e.book.fillCount <= MAX_FILLS && k == Rounds(e.book) && e.book.nextFillId + k <= U64_MAX
    && e' == Obey(e, Match(slot)) && e'.book == MatchBook(e.book, slot)
  }

  lemma {:induction false} EndedIs(e: Engine, k: nat, slot: U64, e': Engine)
    requires Ended(e, k, slot, e')
    ensures e.book.fillCount <= MAX_FILLS && k == Rounds(e.book) && e.book.nextFillId + k <= U64_MAX
    ensures e' == Obey(e, Match(slot)) && e'.book == MatchBook(e.book, slot)
  {
  }

  /** The batch is over after 32 fills, or with the first pass that does not fill. */
  lemma {:induction false} BatchEnds(e: Engine, k: nat, slot: U64, e': Engine)
    requires InBatch(e, k, slot, e') && (k == FILLS_PER_MATCH || RoundOf(e'.book) != Filled)
    ensures Ended(e, k, slot, if k == FILLS_PER_MATCH then e' else AfterPass(e', slot))
  {
    BatchEnd(e.book, k, slot);
    StopsHow(e.book, k, slot);
    hide Rounds, RoundOf, SelfStop, MatchBook, Partial, Taken, Returned, Respond, ShapeAfter, Lifecycle.Effect;
    MatchEffect(e, slot);
    var last := if k == FILLS_PER_MATCH then NoMatch else RoundOf(e'.book);
    SideEnds(e, k, slot, true, last);
    SideEnds(e, k, slot, false, last);
  }

  /** Popping leaves the rest of the sequence. */
  lemma {:induction false} TakenOrders(isBid: bool, s: SideState, n: nat)
    requires n <= |s.orders|
    ensures Taken(isBid, s, n).orders == s.orders[n..]
  {
    if n > 0 {
      TakenOrders(isBid, s, n - 1);
    }
  }
}
