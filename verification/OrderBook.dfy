/** The order-book account and the instructions that run on it. Each method is proved equal
    to the corresponding operation on `Books.Book`, and to be the step of the same name of the
    machine in `Engines`, so what is proved of runs in `Lifecycle` holds of sequences of calls. */
module OrderBooks {
  import opened Types
  import opened Accounts
  import opened Levels
  import opened BookSides
  import opened Ring
  import opened Books
  import opened Lifecycle
  import opened Shapes
  import Engines

  /** Zeroed storage for the ring. */
  method ZeroedRing() returns (ring: array<Fill>)
    ensures fresh(ring) && RingOk(ring[..], 0, 1) && Pending(ring[..]) == {}
  {
    ring := new Fill[256](_ => ZERO_FILL);
    EmptyRing(ring[..]);
  }

  class OrderBook {
    const bids: BookSide
    const asks: BookSide
    const fills: array<Fill>
    var nextOrderId: U64
    var nextFillId: U64
    var lastMatchSlot: U64
    var fillCount: U64
    var fillHead: U64
    var isDelegated: nat

    ghost predicate Valid()
      reads this, bids, bids.levels, asks, asks.levels, fills
    {
      && bids.isBid && !asks.isBid && bids.levels != asks.levels
      && bids.Valid() && asks.Valid()
      && RingOk(fills[..], fillCount, nextFillId)
      && 1 <= nextOrderId && 1 <= nextFillId
    }

    ghost function Abstract(): Book
      reads this, bids, bids.levels, asks, asks.levels, fills
    {
      Book(bids.Orders(), asks.Orders(), Pending(fills[..]), fillCount, nextOrderId, nextFillId)
    }

    /** The book as a machine, with what its sides have room for. */
    ghost function Machine(): Engines.Engine
      reads this, bids, bids.levels, asks, asks.levels, fills
    {
      Engines.Engine(Abstract(), bids.State().shape, asks.State().shape)
    }

    /** Both sides are sorted by price and hold no tombstones. */
    lemma {:induction false} SidesSorted()
      requires Valid()
      ensures PriceSorted(true, Abstract().bids) && PriceSorted(false, Abstract().asks)
      ensures forall o | o in Abstract().bids || o in Abstract().asks :: o.orderId != 0
    {
      ViewSorted(true, bids.Active());
      ViewSorted(false, asks.Active());
    }

    lemma {:induction false} Empty()
      requires bids.isBid && !asks.isBid && bids.levels != asks.levels && bids.Valid() && asks.Valid()
      requires bids.State() == SideState([], map[]) && asks.State() == SideState([], map[])
      requires RingOk(fills[..], 0, 1) && Pending(fills[..]) == {}
      requires nextOrderId == 1 && nextFillId == 1 && fillCount == 0
      ensures Valid() && Abstract() == EMPTY_BOOK && Machine() == Engines.IDLE
    {
      hide ArrayOk, LevelsOk, View, Shape, RingOk, Pending;
    }

    /** `finalize_order_book_init`: zeroed storage, both counters at 1. */
    constructor ()
      ensures Valid() && Abstract() == EMPTY_BOOK && Machine() == Engines.IDLE && isDelegated == 0
      ensures bids.levels.Length == 256 && asks.levels.Length == 256 && fills.Length == 256
      ensures fresh(bids) && fresh(bids.levels) && fresh(asks) && fresh(asks.levels) && fresh(fills)
    {
      bids := new BookSide(true);
      asks := new BookSide(false);
      var ring := ZeroedRing();
      fills := ring;
      nextOrderId, nextFillId := 1, 1;
      lastMatchSlot, fillCount, fillHead, isDelegated := 0, 0, 0, 0;
      new;
      hide Valid, ArrayOk, LevelsOk, View, Shape, RingOk, Pending;
      Empty();
    }

    /** Append a fill to the ring, in the first free slot from the write cursor on. */
    method PushFill(fill: Fill) returns (pushed: bool)
      requires RingOk(fills[..], fillCount, nextFillId)
      modifies this`fillCount, this`fillHead, fills
      ensures pushed <==> old(fillCount) < MAX_FILLS
      ensures !pushed ==> fills[..] == old(fills[..]) && fillCount == old(fillCount) && fillHead == old(fillHead)
      ensures pushed ==>
        && fillCount == old(fillCount) + 1
        && PushedFirstFree(old(fills[..]), old(fillHead), fill, fills[..], fillHead)
      ensures pushed && Unclaimed(fill) && fill.fillId == nextFillId ==>
        && RingOk(fills[..], fillCount, nextFillId + 1)
        && Pending(fills[..]) == old(Pending(fills[..])) + {fill}
    {
      hide ArrayOk, Pending;
      if fillCount >= MAX_FILLS {
        return false;
      }
      ghost var ring, head := fills[..], fillHead;
      var cursor := fillHead % MAX_FILLS;
      SlotNext(head, 0);
      for k := 0 to MAX_FILLS
        invariant cursor == Slot(head, k) < MAX_FILLS
        invariant forall j: nat | j < k :: Unclaimed(ring[Slot(head, j)])
        invariant fills[..] == ring && fillCount == old(fillCount) && fillHead == head
      {
        var existing := fills[cursor];
        if existing.fillId == 0 || existing.claimed != 0 {
          assert FirstFree(ring, head, k);
          SlotNext(head, k);
          if Unclaimed(fill) && fill.fillId == nextFillId {
            PushSlot(ring, cursor, fill, fillCount, nextFillId);
          }
          fills[cursor] := fill;
          fillHead := (cursor + 1) % MAX_FILLS;
          fillCount := fillCount + 1;
          assert fills[..] == ring[cursor := fill];
          return true;
        }
        SlotNext(head, k);
        cursor := (cursor + 1) % MAX_FILLS;
      }
      FreeSlotExists(ring);
      ghost var i :| 0 <= i < MAX_FILLS && !Unclaimed(ring[i]);
      CycleCovers(head, i);
      assert false;
    }

    /** The first slot whose id field is `fillId` and which is not claimed. */
    method FindFill(fillId: U64) returns (idx: Option<nat>)
      requires fills.Length == MAX_FILLS
      ensures idx == Ring.FindFill(fills[..], fillId)
    {
      for i := 0 to MAX_FILLS
        invariant forall j | 0 <= j < i :: fills[j].fillId != fillId || fills[j].claimed != 0
      {
        if fills[i].fillId == fillId && fills[i].claimed == 0 {
          FindFillFirst(fills[..], fillId, i);
          return Some(i);
        }
      }
      return None;
    }

    /** Mark a fill claimed, free its place in the count, and return a copy. */
    method ClaimFill(fillId: U64) returns (claimed: Option<Fill>)
      requires fills.Length == MAX_FILLS
      modifies this`fillCount, fills
      ensures (fills[..], fillCount as nat, claimed) == old(ClaimRing(fills[..], fillCount, fillId))
      ensures old(Valid()) && fillId != 0 ==>
        && Valid()
        && match Ring.FindFill(old(fills[..]), fillId)
           case None => claimed == None && Machine() == old(Machine())
           case Some(i) =>
             && claimed == Some(old(fills[..])[i].(claimed := 1))
             && Machine() == Engines.Obey(old(Machine()), Engines.Recycle(old(fills[..])[i]))
    {
      hide ArrayOk, LevelsOk, View, Pending, DistinctIds, RingOk;
      if fillId != 0 && RingOk(fills[..], fillCount, nextFillId) {
        ClaimKeepsRing(fills[..], fillCount, nextFillId, fillId);
        CountsPending(fills[..], fillCount, nextFillId);
      }
      var idx := FindFill(fillId);
      if idx.None? {
        return None;
      }
      ghost var ring := fills[..];
      var marked := fills[idx.value].(claimed := 1);
      fills[idx.value] := marked;
      assert fills[..] == ring[idx.value := marked];
      if fillCount == 0 {
        return None;
      }
      fillCount := fillCount - 1;
      return Some(marked);
    }

    /** The claim made by the settlement instruction: the slot is marked, the count is kept. */
    method MarkClaimed(idx: nat)
      requires Valid() && idx < MAX_FILLS && Unclaimed(fills[idx])
      modifies fills
      ensures Valid()
      ensures fills[..] == old(fills[..])[idx := old(fills[idx]).(claimed := 1)]
      ensures old(fills[idx]) in old(Abstract()).pending
      ensures Abstract() == old(Abstract()).(pending := old(Abstract()).pending - {old(fills[idx])})
      ensures Machine() == Engines.Obey(old(Machine()), Engines.Settle(old(fills[idx])))
    {
      hide ArrayOk, LevelsOk, View, Pending;
      ghost var ring := fills[..];
      ClaimSlot(ring, idx);
      fills[idx] := fills[idx].(claimed := 1);
      assert fills[..] == ring[idx := ring[idx].(claimed := 1)];
    }

    /** Pop the best bid and the best ask. */
    method PopBoth() returns (bid: Order, ask: Order)
      requires Valid() && bids.Orders() != [] && asks.Orders() != []
      modifies bids`count, bids.levels, asks`count, asks.levels
      ensures Valid() && [bid] + bids.Orders() == old(bids.Orders()) && [ask] + asks.Orders() == old(asks.Orders())
      ensures bid.orderId != 0 && ask.orderId != 0
      ensures Accepts(bids.Active(), bid.priceTicks) && Accepts(asks.Active(), ask.priceTicks)
      ensures bids.State() == Respond(true, old(bids.State()), Take).0 && asks.State() == Respond(false, old(asks.State()), Take).0
    {
      hide ArrayOk, LevelsOk, View, Shape, Respond;
      var b := bids.PopBest();
      var a := asks.PopBest();
      bid, ask := b.value, a.value;
    }

    /** Put a self-matching pair back. */
    method PutBack(bid: Order, ask: Order)
      requires Valid() && bid.orderId != 0 && ask.orderId != 0
      requires Accepts(bids.Active(), bid.priceTicks) && Accepts(asks.Active(), ask.priceTicks)
      modifies bids`count, bids.levels, asks`count, asks.levels
      ensures Valid()
      ensures bids.Orders() == Insert(true, old(bids.Orders()), bid)
      ensures asks.Orders() == Insert(false, old(asks.Orders()), ask)
      ensures bids.State() == Respond(true, old(bids.State()), Put(bid)).0
      ensures asks.State() == Respond(false, old(asks.State()), Put(ask)).0
    {
      hide ArrayOk, LevelsOk, View, Shape, Respond;
      var bidBack := bids.InsertOrder(bid);
      var askBack := asks.InsertOrder(ask);
    }

    /** Record the pair as the next fill. There is room, so the push cannot be refused. */
    method RecordFill(bid: Order, ask: Order, slot: U64) returns (r: Result<()>)
      requires Valid() && fillCount < MAX_FILLS
      modifies this`nextFillId, this`fillCount, this`fillHead, fills
      ensures r.Err? <==> old(nextFillId) == U64_MAX
      ensures r.Err? ==> r.error == Overflow
      ensures r.Ok? ==> Valid() && nextFillId == old(nextFillId) + 1
      ensures r.Err? ==> nextFillId == old(nextFillId)
      ensures fillCount == old(fillCount) + 1
      ensures Pending(fills[..]) == old(Pending(fills[..])) + {FillOf(bid, ask, old(nextFillId), slot)}
    {
      hide ArrayOk, LevelsOk, View;
      var fillId := nextFillId;
      var fill := FillOf(bid, ask, fillId, slot);
      var pushed := PushFill(fill);
      if !pushed {
        assert false;
      }
      var next :- FitU64(fillId as int + 1);
      nextFillId := next;
      return Ok(());
    }

    /** One pass of the matching loop. Popping both heads and putting them back on a self-match
        never fails; the ring always has room for the new fill. */
    method MatchRound(slot: U64) returns (r: Result<Round>)
      requires Valid()
      modifies this`nextFillId, this`fillCount, this`fillHead, fills
      modifies bids`count, bids.levels, asks`count, asks.levels
      ensures r.Err? <==> old(RoundOf(Abstract()) == Filled && nextFillId == U64_MAX)
      ensures r.Err? ==> r.error == Overflow
      ensures r.Ok? ==> Valid() && r.value == old(RoundOf(Abstract())) && Machine() == Engines.AfterPass(old(Machine()), slot)
      ensures r.Err? ==> Abstract() == old(Overrun(Abstract(), slot))
    {
      hide ArrayOk, LevelsOk, View, Shape, Respond, RingOk, Pending;
      if fillCount >= MAX_FILLS {
        return Ok(NoMatch);
      }
      var bestBid := bids.BestPrice();
      if bestBid.None? {
        return Ok(NoMatch);
      }
      var bestAsk := asks.BestPrice();
      if bestAsk.None? {
        return Ok(NoMatch);
      }
      if bestBid.value < bestAsk.value {
        return Ok(NoMatch);
      }
      r := MeetHeads(slot);
    }

    /** The rest of the pass, once the heads are known to cross. */
    method MeetHeads(slot: U64) returns (r: Result<Round>)
      requires Valid() && RoundOf(Abstract()) != NoMatch
      modifies this`nextFillId, this`fillCount, this`fillHead, fills
      modifies bids`count, bids.levels, asks`count, asks.levels
      ensures r.Err? <==> old(RoundOf(Abstract()) == Filled && nextFillId == U64_MAX)
      ensures r.Err? ==> r.error == Overflow
      ensures r.Ok? ==> Valid() && r.value == old(RoundOf(Abstract())) && Machine() == Engines.AfterPass(old(Machine()), slot)
      ensures r.Err? ==> Abstract() == old(Overrun(Abstract(), slot))
    {
      hide ArrayOk, LevelsOk, View, Shape, Respond, RingOk, Pending, Insert;
      ghost var b := Abstract();
      var bid, ask := PopBoth();
      assert bid == b.bids[0] && ask == b.asks[0];
      assert bids.Orders() == b.bids[1..] && asks.Orders() == b.asks[1..];
      if bid.trader == ask.trader {
        PutBack(bid, ask);
        assert RoundOf(b) == SelfMatch && Abstract() == AfterRound(b, slot);
        return Ok(SelfMatch);
      }
      assert RoundOf(b) == Filled;
      var recorded := RecordFill(bid, ask, slot);
      if recorded.Err? {
        assert Abstract() == Overrun(b, slot);
        return Err(recorded.error);
      }
      assert Abstract() == AfterRound(b, slot);
      return Ok(Filled);
    }

    /** Match the best orders of the two sides, at most 32 pairs and as far as the ring has room. */
    method MatchStep(slot: U64) returns (r: Result<nat>)
      requires Valid()
      modifies this`nextFillId, this`fillCount, this`fillHead, fills
      modifies bids`count, bids.levels, asks`count, asks.levels
      ensures r.Err? <==> old(nextFillId + Rounds(Abstract())) > U64_MAX
      ensures r.Err? ==> r.error == Overflow
      ensures r.Ok? ==> Valid() && r.value == old(Rounds(Abstract())) && Abstract() == old(MatchBook(Abstract(), slot))
      ensures r.Err? ==> Abstract() == old(OverrunBook(Abstract(), slot))
      ensures r.Ok? ==> Machine() == Engines.Obey(old(Machine()), Engines.Match(slot))
    {
      CountsPending(fills[..], fillCount, nextFillId);
      hide Valid, ArrayOk, LevelsOk, RingOk, Shape, View, Pending, Rounds, RoundOf, MatchBook, Overrun, OverrunBook;
      hide Engines.InBatch, Engines.AfterPass, Engines.Obey, Engines.Ended, Effect, Apply;
      ghost var machine := Machine();
      var filled := 0;
      Engines.BatchStarts(machine, slot);
      while filled < FILLS_PER_MATCH
        invariant Valid() && filled <= FILLS_PER_MATCH && Engines.InBatch(machine, filled, slot, Machine())
        invariant filled == FILLS_PER_MATCH ==> Engines.Ended(machine, filled, slot, Machine())
        decreases FILLS_PER_MATCH - filled
      {
        Engines.BatchContinues(machine, filled, slot, Machine());
        if RoundOf(Abstract()) != Filled {
          Engines.BatchEnds(machine, filled, slot, Machine());
        }
        var round :- MatchRound(slot);
        if round != Filled {
          break;
        }
        filled := filled + 1;
        if filled == FILLS_PER_MATCH {
          Engines.BatchEnds(machine, filled, slot, Machine());
        }
      }
      Engines.EndedIs(machine, filled, slot, Machine());
      return Ok(filled);
    }

    /** `match_orders`: run the engine, then look up every fill of the batch for its event.
        The lookup never fails. On an arithmetic error the transaction, and with it the book, is discarded. */
    method MatchOrders(paused: bool, slot: U64) returns (r: Result<seq<Fill>>)
      requires Valid()
      modifies this`nextFillId, this`fillCount, this`fillHead, this`lastMatchSlot, fills
      modifies bids`count, bids.levels, asks`count, asks.levels
      ensures paused ==> r == Err(MarketPaused) && Valid() && Abstract() == old(Abstract())
      ensures !paused && isDelegated != 1 ==> r == Err(BookNotDelegated) && Valid() && Abstract() == old(Abstract())
      ensures !paused && isDelegated == 1 ==> (r.Err? <==> old(nextFillId + Rounds(Abstract())) > U64_MAX)
      ensures !paused && isDelegated == 1 && r.Err? ==> r.error == Overflow && Abstract() == old(OverrunBook(Abstract(), slot))
      ensures r.Ok? ==> Valid() && Abstract() == old(MatchBook(Abstract(), slot)) && r.value == old(Batch(Abstract(), slot))
      ensures r.Ok? ==> lastMatchSlot == if r.value == [] then old(lastMatchSlot) else slot
      ensures r.Ok? ==> Machine() == Engines.Obey(old(Machine()), Engines.Match(slot))
    {
      hide ArrayOk, LevelsOk, View, MatchBook, OverrunBook, Batch, Rounds, DistinctIds;
      :- Require(!paused, MarketPaused);
      :- Require(isDelegated == 1, BookNotDelegated);
      ghost var b := Abstract();
      ghost var batch := if b.nextFillId + Rounds(b) <= U64_MAX then Batch(b, slot) else [];
      var filled :- MatchStep(slot);
      BatchPending(b, slot);
      var events := [];
      if filled > 0 {
        lastMatchSlot := slot;
        events := CollectBatch(nextFillId - filled, filled, batch);
      }
      return Ok(events);
    }

    /** The event loop of `match_orders`: find each fill of the batch by its id. */
    method CollectBatch(firstFillId: U64, filled: nat, ghost batch: seq<Fill>) returns (events: seq<Fill>)
      requires fills.Length == MAX_FILLS && DistinctIds(fills[..])
      requires |batch| == filled && 1 <= firstFillId && firstFillId + filled <= U64_MAX
      requires forall k | 0 <= k < filled :: batch[k] in Pending(fills[..]) && batch[k].fillId == firstFillId + k
      ensures events == batch
    {
      events := [];
      for k := 0 to filled
        invariant events == batch[..k]
      {
        var idx := FindFill(firstFillId + k);
        FindPending(fills[..], batch[k]);
        if idx.None? {
          assert false;
        } else {
          events := events + [fills[idx.value]];
        }
      }
    }

    /** `insert_bid` or `insert_ask`. */
    method InsertSide(order: Order, isBid: bool) returns (inserted: bool)
      requires Valid() && order.orderId != 0
      modifies bids`count, bids.levels, asks`count, asks.levels
      ensures Valid()
      ensures inserted <==> old(Accepts(if isBid then bids.Active() else asks.Active(), order.priceTicks))
      ensures inserted <==> old(HasRoom(Machine().Side(isBid), order.priceTicks))
      ensures Engines.Inserted(old(Machine()), isBid, order, Machine())
    {
      hide ArrayOk, LevelsOk, View, Shape, Accepts, HasRoom, Insert, RingOk, Pending, Respond;
      if isBid {
        inserted := bids.InsertOrder(order);
      } else {
        inserted := asks.InsertOrder(order);
      }
    }

    /** Place a size-committed order: the next id, at the back of its price level. A refused
        order leaves the account as it was. */
    method PlaceOrder(market: Market, user: UserAccount, trader: Pubkey, side: Side, priceTicks: U64,
        band: SizeBand, leverageBps: U16, commitment: Bytes32, slot: U64)
      returns (r: Result<U64>)
      requires Valid()
      modifies this`nextOrderId, bids`count, bids.levels, asks`count, asks.levels
      ensures Valid()
      ensures r ==
        if market.paused then Err(MarketPaused)
        else if priceTicks == 0 then Err(InvalidPrice)
        else if leverageBps == 0 || leverageBps > market.maxLeverageBps then Err(InvalidLeverage)
        else
          var lots := match band case Small => 10 case Medium => 100 case Large => 1_000 case Whale => 10_000;
          var needed := lots * priceTicks * 100 / leverageBps;
          if needed > U64_MAX then Err(Overflow)
          else if needed > 0 && needed > user.depositedAmount - user.lockedAmount then Err(InsufficientCollateral)
          else if old(nextOrderId) == U64_MAX then Err(Overflow)
          else if !old(Accepts(if side == Long then bids.Active() else asks.Active(), priceTicks)) then Err(FillQueueFull)
          else Ok(old(nextOrderId))
      ensures r.Ok? ==>
        var b := old(Abstract());
        var code := match band case Small => 0 case Medium => 1 case Large => 2 case Whale => 3;
        var order := Order(r.value, trader, if side == Long then 0 else 1, code, leverageBps, priceTicks, commitment, slot);
        Abstract() == b.(
          bids := if side == Long then Insert(true, b.bids, order) else b.bids,
          asks := if side == Long then b.asks else Insert(false, b.asks, order),
          nextOrderId := b.nextOrderId + 1)
      ensures r.Err? ==> Machine() == old(Machine())
      ensures r.Ok? || r.error == FillQueueFull ==>
        Machine() == Engines.Obey(old(Machine()), Engines.Place(side == Long,
          NewOrder(old(nextOrderId), trader, side, priceTicks, band, leverageBps, commitment, slot)))
    {
      PlaceExact(market, user, priceTicks, band, leverageBps);
      CountsPending(fills[..], fillCount, nextFillId);
      RoomIsAccepts(true, bids.Active(), priceTicks);
      RoomIsAccepts(false, asks.Active(), priceTicks);
      hide PlaceCheck, Valid, Accepts, HasRoom, Insert, Pending, Engines.Obey, Engines.Stored, WellPlaced;
      :- PlaceCheck(market, user, priceTicks, band, leverageBps);
      var order := NewOrder(nextOrderId, trader, side, priceTicks, band, leverageBps, commitment, slot);
      CheckedIsWellPlaced(nextOrderId, market, user, trader, side, priceTicks, band, leverageBps, commitment, slot);
      Engines.StoredIs(Machine(), side == Long, order);
      Engines.StoredAnswer(Machine(), side == Long, order);
      r := StoreOrder(order, side == Long);
    }

    /** The part of `place_order` after its checks: take the next id and insert the order under it. */
    method StoreOrder(order: Order, isBid: bool) returns (r: Result<U64>)
      requires Valid() && WellPlaced(order) && order.orderId == nextOrderId
      modifies this`nextOrderId, bids`count, bids.levels, asks`count, asks.levels
      ensures Valid() && (Machine(), r) == Engines.Stored(old(Machine()), isBid, order)
    {
      CountsPending(fills[..], fillCount, nextFillId);
      hide ArrayOk, LevelsOk, RingOk, Shape, View, Accepts, HasRoom, Insert, Pending, Respond;
      hide Engines.Obey, Engines.Inserted, WellPlaced;
      ghost var machine := Machine();
      var orderId := nextOrderId;
      var next :- FitU64(orderId as int + 1);
      var inserted := InsertSide(order, isBid);
      Engines.PlaceObeyed(machine, isBid, order, Machine());
      if !inserted {
        return Err(FillQueueFull);
      }
      nextOrderId := next;
      return Ok(orderId);
    }

    /** No used slot of the side is a tombstone. */
    static ghost predicate NoTombstone(side: BookSide)
      reads side, side.levels
    {
      NoSlot(side.Active(), |side.Active()|, 0)
    }

    /** Cancel an order by revealing what its commitment hides. Every check is made before the
        slot is stamped, since a failing transaction stamps nothing. Id 0 meets a tombstone, if
        there is one, whose zeroed fields are no valid order. */
    method CancelOrder(paused: bool, orderId: U64, digest: Bytes32, leverageBps: U16) returns (r: Result<()>)
      requires Valid()
      modifies bids.levels, asks.levels
      ensures Valid()
      ensures orderId != 0 ==>
        r == match old(CancelCheck(Abstract(), paused, orderId, digest, leverageBps))
             case Fail(e) => Err(e)
             case Pass => Ok(())
      ensures orderId == 0 ==>
        r == if paused then Err(MarketPaused)
             else if old(NoTombstone(bids) && NoTombstone(asks)) then Err(OrderNotFound)
             else if digest == 0 == leverageBps then Err(InvalidLeverage)
             else Err(CommitmentMismatch)
      ensures Abstract() == if r.Err? then old(Abstract()) else old(CancelBook(Abstract(), orderId))
      ensures old(DistinctOrders(Abstract()) && Priceable(Abstract())) && orderId != 0 ==>
        && r == (if paused then Err(MarketPaused)
                 else if !old(IsLive(Abstract(), orderId)) then Err(OrderNotFound)
                 else if !old(Opens(Abstract(), orderId, digest, leverageBps)) then Err(CommitmentMismatch)
                 else Ok(()))
        && (r.Ok? ==> CancelledIn(old(Abstract()), Abstract(), orderId))
      ensures Machine() == if r.Err? then old(Machine()) else Engines.Obey(old(Machine()), Engines.Cancel(orderId))
    {
      hide Valid, NoTombstone, CancelledIn, DistinctOrders, Priceable, IsLive, Opens, Locate, CancelBook, Engines.Obey;
      if DistinctOrders(Abstract()) && Priceable(Abstract()) {
        CancelExact(Abstract(), paused, orderId, digest, leverageBps);
        LocatedIsLive(Abstract(), orderId);
      }
      :- Require(!paused, MarketPaused);
      var found := FindInBook(orderId);
      :- Require(found.Some?, OrderNotFound);
      :- RevealCheck(found.value.1, digest, leverageBps);
      CancelSide(found.value.0, orderId);
      return Ok(());
    }

    /** `find_order_in_book`: bids first, then asks. */
    method FindInBook(orderId: U64) returns (found: Option<(bool, Order)>)
      requires Valid()
      ensures orderId != 0 ==> found == Locate(Abstract(), orderId)
      ensures orderId == 0 ==> found.Some? == !(NoTombstone(bids) && NoTombstone(asks))
      ensures orderId == 0 && found.Some? ==> found.value.1 == ZERO_ORDER
    {
      hide ArrayOk, LevelsOk, View, RingOk, Find;
      var bid := bids.FindOrder(orderId);
      if bid.Some? {
        return Some((true, bid.value));
      }
      var ask := asks.FindOrder(orderId);
      if ask.Some? {
        return Some((false, ask.value));
      }
      return None;
    }

    /** `OrderBook::cancel_order` on the side that holds the order. */
    method CancelSide(isBid: bool, orderId: U64)
      requires Valid() && Locate(Abstract(), orderId).Some? && Locate(Abstract(), orderId).value.0 == isBid
      modifies bids.levels, asks.levels
      ensures Valid()
      ensures Abstract() == old(CancelBook(Abstract(), orderId))
      ensures Machine() == Engines.Obey(old(Machine()), Engines.Cancel(orderId))
    {
      CountsPending(fills[..], fillCount, nextFillId);
      hide ArrayOk, LevelsOk, View, Shape, RingOk, Pending, Respond, Engines.Obey, Find, Remove;
      ghost var machine := Machine();
      if isBid {
        var _ := bids.CancelOrder(orderId);
      } else {
        var _ := asks.CancelOrder(orderId);
      }
      Engines.CancelObeyed(machine, isBid, orderId, Machine());
    }
  }
}
