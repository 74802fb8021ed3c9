/** One side of the order book: a fixed array of 256 price buckets kept sorted by
    binary search and shifting, with lazy deletion. Every method is specified by
    its effect on the priority sequence of live orders. */
module BookSides {
  import opened Types
  import opened Levels
  import opened Shapes

  /** Binary search in the sorted levels: the level at `price`, or the insertion point. */
  method BSearchLevels(levels: array<PriceBucket>, count: nat, price: U64, isBid: bool)
    returns (found: Option<nat>, pos: nat)
    requires count <= levels.Length && LevelsOk(isBid, levels[..count])
    ensures found.Some? ==> found.value == pos < count && levels[pos].priceTicks == price
    ensures found.None? ==>
      && pos <= count
      && (forall k | 0 <= k < pos :: Better(isBid, levels[k].priceTicks, price))
      && (forall k | pos <= k < count :: Better(isBid, price, levels[k].priceTicks))
  {
    var lo, hi := 0, count;
    ghost var active := levels[..count];
    while lo < hi
      invariant 0 <= lo <= hi <= count
      invariant forall k | 0 <= k < lo :: Better(isBid, active[k].priceTicks, price)
      invariant forall k | hi <= k < count :: Better(isBid, price, active[k].priceTicks)
    {
      var mid := (lo + hi) / 2;
      var p := levels[mid].priceTicks;
      assert p == active[mid].priceTicks;
      if p == price {
        return Some(mid), mid;
      }
      var goRight := if isBid then p > price else p < price;
      if goRight {
        lo := mid + 1;
      } else {
        hi := mid;
      }
    }
    return None, lo;
  }

  /** Zero the slots `from..to`. */
  method ZeroSlots(orders: Slots, from: nat, to: nat) returns (zeroed: Slots)
    requires from <= to <= 4
    ensures zeroed[..from] == orders[..from]
    ensures forall j | from <= j < to :: zeroed[j] == ZERO_ORDER
    ensures zeroed[to..] == orders[to..]
  {
    zeroed := orders;
    for i := from to to
      invariant zeroed[..from] == orders[..from]
      invariant forall j | from <= j < i :: zeroed[j] == ZERO_ORDER
      invariant zeroed[to..] == orders[to..]
    {
      zeroed := zeroed[i := ZERO_ORDER];
    }
  }

  lemma {:induction false} LiveNext(orders: seq<Order>, k: nat)
    requires k < |orders|
    ensures Live(orders[..k + 1]) == Live(orders[..k]) + LiveSlot(orders[k])
  {
    LiveAt(orders[..k + 1], k);
    assert orders[..k + 1][..k] == orders[..k];
  }

  lemma {:induction false} LiveNone(orders: seq<Order>)
    ensures Live(orders[..0]) == []
  {
  }

  /** Move the live orders of a bucket to the front of its slots. */
  method SqueezeLive(bucket: PriceBucket) returns (orders: Slots, write: nat)
    requires BucketOk(bucket)
    ensures write <= bucket.count && orders[..write] == Live(bucket.orders[..bucket.count])
    ensures forall j | bucket.count <= j < 4 :: orders[j] == bucket.orders[j]
  {
    hide SlotOk, Live;
    LiveNone(bucket.orders);
    orders := bucket.orders;
    write := 0;
    for read := 0 to bucket.count
      invariant write <= read
      invariant orders[..write] == Live(bucket.orders[..read])
      invariant forall j | read <= j < 4 :: orders[j] == bucket.orders[j]
    {
      LiveNext(bucket.orders, read);
      if orders[read].orderId != 0 {
        if write != read {
          orders := orders[write := orders[read]];
        }
        write := write + 1;
      }
    }
  }

  /** Squeeze the tombstones out of one bucket. */
  method CompactLevel(bucket: PriceBucket) returns (compacted: PriceBucket, live: nat)
    requires BucketOk(bucket)
    ensures live == |Queue(bucket)| <= 4
    ensures compacted == Packed(bucket.priceTicks, Queue(bucket))
  {
    hide SlotOk, Live;
    TailIsEmpty(bucket);
    var orders;
    orders, live := SqueezeLive(bucket);
    ghost var squeezed := orders;
    orders := ZeroSlots(orders, live, bucket.count);
    compacted := PriceBucket(bucket.priceTicks, live, orders);
    forall j | live <= j < 4 ensures orders[j] == ZERO_ORDER {
      if bucket.count <= j {
        assert orders[j] == orders[bucket.count..][j - bucket.count] == squeezed[bucket.count..][j - bucket.count];
      }
    }
    assert orders == Queue(bucket) + orders[live..];
  }

  /** Slots past `count` hold nothing live. */
  lemma {:induction false} TailIsEmpty(b: PriceBucket)
    requires SlotsOk(b)
    ensures Queue(b) == Live(b.orders[..b.count])
    ensures |Queue(b)| <= b.count
    ensures forall j | b.count <= j < 4 :: b.orders[j] == ZERO_ORDER
  {
    var c := b.count;
    forall j | c <= j < 4 ensures b.orders[j] == ZERO_ORDER {
      assert SlotOk(b, j);
    }
    LiveOfTombstones(b.orders[c..]);
    assert b.orders == b.orders[..c] + b.orders[c..];
    LiveConcat(b.orders[..c], b.orders[c..]);
    LiveLength(b.orders[..c]);
  }

  /** Shift the levels `pos..count` right by one. */
  method ShiftRight(levels: array<PriceBucket>, pos: nat, count: nat)
    requires pos <= count < levels.Length
    modifies levels
    ensures forall j | 0 <= j <= pos || count < j < levels.Length :: levels[j] == old(levels[j])
    ensures forall j | pos < j <= count :: levels[j] == old(levels[j - 1])
  {
    for i := count downto pos
      invariant forall j | 0 <= j <= i :: levels[j] == old(levels[j])
      invariant forall j | i < j <= count :: levels[j] == old(levels[j - 1])
      invariant forall j | count < j < levels.Length :: levels[j] == old(levels[j])
    {
      levels[i + 1] := levels[i];
    }
  }

  /** Drop level `at` and shift the active levels behind it left by one. */
  method DropLevel(levels: array<PriceBucket>, at: nat, count: nat)
    requires at < count <= levels.Length
    modifies levels
    ensures forall j | 0 <= j < at || count <= j < levels.Length :: levels[j] == old(levels[j])
    ensures forall j | at <= j < count - 1 :: levels[j] == old(levels[j + 1])
    ensures levels[count - 1] == ZERO_BUCKET
  {
    for i := at to count - 1
      invariant forall j | 0 <= j < at :: levels[j] == old(levels[j])
      invariant forall j | at <= j < i :: levels[j] == old(levels[j + 1])
      invariant forall j | i <= j < levels.Length :: levels[j] == old(levels[j])
    {
      levels[i] := levels[i + 1];
    }
    levels[count - 1] := ZERO_BUCKET;
  }

  /** Does any of the used slots hold a live order? */
  method HasLive(bucket: PriceBucket) returns (live: bool)
    requires BucketOk(bucket)
    ensures live <==> Queue(bucket) != []
  {
    TailIsEmpty(bucket);
    var c := bucket.count;
    for j := 0 to c
      invariant Live(bucket.orders[..j]) == []
    {
      if bucket.orders[j].orderId != 0 {
        LiveAt(bucket.orders[..c], j);
        return true;
      }
      LiveNext(bucket.orders, j);
    }
    return false;
  }

  /** The price of the first level that still holds a live order. */
  method PeekBest(levels: array<PriceBucket>, count: nat) returns (best: Option<U64>)
    requires count <= levels.Length
    requires forall i | 0 <= i < count :: BucketOk(levels[i])
    ensures best == if View(levels[..count]) == [] then None else Some(View(levels[..count])[0].priceTicks)
  {
    ghost var active := levels[..count];
    for i := 0 to count
      invariant View(active[..i]) == []
    {
      var live := HasLive(levels[i]);
      ViewAt(active, i);
      ViewNext(active, i);
      if live {
        QueueMember(active[i], Queue(active[i])[0]);
        return Some(levels[i].priceTicks);
      }
    }
    assert active[..count] == active;
    return None;
  }

  /** The number of live orders over all levels. */
  method LiveCount(levels: array<PriceBucket>, count: nat) returns (total: nat)
    requires count <= levels.Length
    requires forall i | 0 <= i < count :: BucketOk(levels[i])
    ensures total == |View(levels[..count])|
  {
    ghost var active := levels[..count];
    total := 0;
    for i := 0 to count
      invariant total == |View(active[..i])|
    {
      var bucket := levels[i];
      var c := bucket.count;
      ghost var before := total;
      for j := 0 to c
        invariant total == before + |Live(bucket.orders[..j])|
      {
        LiveNext(bucket.orders, j);
        if bucket.orders[j].orderId != 0 {
          total := total + 1;
        }
      }
      TailIsEmpty(bucket);
      ViewNext(active, i);
    }
    assert active[..count] == active;
  }

  /** The index of the first live slot, or `count` if there is none. */
  method SkipTombstones(bucket: PriceBucket) returns (head: nat)
    requires BucketOk(bucket)
    ensures head <= bucket.count
    ensures forall j | 0 <= j < head :: bucket.orders[j].orderId == 0
    ensures head < bucket.count ==> bucket.orders[head].orderId != 0
  {
    head := 0;
    while head < bucket.count && bucket.orders[head].orderId == 0
      invariant head <= bucket.count
      invariant forall j | 0 <= j < head :: bucket.orders[j].orderId == 0
    {
      head := head + 1;
    }
  }

  /** Take the order in slot `head`, dropping the tombstones before it. */
  method TakeAt(bucket: PriceBucket, head: nat) returns (order: Order, rest: PriceBucket)
    requires BucketOk(bucket) && head < bucket.count && bucket.orders[head].orderId != 0
    requires forall j | 0 <= j < head :: bucket.orders[j].orderId == 0
    ensures Queue(bucket) == [order] + Queue(rest) && order.orderId != 0
    ensures SlotsOk(rest) && rest.priceTicks == bucket.priceTicks && rest.count == bucket.count - head - 1
    ensures rest.count == 0 <==> Queue(rest) == [] && !EndsDead(bucket)
    ensures rest.count > 0 ==> EndsDead(rest) == EndsDead(bucket)
  {
    hide SlotOk, Live;
    var c := bucket.count;
    order := bucket.orders[head];
    var newCount := c - head - 1;
    var orders: Slots := bucket.orders;
    for i := 0 to newCount
      invariant forall j | 0 <= j < i :: orders[j] == bucket.orders[head + 1 + j]
      invariant forall j | i <= j < 4 :: orders[j] == bucket.orders[j]
    {
      orders := orders[i := orders[head + 1 + i]];
    }
    ghost var shifted := orders;
    orders := ZeroSlots(orders, newCount, c);
    rest := PriceBucket(bucket.priceTicks, newCount, orders);
    forall j | 0 <= j < newCount ensures orders[j] == bucket.orders[head + 1 + j] {
      assert orders[j] == orders[..newCount][j] == shifted[..newCount][j];
    }
    forall j | c <= j < 4 ensures orders[j] == bucket.orders[j] {
      assert orders[j] == orders[c..][j - c] == shifted[c..][j - c];
    }
    TakenQueue(bucket, head, rest);
    TakenEnd(bucket, head, rest);
  }

  /** Taking a slot leaves the last used one, if any, in place. */
  lemma {:induction false} TakenEnd(bucket: PriceBucket, head: nat, rest: PriceBucket)
    requires BucketOk(bucket) && head < bucket.count && bucket.orders[head].orderId != 0
    requires SlotsOk(rest) && rest.count == bucket.count - head - 1
    requires forall j | 0 <= j < rest.count :: rest.orders[j] == bucket.orders[head + 1 + j]
    ensures rest.count == 0 <==> Queue(rest) == [] && !EndsDead(bucket)
    ensures rest.count > 0 ==> EndsDead(rest) == EndsDead(bucket)
  {
    TailIsEmpty(rest);
    hide SlotsOk, Live;
    if rest.count > 0 {
      var last := rest.orders[rest.count - 1];
      assert last == bucket.orders[bucket.count - 1];
      LiveMembers(rest.orders, last);
    }
  }

  lemma {:induction false} TakenQueue(bucket: PriceBucket, head: nat, rest: PriceBucket)
    requires BucketOk(bucket) && head < bucket.count && bucket.orders[head].orderId != 0
    requires forall j | 0 <= j < head :: bucket.orders[j].orderId == 0
    requires rest.priceTicks == bucket.priceTicks && rest.count == bucket.count - head - 1
    requires forall j | 0 <= j < rest.count :: rest.orders[j] == bucket.orders[head + 1 + j]
    requires forall j | rest.count <= j < bucket.count :: rest.orders[j] == ZERO_ORDER
    requires forall j | bucket.count <= j < 4 :: rest.orders[j] == bucket.orders[j]
    ensures Queue(bucket) == [bucket.orders[head]] + Queue(rest) && SlotsOk(rest)
  {
    TakenSlots(bucket, head, rest);
    TailIsEmpty(rest);
    TailIsEmpty(bucket);
    hide SlotsOk, BucketOk, Live;
    var used := bucket.orders[..bucket.count];
    LiveSkip(used, head);
    assert used[head + 1..] == rest.orders[..rest.count];
  }

  lemma {:induction false} LiveSkip(orders: seq<Order>, head: nat)
    requires head < |orders| && orders[head].orderId != 0 && forall j | 0 <= j < head :: orders[j].orderId == 0
    ensures Live(orders) == [orders[head]] + Live(orders[head + 1..])
  {
    hide Live;
    LiveAt(orders, head);
    LiveOfTombstones(orders[..head]);
  }

  lemma {:induction false} TakenSlots(bucket: PriceBucket, head: nat, rest: PriceBucket)
    requires BucketOk(bucket) && head < bucket.count
    requires rest.priceTicks == bucket.priceTicks && rest.count == bucket.count - head - 1
    requires forall j | 0 <= j < rest.count :: rest.orders[j] == bucket.orders[head + 1 + j]
    requires forall j | rest.count <= j < bucket.count :: rest.orders[j] == ZERO_ORDER
    requires forall j | bucket.count <= j < 4 :: rest.orders[j] == bucket.orders[j]
    ensures SlotsOk(rest)
  {
    forall j | 0 <= j < 4 ensures SlotOk(rest, j) {
      assert SlotOk(bucket, j);
      if j < rest.count {
        assert SlotOk(bucket, head + 1 + j);
      }
    }
  }

  /** A top level without live orders contributes nothing to the view, and nothing that a pop
      would keep. */
  lemma {:induction false} DeadTop(isBid: bool, levels: seq<PriceBucket>)
    requires LevelsOk(isBid, levels) && levels != [] && Queue(levels[0]) == []
    ensures LevelsOk(isBid, Closed(levels, 0)) && View(Closed(levels, 0)) == View(levels)
    ensures Reaped(isBid, StateOf(Closed(levels, 0))) == Reaped(isBid, StateOf(levels))
  {
    assert Closed(levels, 0) == levels[1..];
    LevelsDrop(isBid, levels, 0);
    hide LevelsOk, View, Shape, Reaped;
    ReapTop(isBid, levels);
  }

  /** The price of a closed top level is free, and so is a level for it. */
  lemma {:induction false} RoomForTop(isBid: bool, levels: seq<PriceBucket>)
    requires LevelsOk(isBid, levels) && 0 < |levels| <= MAX_LEVELS
    ensures Accepts(levels[1..], levels[0].priceTicks)
  {
    hide BucketOk, Queue;
    assert forall i | 0 <= i < |levels[1..]| :: levels[1..][i] == levels[i + 1];
  }

  /** The view without the head of the top queue. */
  lemma {:induction false} ViewWithoutHead(levels: seq<PriceBucket>, order: Order, rest: PriceBucket)
    requires levels != [] && Queue(levels[0]) == [order] + Queue(rest)
    ensures View(levels) == [order] + View(levels[0 := rest])
    ensures Queue(rest) == [] ==> View(levels) == [order] + View(levels[1..])
  {
    hide Queue;
    var shrunk := levels[0 := rest];
    assert shrunk[1..] == levels[1..];
    ConcatAssoc([order], Queue(rest), View(levels[1..]));
    assert Queue(rest) == [] ==> Queue(levels[0]) == [order];
  }

  lemma {:induction false} AtMostFour(b: PriceBucket)
    requires BucketOk(b)
    ensures 1 <= b.count <= 4
  {
  }

  /** The level is kept: it holds fewer than four live orders now. */
  lemma {:induction false} KeepTop(isBid: bool, levels: seq<PriceBucket>, rest: PriceBucket)
    requires LevelsOk(isBid, levels) && levels != [] && BucketOk(rest)
    requires rest.priceTicks == levels[0].priceTicks && rest.count < levels[0].count
    ensures LevelsOk(isBid, levels[0 := rest]) && Accepts(levels[0 := rest], levels[0].priceTicks)
  {
    AtMostFour(levels[0]);
    TailIsEmpty(rest);
    LevelsUpdate(isBid, levels, 0, rest);
    hide LevelsOk, BucketOk, Queue, Accepts;
    AcceptsAt(isBid, levels[0 := rest], 0);
  }

  /** The level is closed: its price and a level are free. */
  lemma {:induction false} CloseTop(isBid: bool, levels: seq<PriceBucket>)
    requires LevelsOk(isBid, levels) && 0 < |levels| <= MAX_LEVELS
    ensures LevelsOk(isBid, Closed(levels, 0)) && Closed(levels, 0) == levels[1..]
    ensures Accepts(Closed(levels, 0), levels[0].priceTicks)
  {
    hide LevelsOk, Accepts;
    LevelsDrop(isBid, levels, 0);
    RoomForTop(isBid, levels);
  }

  /** Taking the head of the top queue takes the head of the view, and leaves room for it. */
  lemma {:induction false} PopTop(isBid: bool, levels: seq<PriceBucket>, order: Order, rest: PriceBucket)
    requires LevelsOk(isBid, levels) && 0 < |levels| <= MAX_LEVELS
    requires SlotsOk(rest) && rest.priceTicks == levels[0].priceTicks && rest.count < levels[0].count
    requires Queue(levels[0]) == [order] + Queue(rest)
    ensures LevelsOk(isBid, Deleted(levels, 0, rest))
    ensures View(levels) == [order] + View(Deleted(levels, 0, rest))
    ensures Accepts(Deleted(levels, 0, rest), order.priceTicks)
  {
    assert BucketOk(levels[0]) && (rest.count > 0 ==> BucketOk(rest)) && order in Queue(levels[0]);
    hide LevelsOk, BucketOk, SlotsOk, View, Queue, Accepts, Closed;
    QueueMember(levels[0], order);
    ViewWithoutHead(levels, order, rest);
    if rest.count != 0 {
      KeepTop(isBid, levels, rest);
    } else {
      TailIsEmpty(rest);
      CloseTop(isBid, levels);
    }
  }

  class BookSide {
    const isBid: bool
    const levels: array<PriceBucket>
    var count: U64

    ghost predicate Valid()
      reads this, levels
    {
      ArrayOk(isBid, levels[..], count)
    }

    /** The active levels. */
    ghost function Active(): (active: seq<PriceBucket>)
      reads this, levels
      ensures Valid() ==> |active| == count && LevelsOk(isBid, active)
    {
      var n := if count <= levels.Length then count else levels.Length;
      assert levels[..n] == levels[..][..n];
      levels[..n]
    }

    /** The priority sequence of live orders. */
    ghost function Orders(): seq<Order>
      reads this, levels
    {
      View(Active())
    }

    /** All that later answers depend on. */
    ghost function State(): SideState
      reads this, levels
    {
      StateOf(Active())
    }

    constructor (isBid: bool)
      ensures Valid() && fresh(levels) && this.isBid == isBid
      ensures Orders() == [] && State() == SideState([], map[]) && levels.Length == 256
    {
      this.isBid := isBid;
      levels := new PriceBucket[256](_ => ZERO_BUCKET);
      count := 0;
    }

    method InsertOrder(order: Order) returns (inserted: bool)
      requires Valid() && order.orderId != 0
      modifies this`count, levels
      ensures Valid()
      ensures inserted <==> old(Accepts(Active(), order.priceTicks))
      ensures inserted ==> Orders() == Insert(isBid, old(Orders()), order)
      ensures inserted <==> old(HasRoom(State(), order.priceTicks))
      ensures State() == Respond(isBid, old(State()), Put(order)).0
      ensures !inserted ==> count == old(count) && levels[..] == old(levels[..])
    {
      hide View, Shape, Accepts, HasRoom, Respond, Better;
      ghost var active := Active();
      RoomIsAccepts(isBid, active, order.priceTicks);
      var price := order.priceTicks;
      var found, pos := BSearchLevels(levels, count, price, isBid);
      if found.Some? {
        var bi := found.value;
        inserted := AppendToLevel(bi, order);
        return;
      }
      if count >= MAX_LEVELS {
        NoLevel(isBid, active, pos, order);
        return false;
      }
      RoomForLevel(isBid, active, pos, order);
      OpenLevel(pos, order);
      return true;
    }

    /** The branch of `insert_order` that found level `bi` at the order's price. */
    method AppendToLevel(bi: nat, order: Order) returns (inserted: bool)
      requires Valid() && order.orderId != 0
      requires bi < count && levels[bi].priceTicks == order.priceTicks
      modifies levels
      ensures Valid()
      ensures inserted <==> old(Accepts(Active(), order.priceTicks))
      ensures inserted ==> Orders() == Insert(isBid, old(Orders()), order)
      ensures State() == Respond(isBid, old(State()), Put(order)).0
      ensures !inserted ==> levels[..] == old(levels[..])
    {
      hide View, Better, Live, Respond, Shape;
      ghost var active := Active();
      var bucket := levels[bi];
      assert active[bi] == bucket;
      AcceptsAt(isBid, active, bi);
      TailIsEmpty(bucket);
      if bucket.count >= ORDERS_PER_LEVEL {
        var live;
        PackedOk(bucket);
        bucket, live := CompactLevel(bucket);
        levels[bi] := bucket;
        if live >= ORDERS_PER_LEVEL {
          NoRoomInLevel(isBid, active, bi, order);
          return false;
        }
      }
      var c := bucket.count;
      var appended := PriceBucket(bucket.priceTicks, c + 1, bucket.orders[c := order]);
      levels[bi] := appended;
      AppendedLevel(isBid, active, bi, bucket, order, appended);
      PutInLevel(isBid, active, bi, bucket, order, appended);
      assert levels[..count] == active[bi := appended];
      return true;
    }

    /** The branch of `insert_order` that shifts the worse levels right. */
    method OpenLevel(pos: nat, order: Order)
      requires Valid() && order.orderId != 0 && pos <= count < MAX_LEVELS
      requires forall k | 0 <= k < pos :: Better(isBid, levels[k].priceTicks, order.priceTicks)
      requires forall k | pos <= k < count :: Better(isBid, order.priceTicks, levels[k].priceTicks)
      modifies this`count, levels
      ensures Valid()
      ensures Orders() == Insert(isBid, old(Orders()), order)
      ensures State() == Respond(isBid, old(State()), Put(order)).0
    {
      hide View, Better, SlotsOk, LevelsOk, BucketOk, Insert, Respond, Shape;
      ghost var active := Active();
      var n := count;
      ShiftRight(levels, pos, n);
      var bucket := PriceBucket(order.priceTicks, 1, ZERO_SLOTS[0 := order]);
      levels[pos] := bucket;
      count := n + 1;
      NewLevel(isBid, active, pos, bucket, order);
      PutInNewLevel(isBid, active, pos, bucket, order);
      assert levels[..count] == active[..pos] + [bucket] + active[pos..];
    }

    /** The best live price (`best_bid_price`, `best_ask_price`). */
    method BestPrice() returns (best: Option<U64>)
      requires Valid()
      ensures best == if Orders() == [] then None else Some(Orders()[0].priceTicks)
    {
      assert forall i | 0 <= i < count :: levels[i] == Active()[i];
      best := PeekBest(levels, count);
    }

    /** The number of live orders (`live_bid_count`, `live_ask_count`). */
    method LiveOrderCount() returns (total: nat)
      requires Valid()
      ensures total == |Orders()|
    {
      assert forall i | 0 <= i < count :: levels[i] == Active()[i];
      total := LiveCount(levels, count);
    }

    /** Drop active level `bi`, which need not be well formed any more. */
    method CloseLevelAt(bi: nat)
      requires levels.Length == MAX_LEVELS && bi < count <= MAX_LEVELS
      requires forall i | count <= i < levels.Length :: levels[i] == ZERO_BUCKET
      requires LevelsOk(isBid, Closed(Active(), bi))
      modifies this`count, levels
      ensures Valid() && count == old(count) - 1
      ensures Active() == Closed(old(Active()), bi)
    {
      hide LevelsOk;
      ghost var active, rest := Active(), Closed(Active(), bi);
      assert forall j | 0 <= j < count :: active[j] == levels[j];
      assert forall j | 0 <= j < |rest| :: rest[j] == active[if j < bi then j else j + 1];
      DropLevel(levels, bi, count);
      count := count - 1;
      assert forall j | 0 <= j < |rest| :: levels[j] == rest[j];
      assert levels[..count] == rest;
    }

    /** Store `b` as level `bi`, or drop that level if `b` has no used slot. */
    method Replace(bi: nat, b: PriceBucket)
      requires Valid() && bi < count && LevelsOk(isBid, Deleted(Active(), bi, b))
      modifies this`count, levels
      ensures Valid()
      ensures Active() == Deleted(old(Active()), bi, b)
    {
      ghost var active := Active();
      levels[bi] := b;
      assert levels[..count] == active[bi := b];
      if b.count == 0 {
        assert Closed(active[bi := b], bi) == Closed(active, bi);
        CloseLevelAt(bi);
      }
    }

    /** Drop the top level, whose queue is empty. */
    method Evict()
      requires Valid() && count > 0 && Queue(levels[0]) == []
      modifies this`count, levels
      ensures Valid() && count == old(count) - 1
      ensures Orders() == old(Orders())
      ensures Reaped(isBid, State()) == old(Reaped(isBid, State()))
    {
      ghost var active := Active();
      assert active[0] == levels[0];
      hide LevelsOk, View, Live, Shape, Reaped, Closed;
      DeadTop(isBid, active);
      CloseLevelAt(0);
    }

    /** Remove and return the best order, reaping tombstones and dead levels on the way. */
    method PopBest() returns (popped: Option<Order>)
      requires Valid()
      modifies this`count, levels
      ensures Valid()
      ensures popped == if old(Orders()) == [] then None else Some(old(Orders())[0])
      ensures Orders() == if old(Orders()) == [] then [] else old(Orders())[1..]
      ensures popped.Some? ==> popped.value.orderId != 0 && Accepts(Active(), popped.value.priceTicks)
      ensures State() == Respond(isBid, old(State()), Take).0
    {
      hide ArrayOk, LevelsOk, View, Live, Shape, Reaped, AloneAtHead;
      while true
        invariant Valid()
        invariant Orders() == old(Orders())
        invariant Reaped(isBid, State()) == old(Reaped(isBid, State()))
        decreases count
      {
        if count == 0 {
          NothingActive();
          return None;
        }
        popped := TakeOrEvict();
        if popped.Some? {
          return;
        }
      }
    }

    /** Without levels there is nothing to pop. */
    lemma {:induction false} NothingActive()
      requires Valid() && count == 0
      ensures State() == SideState([], map[])
    {
    }

    /** One pass of the loop of `pop_best`: skip the tombstones of the top level, then take its first
        live order or, if there is none, evict the level. */
    method TakeOrEvict() returns (popped: Option<Order>)
      requires Valid() && count > 0
      modifies this`count, levels
      ensures Valid()
      ensures popped.None? ==> count < old(count) && Orders() == old(Orders())
      ensures popped.None? ==> Reaped(isBid, State()) == old(Reaped(isBid, State()))
      ensures popped.Some? ==>
        && old(Orders()) == [popped.value] + Orders() && popped.value.orderId != 0
        && Accepts(Active(), popped.value.priceTicks)
        && State() == Respond(isBid, old(State()), Take).0
    {
      hide View, Shape, Reaped, Respond, Accepts, Live;
      var bucket := levels[0];
      assert Active()[0] == bucket;
      var head := SkipTombstones(bucket);
      if head >= bucket.count {
        TailIsEmpty(bucket);
        LiveOfTombstones(bucket.orders[..bucket.count]);
        Evict();
        return None;
      }
      var order := TakeBest(head);
      return Some(order);
    }

    /** The last part of `pop_best`: take slot `head` of the top level, drop the level if that empties it. */
    method TakeBest(head: nat) returns (order: Order)
      requires Valid() && count > 0
      requires head < levels[0].count && levels[0].orders[head].orderId != 0
      requires forall j | 0 <= j < head :: levels[0].orders[j].orderId == 0
      modifies this`count, levels
      ensures Valid()
      ensures old(Orders()) == [order] + Orders() && order.orderId != 0
      ensures Accepts(Active(), order.priceTicks)
      ensures State() == Respond(isBid, old(State()), Take).0
    {
      ghost var active := Active();
      assert active[0] == levels[0];
      hide View, Shape, Respond, EndsDead, Live;
      var rest;
      order, rest := TakeAt(levels[0], head);
      PopTop(isBid, active, order, rest);
      TakeTop(isBid, active, order, rest);
      Replace(0, rest);
    }

    /** The first used slot whose id field is `id`, level by level. */
    method FindSlot(id: U64) returns (found: bool, bi: nat, oi: nat)
      requires Valid()
      ensures found ==>
        && bi < count && oi < 4 && levels[bi] == Active()[bi] && levels[bi].orders[oi].orderId == id
        && FirstSlot(isBid, Active(), bi, oi)
      ensures !found ==> NoSlot(Active(), count, id)
    {
      hide SlotsOk;
      ghost var active := Active();
      assert forall i | 0 <= i < count :: active[i] == levels[i] && BucketOk(active[i]);
      for bi' := 0 to count
        invariant NoSlot(active, bi', id)
      {
        for oi' := 0 to levels[bi'].count
          invariant forall o | 0 <= o < oi' && o < 4 :: active[bi'].orders[o].orderId != id
        {
          AtMostFour(levels[bi']);
          if levels[bi'].orders[oi'].orderId == id {
            return true, bi', oi';
          }
        }
      }
      return false, 0, 0;
    }

    /** No used slot holds `id`: the view does not either. */
    lemma {:induction false} NothingFound(id: U64)
      requires Valid() && NoSlot(Active(), count, id)
      ensures Remove(Orders(), id) == Orders() && Find(Orders(), id) == None
    {
      var active := Active();
      assert active[..count] == active;
      if id != 0 {
        MissedAbove(isBid, active, count, id);
      } else {
        ViewSorted(isBid, active);
      }
      RemoveAbsent(Orders(), id);
    }

    /** One half of `find_order_in_book`: the order stored in the first slot holding `id`. */
    method FindOrder(id: U64) returns (order: Option<Order>)
      requires Valid()
      ensures id != 0 ==> order == Find(Orders(), id)
      ensures id == 0 ==> order == if NoSlot(Active(), |Active()|, 0) then None else Some(ZERO_ORDER)
    {
      ghost var active := Active();
      var found, bi, oi := FindSlot(id);
      if !found {
        NothingFound(id);
        return None;
      }
      assert active[bi] == levels[bi] && SlotOk(active[bi], oi);
      ghost var rest := PriceBucket(active[bi].priceTicks, active[bi].count, active[bi].orders[oi := ZERO_ORDER]);
      StampedBucket(active[bi], oi, rest);
      DropSlot(isBid, active, bi, oi, rest);
      return Some(levels[bi].orders[oi]);
    }

    /** Lazy cancel: stamp the first slot holding `id` with a tombstone. The level keeps its
        place, so exactly the order's own price gains room.
        Id 0 finds a tombstone, if there is one, and changes nothing. */
    method CancelOrder(id: U64) returns (cancelled: Option<(U64, U16, nat)>)
      requires Valid()
      modifies levels
      ensures Valid()
      ensures Orders() == Remove(old(Orders()), id)
      ensures id != 0 ==>
        cancelled == match Find(old(Orders()), id)
                     case None => None
                     case Some(o) => Some((o.priceTicks, o.leverageBps, o.sizeBand))
      ensures id != 0 && cancelled.Some? ==>
        MakesRoom(old(Active()), Active(), cancelled.value.0)
      ensures State() == Respond(isBid, old(State()), Drop(id)).0
      ensures id == 0 || cancelled.None? ==> levels[..] == old(levels[..])
    {
      hide View, Shape, EndsDead, Live, Accepts, Remove;
      ghost var active := Active();
      var found, bi, oi := FindSlot(id);
      if !found {
        NothingFound(id);
        return None;
      }
      var order := levels[bi].orders[oi];
      var stamped := PriceBucket(levels[bi].priceTicks, levels[bi].count, levels[bi].orders[oi := ZERO_ORDER]);
      StampedBucket(active[bi], oi, stamped);
      LevelsUpdate(isBid, active, bi, stamped);
      DropSlot(isBid, active, bi, oi, stamped);
      DropRoom(isBid, active, bi, oi, stamped);
      if id == 0 {
        DroppedNothing(isBid, active);
      } else {
        DropInLevel(isBid, active, bi, oi, stamped);
      }
      levels[bi] := stamped;
      assert Active() == active[bi := stamped] && old(Active()) == active;
      return Some((order.priceTicks, order.leverageBps, order.sizeBand));
    }

    /** Hard remove: delete the first slot holding `id`, and its level once no slot is used. */
    method RemoveOrder(id: U64) returns (removed: bool)
      requires Valid()
      modifies this`count, levels
      ensures Valid()
      ensures Orders() == Remove(old(Orders()), id)
      ensures id != 0 ==> (removed <==> Find(old(Orders()), id).Some?)
      ensures NeverRefusesMore(old(Active()), Active())
      ensures id != 0 && removed ==> Accepts(Active(), Find(old(Orders()), id).value.priceTicks)
      ensures Leaner(State(), Respond(isBid, old(State()), Drop(id)).0)
      ensures !removed ==> count == old(count) && levels[..] == old(levels[..])
    {
      ghost var active := Active();
      var found, bi, oi := FindSlot(id);
      if !found {
        NothingFound(id);
        return false;
      }
      assert active[bi] == levels[bi];
      hide View, Shape, EndsDead, Live, Remove, Find, Accepts, NeverRefusesMore, Respond, Leaner;
      var rest := ShiftOut(levels[bi], oi);
      TailIsEmpty(rest);
      DeleteSlot(isBid, active, bi, oi, rest);
      RemoveInLevel(isBid, active, bi, oi, rest);
      Replace(bi, rest);
      return true;
    }
  }

  /** Shift the slots behind `oi` down by one. */
  method ShiftOut(bucket: PriceBucket, oi: nat) returns (rest: PriceBucket)
    requires BucketOk(bucket) && oi < bucket.count
    ensures SlotsOk(rest) && rest.priceTicks == bucket.priceTicks && rest.count == bucket.count - 1
    ensures Queue(rest) == Live(bucket.orders[..oi]) + Live(bucket.orders[oi + 1..])
    ensures EndsDead(rest) ==> EndsDead(bucket) || oi == bucket.count - 1
  {
    var c := bucket.count;
    var orders: Slots := bucket.orders;
    for j := oi to c - 1
      invariant forall k | 0 <= k < oi :: orders[k] == bucket.orders[k]
      invariant forall k | oi <= k < j :: orders[k] == bucket.orders[k + 1]
      invariant forall k | j <= k < 4 :: orders[k] == bucket.orders[k]
    {
      orders := orders[j := orders[j + 1]];
    }
    orders := orders[c - 1 := ZERO_ORDER];
    rest := PriceBucket(bucket.priceTicks, c - 1, orders);
    forall k | c <= k < 4 ensures bucket.orders[k] == ZERO_ORDER {
      assert SlotOk(bucket, k);
    }
    assert orders == bucket.orders[..oi] + bucket.orders[oi + 1..] + [ZERO_ORDER];
    ShiftedBucket(bucket, oi, rest);
  }

  lemma {:induction false} StampedBucket(bucket: PriceBucket, oi: nat, b: PriceBucket)
    requires BucketOk(bucket) && oi < bucket.count
    requires b == PriceBucket(bucket.priceTicks, bucket.count, bucket.orders[oi := ZERO_ORDER])
    ensures BucketOk(b)
    ensures bucket.orders[oi].orderId == 0 ==> b == bucket
    ensures Queue(b) == Live(bucket.orders[..oi]) + Live(bucket.orders[oi + 1..])
  {
    StampedSlots(bucket, oi, b);
    LiveAt(b.orders, oi);
    assert b.orders[..oi] == bucket.orders[..oi] && b.orders[oi + 1..] == bucket.orders[oi + 1..];
  }

  lemma {:induction false} StampedSlots(bucket: PriceBucket, oi: nat, b: PriceBucket)
    requires BucketOk(bucket) && oi < bucket.count
    requires b == PriceBucket(bucket.priceTicks, bucket.count, bucket.orders[oi := ZERO_ORDER])
    ensures BucketOk(b)
    ensures bucket.orders[oi].orderId == 0 ==> b == bucket
  {
    assert SlotOk(bucket, oi);
    forall j | 0 <= j < 4 ensures SlotOk(b, j) {
      assert SlotOk(bucket, j);
    }
    if bucket.orders[oi].orderId == 0 {
      assert b.orders == bucket.orders;
    }
  }

  lemma {:induction false} ShiftedBucket(bucket: PriceBucket, oi: nat, b: PriceBucket)
    requires BucketOk(bucket) && oi < bucket.count
    requires b.priceTicks == bucket.priceTicks && b.count == bucket.count - 1
    requires b.orders == bucket.orders[..oi] + bucket.orders[oi + 1..] + [ZERO_ORDER]
    ensures SlotsOk(b)
    ensures Queue(b) == Live(bucket.orders[..oi]) + Live(bucket.orders[oi + 1..])
  {
    forall j | 0 <= j < 4 ensures SlotOk(b, j) {
      assert SlotOk(bucket, j);
      if j < 3 {
        assert SlotOk(bucket, j + 1);
      }
    }
    LiveConcat(bucket.orders[..oi], bucket.orders[oi + 1..]);
    LiveConcat(bucket.orders[..oi] + bucket.orders[oi + 1..], [ZERO_ORDER]);
  }
}
