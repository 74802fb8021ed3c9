/** What one side of the book means: the sequence of its live orders in
    priority order, and the representation invariant of the bucket array. */
module Levels {
  import opened Types

  const MAX_LEVELS := 256
  const ORDERS_PER_LEVEL := 4

  /** The fixed `[Order; 4]` of a bucket. */
  type Slots = s: seq<Order> | |s| == 4 witness [ZERO_ORDER, ZERO_ORDER, ZERO_ORDER, ZERO_ORDER]

  const ZERO_SLOTS: Slots := [ZERO_ORDER, ZERO_ORDER, ZERO_ORDER, ZERO_ORDER]

  datatype PriceBucket = PriceBucket(priceTicks: U64, count: U64, orders: Slots)

  const ZERO_BUCKET := PriceBucket(0, 0, ZERO_SLOTS)

  /** Price `p` has priority over price `q`: bids descend, asks ascend. */
  predicate Better(isBid: bool, p: int, q: int) {
    if isBid then p > q else p < q
  }

  function LiveSlot(o: Order): seq<Order> {
    if o.orderId == 0 then [] else [o]
  }

  /** The orders of a slot sequence that are not tombstones, in slot order. */
  function Live(orders: seq<Order>): seq<Order> {
    if orders == [] then [] else LiveSlot(orders[0]) + Live(orders[1..])
  }

  function Queue(b: PriceBucket): seq<Order> {
    Live(b.orders)
  }

  /** The live orders of a run of levels, best priority first. */
  function View(levels: seq<PriceBucket>): seq<Order> {
    if levels == [] then [] else Queue(levels[0]) + View(levels[1..])
  }

  /** The bucket at `price` that holds exactly the live orders `q`. */
  function Packed(price: U64, q: seq<Order>): PriceBucket
    requires |q| <= 4
  {
    PriceBucket(price, |q|, q + ZERO_SLOTS[|q|..])
  }

  // ----- representation invariant

  predicate SlotOk(b: PriceBucket, j: nat)
    requires j < 4
  {
    b.orders[j] != ZERO_ORDER ==>
      j < b.count && b.orders[j].orderId != 0 && b.orders[j].priceTicks == b.priceTicks
  }

  /** The last used slot is a tombstone. */
  predicate EndsDead(b: PriceBucket) {
    1 <= b.count <= 4 && b.orders[b.count - 1].orderId == 0
  }

  predicate SlotsOk(b: PriceBucket) {
    b.count <= 4 && forall j | 0 <= j < 4 :: SlotOk(b, j)
  }

  predicate BucketOk(b: PriceBucket) {
    1 <= b.count && SlotsOk(b)
  }

  predicate LevelsOk(isBid: bool, levels: seq<PriceBucket>) {
    && (forall i | 0 <= i < |levels| :: BucketOk(levels[i]))
    && (forall i, j | 0 <= i < j < |levels| :: Better(isBid, levels[i].priceTicks, levels[j].priceTicks))
  }

  /** The whole array: `n` active levels, then zeroed buckets. */
  predicate ArrayOk(isBid: bool, levels: seq<PriceBucket>, n: nat) {
    && n <= |levels| == MAX_LEVELS
    && LevelsOk(isBid, levels[..n])
    && (forall i | n <= i < |levels| :: levels[i] == ZERO_BUCKET)
  }

  /** When an order at `price` finds a slot: the level at that price holds fewer than four
      live orders, or no level has that price and one of the 256 levels is unused. */
  ghost predicate Accepts(levels: seq<PriceBucket>, price: U64) {
    && (forall i | 0 <= i < |levels| && levels[i].priceTicks == price :: |Queue(levels[i])| < ORDERS_PER_LEVEL)
    && (|levels| < MAX_LEVELS || exists i :: 0 <= i < |levels| && levels[i].priceTicks == price)
  }

  /** `after` accepts what `before` accepts, and additionally orders at `price`. */
  ghost predicate MakesRoom(before: seq<PriceBucket>, after: seq<PriceBucket>, price: U64) {
    forall p: U64 :: Accepts(after, p) <==> p == price || Accepts(before, p)
  }

  ghost predicate NeverRefusesMore(before: seq<PriceBucket>, after: seq<PriceBucket>) {
    forall p: U64 :: Accepts(before, p) ==> Accepts(after, p)
  }

  // ----- operations on the priority sequence

  /** Stable insertion: after every order whose price is equal or better. */
  function Insert(isBid: bool, s: seq<Order>, o: Order): seq<Order> {
    if s == [] || Better(isBid, o.priceTicks, s[0].priceTicks) then [o] + s
    else [s[0]] + Insert(isBid, s[1..], o)
  }

  /** The sequence without the first order called `id`. */
  function Remove(s: seq<Order>, id: U64): seq<Order> {
    if s == [] then []
    else if s[0].orderId == id then s[1..]
    else [s[0]] + Remove(s[1..], id)
  }

  /** The first order called `id`. */
  function Find(s: seq<Order>, id: U64): Option<Order> {
    if s == [] then None
    else if s[0].orderId == id then Some(s[0])
    else Find(s[1..], id)
  }

  lemma {:induction false} ConcatAssoc<T>(a: seq<T>, b: seq<T>, c: seq<T>)
    ensures a + (b + c) == a + b + c
  {
  }

  // ----- live orders of concatenations and updates

  lemma {:induction false} LiveConcat(a: seq<Order>, b: seq<Order>)
    ensures Live(a + b) == Live(a) + Live(b)
  {
    if a == [] {
      assert a + b == b;
    } else {
      assert (a + b)[1..] == a[1..] + b;
      LiveConcat(a[1..], b);
    }
  }

  lemma {:induction false} LiveMembers(s: seq<Order>, x: Order)
    ensures x in Live(s) <==> x in s && x.orderId != 0
  {
    if s != [] {
      LiveMembers(s[1..], x);
    }
  }

  lemma {:induction false} LiveOfTombstones(s: seq<Order>)
    requires forall j | 0 <= j < |s| :: s[j].orderId == 0
    ensures Live(s) == []
  {
    if s != [] {
      LiveOfTombstones(s[1..]);
    }
  }

  lemma {:induction false} LiveOfLive(s: seq<Order>)
    requires forall j | 0 <= j < |s| :: s[j].orderId != 0
    ensures Live(s) == s
  {
    if s != [] {
      LiveOfLive(s[1..]);
    }
  }

  lemma {:induction false} PackedQueue(price: U64, q: seq<Order>)
    requires |q| <= 4 && forall x | x in q :: x.orderId != 0
    ensures Queue(Packed(price, q)) == q
  {
    LiveConcat(q, ZERO_SLOTS[|q|..]);
    LiveOfLive(q);
    LiveOfTombstones(ZERO_SLOTS[|q|..]);
  }

  lemma {:induction false} LiveLength(s: seq<Order>)
    ensures |Live(s)| <= |s|
    ensures |Live(s)| == |s| ==> Live(s) == s
  {
    if s != [] {
      LiveLength(s[1..]);
    }
  }

  lemma {:induction false} LiveAt(s: seq<Order>, k: nat)
    requires k < |s|
    ensures Live(s) == Live(s[..k]) + LiveSlot(s[k]) + Live(s[k + 1..])
  {
    var rest := s[k..];
    assert s == s[..k] + rest;
    LiveConcat(s[..k], rest);
    assert rest[1..] == s[k + 1..];
  }

  lemma {:induction false} ViewConcat(a: seq<PriceBucket>, b: seq<PriceBucket>)
    ensures View(a + b) == View(a) + View(b)
  {
    if a == [] {
      assert a + b == b;
    } else {
      assert (a + b)[1..] == a[1..] + b;
      ViewConcat(a[1..], b);
    }
  }

  lemma {:induction false} ViewAt(s: seq<PriceBucket>, k: nat)
    requires k < |s|
    ensures View(s) == View(s[..k]) + Queue(s[k]) + View(s[k + 1..])
  {
    assert s == s[..k] + s[k..];
    assert s[k..][1..] == s[k + 1..];
    ViewConcat(s[..k], s[k..]);
  }

  lemma {:induction false} ViewNext(s: seq<PriceBucket>, k: nat)
    requires k < |s|
    ensures View(s[..k + 1]) == View(s[..k]) + Queue(s[k])
  {
    ViewAt(s[..k + 1], k);
    assert s[..k + 1][..k] == s[..k];
  }

  /** In a level with room, the next free slot is the back of the queue. */
  lemma {:induction false} AppendSlot(b: PriceBucket, o: Order, b': PriceBucket)
    requires SlotsOk(b) && b.count < 4 && o.orderId != 0 && o.priceTicks == b.priceTicks
    requires b' == PriceBucket(b.priceTicks, b.count + 1, b.orders[b.count := o])
    ensures BucketOk(b') && Queue(b') == Queue(b) + [o]
  {
    var c := b.count;
    LiveAt(b.orders, c);
    LiveAt(b'.orders, c);
    assert SlotOk(b, c);
    forall j | c + 1 <= j < 4 ensures b.orders[j].orderId == 0 {
      assert SlotOk(b, j);
    }
    LiveOfTombstones(b.orders[c + 1..]);
    assert b'.orders[..c] == b.orders[..c] && b'.orders[c + 1..] == b.orders[c + 1..];
    forall j | 0 <= j < 4 ensures SlotOk(b', j) {
      assert SlotOk(b, j);
    }
  }

  lemma {:induction false} PackedOk(b: PriceBucket)
    requires SlotsOk(b)
    ensures |Queue(b)| <= 4 && SlotsOk(Packed(b.priceTicks, Queue(b)))
    ensures Queue(Packed(b.priceTicks, Queue(b))) == Queue(b)
    ensures |Queue(b)| == 4 ==> Packed(b.priceTicks, Queue(b)) == b
  {
    LiveLength(b.orders);
    forall x | x in Queue(b) ensures x.orderId != 0 && x.priceTicks == b.priceTicks {
      QueueMember(b, x);
    }
    PackedQueue(b.priceTicks, Queue(b));
    if |Queue(b)| == 4 {
      assert SlotOk(b, 3);
    }
  }

  lemma {:induction false} AcceptsAt(isBid: bool, levels: seq<PriceBucket>, i: nat)
    requires LevelsOk(isBid, levels) && i < |levels|
    ensures Accepts(levels, levels[i].priceTicks) <==> |Queue(levels[i])| < 4
  {
  }

  lemma {:induction false} LevelsUpdate(isBid: bool, levels: seq<PriceBucket>, i: nat, b: PriceBucket)
    requires LevelsOk(isBid, levels) && i < |levels|
    requires BucketOk(b) && b.priceTicks == levels[i].priceTicks
    ensures LevelsOk(isBid, levels[i := b])
  {
  }

  lemma {:induction false} LevelsInsert(isBid: bool, levels: seq<PriceBucket>, pos: nat, b: PriceBucket)
    requires LevelsOk(isBid, levels) && pos <= |levels| && BucketOk(b)
    requires forall k | 0 <= k < pos :: Better(isBid, levels[k].priceTicks, b.priceTicks)
    requires forall k | pos <= k < |levels| :: Better(isBid, b.priceTicks, levels[k].priceTicks)
    ensures LevelsOk(isBid, levels[..pos] + [b] + levels[pos..])
  {
    var s := levels[..pos] + [b] + levels[pos..];
    forall i | 0 <= i < |s| ensures s[i] == if i < pos then levels[i] else if i == pos then b else levels[i - 1] {
    }
  }

  lemma {:induction false} ViewMember(levels: seq<PriceBucket>, x: Order) returns (i: nat)
    requires x in View(levels)
    ensures i < |levels| && x in Queue(levels[i])
  {
    if x in Queue(levels[0]) {
      i := 0;
    } else {
      var k := ViewMember(levels[1..], x);
      i := k + 1;
    }
  }

  lemma {:induction false} QueueMember(b: PriceBucket, x: Order)
    requires SlotsOk(b) && x in Queue(b)
    ensures x.priceTicks == b.priceTicks && x.orderId != 0
  {
    LiveMembers(b.orders, x);
    var j :| 0 <= j < 4 && b.orders[j] == x;
    assert SlotOk(b, j);
  }

  /** Every live order sits in a level of its own price. */
  lemma {:induction false} ViewPrice(isBid: bool, levels: seq<PriceBucket>, x: Order) returns (i: nat)
    requires LevelsOk(isBid, levels) && x in View(levels)
    ensures i < |levels| && x.priceTicks == levels[i].priceTicks && x.orderId != 0
  {
    i := ViewMember(levels, x);
    QueueMember(levels[i], x);
  }

  // ----- inserting and removing in the middle

  lemma {:induction false} InsertSplit(isBid: bool, a: seq<Order>, b: seq<Order>, o: Order)
    requires forall x | x in a :: !Better(isBid, o.priceTicks, x.priceTicks)
    requires b == [] || Better(isBid, o.priceTicks, b[0].priceTicks)
    ensures Insert(isBid, a + b, o) == a + [o] + b
  {
    if a == [] {
      assert a + b == b;
    } else {
      assert (a + b)[1..] == a[1..] + b;
      InsertSplit(isBid, a[1..], b, o);
    }
  }

  lemma {:induction false} RemoveSplit(a: seq<Order>, o: Order, b: seq<Order>)
    requires forall x | x in a :: x.orderId != o.orderId
    ensures Remove(a + [o] + b, o.orderId) == a + b
    ensures Find(a + [o] + b, o.orderId) == Some(o)
  {
    if a == [] {
      assert a + [o] + b == [o] + b;
      assert a + b == b;
    } else {
      assert (a + [o] + b)[1..] == a[1..] + [o] + b;
      RemoveSplit(a[1..], o, b);
      assert [a[0]] + (a[1..] + b) == a + b;
    }
  }

  lemma {:induction false} RemoveMiddle(a: seq<Order>, b: seq<Order>, o: Order, c: seq<Order>, d: seq<Order>)
    requires forall x | x in a :: x.orderId != o.orderId
    requires forall x | x in b :: x.orderId != o.orderId
    ensures Remove(a + (b + [o] + c) + d, o.orderId) == a + (b + c) + d
    ensures Find(a + (b + [o] + c) + d, o.orderId) == Some(o)
  {
    RemoveSplit(a + b, o, c + d);
    assert a + (b + [o] + c) + d == a + b + [o] + (c + d);
    assert a + (b + c) + d == a + b + (c + d);
  }

  lemma {:induction false} RemoveAbsent(s: seq<Order>, id: U64)
    requires forall x | x in s :: x.orderId != id
    ensures Remove(s, id) == s && Find(s, id) == None
  {
    if s != [] {
      RemoveAbsent(s[1..], id);
    }
  }

  lemma {:induction false} LowPart(isBid: bool, levels: seq<PriceBucket>, k: nat, price: U64)
    requires LevelsOk(isBid, levels) && k <= |levels|
    requires forall i | 0 <= i < k :: !Better(isBid, price, levels[i].priceTicks)
    ensures forall x | x in View(levels[..k]) :: !Better(isBid, price, x.priceTicks)
  {
    forall x | x in View(levels[..k]) ensures !Better(isBid, price, x.priceTicks) {
      var i := ViewPrice(isBid, levels[..k], x);
    }
  }

  lemma {:induction false} HighPart(isBid: bool, levels: seq<PriceBucket>, k: nat, price: U64)
    requires LevelsOk(isBid, levels) && k <= |levels|
    requires forall i | k <= i < |levels| :: Better(isBid, price, levels[i].priceTicks)
    ensures forall x | x in View(levels[k..]) :: Better(isBid, price, x.priceTicks)
  {
    forall x | x in View(levels[k..]) ensures Better(isBid, price, x.priceTicks) {
      var i := ViewPrice(isBid, levels[k..], x);
      assert levels[k..][i] == levels[k + i];
    }
  }

  /** Appending to the queue of the level at the order's price is the stable insertion. */
  lemma {:induction false} InsertIntoLevel(isBid: bool, levels: seq<PriceBucket>, i: nat, b: PriceBucket, o: Order)
    requires LevelsOk(isBid, levels) && i < |levels| && levels[i].priceTicks == o.priceTicks
    requires Queue(b) == Queue(levels[i]) + [o]
    ensures View(levels[i := b]) == Insert(isBid, View(levels), o)
  {
    var low, high := View(levels[..i + 1]), View(levels[i + 1..]);
    assert levels == levels[..i + 1] + levels[i + 1..];
    ViewConcat(levels[..i + 1], levels[i + 1..]);
    ViewNext(levels, i);
    LowPart(isBid, levels, i + 1, o.priceTicks);
    HighPart(isBid, levels, i + 1, o.priceTicks);
    InsertSplit(isBid, low, high, o);
    ViewAt(levels[i := b], i);
    assert levels[i := b][..i] == levels[..i] && levels[i := b][i + 1..] == levels[i + 1..];
    ConcatAssoc(View(levels[..i]), Queue(levels[i]), [o]);
  }

  lemma {:induction false} AppendedLevel(isBid: bool, levels: seq<PriceBucket>, i: nat, b: PriceBucket, o: Order, b': PriceBucket)
    requires LevelsOk(isBid, levels) && i < |levels| && o.orderId != 0
    requires b.priceTicks == levels[i].priceTicks == o.priceTicks
    requires SlotsOk(b) && b.count < 4 && Queue(b) == Queue(levels[i])
    requires b' == PriceBucket(b.priceTicks, b.count + 1, b.orders[b.count := o])
    ensures LevelsOk(isBid, levels[i := b'])
    ensures View(levels[i := b']) == Insert(isBid, View(levels), o)
  {
    AppendSlot(b, o, b');
    LevelsUpdate(isBid, levels, i, b');
    InsertIntoLevel(isBid, levels, i, b', o);
  }

  /** A new level between the better and the worse ones is the stable insertion. */
  lemma {:induction false} InsertNewLevel(isBid: bool, levels: seq<PriceBucket>, pos: nat, b: PriceBucket, o: Order)
    requires LevelsOk(isBid, levels) && pos <= |levels|
    requires forall k | 0 <= k < pos :: Better(isBid, levels[k].priceTicks, o.priceTicks)
    requires forall k | pos <= k < |levels| :: Better(isBid, o.priceTicks, levels[k].priceTicks)
    requires Queue(b) == [o]
    ensures View(levels[..pos] + [b] + levels[pos..]) == Insert(isBid, View(levels), o)
  {
    var low, high := View(levels[..pos]), View(levels[pos..]);
    assert levels == levels[..pos] + levels[pos..];
    ViewConcat(levels[..pos], levels[pos..]);
    ViewConcat(levels[..pos] + [b], levels[pos..]);
    ViewConcat(levels[..pos], [b]);
    assert View([b]) == [o];
    LowPart(isBid, levels, pos, o.priceTicks);
    HighPart(isBid, levels, pos, o.priceTicks);
    InsertSplit(isBid, low, high, o);
  }

  /** Opening a one-order level at the insertion point is the stable insertion. */
  lemma {:induction false} NewLevel(isBid: bool, levels: seq<PriceBucket>, pos: nat, b: PriceBucket, o: Order)
    requires LevelsOk(isBid, levels) && pos <= |levels| && o.orderId != 0
    requires forall k | 0 <= k < pos :: Better(isBid, levels[k].priceTicks, o.priceTicks)
    requires forall k | pos <= k < |levels| :: Better(isBid, o.priceTicks, levels[k].priceTicks)
    requires b == PriceBucket(o.priceTicks, 1, ZERO_SLOTS[0 := o])
    ensures LevelsOk(isBid, levels[..pos] + [b] + levels[pos..])
    ensures View(levels[..pos] + [b] + levels[pos..]) == Insert(isBid, View(levels), o)
  {
    LiveOfTombstones(ZERO_SLOTS);
    AppendSlot(PriceBucket(o.priceTicks, 0, ZERO_SLOTS), o, b);
    LevelsInsert(isBid, levels, pos, b);
    InsertNewLevel(isBid, levels, pos, b, o);
  }

  /** No used slot of the first `n` levels holds `id`. */
  ghost predicate NoSlot(levels: seq<PriceBucket>, n: nat, id: U64)
    requires n <= |levels|
  {
    forall k, o | 0 <= k < n && 0 <= o < levels[k].count <= 4 :: levels[k].orders[o].orderId != id
  }

  /** Slot `oi` of level `bi` is used, and the first one with its id. */
  ghost predicate FirstSlot(isBid: bool, levels: seq<PriceBucket>, bi: nat, oi: nat) {
    && LevelsOk(isBid, levels) && bi < |levels| && oi < levels[bi].count
    && NoSlot(levels, bi, levels[bi].orders[oi].orderId)
    && (forall o | 0 <= o < oi :: levels[bi].orders[o].orderId != levels[bi].orders[oi].orderId)
  }

  /** Clearing the first used slot that holds `id` deletes that order from the view;
      clearing a tombstone (id 0) deletes nothing. */
  lemma {:induction false} DropSlot(isBid: bool, levels: seq<PriceBucket>, bi: nat, oi: nat, b: PriceBucket)
    requires FirstSlot(isBid, levels, bi, oi)
    requires Queue(b) == Live(levels[bi].orders[..oi]) + Live(levels[bi].orders[oi + 1..])
    ensures View(levels[bi := b]) == Remove(View(levels), levels[bi].orders[oi].orderId)
    ensures levels[bi].orders[oi].orderId != 0 ==>
      Find(View(levels), levels[bi].orders[oi].orderId) == Some(levels[bi].orders[oi])
  {
    var slots, order := levels[bi].orders, levels[bi].orders[oi];
    var above, ahead, behind, below :=
      View(levels[..bi]), Live(slots[..oi]), Live(slots[oi + 1..]), View(levels[bi + 1..]);
    assert View(levels[bi := b]) == above + (ahead + behind) + below by {
      ViewAt(levels[bi := b], bi);
      assert levels[bi := b][..bi] == levels[..bi] && levels[bi := b][bi + 1..] == levels[bi + 1..];
    }
    assert View(levels) == above + (ahead + LiveSlot(order) + behind) + below by {
      ViewAt(levels, bi);
      LiveAt(slots, oi);
    }
    if order.orderId == 0 {
      ViewSorted(isBid, levels);
      RemoveAbsent(View(levels), 0);
      assert ahead + [] == ahead;
    } else {
      MissedAbove(isBid, levels, bi, order.orderId);
      forall x | x in ahead ensures x.orderId != order.orderId {
        LiveMembers(slots[..oi], x);
      }
      RemoveMiddle(above, ahead, order, behind, below);
    }
  }

  /** Clearing a live slot makes room at its own price only; clearing a tombstone nowhere. */
  lemma {:induction false} DropRoom(isBid: bool, levels: seq<PriceBucket>, bi: nat, oi: nat, b: PriceBucket)
    requires LevelsOk(isBid, levels) && bi < |levels| && oi < levels[bi].count
    requires Queue(b) == Live(levels[bi].orders[..oi]) + Live(levels[bi].orders[oi + 1..])
    requires b.priceTicks == levels[bi].priceTicks
    ensures NeverRefusesMore(levels, levels[bi := b])
    ensures levels[bi].orders[oi].orderId != 0 ==>
      levels[bi].orders[oi].priceTicks == b.priceTicks && MakesRoom(levels, levels[bi := b], b.priceTicks)
  {
    var slots := levels[bi].orders;
    LiveAt(slots, oi);
    LiveLength(slots);
    assert SlotOk(levels[bi], oi);
    forall p: U64
      ensures p == b.priceTicks ==> (Accepts(levels[bi := b], p) <==> |Queue(b)| < 4)
      ensures p == b.priceTicks ==> (Accepts(levels, p) <==> |Queue(levels[bi])| < 4)
      ensures p != b.priceTicks ==> (Accepts(levels[bi := b], p) <==> Accepts(levels, p))
    {
      RoomAt(isBid, levels, bi, b, p);
    }
  }

  /** Room at the price of a changed level depends on its queue only; room elsewhere is unchanged. */
  lemma {:induction false} RoomAt(isBid: bool, levels: seq<PriceBucket>, bi: nat, b: PriceBucket, p: U64)
    requires LevelsOk(isBid, levels) && bi < |levels| && b.priceTicks == levels[bi].priceTicks
    ensures p == b.priceTicks ==> (Accepts(levels[bi := b], p) <==> |Queue(b)| < 4)
    ensures p == b.priceTicks ==> (Accepts(levels, p) <==> |Queue(levels[bi])| < 4)
    ensures p != b.priceTicks ==> (Accepts(levels[bi := b], p) <==> Accepts(levels, p))
  {
    var s := levels[bi := b];
    assert forall i | 0 <= i < |s| :: s[i].priceTicks == levels[i].priceTicks;
    AcceptsAt(isBid, levels, bi);
    if p == b.priceTicks {
      forall i | 0 <= i < |s| && s[i].priceTicks == p ensures i == bi {
        assert Better(isBid, levels[bi].priceTicks, levels[i].priceTicks)
          || Better(isBid, levels[i].priceTicks, levels[bi].priceTicks) || i == bi;
      }
      assert s[bi].priceTicks == p;
    } else {
      assert forall i | 0 <= i < |s| && s[i].priceTicks == p :: s[i] == levels[i];
    }
  }

  /** The levels without level `bi`. */
  function Closed(levels: seq<PriceBucket>, bi: nat): seq<PriceBucket>
    requires bi < |levels|
  {
    levels[..bi] + levels[bi + 1..]
  }

  /** Closing a level whose queue is empty keeps the view and never refuses more. */
  lemma {:induction false} CloseLevel(isBid: bool, levels: seq<PriceBucket>, bi: nat, b: PriceBucket)
    requires LevelsOk(isBid, levels) && bi < |levels| <= MAX_LEVELS && Queue(b) == []
    ensures LevelsOk(isBid, Closed(levels, bi))
    ensures View(Closed(levels, bi)) == View(levels[bi := b])
    ensures NeverRefusesMore(levels[bi := b], Closed(levels, bi))
  {
    var s, closed := levels[bi := b], Closed(levels, bi);
    assert View(closed) == View(s) by {
      ViewAt(s, bi);
      ViewConcat(levels[..bi], levels[bi + 1..]);
      assert s[..bi] == levels[..bi] && s[bi + 1..] == levels[bi + 1..];
      assert View(levels[..bi]) + [] == View(levels[..bi]);
    }
    LevelsDrop(isBid, levels, bi);
    assert forall i | 0 <= i < |closed| :: closed[i] == s[if i < bi then i else i + 1];
  }

  lemma {:induction false} LevelsDrop(isBid: bool, levels: seq<PriceBucket>, bi: nat)
    requires LevelsOk(isBid, levels) && bi < |levels|
    ensures LevelsOk(isBid, Closed(levels, bi))
  {
    var closed := Closed(levels, bi);
    assert forall i | 0 <= i < |closed| :: closed[i] == levels[if i < bi then i else i + 1];
  }

  /** What one side becomes when slot `oi` of level `bi` is deleted, leaving bucket `b` there. */
  function Deleted(levels: seq<PriceBucket>, bi: nat, b: PriceBucket): seq<PriceBucket>
    requires bi < |levels|
  {
    if b.count == 0 then Closed(levels, bi) else levels[bi := b]
  }

  lemma {:induction false} DeleteSlot(isBid: bool, levels: seq<PriceBucket>, bi: nat, oi: nat, b: PriceBucket)
    requires FirstSlot(isBid, levels, bi, oi) && |levels| <= MAX_LEVELS
    requires SlotsOk(b) && b.priceTicks == levels[bi].priceTicks
    requires Queue(b) == Live(levels[bi].orders[..oi]) + Live(levels[bi].orders[oi + 1..])
    requires b.count == 0 ==> Queue(b) == []
    ensures LevelsOk(isBid, Deleted(levels, bi, b))
    ensures View(Deleted(levels, bi, b)) == Remove(View(levels), levels[bi].orders[oi].orderId)
    ensures NeverRefusesMore(levels, Deleted(levels, bi, b))
    ensures levels[bi].orders[oi].orderId != 0 ==>
      && Find(View(levels), levels[bi].orders[oi].orderId) == Some(levels[bi].orders[oi])
      && Accepts(Deleted(levels, bi, b), levels[bi].orders[oi].priceTicks)
  {
    DropSlot(isBid, levels, bi, oi, b);
    DropRoom(isBid, levels, bi, oi, b);
    if b.count == 0 {
      CloseLevel(isBid, levels, bi, b);
    } else {
      LevelsUpdate(isBid, levels, bi, b);
    }
  }

  /** If no used slot of the first `n` levels holds `id`, their view does not. */
  lemma {:induction false} MissedAbove(isBid: bool, levels: seq<PriceBucket>, n: nat, id: U64)
    requires LevelsOk(isBid, levels) && n <= |levels| && id != 0 && NoSlot(levels, n, id)
    ensures forall x | x in View(levels[..n]) :: x.orderId != id
  {
    forall x | x in View(levels[..n]) ensures x.orderId != id {
      var k := ViewMember(levels[..n], x);
      LiveMembers(levels[k].orders, x);
      var o :| 0 <= o < 4 && levels[k].orders[o] == x;
      assert BucketOk(levels[k]) && SlotOk(levels[k], o);
    }
  }

  /** The view of a well-formed side is sorted by price and free of tombstones. */
  ghost predicate PriceSorted(isBid: bool, s: seq<Order>) {
    forall i, j | 0 <= i < j < |s| :: !Better(isBid, s[j].priceTicks, s[i].priceTicks)
  }

  lemma {:induction false} ViewSorted(isBid: bool, levels: seq<PriceBucket>)
    requires LevelsOk(isBid, levels)
    ensures PriceSorted(isBid, View(levels))
    ensures forall x | x in View(levels) :: x.orderId != 0
  {
    if levels != [] {
      var head, tail := Queue(levels[0]), View(levels[1..]);
      assert forall i | 0 <= i < |levels[1..]| :: levels[1..][i] == levels[i + 1];
      ViewSorted(isBid, levels[1..]);
      forall x | x in head ensures x.priceTicks == levels[0].priceTicks && x.orderId != 0 {
        QueueMember(levels[0], x);
      }
      forall x | x in tail ensures Better(isBid, levels[0].priceTicks, x.priceTicks) {
        var k := ViewPrice(isBid, levels[1..], x);
      }
      var s := View(levels);
      forall i, j | 0 <= i < j < |s| ensures !Better(isBid, s[j].priceTicks, s[i].priceTicks) {
        if i < |head| { assert s[i] in head; } else { assert s[i] == tail[i - |head|]; }
        if j < |head| { assert s[j] in head; } else { assert s[j] == tail[j - |head|]; assert s[j] in tail; }
      }
    }
  }
}
