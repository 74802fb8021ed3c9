/** What decides how one side answers from now on: the live orders, and for every price with an
    active level whether its last used slot is a tombstone. Capacity depends on this and on no
    other detail of the array. */
module Shapes {
  import opened Types
  import opened Levels

  function Shape(levels: seq<PriceBucket>): map<U64, bool> {
    if levels == [] then map[] else Shape(levels[1..])[levels[0].priceTicks := EndsDead(levels[0])]
  }

  datatype SideState = SideState(orders: seq<Order>, shape: map<U64, bool>)

  function StateOf(levels: seq<PriceBucket>): SideState {
    SideState(View(levels), Shape(levels))
  }

  // ----- the abstract side

  function CountAt(s: seq<Order>, price: U64): nat {
    if s == [] then 0 else (if s[0].priceTicks == price then 1 else 0) + CountAt(s[1..], price)
  }

  /** An insertion finds a slot: fewer than four live orders at the price, if it has a level, and
      otherwise a level to spare. */
  predicate HasRoom(s: SideState, price: U64) {
    if price in s.shape then CountAt(s.orders, price) < ORDERS_PER_LEVEL else |s.shape| < MAX_LEVELS
  }

  datatype SideOp = Put(order: Order) | Take | Drop(id: U64)

  /** The levels left once those better than every live order are reaped. */
  function Reaped(isBid: bool, s: SideState): map<U64, bool> {
    if s.orders == [] then map[]
    else map p | p in s.shape && !Better(isBid, p, s.orders[0].priceTicks) :: s.shape[p]
  }

  /** The first order is the only one at its price. */
  predicate AloneAtHead(s: seq<Order>) {
    |s| == 1 || (|s| > 1 && s[1].priceTicks != s[0].priceTicks)
  }

  /** No order at the same price stands behind the first order called `id`. */
  predicate LastAtPrice(s: seq<Order>, id: U64) {
    s != [] && if s[0].orderId == id then AloneAtHead(s) else LastAtPrice(s[1..], id)
  }

  /** The level at the price ends in a tombstone if it did or if `last`. */
  function Stamped(shape: map<U64, bool>, price: U64, last: bool): map<U64, bool> {
    map p | p in shape :: shape[p] || (p == price && last)
  }

  predicate Dead(shape: map<U64, bool>, price: U64) {
    price in shape && shape[price]
  }

  /** An insertion (refused without room), a pop, or a lazy cancel, with the order it yields. */
  function Respond(isBid: bool, s: SideState, op: SideOp): (SideState, Option<Order>) {
    match op
    case Put(o) =>
      (if HasRoom(s, o.priceTicks) then SideState(Insert(isBid, s.orders, o), s.shape[o.priceTicks := false]) else s, None)
    case Take =>
      if s.orders == [] then (SideState([], map[]), None)
      else
        var rest, p := Reaped(isBid, s), s.orders[0].priceTicks;
        (SideState(s.orders[1..], if AloneAtHead(s.orders) && !Dead(rest, p) then rest - {p} else rest), Some(s.orders[0]))
    case Drop(id) =>
      match Find(s.orders, id)
      case None => (s, None)
      case Some(o) =>
        (SideState(Remove(s.orders, id), Stamped(s.shape, o.priceTicks, LastAtPrice(s.orders, id))), Some(o))
  }

  /** The state and the answers after a list of operations. */
  function Play(isBid: bool, s: SideState, ops: seq<SideOp>): (SideState, seq<Option<Order>>)
    decreases |ops|
  {
    if ops == [] then (s, [])
    else
      var (s1, answer) := Respond(isBid, s, ops[0]);
      var (end, answers) := Play(isBid, s1, ops[1..]);
      (end, [answer] + answers)
  }

  /** Every insertion of the list finds room. */
  predicate Serves(isBid: bool, s: SideState, ops: seq<SideOp>)
    decreases |ops|
  {
    ops == [] ||
    ((ops[0].Put? ==> HasRoom(s, ops[0].order.priceTicks)) && Serves(isBid, Respond(isBid, s, ops[0]).0, ops[1..]))
  }

  /** The same live orders in fewer levels, none of which ends in a tombstone unless it does in
      the other side. */
  predicate Leaner(b: SideState, a: SideState) {
    b.orders == a.orders && forall p | p in b.shape :: p in a.shape && (b.shape[p] ==> a.shape[p])
  }

  lemma {:induction false} SubsetSize<T>(a: set<T>, b: set<T>)
    requires a <= b
    ensures |a| <= |b|
  {
    assert b == a + (b - a);
  }

  lemma {:induction false} LeanerRoom(b: SideState, a: SideState, price: U64)
    requires Leaner(b, a) && |a.shape| <= MAX_LEVELS && HasRoom(a, price)
    ensures HasRoom(b, price)
  {
    if price !in b.shape {
      SubsetSize(b.shape.Keys, if price in a.shape then a.shape.Keys - {price} else a.shape.Keys);
    }
  }

  lemma {:induction false} LeanerPut(isBid: bool, b: SideState, a: SideState, o: Order)
    requires Leaner(b, a) && |a.shape| <= MAX_LEVELS && HasRoom(a, o.priceTicks)
    ensures Leaner(Respond(isBid, b, Put(o)).0, Respond(isBid, a, Put(o)).0)
    ensures |Respond(isBid, a, Put(o)).0.shape| <= MAX_LEVELS
  {
    LeanerRoom(b, a, o.priceTicks);
    hide HasRoom, Insert;
    if o.priceTicks in a.shape {
      assert a.shape[o.priceTicks := false].Keys == a.shape.Keys;
    } else {
      assert a.shape[o.priceTicks := false].Keys == a.shape.Keys + {o.priceTicks};
      assert |a.shape| < MAX_LEVELS;
    }
  }

  lemma {:induction false} LeanerTake(isBid: bool, b: SideState, a: SideState)
    requires Leaner(b, a)
    ensures Leaner(Respond(isBid, b, Take).0, Respond(isBid, a, Take).0)
    ensures Respond(isBid, a, Take).0.shape.Keys <= a.shape.Keys
  {
    hide AloneAtHead;
  }

  lemma {:induction false} LeanerDrop(isBid: bool, b: SideState, a: SideState, id: U64)
    requires Leaner(b, a)
    ensures Leaner(Respond(isBid, b, Drop(id)).0, Respond(isBid, a, Drop(id)).0)
    ensures Respond(isBid, a, Drop(id)).0.shape.Keys <= a.shape.Keys
  {
    hide Find, Remove, LastAtPrice;
  }

  /** The leaner side answers alike and stays leaner. */
  lemma {:induction false} LeanerStep(isBid: bool, b: SideState, a: SideState, op: SideOp)
    requires Leaner(b, a) && |a.shape| <= MAX_LEVELS
    requires op.Put? ==> HasRoom(a, op.order.priceTicks)
    ensures Leaner(Respond(isBid, b, op).0, Respond(isBid, a, op).0)
    ensures |Respond(isBid, a, op).0.shape| <= MAX_LEVELS
  {
    hide Leaner, Respond, HasRoom;
    match op
    case Put(o) => LeanerPut(isBid, b, a, o);
    case Take =>
      LeanerTake(isBid, b, a);
      SubsetSize(Respond(isBid, a, op).0.shape.Keys, a.shape.Keys);
    case Drop(id) =>
      LeanerDrop(isBid, b, a, id);
      SubsetSize(Respond(isBid, a, op).0.shape.Keys, a.shape.Keys);
  }

  lemma {:induction false} SameAnswer(isBid: bool, a: SideState, b: SideState, op: SideOp)
    requires a.orders == b.orders
    ensures Respond(isBid, a, op).1 == Respond(isBid, b, op).1
  {
    hide Find, Insert, Remove, LastAtPrice, AloneAtHead, HasRoom;
  }

  /** Over every list of operations, the leaner side has room for every insertion the other one has
      room for, gives the same answers, and ends leaner still. */
  lemma {:induction false} LeanerServesMore(isBid: bool, b: SideState, a: SideState, ops: seq<SideOp>)
    requires Leaner(b, a) && |a.shape| <= MAX_LEVELS && Serves(isBid, a, ops)
    ensures Serves(isBid, b, ops)
    ensures Play(isBid, b, ops).1 == Play(isBid, a, ops).1 && Leaner(Play(isBid, b, ops).0, Play(isBid, a, ops).0)
    decreases |ops|
  {
    assert a.orders == b.orders;
    hide Leaner, Respond, HasRoom;
    if ops != [] {
      LeanerStep(isBid, b, a, ops[0]);
      SameAnswer(isBid, a, b, ops[0]);
      if ops[0].Put? {
        LeanerRoom(b, a, ops[0].order.priceTicks);
      }
      LeanerServesMore(isBid, Respond(isBid, b, ops[0]).0, Respond(isBid, a, ops[0]).0, ops[1..]);
    }
  }

  /** Sides with the same live orders, whatever tombstones and dead levels they hold, answer every
      list of operations alike for which both have room, and end with the same live orders. */
  lemma {:induction false} EqualViewsEqualFutures(isBid: bool, a: SideState, b: SideState, ops: seq<SideOp>)
    requires a.orders == b.orders && Serves(isBid, a, ops) && Serves(isBid, b, ops)
    ensures Play(isBid, a, ops).1 == Play(isBid, b, ops).1 && Play(isBid, a, ops).0.orders == Play(isBid, b, ops).0.orders
    decreases |ops|
  {
    if ops != [] {
      assert Respond(isBid, a, ops[0]).0.orders == Respond(isBid, b, ops[0]).0.orders;
      SameAnswer(isBid, a, b, ops[0]);
      hide Respond, HasRoom;
      EqualViewsEqualFutures(isBid, Respond(isBid, a, ops[0]).0, Respond(isBid, b, ops[0]).0, ops[1..]);
    }
  }

  // ----- the levels of one side

  predicate Priced(levels: seq<PriceBucket>, price: U64) {
    exists i :: 0 <= i < |levels| && levels[i].priceTicks == price
  }

  lemma {:induction false} ShapeKeys(levels: seq<PriceBucket>, price: U64)
    ensures price in Shape(levels) <==> Priced(levels, price)
  {
    hide EndsDead;
    if levels != [] {
      var tail := levels[1..];
      ShapeKeys(tail, price);
      if levels[0].priceTicks == price {
        assert levels[0].priceTicks == price;
      } else if Priced(tail, price) {
        var i :| 0 <= i < |tail| && tail[i].priceTicks == price;
        assert levels[i + 1].priceTicks == price;
      } else {
        assert forall i | 0 < i < |levels| :: levels[i] == tail[i - 1];
      }
    }
  }

  /** No level of the tail has the price of the first one. */
  lemma {:induction false} FirstPrice(isBid: bool, levels: seq<PriceBucket>)
    requires LevelsOk(isBid, levels) && levels != []
    ensures LevelsOk(isBid, levels[1..]) && levels[0].priceTicks !in Shape(levels[1..])
  {
    var tail := levels[1..];
    hide BucketOk, EndsDead, Shape;
    assert forall i | 0 <= i < |tail| :: tail[i] == levels[i + 1];
    ShapeKeys(tail, levels[0].priceTicks);
  }

  lemma {:induction false} ShapeSize(isBid: bool, levels: seq<PriceBucket>)
    requires LevelsOk(isBid, levels)
    ensures |Shape(levels)| == |levels|
  {
    if levels != [] {
      FirstPrice(isBid, levels);
      ShapeSize(isBid, levels[1..]);
      hide LevelsOk, EndsDead;
      assert Shape(levels).Keys == Shape(levels[1..]).Keys + {levels[0].priceTicks};
    }
  }

  lemma {:induction false} ShapeUpdate(isBid: bool, levels: seq<PriceBucket>, i: nat, b: PriceBucket)
    requires LevelsOk(isBid, levels) && i < |levels| && b.priceTicks == levels[i].priceTicks
    ensures Shape(levels[i := b]) == Shape(levels)[b.priceTicks := EndsDead(b)]
  {
    var s := levels[i := b];
    if i == 0 {
      assert s[1..] == levels[1..];
    } else {
      var tail := levels[1..];
      assert s[1..] == tail[i - 1 := b] && tail[i - 1] == levels[i];
      assert Better(isBid, levels[0].priceTicks, levels[i].priceTicks);
      FirstPrice(isBid, levels);
      ShapeUpdate(isBid, tail, i - 1, b);
      hide LevelsOk, EndsDead;
    }
  }

  lemma {:induction false} ShapeInsert(levels: seq<PriceBucket>, pos: nat, b: PriceBucket)
    requires pos <= |levels| && forall k | 0 <= k < |levels| :: levels[k].priceTicks != b.priceTicks
    ensures Shape(levels[..pos] + [b] + levels[pos..]) == Shape(levels)[b.priceTicks := EndsDead(b)]
  {
    hide EndsDead;
    var s := levels[..pos] + [b] + levels[pos..];
    if pos == 0 {
      assert s[1..] == levels;
    } else {
      var tail := levels[1..];
      assert s[1..] == tail[..pos - 1] + [b] + tail[pos - 1..];
      ShapeInsert(tail, pos - 1, b);
    }
  }

  lemma {:induction false} ShapeDrop(isBid: bool, levels: seq<PriceBucket>, bi: nat)
    requires LevelsOk(isBid, levels) && bi < |levels|
    ensures Shape(Closed(levels, bi)) == Shape(levels) - {levels[bi].priceTicks}
  {
    hide BucketOk, EndsDead, Shape;
    var s, b := Closed(levels, bi), levels[bi];
    forall k | 0 <= k < |s| ensures s[k].priceTicks != b.priceTicks {
      assert s[k] == levels[if k < bi then k else k + 1];
      assert Better(isBid, s[k].priceTicks, b.priceTicks) || Better(isBid, b.priceTicks, s[k].priceTicks);
    }
    hide LevelsOk;
    assert levels == s[..bi] + [b] + s[bi..];
    ShapeInsert(s, bi, b);
    ShapeKeys(s, b.priceTicks);
  }

  // ----- room

  lemma {:induction false} CountAtConcat(a: seq<Order>, b: seq<Order>, price: U64)
    ensures CountAt(a + b, price) == CountAt(a, price) + CountAt(b, price)
  {
    if a == [] {
      assert a + b == b;
    } else {
      assert (a + b)[1..] == a[1..] + b;
      CountAtConcat(a[1..], b, price);
    }
  }

  lemma {:induction false} CountAtOwn(s: seq<Order>, price: U64)
    ensures (forall x | x in s :: x.priceTicks == price) ==> CountAt(s, price) == |s|
    ensures (forall x | x in s :: x.priceTicks != price) ==> CountAt(s, price) == 0
  {
    if s != [] {
      CountAtOwn(s[1..], price);
    }
  }

  /** The live orders at a level's price are those of its queue. */
  lemma {:induction false} CountAtLevel(isBid: bool, levels: seq<PriceBucket>, i: nat)
    requires LevelsOk(isBid, levels) && i < |levels|
    ensures CountAt(View(levels), levels[i].priceTicks) == |Queue(levels[i])|
  {
    var p, above, below := levels[i].priceTicks, View(levels[..i]), View(levels[i + 1..]);
    ViewAt(levels, i);
    CountAtConcat(above + Queue(levels[i]), below, p);
    CountAtConcat(above, Queue(levels[i]), p);
    forall x | x in Queue(levels[i]) ensures x.priceTicks == p {
      QueueMember(levels[i], x);
    }
    forall x | x in above ensures x.priceTicks != p {
      var k := ViewPrice(isBid, levels[..i], x);
      assert Better(isBid, levels[k].priceTicks, p);
    }
    forall x | x in below ensures x.priceTicks != p {
      var k := ViewPrice(isBid, levels[i + 1..], x);
      assert levels[i + 1..][k] == levels[i + 1 + k] && Better(isBid, p, levels[i + 1 + k].priceTicks);
    }
    CountAtOwn(above, p);
    CountAtOwn(Queue(levels[i]), p);
    CountAtOwn(below, p);
  }

  /** `Levels.Accepts`, read off the state. */
  lemma {:induction false} RoomIsAccepts(isBid: bool, levels: seq<PriceBucket>, price: U64)
    requires LevelsOk(isBid, levels)
    ensures HasRoom(StateOf(levels), price) <==> Accepts(levels, price)
    ensures Accepts(levels, price) <==> if Priced(levels, price) then CountAt(View(levels), price) < 4 else |levels| < 256
  {
    ShapeSize(isBid, levels);
    ShapeKeys(levels, price);
    hide View, Shape, EndsDead, CountAt;
    if price in Shape(levels) {
      var i :| 0 <= i < |levels| && levels[i].priceTicks == price;
      CountAtLevel(isBid, levels, i);
      AcceptsAt(isBid, levels, i);
    }
  }

  // ----- what the operations on the array make of the state

  /** An order appended to the level at its price. */
  lemma {:induction false} PutInLevel(isBid: bool, levels: seq<PriceBucket>, i: nat, b: PriceBucket, o: Order, b': PriceBucket)
    requires LevelsOk(isBid, levels) && i < |levels| && o.orderId != 0
    requires b.priceTicks == levels[i].priceTicks == o.priceTicks
    requires SlotsOk(b) && b.count < 4 && Queue(b) == Queue(levels[i]) && |Queue(b)| < 4
    requires b' == PriceBucket(b.priceTicks, b.count + 1, b.orders[b.count := o])
    ensures LevelsOk(isBid, levels[i := b'])
    ensures StateOf(levels[i := b']) == Respond(isBid, StateOf(levels), Put(o)).0
  {
    AppendedLevel(isBid, levels, i, b, o, b');
    AcceptsAt(isBid, levels, i);
    assert !EndsDead(b');
    hide LevelsOk, View, Shape, Queue, EndsDead, HasRoom, Insert, Accepts;
    RoomIsAccepts(isBid, levels, o.priceTicks);
    ShapeUpdate(isBid, levels, i, b');
  }

  /** No room at the price of a level. */
  lemma {:induction false} NoRoomInLevel(isBid: bool, levels: seq<PriceBucket>, i: nat, o: Order)
    requires LevelsOk(isBid, levels) && i < |levels| && o.priceTicks == levels[i].priceTicks
    requires |Queue(levels[i])| >= 4
    ensures Respond(isBid, StateOf(levels), Put(o)).0 == StateOf(levels)
  {
    AcceptsAt(isBid, levels, i);
    hide LevelsOk, View, Shape, Queue, HasRoom, Insert, Accepts;
    RoomIsAccepts(isBid, levels, o.priceTicks);
  }

  /** An order in a level of its own. */
  lemma {:induction false} PutInNewLevel(isBid: bool, levels: seq<PriceBucket>, pos: nat, b: PriceBucket, o: Order)
    requires LevelsOk(isBid, levels) && pos <= |levels| < MAX_LEVELS && o.orderId != 0
    requires forall k | 0 <= k < pos :: Better(isBid, levels[k].priceTicks, o.priceTicks)
    requires forall k | pos <= k < |levels| :: Better(isBid, o.priceTicks, levels[k].priceTicks)
    requires b == PriceBucket(o.priceTicks, 1, ZERO_SLOTS[0 := o])
    ensures LevelsOk(isBid, levels[..pos] + [b] + levels[pos..])
    ensures StateOf(levels[..pos] + [b] + levels[pos..]) == Respond(isBid, StateOf(levels), Put(o)).0
  {
    NewLevel(isBid, levels, pos, b, o);
    assert !EndsDead(b);
    assert forall k | 0 <= k < |levels| :: levels[k].priceTicks != o.priceTicks;
    hide LevelsOk, View, Shape, EndsDead, Insert, CountAt;
    ShapeInsert(levels, pos, b);
    ShapeKeys(levels, o.priceTicks);
    ShapeSize(isBid, levels);
  }

  /** A level to spare for a price that has none. */
  lemma {:induction false} RoomForLevel(isBid: bool, levels: seq<PriceBucket>, pos: nat, o: Order)
    requires LevelsOk(isBid, levels) && pos <= |levels| < MAX_LEVELS
    requires forall k | 0 <= k < pos :: Better(isBid, levels[k].priceTicks, o.priceTicks)
    requires forall k | pos <= k < |levels| :: Better(isBid, o.priceTicks, levels[k].priceTicks)
    ensures Accepts(levels, o.priceTicks)
  {
    assert forall k | 0 <= k < |levels| :: levels[k].priceTicks != o.priceTicks;
  }

  /** No level and none to spare. */
  lemma {:induction false} NoLevel(isBid: bool, levels: seq<PriceBucket>, pos: nat, o: Order)
    requires LevelsOk(isBid, levels) && pos <= |levels| && |levels| >= MAX_LEVELS
    requires forall k | 0 <= k < pos :: Better(isBid, levels[k].priceTicks, o.priceTicks)
    requires forall k | pos <= k < |levels| :: Better(isBid, o.priceTicks, levels[k].priceTicks)
    ensures Respond(isBid, StateOf(levels), Put(o)).0 == StateOf(levels) && !Accepts(levels, o.priceTicks)
  {
    assert forall k | 0 <= k < |levels| :: levels[k].priceTicks != o.priceTicks;
    hide LevelsOk, View, Shape, Insert, CountAt;
    ShapeKeys(levels, o.priceTicks);
    ShapeSize(isBid, levels);
  }

  /** Reaping a dead top level changes nothing that a pop would keep. */
  lemma {:induction false} ReapTop(isBid: bool, levels: seq<PriceBucket>)
    requires LevelsOk(isBid, levels) && levels != [] && Queue(levels[0]) == []
    ensures Reaped(isBid, StateOf(levels[1..])) == Reaped(isBid, StateOf(levels))
    ensures View(levels[1..]) == View(levels)
  {
    FirstPrice(isBid, levels);
    assert Shape(levels[1..]) == Shape(levels) - {levels[0].priceTicks};
    assert View(levels[1..]) == View(levels);
    hide BucketOk, View, Shape, EndsDead;
    if View(levels) != [] {
      BehindTop(isBid, levels, View(levels)[0]);
    }
    hide LevelsOk;
  }

  lemma {:induction false} BehindTop(isBid: bool, levels: seq<PriceBucket>, x: Order)
    requires LevelsOk(isBid, levels) && levels != [] && x in View(levels[1..])
    ensures Better(isBid, levels[0].priceTicks, x.priceTicks)
  {
    hide View, BucketOk;
    LevelsSuffix(isBid, levels, 1);
    var k := ViewPrice(isBid, levels[1..], x);
    assert levels[1..][k] == levels[k + 1];
  }

  /** With a live order in the top level there is nothing to reap. */
  lemma {:induction false} NothingToReap(isBid: bool, levels: seq<PriceBucket>)
    requires LevelsOk(isBid, levels) && levels != [] && Queue(levels[0]) != []
    ensures View(levels) != [] && View(levels)[0].priceTicks == levels[0].priceTicks
    ensures Reaped(isBid, StateOf(levels)) == Shape(levels)
  {
    QueueMember(levels[0], Queue(levels[0])[0]);
    assert View(levels)[0] == Queue(levels[0])[0];
    forall p | p in Shape(levels) ensures !Better(isBid, p, levels[0].priceTicks) {
      ShapeKeys(levels, p);
      var k :| 0 <= k < |levels| && levels[k].priceTicks == p;
      assert k == 0 || Better(isBid, levels[0].priceTicks, levels[k].priceTicks);
    }
    hide LevelsOk, View, Shape, Queue;
  }

  /** The head order stands alone at its price exactly if its level keeps no live order. */
  lemma {:induction false} AloneInLevel(isBid: bool, levels: seq<PriceBucket>, order: Order, rest: seq<Order>)
    requires LevelsOk(isBid, levels) && levels != [] && Queue(levels[0]) == [order] + rest
    ensures AloneAtHead(View(levels)) <==> rest == []
  {
    var p, s := levels[0].priceTicks, View(levels);
    QueueMember(levels[0], order);
    assert s == [order] + (rest + View(levels[1..]));
    if rest != [] {
      QueueMember(levels[0], rest[0]);
      assert s[1] == rest[0];
    } else if View(levels[1..]) != [] {
      BehindTop(isBid, levels, View(levels[1..])[0]);
      assert s[1] == View(levels[1..])[0];
    }
  }

  lemma {:induction false} TopShape(isBid: bool, levels: seq<PriceBucket>, rest: PriceBucket)
    requires LevelsOk(isBid, levels) && levels != [] && rest.priceTicks == levels[0].priceTicks
    requires rest.count > 0 ==> EndsDead(rest) == EndsDead(levels[0])
    ensures levels[0].priceTicks in Shape(levels) && Shape(levels)[levels[0].priceTicks] == EndsDead(levels[0])
    ensures Shape(Deleted(levels, 0, rest)) ==
      if rest.count == 0 then Shape(levels) - {levels[0].priceTicks} else Shape(levels)
  {
    hide LevelsOk, EndsDead;
    DeletedShape(isBid, levels, 0, rest);
  }

  /** The head order taken from the top level, leaving bucket `rest` there. */
  lemma {:induction false} TakeTop(isBid: bool, levels: seq<PriceBucket>, order: Order, rest: PriceBucket)
    requires LevelsOk(isBid, levels) && levels != [] && rest.priceTicks == levels[0].priceTicks
    requires Queue(levels[0]) == [order] + Queue(rest)
    requires View(levels) == [order] + View(Deleted(levels, 0, rest))
    requires rest.count == 0 <==> Queue(rest) == [] && !EndsDead(levels[0])
    requires rest.count > 0 ==> EndsDead(rest) == EndsDead(levels[0])
    ensures StateOf(Deleted(levels, 0, rest)) == Respond(isBid, StateOf(levels), Take).0
  {
    hide LevelsOk, AloneAtHead, Queue, EndsDead, Reaped, View, Shape, Deleted;
    NothingToReap(isBid, levels);
    AloneInLevel(isBid, levels, order, Queue(rest));
    TopShape(isBid, levels, rest);
    assert View(levels)[1..] == View(Deleted(levels, 0, rest));
  }

  // ----- cancelling

  lemma {:induction false} LastAtSplit(a: seq<Order>, o: Order, b: seq<Order>)
    requires forall x | x in a :: x.orderId != o.orderId
    ensures LastAtPrice(a + [o] + b, o.orderId) <==> b == [] || b[0].priceTicks != o.priceTicks
  {
    if a == [] {
      assert a + [o] + b == [o] + b;
    } else {
      assert (a + [o] + b)[1..] == a[1..] + [o] + b;
      LastAtSplit(a[1..], o, b);
    }
  }

  lemma {:induction false} NoneAhead(isBid: bool, levels: seq<PriceBucket>, bi: nat, oi: nat)
    requires FirstSlot(isBid, levels, bi, oi) && levels[bi].orders[oi].orderId != 0
    ensures forall x | x in View(levels[..bi]) + Live(levels[bi].orders[..oi]) :: x.orderId != levels[bi].orders[oi].orderId
  {
    var slots, id := levels[bi].orders, levels[bi].orders[oi].orderId;
    MissedAbove(isBid, levels, bi, id);
    forall x | x in Live(slots[..oi]) ensures x.orderId != id {
      LiveMembers(slots[..oi], x);
    }
  }

  lemma {:induction false} NextBehind(isBid: bool, levels: seq<PriceBucket>, bi: nat, oi: nat)
    requires LevelsOk(isBid, levels) && bi < |levels| && oi < levels[bi].count && levels[bi].orders[oi].orderId != 0
    ensures
      var behind := Live(levels[bi].orders[oi + 1..]);
      var next := behind + View(levels[bi + 1..]);
      (next == [] || next[0].priceTicks != levels[bi].orders[oi].priceTicks) <==> behind == []
  {
    var slots, p := levels[bi].orders, levels[bi].priceTicks;
    var behind, below := Live(slots[oi + 1..]), View(levels[bi + 1..]);
    assert SlotOk(levels[bi], oi);
    if behind != [] {
      LiveAt(slots, oi);
      assert behind[0] in Queue(levels[bi]);
      QueueMember(levels[bi], behind[0]);
      assert (behind + below)[0] == behind[0];
    } else if below != [] {
      LevelsSuffix(isBid, levels, bi + 1);
      var k := ViewPrice(isBid, levels[bi + 1..], below[0]);
      assert levels[bi + 1..][k] == levels[bi + 1 + k] && Better(isBid, p, levels[bi + 1 + k].priceTicks);
      assert (behind + below)[0] == below[0];
    }
  }

  lemma {:induction false} Regroup(a: seq<Order>, b: seq<Order>, o: Order, c: seq<Order>, d: seq<Order>)
    ensures a + (b + [o] + c) + d == (a + b) + [o] + (c + d)
  {
  }

  /** The order in slot `oi` is the last one at its price exactly if no live slot is behind it. */
  lemma {:induction false} LastInLevel(isBid: bool, levels: seq<PriceBucket>, bi: nat, oi: nat)
    requires FirstSlot(isBid, levels, bi, oi) && levels[bi].orders[oi].orderId != 0
    ensures LastAtPrice(View(levels), levels[bi].orders[oi].orderId) <==> Live(levels[bi].orders[oi + 1..]) == []
  {
    assert BucketOk(levels[bi]) && bi < |levels| && oi < 4;
    NoneAhead(isBid, levels, bi, oi);
    NextBehind(isBid, levels, bi, oi);
    hide LevelsOk, BucketOk, FirstSlot, View, Live, LastAtPrice;
    var slots, order := levels[bi].orders, levels[bi].orders[oi];
    var above, ahead, behind, below :=
      View(levels[..bi]), Live(slots[..oi]), Live(slots[oi + 1..]), View(levels[bi + 1..]);
    ViewAt(levels, bi);
    LiveAt(slots, oi);
    Regroup(above, ahead, order, behind, below);
    LastAtSplit(above + ahead, order, behind + below);
  }

  lemma {:induction false} LevelsSuffix(isBid: bool, levels: seq<PriceBucket>, k: nat)
    requires LevelsOk(isBid, levels) && k <= |levels|
    ensures LevelsOk(isBid, levels[k..])
  {
    var s := levels[k..];
    assert forall i | 0 <= i < |s| :: s[i] == levels[k + i];
  }

  /** Without the live slot `oi` a bucket ends dead if it did, or if no live slot is behind. */
  lemma {:induction false} StampEnds(bucket: PriceBucket, oi: nat, b: PriceBucket)
    requires BucketOk(bucket) && oi < bucket.count
    requires b == PriceBucket(bucket.priceTicks, bucket.count, bucket.orders[oi := ZERO_ORDER])
    ensures EndsDead(b) <==> EndsDead(bucket) || Live(bucket.orders[oi + 1..]) == []
    ensures EndsDead(b) <==> EndsDead(bucket) || oi == bucket.count - 1
  {
    var c, behind := bucket.count, bucket.orders[oi + 1..];
    if oi == c - 1 {
      forall j | 0 <= j < |behind| ensures behind[j].orderId == 0 {
        assert SlotOk(bucket, oi + 1 + j);
      }
      LiveOfTombstones(behind);
    } else {
      assert behind[c - 1 - (oi + 1)] == bucket.orders[c - 1];
      LiveMembers(behind, bucket.orders[c - 1]);
    }
  }

  /** The level's own price, under the shape. */
  lemma {:induction false} ShapeAt(isBid: bool, levels: seq<PriceBucket>, i: nat)
    requires LevelsOk(isBid, levels) && i < |levels|
    ensures levels[i].priceTicks in Shape(levels) && Shape(levels)[levels[i].priceTicks] == EndsDead(levels[i])
  {
    hide LevelsOk, EndsDead;
    ShapeUpdate(isBid, levels, i, levels[i]);
    assert levels[i := levels[i]] == levels;
  }

  lemma {:induction false} StampedShape(isBid: bool, levels: seq<PriceBucket>, bi: nat, b: PriceBucket, last: bool)
    requires LevelsOk(isBid, levels) && bi < |levels| && b.priceTicks == levels[bi].priceTicks
    requires EndsDead(b) <==> EndsDead(levels[bi]) || last
    ensures Shape(levels[bi := b]) == Stamped(Shape(levels), b.priceTicks, last)
  {
    hide LevelsOk, Shape, EndsDead;
    ShapeAt(isBid, levels, bi);
    ShapeUpdate(isBid, levels, bi, b);
  }

  /** A lazy cancel of the live order in slot `oi`. */
  lemma {:induction false} DropInLevel(isBid: bool, levels: seq<PriceBucket>, bi: nat, oi: nat, b: PriceBucket)
    requires FirstSlot(isBid, levels, bi, oi) && levels[bi].orders[oi].orderId != 0
    requires b == PriceBucket(levels[bi].priceTicks, levels[bi].count, levels[bi].orders[oi := ZERO_ORDER])
    requires Queue(b) == Live(levels[bi].orders[..oi]) + Live(levels[bi].orders[oi + 1..])
    ensures Respond(isBid, StateOf(levels), Drop(levels[bi].orders[oi].orderId))
         == (StateOf(levels[bi := b]), Some(levels[bi].orders[oi]))
    ensures View(levels[bi := b]) == Remove(View(levels), levels[bi].orders[oi].orderId)
  {
    assert BucketOk(levels[bi]) && SlotOk(levels[bi], oi);
    hide LevelsOk, BucketOk, View, Shape, EndsDead, LastAtPrice, Find, Remove, Live, Queue, SlotOk;
    DropSlot(isBid, levels, bi, oi, b);
    LastInLevel(isBid, levels, bi, oi);
    StampEnds(levels[bi], oi, b);
    StampedShape(isBid, levels, bi, b, LastAtPrice(View(levels), levels[bi].orders[oi].orderId));
  }

  /** A hard remove of slot `oi` leaves a leaner side than the lazy cancel, and so does one that
      meets a tombstone than doing nothing. */
  lemma {:induction false} RemoveInLevel(isBid: bool, levels: seq<PriceBucket>, bi: nat, oi: nat, b: PriceBucket)
    requires FirstSlot(isBid, levels, bi, oi) && b.priceTicks == levels[bi].priceTicks
    requires EndsDead(b) ==> EndsDead(levels[bi]) || oi == levels[bi].count - 1
    requires View(Deleted(levels, bi, b)) == Remove(View(levels), levels[bi].orders[oi].orderId)
    ensures Leaner(StateOf(Deleted(levels, bi, b)),
                   Respond(isBid, StateOf(levels), Drop(levels[bi].orders[oi].orderId)).0)
  {
    assert BucketOk(levels[bi]) && LevelsOk(isBid, levels) && bi < |levels| && oi < 4;
    hide FirstSlot, LevelsOk, BucketOk, View, Shape, LastAtPrice, Find, Remove, Live, Deleted, Respond, Leaner;
    if levels[bi].orders[oi].orderId == 0 {
      DroppedNothing(isBid, levels);
      assert levels[bi := levels[bi]] == levels;
      DeletedLeaner(isBid, levels, bi, b, levels[bi]);
    } else {
      var stamped := PriceBucket(levels[bi].priceTicks, levels[bi].count, levels[bi].orders[oi := ZERO_ORDER]);
      StampEnds(levels[bi], oi, stamped);
      StampedQueue(levels[bi], oi, stamped);
      DropInLevel(isBid, levels, bi, oi, stamped);
      DeletedLeaner(isBid, levels, bi, b, stamped);
    }
  }

  lemma {:induction false} DeletedLeaner(isBid: bool, levels: seq<PriceBucket>, bi: nat, b: PriceBucket, stamped: PriceBucket)
    requires LevelsOk(isBid, levels) && bi < |levels|
    requires b.priceTicks == stamped.priceTicks == levels[bi].priceTicks
    requires EndsDead(b) ==> EndsDead(stamped)
    requires View(Deleted(levels, bi, b)) == View(levels[bi := stamped])
    ensures Leaner(StateOf(Deleted(levels, bi, b)), StateOf(levels[bi := stamped]))
  {
    hide LevelsOk, View, Shape, EndsDead, Deleted;
    ShapeUpdate(isBid, levels, bi, stamped);
    DeletedShape(isBid, levels, bi, b);
  }

  lemma {:induction false} DroppedNothing(isBid: bool, levels: seq<PriceBucket>)
    requires LevelsOk(isBid, levels)
    ensures Respond(isBid, StateOf(levels), Drop(0)).0 == StateOf(levels) && Remove(View(levels), 0) == View(levels)
  {
    ViewSorted(isBid, levels);
    RemoveAbsent(View(levels), 0);
  }

  lemma {:induction false} StampedQueue(bucket: PriceBucket, oi: nat, b: PriceBucket)
    requires oi < 4 && b.orders == bucket.orders[oi := ZERO_ORDER]
    ensures Queue(b) == Live(bucket.orders[..oi]) + Live(bucket.orders[oi + 1..])
  {
    LiveAt(b.orders, oi);
    assert b.orders[..oi] == bucket.orders[..oi] && b.orders[oi + 1..] == bucket.orders[oi + 1..];
  }

  lemma {:induction false} DeletedShape(isBid: bool, levels: seq<PriceBucket>, bi: nat, b: PriceBucket)
    requires LevelsOk(isBid, levels) && bi < |levels| && b.priceTicks == levels[bi].priceTicks
    ensures Shape(Deleted(levels, bi, b)) ==
      if b.count == 0 then Shape(levels) - {b.priceTicks} else Shape(levels)[b.priceTicks := EndsDead(b)]
  {
    hide LevelsOk, EndsDead;
    if b.count == 0 {
      ShapeDrop(isBid, levels, bi);
    } else {
      ShapeUpdate(isBid, levels, bi, b);
    }
  }
}
