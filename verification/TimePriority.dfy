/** Price-time priority: which operations keep older orders ahead of newer ones. */
module TimePriority {
  import opened Types
  import opened Levels
  import opened Ring
  import opened Books
  import opened Lifecycle

  /** `x` is served before `y`: better price, or same price and placed earlier. */
  predicate Precedes(isBid: bool, x: Order, y: Order) {
    Better(isBid, x.priceTicks, y.priceTicks) || (x.priceTicks == y.priceTicks && x.orderId < y.orderId)
  }

  predicate TimeOrdered(isBid: bool, s: seq<Order>) {
    s == [] || ((forall y | y in s[1..] :: Precedes(isBid, s[0], y)) && TimeOrdered(isBid, s[1..]))
  }

  predicate Fair(b: Book) {
    TimeOrdered(true, b.bids) && TimeOrdered(false, b.asks)
  }

  lemma {:induction false} InsertNewest(isBid: bool, s: seq<Order>, o: Order)
    requires TimeOrdered(isBid, s) && forall x | x in s :: x.orderId < o.orderId
    ensures TimeOrdered(isBid, Insert(isBid, s, o))
  {
    var r := Insert(isBid, s, o);
    if s == [] || Better(isBid, o.priceTicks, s[0].priceTicks) {
      assert r[1..] == s;
      forall y | y in s ensures Precedes(isBid, o, y) {
        assert y == s[0] || Precedes(isBid, s[0], y);
      }
    } else {
      InsertNewest(isBid, s[1..], o);
      assert r[1..] == Insert(isBid, s[1..], o);
      forall y | y in r[1..] ensures Precedes(isBid, s[0], y) {
        InsertMembers(isBid, s[1..], o, y);
      }
    }
  }

  lemma {:induction false} RemoveKeepsOrder(isBid: bool, s: seq<Order>, id: U64)
    requires TimeOrdered(isBid, s)
    ensures TimeOrdered(isBid, Remove(s, id))
  {
    if s != [] && s[0].orderId != id {
      var r := Remove(s, id);
      RemoveKeepsOrder(isBid, s[1..], id);
      assert r[1..] == Remove(s[1..], id);
      forall y | y in r[1..] ensures Precedes(isBid, s[0], y) {
        RemoveMembers(s[1..], id, y);
      }
    }
  }

  lemma {:induction false} SuffixOrdered(isBid: bool, s: seq<Order>, n: nat)
    requires TimeOrdered(isBid, s) && n <= |s|
    ensures TimeOrdered(isBid, s[n..])
  {
    if n == 0 {
      assert s[0..] == s;
    } else {
      SuffixOrdered(isBid, s[1..], n - 1);
      assert s[1..][n - 1..] == s[n..];
    }
  }

  /** The two orders of a self-match go to the back of their own price level; nothing else moves. */
  lemma {:induction false} RotateMovesHeadOnly(isBid: bool, s: seq<Order>, k: nat)
    requires 1 <= k <= |s|
    requires forall i | 0 <= i < k :: s[i].priceTicks == s[0].priceTicks
    requires k == |s| || Better(isBid, s[0].priceTicks, s[k].priceTicks)
    ensures Rotate(isBid, s) == s[1..k] + [s[0]] + s[k..]
  {
    assert s[1..] == s[1..k] + s[k..];
    InsertSplit(isBid, s[1..k], s[k..], s[0]);
  }

  /** Rotating costs the head its place exactly when another order waits at its price. */
  lemma {:induction false} RotateKeepsOrder(isBid: bool, s: seq<Order>)
    requires TimeOrdered(isBid, s) && s != []
    ensures TimeOrdered(isBid, Rotate(isBid, s)) <==> |s| == 1 || s[1].priceTicks != s[0].priceTicks
  {
    if |s| > 1 {
      var r := Rotate(isBid, s);
      assert s[1] in s[1..] && Precedes(isBid, s[0], s[1]);
      if s[1].priceTicks != s[0].priceTicks {
        assert r == [s[0]] + s[1..] == s;
      } else {
        assert r[0] == s[1] && r[1..] == Insert(isBid, s[1..][1..], s[0]);
        InsertMembers(isBid, s[1..][1..], s[0], s[0]);
      }
    }
  }

  predicate LevelMateBehind(s: seq<Order>, n: nat) {
    n + 1 < |s| && s[n + 1].priceTicks == s[n].priceTicks
  }

  /** The batch ends in a self-match, and one of the two orders has company at its price. */
  predicate BreaksPriority(b: Book, op: Op)
    requires b.fillCount <= MAX_FILLS
  {
    && op.Match? && b.nextFillId + Rounds(b) <= U64_MAX
    && SelfStop(b.bids, b.asks, Cap(b))
    && (LevelMateBehind(b.bids, Rounds(b)) || LevelMateBehind(b.asks, Rounds(b)))
  }

  lemma {:induction false} LiveIdsIssued(h: History, x: Order)
    requires RunInvariant(h) && (x in h.book.bids || x in h.book.asks)
    ensures 1 <= x.orderId < h.book.nextOrderId
  {
    CountHas(if x in h.book.bids then h.book.bids else h.book.asks, x);
    assert Places(h, x.orderId) >= 1;
  }

  lemma {:induction false} RestOrdered(isBid: bool, s: seq<Order>, n: nat, stop: bool)
    requires TimeOrdered(isBid, s) && n <= |s| && (stop ==> n < |s|)
    ensures TimeOrdered(isBid, Rest(isBid, s, n, stop)) <==> !(stop && LevelMateBehind(s, n))
  {
    SuffixOrdered(isBid, s, n);
    if stop {
      RotateKeepsOrder(isBid, s[n..]);
    }
  }

  /** In a fair book of a run, one operation keeps the book fair exactly unless it is such a batch. */
  lemma {:induction false} StepKeepsPriority(h: History, op: Op)
    requires RunInvariant(h) && Fair(h.book)
    ensures Fair(Apply(h, op).book) <==> !BreaksPriority(h.book, op)
  {
    hide OrdersAccounted, FillsAccounted, Rounds, TimeOrdered, Insert, Rest;
    var b := h.book;
    match op
    case Place(isBid, order, accepted) =>
      forall x | x in (if isBid then b.bids else b.asks) ensures x.orderId < b.nextOrderId {
        LiveIdsIssued(h, x);
      }
      if b.nextOrderId < U64_MAX {
        InsertNewest(isBid, if isBid then b.bids else b.asks, order.(orderId := b.nextOrderId));
      }
    case Cancel(id) =>
      RemoveKeepsOrder(true, b.bids, id);
      RemoveKeepsOrder(false, b.asks, id);
    case Match(slot) =>
      if b.nextFillId + Rounds(b) <= U64_MAX {
        MatchSides(b, slot);
        RestOrdered(true, b.bids, Rounds(b), SelfStop(b.bids, b.asks, Cap(b)));
        RestOrdered(false, b.asks, Rounds(b), SelfStop(b.bids, b.asks, Cap(b)));
      }
    case Settle(_) =>
    case Recycle(_) =>
  }

  lemma {:induction false} MatchSides(b: Book, slot: U64)
    requires b.fillCount <= MAX_FILLS && b.nextFillId + Rounds(b) <= U64_MAX
    ensures
      var n, stop := Rounds(b), SelfStop(b.bids, b.asks, Cap(b));
      && n <= |b.bids| && n <= |b.asks| && (stop ==> n < |b.bids| && n < |b.asks|)
      && MatchBook(b, slot).bids == Rest(true, b.bids, n, stop)
      && MatchBook(b, slot).asks == Rest(false, b.asks, n, stop)
  {
  }

  predicate NeverBreaks(h: History, ops: seq<Op>)
    requires RunInvariant(h)
    decreases |ops|
  {
    ops == [] ||
    (StepKeepsInvariant(h, ops[0]);
     !BreaksPriority(h.book, ops[0]) && NeverBreaks(Apply(h, ops[0]), ops[1..]))
  }

  /** A run without such a batch serves orders by price and then by age throughout. */
  lemma {:induction false} PriorityOverRuns(h: History, ops: seq<Op>)
    requires RunInvariant(h) && Fair(h.book) && NeverBreaks(h, ops)
    ensures Fair(Run(h, ops).book)
    decreases |ops|
  {
    if ops != [] {
      StepKeepsInvariant(h, ops[0]);
      StepKeepsPriority(h, ops[0]);
      PriorityOverRuns(Apply(h, ops[0]), ops[1..]);
    }
  }
}
