/** When matching makes no progress: the books that no call of the engine changes. */
module Stalls {
  import opened Types
  import opened Levels
  import opened Ring
  import opened Books
  import opened Lifecycle
  import opened TimePriority

  /** No pair matches, and a self-match at the top, if there is one, is between two orders that are
      alone at their prices. */
  predicate Stalled(b: Book)
    requires b.fillCount <= MAX_FILLS
  {
    && Rounds(b) == 0
    && !(SelfStop(b.bids, b.asks, Cap(b)) && (LevelMateBehind(b.bids, 0) || LevelMateBehind(b.asks, 0)))
  }

  /** An order alone at its price stays where it is when it is put back. */
  lemma {:induction false} RotateAlone(isBid: bool, s: seq<Order>)
    requires PriceSorted(isBid, s) && s != [] && !LevelMateBehind(s, 0)
    ensures Rotate(isBid, s) == s
  {
    if |s| > 1 {
      assert !Better(isBid, s[1].priceTicks, s[0].priceTicks);
      assert [s[0]] + s[1..] == s;
    }
  }

  /** One with company goes behind it. */
  lemma {:induction false} RotatePast(isBid: bool, s: seq<Order>)
    requires s != [] && LevelMateBehind(s, 0)
    ensures Rotate(isBid, s)[0] == s[1]
  {
  }

  /** No two live orders of a run are the same. */
  lemma {:induction false} HeadsDiffer(h: History, s: seq<Order>)
    requires RunInvariant(h) && (s == h.book.bids || s == h.book.asks) && |s| > 1
    ensures s[0] != s[1]
  {
    assert Places(h, s[0].orderId) <= 1;
    CountTwins(s);
  }

  lemma {:induction false} CountTwins(s: seq<Order>)
    requires |s| > 1
    ensures s[0].orderId == s[1].orderId ==> Count(s, s[0].orderId) >= 2
  {
    assert s[1..][0] == s[1];
  }

  /** What a batch without fills leaves of one side. */
  lemma {:induction false} SideKept(h: History, isBid: bool, s: seq<Order>, stop: bool)
    requires RunInvariant(h) && (s == h.book.bids || s == h.book.asks) && PriceSorted(isBid, s) && (stop ==> s != [])
    ensures Rest(isBid, s, 0, stop) == s <==> !(stop && LevelMateBehind(s, 0))
  {
    assert s[0..] == s;
    hide Insert, RunInvariant;
    if stop {
      if LevelMateBehind(s, 0) {
        RotatePast(isBid, s);
        HeadsDiffer(h, s);
      } else {
        RotateAlone(isBid, s);
      }
    }
  }

  /** In a book of a run a batch changes nothing exactly when the book is stalled. */
  lemma {:induction false} BatchIdle(h: History, slot: U64)
    requires RunInvariant(h) && PriceSorted(true, h.book.bids) && PriceSorted(false, h.book.asks)
    requires h.book.nextFillId + Rounds(h.book) <= U64_MAX
    ensures MatchBook(h.book, slot) == h.book <==> Stalled(h.book)
    ensures Stalled(h.book) ==> Batch(h.book, slot) == []
  {
    var b, stop := h.book, SelfStop(h.book.bids, h.book.asks, Cap(h.book));
    MatchSides(b, slot);
    BatchPending(b, slot);
    hide MatchRounds, SelfStop, Insert;
    if Rounds(b) == 0 {
      assert Batch(b, slot) == [] && FillSet([]) == {};
      SideKept(h, true, b.bids, stop);
      SideKept(h, false, b.asks, stop);
    }
  }

  /** So a stalled book stays as it is under any number of calls of the engine, whatever pairs
      behind the head would match. */
  lemma {:induction false} StalledForever(h: History, ops: seq<Op>)
    requires RunInvariant(h) && PriceSorted(true, h.book.bids) && PriceSorted(false, h.book.asks)
    requires Stalled(h.book) && forall op | op in ops :: op.Match?
    ensures Run(h, ops) == h
    decreases |ops|
  {
    if ops != [] {
      assert ops[0] in ops && ops[0].Match?;
      StepKeepsInvariant(h, ops[0]);
      StalledStep(h, ops[0].slot);
      hide Apply, RunInvariant, Stalled, PriceSorted;
      StalledForever(h, ops[1..]);
    }
  }

  lemma {:induction false} StalledStep(h: History, slot: U64)
    requires RunInvariant(h) && PriceSorted(true, h.book.bids) && PriceSorted(false, h.book.asks) && Stalled(h.book)
    ensures Apply(h, Match(slot)) == h
  {
    if h.book.nextFillId + Rounds(h.book) <= U64_MAX {
      BatchIdle(h, slot);
      hide MatchBook, Batch, RunInvariant;
      assert h.fills + [] == h.fills;
    }
  }
}
