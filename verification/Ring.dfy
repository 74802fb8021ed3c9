/** The fill ring: which fills are still to be claimed, and where the next one goes. */
module Ring {
  import opened Types

  const MAX_FILLS := 256

  predicate Unclaimed(f: Fill) {
    f.fillId != 0 && f.claimed == 0
  }

  /** The fills waiting to be claimed. */
  function Pending(ring: seq<Fill>): set<Fill> {
    set f | f in ring && Unclaimed(f)
  }

  ghost predicate DistinctIds(ring: seq<Fill>) {
    forall i, j | 0 <= i < j < |ring| && Unclaimed(ring[i]) && Unclaimed(ring[j]) :: ring[i].fillId != ring[j].fillId
  }

  ghost predicate RingOk(ring: seq<Fill>, fillCount: nat, nextFillId: nat) {
    && |ring| == MAX_FILLS
    && DistinctIds(ring)
    && (forall f | f in Pending(ring) :: f.fillId < nextFillId)
    && (forall f | f in ring && f.fillId == 0 :: f.taker == f.maker)
    && |Pending(ring)| <= fillCount <= MAX_FILLS
  }

  /** The slot `k` steps after `head` in the ring. */
  function Slot(head: nat, k: nat): nat {
    (head + k) % MAX_FILLS
  }

  /** Slot `head + k` is the first one, cyclically from `head`, that may be written. */
  predicate FirstFree(ring: seq<Fill>, head: nat, k: nat)
    requires |ring| == MAX_FILLS
  {
    && k < MAX_FILLS
    && !Unclaimed(ring[Slot(head, k)])
    && forall j: nat | j < k :: Unclaimed(ring[Slot(head, j)])
  }

  /** A push writes the first free slot from the cursor and moves the cursor behind it. */
  ghost predicate PushedFirstFree(ring: seq<Fill>, head: nat, fill: Fill, ring': seq<Fill>, head': nat)
    requires |ring| == MAX_FILLS
  {
    exists k: nat :: FirstFree(ring, head, k) && ring' == ring[Slot(head, k) := fill] && head' == Slot(head, k + 1)
  }

  lemma {:induction false} CountsPending(ring: seq<Fill>, fillCount: nat, nextFillId: nat)
    requires RingOk(ring, fillCount, nextFillId)
    ensures |Pending(ring)| <= fillCount <= MAX_FILLS
  {
  }

  lemma {:induction false} EmptyRing(ring: seq<Fill>)
    requires |ring| == MAX_FILLS && forall i | 0 <= i < |ring| :: ring[i] == ZERO_FILL
    ensures RingOk(ring, 0, 1) && Pending(ring) == {}
  {
    assert Pending(ring) == {};
  }

  lemma {:induction false} SetOfDistinct(s: seq<Fill>)
    requires forall i, j | 0 <= i < j < |s| :: s[i] != s[j]
    ensures |set f | f in s| == |s|
  {
    if s != [] {
      var t := s[1..];
      SetOfDistinct(t);
      assert (set f | f in s) == (set f | f in t) + {s[0]};
    }
  }

  /** Pigeonhole: 256 unclaimed slots would be 256 different pending fills. */
  lemma {:induction false} FreeSlotExists(ring: seq<Fill>)
    requires DistinctIds(ring) && |Pending(ring)| < |ring|
    ensures exists i :: 0 <= i < |ring| && !Unclaimed(ring[i])
  {
    if forall i | 0 <= i < |ring| :: Unclaimed(ring[i]) {
      assert Pending(ring) == set f | f in ring;
      SetOfDistinct(ring);
    }
  }

  lemma {:induction false} SlotNext(head: nat, k: nat)
    ensures (Slot(head, k) + 1) % MAX_FILLS == Slot(head, k + 1)
    ensures Slot(head, 0) == head % MAX_FILLS
  {
  }

  /** A full cycle from `head` visits every slot. */
  lemma {:induction false} CycleCovers(head: nat, i: nat)
    requires i < MAX_FILLS
    ensures exists j: nat :: j < MAX_FILLS && Slot(head, j) == i
  {
    var j := (i - head) % MAX_FILLS;
    assert Slot(head, j) == i;
  }

  /** Writing a fresh fill into a free slot adds it and loses nothing. */
  lemma {:induction false} PushSlot(ring: seq<Fill>, c: nat, fill: Fill, fillCount: nat, nextFillId: nat)
    requires RingOk(ring, fillCount, nextFillId) && fillCount < MAX_FILLS
    requires c < |ring| && !Unclaimed(ring[c])
    requires Unclaimed(fill) && fill.fillId == nextFillId
    ensures Pending(ring[c := fill]) == Pending(ring) + {fill} && fill !in Pending(ring)
    ensures RingOk(ring[c := fill], fillCount + 1, nextFillId + 1)
  {
    var ring' := ring[c := fill];
    forall f ensures f in Pending(ring') <==> f in Pending(ring) + {fill} {
      if f in Pending(ring) {
        var i :| 0 <= i < |ring| && ring[i] == f;
        assert ring'[i] == f;
      }
      if f in Pending(ring') && f != fill {
        var i :| 0 <= i < |ring'| && ring'[i] == f;
        assert ring[i] == f;
      }
      if f == fill {
        assert ring'[c] == fill;
      }
    }
    assert forall i | 0 <= i < |ring| && Unclaimed(ring[i]) :: ring[i] in Pending(ring);
  }

  /** Marking a pending slot claimed takes exactly that fill out. */
  lemma {:induction false} ClaimSlot(ring: seq<Fill>, i: nat)
    requires DistinctIds(ring) && i < |ring| && Unclaimed(ring[i])
    ensures Pending(ring[i := ring[i].(claimed := 1)]) == Pending(ring) - {ring[i]}
    ensures ring[i] in Pending(ring)
    ensures DistinctIds(ring[i := ring[i].(claimed := 1)])
  {
    var ring' := ring[i := ring[i].(claimed := 1)];
    forall f ensures f in Pending(ring') <==> f in Pending(ring) - {ring[i]} {
      if f in Pending(ring') {
        var k :| 0 <= k < |ring'| && ring'[k] == f;
        assert k != i && ring[k] == f;
        assert f.fillId != ring[i].fillId;
      }
      if f in Pending(ring) && f != ring[i] {
        var k :| 0 <= k < |ring| && ring[k] == f;
        assert ring'[k] == f;
      }
    }
  }

  /** Two pending fills with one id are the same fill. */
  lemma {:induction false} PendingUnique(ring: seq<Fill>, f: Fill, g: Fill)
    requires DistinctIds(ring) && f in Pending(ring) && g in Pending(ring) && f.fillId == g.fillId
    ensures f == g
  {
    var i :| 0 <= i < |ring| && ring[i] == f;
    var j :| 0 <= j < |ring| && ring[j] == g;
  }

  /** `find_fill`: the first slot with this id field that is not claimed. */
  function FindFill(ring: seq<Fill>, id: U64): (idx: Option<nat>)
    ensures match idx
            case Some(i) => i < |ring| && ring[i].fillId == id && ring[i].claimed == 0
            case None => forall f | f in ring :: f.fillId != id || f.claimed != 0
  {
    if ring == [] then None
    else if ring[0].fillId == id && ring[0].claimed == 0 then Some(0)
    else
      match FindFill(ring[1..], id)
      case None => None
      case Some(i) => Some(i + 1)
  }

  lemma {:induction false} FindFillFirst(ring: seq<Fill>, id: U64, i: nat)
    requires i < |ring| && ring[i].fillId == id && ring[i].claimed == 0
    requires forall j | 0 <= j < i :: ring[j].fillId != id || ring[j].claimed != 0
    ensures FindFill(ring, id) == Some(i)
  {
    if i > 0 {
      assert ring[0].fillId != id || ring[0].claimed != 0;
      FindFillFirst(ring[1..], id, i - 1);
    }
  }

  /** Looking up a pending fill by its id finds that very fill. */
  lemma {:induction false} FindPending(ring: seq<Fill>, f: Fill)
    requires DistinctIds(ring) && f in Pending(ring)
    ensures FindFill(ring, f.fillId).Some? && ring[FindFill(ring, f.fillId).value] == f
  {
    var idx := FindFill(ring, f.fillId);
    assert ring[idx.value] in ring;
    PendingUnique(ring, f, ring[idx.value]);
  }

  /** `OrderBook::claim_fill`: the ring, the counter and the answer afterwards. When the counter
      is already 0 the slot has been marked but the answer is None. */
  function ClaimRing(ring: seq<Fill>, fillCount: nat, id: U64): (seq<Fill>, nat, Option<Fill>) {
    match FindFill(ring, id)
    case None => (ring, fillCount, None)
    case Some(i) =>
      var marked := ring[i].(claimed := 1);
      if fillCount == 0 then (ring[i := marked], 0, None) else (ring[i := marked], fillCount - 1, Some(marked))
  }

  /** Marking a never-used slot claimed changes nothing that is pending. */
  lemma {:induction false} ClaimUnused(ring: seq<Fill>, i: nat)
    requires i < |ring| && ring[i].fillId == 0
    ensures Pending(ring[i := ring[i].(claimed := 1)]) == Pending(ring)
    ensures DistinctIds(ring) ==> DistinctIds(ring[i := ring[i].(claimed := 1)])
  {
    var ring' := ring[i := ring[i].(claimed := 1)];
    forall f ensures f in Pending(ring') <==> f in Pending(ring) {
      if f in Pending(ring) {
        var k :| 0 <= k < |ring| && ring[k] == f;
        assert ring'[k] == f;
      }
    }
  }

  lemma {:induction false} ClaimMembers(ring: seq<Fill>, i: nat, f: Fill)
    requires i < |ring| && f in ring[i := ring[i].(claimed := 1)]
    ensures f in ring || f == ring[i].(claimed := 1)
  {
  }

  /** Marking a slot keeps the rest of the ring invariant, as far as the counter allows. */
  lemma {:induction false} ClaimedRingOk(ring: seq<Fill>, fillCount: nat, nextFillId: nat, i: nat, fillCount': nat)
    requires RingOk(ring, fillCount, nextFillId) && i < |ring| && ring[i].claimed == 0 && fillCount' <= fillCount
    ensures
      var ring' := ring[i := ring[i].(claimed := 1)];
      && Pending(ring') <= Pending(ring)
      && (RingOk(ring', fillCount', nextFillId) <==> |Pending(ring')| <= fillCount')
  {
    var ring' := ring[i := ring[i].(claimed := 1)];
    if ring[i].fillId == 0 {
      ClaimUnused(ring, i);
    } else {
      ClaimSlot(ring, i);
    }
    hide DistinctIds, Pending;
    forall f | f in ring' && f.fillId == 0 ensures f.taker == f.maker {
      ClaimMembers(ring, i, f);
    }
  }

  /** Claiming through `OrderBook::claim_fill` keeps the ring invariant, except for id 0: that
      matches a never-used slot and uncounts a fill that is still pending. */
  lemma {:induction false} ClaimKeepsRing(ring: seq<Fill>, fillCount: nat, nextFillId: nat, id: U64)
    requires RingOk(ring, fillCount, nextFillId)
    ensures
      var claim := ClaimRing(ring, fillCount, id);
      RingOk(claim.0, claim.1, nextFillId) <==>
        !(id == 0 && FindFill(ring, 0).Some? && |Pending(ring)| == fillCount > 0)
    ensures id != 0 && FindFill(ring, id).Some? ==>
      var f := ring[FindFill(ring, id).value];
      && f in Pending(ring)
      && Pending(ClaimRing(ring, fillCount, id).0) == Pending(ring) - {f}
      && ClaimRing(ring, fillCount, id).1 == fillCount - 1
      && ClaimRing(ring, fillCount, id).2 == Some(f.(claimed := 1))
  {
    var idx := FindFill(ring, id);
    CountsPending(ring, fillCount, nextFillId);
    if idx.Some? {
      ClaimedRingOk(ring, fillCount, nextFillId, idx.value, if fillCount == 0 then 0 else fillCount - 1);
      if id == 0 {
        ClaimUnused(ring, idx.value);
      } else {
        ClaimSlot(ring, idx.value);
      }
      hide RingOk, DistinctIds, Pending;
    }
  }
}
