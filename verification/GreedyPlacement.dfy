/** Where the packing puts every range, told from the result alone. */
module GreedyPlacement {
  import opened Pages
  import opened LanePacking

  /** Placed earlier: the larger range, or of equal ones the one that comes first in the file. */
  predicate Earlier(a: Range, b: Range) {
    a.size > b.size || (a.size == b.size && a.fileOffset < b.fileOffset)
  }

  /** The bytes of a lane taken by those of the first `n` ranges that are placed before `r`. */
  function TakenBefore(packed: seq<Range>, r: Range, lane: nat, capacity: nat, n: nat): nat
    requires 0 < capacity && n <= |packed|
  {
    if n == 0 then 0
    else
      TakenBefore(packed, r, lane, capacity, n - 1)
      + (if Earlier(packed[n - 1], r) && LaneOf(packed[n - 1], capacity) == lane then packed[n - 1].size else 0)
  }

  /** The range stands right behind the earlier ones of its lane, which was the first of the least
      loaded lanes with room for it. */
  ghost predicate PlacedGreedily(packed: seq<Range>, i: nat, lanes: nat, capacity: nat)
    requires 0 < capacity && i < |packed|
  {
    var r := packed[i];
    var taken := TakenBefore(packed, r, LaneOf(r, capacity), capacity, |packed|);
    && LaneOf(r, capacity) < lanes && LaneOffset(r, capacity) == taken && taken + r.size <= capacity
    && forall l: nat {:trigger TakenBefore(packed, r, l, capacity, |packed|)} ::
         l < lanes && TakenBefore(packed, r, l, capacity, |packed|) + r.size <= capacity ==>
           taken < TakenBefore(packed, r, l, capacity, |packed|)
           || (taken == TakenBefore(packed, r, l, capacity, |packed|) && LaneOf(r, capacity) <= l)
  }

  /** The bytes of a lane taken by those ranges of `packed` whose indices are in `placed`. */
  function TakenBy(packed: seq<Range>, placed: set<nat>, lane: nat, capacity: nat, n: nat): nat
    requires 0 < capacity && n <= |packed|
  {
    if n == 0 then 0
    else
      TakenBy(packed, placed, lane, capacity, n - 1)
      + (if n - 1 in placed && LaneOf(packed[n - 1], capacity) == lane then packed[n - 1].size else 0)
  }

  lemma {:induction false} TakenByNone(packed: seq<Range>, lane: nat, capacity: nat, n: nat)
    requires 0 < capacity && n <= |packed|
    ensures TakenBy(packed, {}, lane, capacity, n) == 0
  {
    if n > 0 {
      TakenByNone(packed, lane, capacity, n - 1);
    }
  }

  lemma {:induction false} TakenByMore(packed: seq<Range>, placed: set<nat>, x: nat, lane: nat, capacity: nat, n: nat)
    requires 0 < capacity && n <= |packed| && x !in placed
    ensures TakenBy(packed, placed + {x}, lane, capacity, n)
            == TakenBy(packed, placed, lane, capacity, n)
               + (if x < n && LaneOf(packed[x], capacity) == lane then packed[x].size else 0)
  {
    if n > 0 {
      TakenByMore(packed, placed, x, lane, capacity, n - 1);
    }
  }

  lemma {:induction false} TakenByEarlier(packed: seq<Range>, r: Range, placed: set<nat>, lane: nat, capacity: nat, n: nat)
    requires 0 < capacity && n <= |packed| && forall j: nat :: j < |packed| ==> (j in placed <==> Earlier(packed[j], r))
    ensures TakenBy(packed, placed, lane, capacity, n) == TakenBefore(packed, r, lane, capacity, n)
  {
    if n > 0 {
      TakenByEarlier(packed, r, placed, lane, capacity, n - 1);
    }
  }

  ghost function Firsts(order: seq<nat>, k: nat): set<nat>
    requires k <= |order|
  {
    set x | x in order[..k]
  }

  lemma FirstsNext(order: seq<nat>, k: nat)
    requires k < |order| && AllDiffer(order)
    ensures Firsts(order, k + 1) == Firsts(order, k) + {order[k]} && order[k] !in Firsts(order, k)
  {
    assert order[..k + 1] == order[..k] + [order[k]];
  }

  /** In a sorted order without equal ranges, exactly the earlier ones come first. */
  lemma FirstsAreEarlier(ranges: seq<Range>, order: seq<nat>, k: nat)
    requires IsOrder(order, |ranges|) && LargestFirst(ranges, order) && k < |order| && OffsetsDiffer(ranges)
    ensures forall j: nat :: j < |ranges| ==> (j in Firsts(order, k) <==> Earlier(ranges[j], ranges[order[k]]))
  {
    forall j: nat | j < |ranges| ensures j in Firsts(order, k) <==> Earlier(ranges[j], ranges[order[k]]) {
      assert j in order;
      var m :| 0 <= m < |order| && order[m] == j;
      if m < k {
        assert order[..k][m] == j;
        assert !Before(ranges[order[k]], ranges[order[m]]);
      } else {
        assert m > k ==> !Before(ranges[order[m]], ranges[order[k]]);
        assert forall q :: 0 <= q < k ==> order[..k][q] != order[m];
      }
    }
  }

  predicate OffsetsDiffer(ranges: seq<Range>) {
    forall i, j :: 0 <= i < j < |ranges| ==> ranges[i].fileOffset != ranges[j].fileOffset
  }

  // ---- what a placement leaves alone ----

  /** Every index at most once. */
  predicate DistinctBelow(order: seq<nat>, n: nat) {
    (forall k :: 0 <= k < |order| ==> order[k] < n) && AllDiffer(order)
  }

  lemma {:induction false} StaysPlaced(ranges: seq<Range>, order: seq<nat>, lanes: nat, capacity: nat, k: nat, n: nat)
    requires DistinctBelow(order, |ranges|) && k <= n <= |order| && PlacedTo(ranges, order, lanes, capacity, n).Ok?
    ensures PlacedTo(ranges, order, lanes, capacity, k).Ok?
    ensures forall m :: 0 <= m < k ==>
              PlacedTo(ranges, order, lanes, capacity, n).value.0[order[m]]
              == PlacedTo(ranges, order, lanes, capacity, k).value.0[order[m]]
    decreases n
  {
    if k < n {
      assert PlacedTo(ranges, order, lanes, capacity, n - 1).Ok?;
      StaysPlaced(ranges, order, lanes, capacity, k, n - 1);
    }
  }

  /** The range placed in step `k`, what it found and the lane it got. */
  lemma StepOf(ranges: seq<Range>, order: seq<nat>, lanes: nat, capacity: nat, k: nat, packed: seq<Range>, last: seq<nat>)
      returns (before: seq<Range>, loads: seq<nat>, lane: nat, after: seq<Range>)
    requires DistinctBelow(order, |ranges|) && k < |order| && 0 < capacity
    requires SameTransfers(ranges, packed) && forall i :: 0 <= i < |ranges| ==> 0 < ranges[i].size
    requires PlacedTo(ranges, order, lanes, capacity, |order|) == Ok((packed, last))
    ensures PlacedTo(ranges, order, lanes, capacity, k) == Ok((before, loads)) && |loads| == lanes
    ensures lane == BestLane(loads, ranges[order[k]].size, capacity, lanes) < lanes
    ensures LaneOf(packed[order[k]], capacity) == lane && LaneOffset(packed[order[k]], capacity) == loads[lane]
    ensures packed[order[k]].size == ranges[order[k]].size && loads[lane] + ranges[order[k]].size <= capacity
    ensures PlacedTo(ranges, order, lanes, capacity, k + 1) == Ok((after, loads[lane := loads[lane] + ranges[order[k]].size]))
  {
    StaysPlaced(ranges, order, lanes, capacity, k, |order|);
    StaysPlaced(ranges, order, lanes, capacity, k + 1, |order|);
    before, loads := PlacedTo(ranges, order, lanes, capacity, k).value.0, PlacedTo(ranges, order, lanes, capacity, k).value.1;
    after := PlacedTo(ranges, order, lanes, capacity, k + 1).value.0;
    lane := BestLane(loads, ranges[order[k]].size, capacity, |loads|);
    BestLaneMeaning(loads, ranges[order[k]].size, capacity, lanes);
    LaneDecoded(packed[order[k]], lane, loads[lane], capacity);
  }

  lemma LaneDecoded(r: Range, lane: nat, load: nat, capacity: nat)
    requires 0 < capacity && 0 < r.size && r.stagingOffset == lane * capacity + load && load + r.size <= capacity
    ensures LaneOf(r, capacity) == lane && LaneOffset(r, capacity) == load
  {
    DivUnique(lane, capacity, load);
  }

  lemma StepTo(ranges: seq<Range>, order: seq<nat>, lanes: nat, capacity: nat, k: nat,
               soFar: seq<Range>, loads: seq<nat>, packed: seq<Range>, last: seq<nat>)
      returns (before: seq<Range>, found: seq<nat>, lane: nat)
    requires DistinctBelow(order, |ranges|) && 0 < k <= |order| && 0 < capacity
    requires SameTransfers(ranges, packed) && forall i :: 0 <= i < |ranges| ==> 0 < ranges[i].size
    requires PlacedTo(ranges, order, lanes, capacity, |order|) == Ok((packed, last))
    requires PlacedTo(ranges, order, lanes, capacity, k) == Ok((soFar, loads))
    ensures PlacedTo(ranges, order, lanes, capacity, k - 1) == Ok((before, found)) && |found| == lanes && lane < lanes
    ensures LaneOf(packed[order[k - 1]], capacity) == lane
    ensures loads == found[lane := found[lane] + packed[order[k - 1]].size]
  {
    var after;
    before, found, lane, after := StepOf(ranges, order, lanes, capacity, k - 1, packed, last);
  }

  /** The loads before step `k` are what the ranges placed until then take of each lane. */
  lemma {:induction false} LoadsAreTaken(ranges: seq<Range>, order: seq<nat>, lanes: nat, capacity: nat, k: nat,
                                         soFar: seq<Range>, loads: seq<nat>, packed: seq<Range>, last: seq<nat>, l: nat)
    requires DistinctBelow(order, |ranges|) && k <= |order| && 0 < capacity && l < lanes
    requires forall i :: 0 <= i < |ranges| ==> 0 < ranges[i].size
    requires PlacedTo(ranges, order, lanes, capacity, |order|) == Ok((packed, last)) && SameTransfers(ranges, packed)
    requires PlacedTo(ranges, order, lanes, capacity, k) == Ok((soFar, loads)) && |loads| == lanes
    ensures loads[l] == TakenBy(packed, Firsts(order, k), l, capacity, |packed|)
    decreases k
  {
    if k == 0 {
      assert Firsts(order, 0) == {};
      TakenByNone(packed, l, capacity, |packed|);
    } else {
      var before, found, lane := StepTo(ranges, order, lanes, capacity, k, soFar, loads, packed, last);
      LoadsAreTaken(ranges, order, lanes, capacity, k - 1, before, found, packed, last, l);
      FirstsNext(order, k - 1);
      OneLoadMore(packed, Firsts(order, k - 1), Firsts(order, k), order[k - 1], found, loads, lane, l, capacity);
    }
  }

  lemma OneLoadMore(packed: seq<Range>, placed: set<nat>, placed': set<nat>, x: nat, loads: seq<nat>, loads': seq<nat>,
                    lane: nat, l: nat, capacity: nat)
    requires 0 < capacity && x < |packed| && x !in placed && placed' == placed + {x} && lane < |loads| && l < |loads|
    requires LaneOf(packed[x], capacity) == lane && loads' == loads[lane := loads[lane] + packed[x].size]
    requires loads[l] == TakenBy(packed, placed, l, capacity, |packed|)
    ensures loads'[l] == TakenBy(packed, placed', l, capacity, |packed|)
  {
    TakenByMore(packed, placed, x, l, capacity, |packed|);
  }

  lemma StepIsGreedy(ranges: seq<Range>, order: seq<nat>, lanes: nat, capacity: nat, k: nat, packed: seq<Range>, last: seq<nat>)
    requires IsOrder(order, |ranges|) && LargestFirst(ranges, order) && OffsetsDiffer(ranges) && k < |order| && 0 < capacity
    requires forall i :: 0 <= i < |ranges| ==> WholePages(ranges[i])
    requires PlacedTo(ranges, order, lanes, capacity, |order|) == Ok((packed, last)) && SameTransfers(ranges, packed)
    ensures PlacedGreedily(packed, order[k], lanes, capacity)
  {
    var x := order[k];
    var before, loads, lane, _ := StepOf(ranges, order, lanes, capacity, k, packed, last);
    BestLaneMeaning(loads, ranges[x].size, capacity, lanes);
    FirstsAreEarlier(ranges, order, k);
    forall l: nat | l < lanes ensures loads[l] == TakenBefore(packed, packed[x], l, capacity, |packed|) {
      LoadsAreTaken(ranges, order, lanes, capacity, k, before, loads, packed, last, l);
      TakenByEarlier(packed, packed[x], Firsts(order, k), l, capacity, |packed|);
    }
    forall l: nat | l < lanes && TakenBefore(packed, packed[x], l, capacity, |packed|) + packed[x].size <= capacity
      ensures loads[lane] < TakenBefore(packed, packed[x], l, capacity, |packed|)
              || (loads[lane] == TakenBefore(packed, packed[x], l, capacity, |packed|) && lane <= l)
    {
      assert Fits(loads, l, ranges[x].size, capacity);
    }
  }

  /** Every placement of a successful packing is greedy: largest range first, each behind the earlier
      ones of the first least loaded lane that has room. */
  lemma PackingIsGreedy(ranges: seq<Range>, lanes: nat, capacity: nat)
    requires 0 < lanes && 0 < capacity && capacity % 4096 == 0 && OffsetsDiffer(ranges)
    requires forall i :: 0 <= i < |ranges| ==> WholePages(ranges[i])
    requires Packing(ranges, lanes, capacity).Ok?
    ensures var packed := Packing(ranges, lanes, capacity).value.0;
            forall i: nat :: i < |packed| ==> PlacedGreedily(packed, i, lanes, capacity)
  {
    var order, packed := RangeOrder(ranges, |ranges|), Packing(ranges, lanes, capacity).value.0;
    RangeOrderMeaning(ranges, |ranges|);
    PackingMeaning(ranges, lanes, capacity);
    forall i: nat | i < |packed| ensures PlacedGreedily(packed, i, lanes, capacity) {
      assert i in order;
      var k :| 0 <= k < |order| && order[k] == i;
      StepIsGreedy(ranges, order, lanes, capacity, k, packed, Packing(ranges, lanes, capacity).value.1);
    }
  }
}
