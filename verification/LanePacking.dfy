/** Greedy packing of the planned ranges into the workers' staging lanes.

    Largest range first, each into the least loaded lane that still has room; lane `l` owns
    the bytes `[l * capacity, (l + 1) * capacity)` of the staging slot. */
module LanePacking {
  import opened Pages

  // ---- order of placement ----

  predicate Before(l: Range, r: Range) {
    if l.size != r.size then l.size > r.size else l.fileOffset < r.fileOffset
  }

  predicate IsOrder(order: seq<nat>, n: nat) {
    && |order| == n
    && (forall i :: 0 <= i < n ==> i in order)
    && (forall k :: 0 <= k < |order| ==> order[k] < n)
    && AllDiffer(order)
  }

  predicate LargestFirst(ranges: seq<Range>, order: seq<nat>)
    requires forall k :: 0 <= k < |order| ==> order[k] < |ranges|
  {
    forall j, k :: 0 <= j < k < |order| ==> !Before(ranges[order[k]], ranges[order[j]])
  }

  function InsertIndex(ranges: seq<Range>, x: nat, order: seq<nat>): (r: seq<nat>)
    requires x < |ranges| && (forall k :: 0 <= k < |order| ==> order[k] < |ranges|)
    ensures |r| == |order| + 1
    ensures forall k :: 0 <= k < |r| ==> r[k] < |ranges|
  {
    if order == [] then [x]
    else if Before(ranges[x], ranges[order[0]]) then [x] + order
    else [order[0]] + InsertIndex(ranges, x, order[1..])
  }

  lemma {:induction false} InsertMembers(ranges: seq<Range>, x: nat, order: seq<nat>, y: nat)
    requires x < |ranges| && (forall k :: 0 <= k < |order| ==> order[k] < |ranges|)
    ensures y in InsertIndex(ranges, x, order) <==> y == x || y in order
  {
    if order != [] && !Before(ranges[x], ranges[order[0]]) {
      InsertMembers(ranges, x, order[1..], y);
      assert order == [order[0]] + order[1..];
    }
  }

  lemma {:induction false} InsertOrder(ranges: seq<Range>, x: nat, order: seq<nat>)
    requires x < |ranges| && (forall k :: 0 <= k < |order| ==> order[k] < |ranges|)
    requires LargestFirst(ranges, order)
    ensures LargestFirst(ranges, InsertIndex(ranges, x, order))
  {
    if order != [] && !Before(ranges[x], ranges[order[0]]) {
      InsertOrder(ranges, x, order[1..]);
      var rest := InsertIndex(ranges, x, order[1..]);
      forall k | 0 <= k < |rest| ensures !Before(ranges[rest[k]], ranges[order[0]]) {
        InsertMembers(ranges, x, order[1..], rest[k]);
        if rest[k] != x {
          var m :| 0 <= m < |order| - 1 && order[1..][m] == rest[k];
          assert order[m + 1] == rest[k];
        }
      }
    }
  }

  predicate AllDiffer(order: seq<nat>) { forall j, k :: 0 <= j < k < |order| ==> order[j] != order[k] }

  lemma {:induction false} InsertDiffers(ranges: seq<Range>, x: nat, order: seq<nat>)
    requires x < |ranges| && (forall k :: 0 <= k < |order| ==> order[k] < |ranges|)
    requires x !in order && AllDiffer(order)
    ensures AllDiffer(InsertIndex(ranges, x, order))
  {
    if order != [] && !Before(ranges[x], ranges[order[0]]) {
      InsertDiffers(ranges, x, order[1..]);
      var rest := InsertIndex(ranges, x, order[1..]);
      forall k | 0 <= k < |rest| ensures rest[k] != order[0] {
        InsertMembers(ranges, x, order[1..], rest[k]);
        assert order[0] !in order[1..];
      }
    }
  }

  /** `plan_range_order` after sorting: every range index once, largest range first. */
  function RangeOrder(ranges: seq<Range>, n: nat): (r: seq<nat>)
    requires n <= |ranges|
    ensures |r| == n && forall k :: 0 <= k < |r| ==> r[k] < |ranges|
  {
    if n == 0 then [] else InsertIndex(ranges, n - 1, RangeOrder(ranges, n - 1))
  }

  lemma {:induction false} RangeOrderMeaning(ranges: seq<Range>, n: nat)
    requires n <= |ranges|
    ensures IsOrder(RangeOrder(ranges, n), n) && LargestFirst(ranges, RangeOrder(ranges, n))
  {
    if n > 0 {
      RangeOrderMeaning(ranges, n - 1);
      var order, r := RangeOrder(ranges, n - 1), RangeOrder(ranges, n);
      InsertOrder(ranges, n - 1, order);
      assert n - 1 !in order;
      InsertDiffers(ranges, n - 1, order);
      forall i | 0 <= i < n ensures i in r {
        InsertMembers(ranges, n - 1, order, i);
      }
      forall k | 0 <= k < |r| ensures r[k] < n {
        InsertMembers(ranges, n - 1, order, r[k]);
      }
    }
  }

  // ---- choosing a lane ----

  predicate Fits(loads: seq<nat>, lane: nat, size: nat, capacity: nat)
    requires lane < |loads|
  {
    loads[lane] + size <= capacity
  }

  /** The lane chosen among the first `n`: the first least loaded one with room, or `|loads|`. */
  function BestLane(loads: seq<nat>, size: nat, capacity: nat, n: nat): (selected: nat)
    requires n <= |loads|
    ensures selected < n || selected == |loads|
  {
    if n == 0 then |loads|
    else
      var best := BestLane(loads, size, capacity, n - 1);
      if Fits(loads, n - 1, size, capacity) && (best == |loads| || loads[n - 1] < loads[best]) then n - 1 else best
  }

  lemma {:induction false} BestLaneMeaning(loads: seq<nat>, size: nat, capacity: nat, n: nat)
    requires n <= |loads|
    ensures var selected := BestLane(loads, size, capacity, n);
            && (selected == |loads| ==> forall l :: 0 <= l < n ==> !Fits(loads, l, size, capacity))
            && (selected < |loads| ==>
                  && Fits(loads, selected, size, capacity)
                  && (forall l :: 0 <= l < n && Fits(loads, l, size, capacity) ==>
                        loads[selected] < loads[l] || (loads[selected] == loads[l] && selected <= l)))
  {
    if n > 0 {
      BestLaneMeaning(loads, size, capacity, n - 1);
    }
  }

  method SelectLane(loads: seq<nat>, size: nat, capacity: nat) returns (selected: nat)
    ensures selected == BestLane(loads, size, capacity, |loads|) <= |loads|
    ensures selected == |loads| ==> forall l :: 0 <= l < |loads| ==> !Fits(loads, l, size, capacity)
    ensures selected < |loads| ==>
              && Fits(loads, selected, size, capacity)
              && (forall l :: 0 <= l < |loads| && Fits(loads, l, size, capacity) ==>
                    loads[selected] < loads[l] || (loads[selected] == loads[l] && selected <= l))
  {
    selected := |loads|;
    var lane := 0;
    while lane < |loads|
      invariant 0 <= lane <= |loads|
      invariant selected == BestLane(loads, size, capacity, lane)
    {
      if loads[lane] + size <= capacity && (selected == |loads| || loads[lane] < loads[selected]) {
        selected := lane;
      }
      lane := lane + 1;
    }
    BestLaneMeaning(loads, size, capacity, |loads|);
  }

  // ---- the packing and its invariant ----

  /** Where a range sits: a lane and an offset in it. */
  datatype Place = Place(lane: nat, offset: nat)

  function SumOf(s: seq<nat>): nat {
    if s == [] then 0 else s[0] + SumOf(s[1..])
  }

  lemma {:induction false} SumOfUpdate(s: seq<nat>, i: nat, x: nat)
    requires i < |s|
    ensures SumOf(s[i := x]) == SumOf(s) - s[i] + x
  {
    if i == 0 {
      assert s[0 := x][1..] == s[1..];
    } else {
      assert s[i := x][1..] == s[1..][i - 1 := x];
      SumOfUpdate(s[1..], i - 1, x);
    }
  }

  function SumPlaced(ranges: seq<Range>, placed: set<nat>): nat {
    if ranges == [] then 0
    else
      var n := |ranges| - 1;
      SumPlaced(ranges[..n], placed) + (if n in placed then ranges[n].size else 0)
  }

  lemma {:induction false} SumPlacedAdd(ranges: seq<Range>, placed: set<nat>, x: nat)
    requires x !in placed
    ensures SumPlaced(ranges, placed + {x})
            == SumPlaced(ranges, placed) + (if x < |ranges| then ranges[x].size else 0)
  {
    if ranges != [] {
      SumPlacedAdd(ranges[..|ranges| - 1], placed, x);
    }
  }

  lemma {:induction false} SumPlacedBound(ranges: seq<Range>, placed: set<nat>)
    ensures SumPlaced(ranges, placed) <= TotalSize(ranges)
  {
    if ranges != [] {
      SumPlacedBound(ranges[..|ranges| - 1], placed);
    }
  }

  ghost predicate LoadsOk(loads: seq<nat>, lanes: nat, capacity: nat) {
    && |loads| == lanes
    && (forall l :: 0 <= l < lanes ==> loads[l] <= capacity && loads[l] % 4096 == 0)
  }

  ghost predicate InLane(ranges: seq<Range>, loads: seq<nat>, places: map<nat, Place>) {
    forall i :: i in places ==>
      && i < |ranges| && places[i].lane < |loads|
      && places[i].offset + ranges[i].size <= loads[places[i].lane]
      && places[i].offset % 4096 == 0
  }

  ghost predicate PlacesApart(ranges: seq<Range>, places: map<nat, Place>)
    requires forall i :: i in places ==> i < |ranges|
  {
    forall i, j :: i in places && j in places && i != j && places[i].lane == places[j].lane ==>
      places[i].offset + ranges[i].size <= places[j].offset
      || places[j].offset + ranges[j].size <= places[i].offset
  }

  ghost predicate CoveredAt(ranges: seq<Range>, places: map<nat, Place>, lane: nat, o: nat) {
    exists i :: i in places && i < |ranges| && places[i].lane == lane
                && places[i].offset <= o < places[i].offset + ranges[i].size
  }

  /** Every byte of a lane below its load belongs to a placed range. */
  ghost predicate Gapless(ranges: seq<Range>, loads: seq<nat>, places: map<nat, Place>) {
    forall l, o :: 0 <= l < |loads| && 0 <= o < loads[l] ==> CoveredAt(ranges, places, l, o)
  }

  ghost predicate PlacedWell(ranges: seq<Range>, loads: seq<nat>, places: map<nat, Place>,
                             lanes: nat, capacity: nat) {
    && LoadsOk(loads, lanes, capacity)
    && InLane(ranges, loads, places)
    && PlacesApart(ranges, places)
    && Gapless(ranges, loads, places)
    && SumOf(loads) == SumPlaced(ranges, places.Keys)
  }

  lemma PlaceNext(ranges: seq<Range>, loads: seq<nat>, places: map<nat, Place>, lanes: nat, capacity: nat,
                  x: nat, lane: nat, loads': seq<nat>, places': map<nat, Place>)
    requires PlacedWell(ranges, loads, places, lanes, capacity)
    requires x < |ranges| && x !in places && WholePages(ranges[x])
    requires lane < lanes && Fits(loads, lane, ranges[x].size, capacity)
    requires loads' == loads[lane := loads[lane] + ranges[x].size]
    requires places' == places[x := Place(lane, loads[lane])]
    ensures PlacedWell(ranges, loads', places', lanes, capacity)
  {
    PlaceNextLoads(loads, lanes, capacity, ranges[x].size, lane, loads');
    SumOfUpdate(loads, lane, loads[lane] + ranges[x].size);
    SumPlacedAdd(ranges, places.Keys, x);
    assert places'.Keys == places.Keys + {x};
    PlaceNextGapless(ranges, loads, places, x, lane, loads', places');
    PlaceNextApart(ranges, loads, places, x, lane, loads', places');
  }

  lemma PlaceNextLoads(loads: seq<nat>, lanes: nat, capacity: nat, size: nat, lane: nat, loads': seq<nat>)
    requires LoadsOk(loads, lanes, capacity) && size % 4096 == 0
    requires lane < lanes && Fits(loads, lane, size, capacity)
    requires loads' == loads[lane := loads[lane] + size]
    ensures LoadsOk(loads', lanes, capacity)
  {}

  lemma PlaceNextApart(ranges: seq<Range>, loads: seq<nat>, places: map<nat, Place>,
                       x: nat, lane: nat, loads': seq<nat>, places': map<nat, Place>)
    requires InLane(ranges, loads, places) && PlacesApart(ranges, places)
    requires x < |ranges| && x !in places && lane < |loads| && loads[lane] % 4096 == 0
    requires loads' == loads[lane := loads[lane] + ranges[x].size]
    requires places' == places[x := Place(lane, loads[lane])]
    ensures InLane(ranges, loads', places') && PlacesApart(ranges, places')
  {}

  lemma PlaceNextGapless(ranges: seq<Range>, loads: seq<nat>, places: map<nat, Place>,
                         x: nat, lane: nat, loads': seq<nat>, places': map<nat, Place>)
    requires Gapless(ranges, loads, places) && x < |ranges| && x !in places && lane < |loads|
    requires loads' == loads[lane := loads[lane] + ranges[x].size]
    requires places' == places[x := Place(lane, loads[lane])]
    ensures Gapless(ranges, loads', places')
  {
    forall l, o | 0 <= l < |loads'| && 0 <= o < loads'[l] ensures CoveredAt(ranges, places', l, o) {
      if o < loads[l] {
        assert CoveredAt(ranges, places, l, o);
        var i :| i in places && i < |ranges| && places[i].lane == l
                 && places[i].offset <= o < places[i].offset + ranges[i].size;
        assert i in places' && places'[i] == places[i];
      } else {
        assert x in places' && places'[x].lane == l;
      }
    }
  }

  // ---- the result in terms of staging offsets ----

  function LaneOf(r: Range, capacity: nat): nat
    requires 0 < capacity
  {
    r.stagingOffset / capacity
  }

  function LaneOffset(r: Range, capacity: nat): nat
    requires 0 < capacity
  {
    r.stagingOffset % capacity
  }

  /** A lane is a stretch of `capacity` bytes of staging. */
  lemma LaneIs(r: Range, capacity: nat, lane: nat)
    requires 0 < capacity
    ensures LaneOf(r, capacity) == lane <==> lane * capacity <= r.stagingOffset < lane * capacity + capacity
    ensures r.stagingOffset == LaneOf(r, capacity) * capacity + LaneOffset(r, capacity) && LaneOffset(r, capacity) < capacity
  {
    DivBounds(r.stagingOffset, capacity);
    if lane * capacity <= r.stagingOffset < lane * capacity + capacity {
      DivUnique(lane, capacity, r.stagingOffset - lane * capacity);
    }
  }

  /** Only the placement of the ranges has changed. */
  predicate SameTransfers(a: seq<Range>, b: seq<Range>) {
    |a| == |b| && forall i :: 0 <= i < |a| ==> a[i].fileOffset == b[i].fileOffset && a[i].size == b[i].size
  }

  ghost predicate PlacementOf(packed: seq<Range>, places: map<nat, Place>, capacity: nat) {
    forall i :: i in places && i < |packed| ==>
      packed[i].stagingOffset == places[i].lane * capacity + places[i].offset
  }

  ghost predicate CoveredIn(packed: seq<Range>, capacity: nat, lane: nat, o: nat)
    requires 0 < capacity
  {
    exists i :: 0 <= i < |packed| && LaneOf(packed[i], capacity) == lane
                && LaneOffset(packed[i], capacity) <= o < LaneOffset(packed[i], capacity) + packed[i].size
  }

  /** Each range lies in one lane, ranges of a lane do not overlap, and a lane is filled
      without holes up to its load. */
  ghost predicate Packed(packed: seq<Range>, loads: seq<nat>, lanes: nat, capacity: nat)
    requires 0 < capacity
  {
    && LoadsOk(loads, lanes, capacity)
    && (forall i :: 0 <= i < |packed| ==>
          && LaneOf(packed[i], capacity) < lanes
          && LaneOffset(packed[i], capacity) + packed[i].size <= loads[LaneOf(packed[i], capacity)]
          && packed[i].stagingOffset % 4096 == 0)
    && (forall i, j :: 0 <= i < |packed| && 0 <= j < |packed| && i != j
                       && LaneOf(packed[i], capacity) == LaneOf(packed[j], capacity) ==>
          LaneOffset(packed[i], capacity) + packed[i].size <= LaneOffset(packed[j], capacity)
          || LaneOffset(packed[j], capacity) + packed[j].size <= LaneOffset(packed[i], capacity))
    && (forall l, o :: 0 <= l < lanes && 0 <= o < loads[l] ==> CoveredIn(packed, capacity, l, o))
  }

  /** Why packing stopped: the range that found no room, and the loads at that moment. */
  datatype Failure = NoLane(index: nat, loads: seq<nat>)

  ghost predicate NoRoom(ranges: seq<Range>, f: Failure, lanes: nat, capacity: nat) {
    && f.index < |ranges|
    && LoadsOk(f.loads, lanes, capacity)
    && (forall l :: 0 <= l < lanes ==> f.loads[l] + ranges[f.index].size > capacity)
    && SumOf(f.loads) + ranges[f.index].size <= TotalSize(ranges)
  }

  /** The state of the packing after the first `k` ranges of the order. */
  ghost predicate PackState(ranges: seq<Range>, packed: seq<Range>, loads: seq<nat>, places: map<nat, Place>,
                            order: seq<nat>, k: nat, lanes: nat, capacity: nat) {
    && k <= |order|
    && SameTransfers(ranges, packed)
    && (forall i :: i in places <==> i in order[..k])
    && PlacedWell(ranges, loads, places, lanes, capacity)
    && PlacementOf(packed, places, capacity)
  }

  /** The outcome of packing after the first `k` ranges of the order. */
  function PlacedTo(ranges: seq<Range>, order: seq<nat>, lanes: nat, capacity: nat, k: nat):
      (r: Result<(seq<Range>, seq<nat>), Failure>)
    requires k <= |order| && forall i :: 0 <= i < |order| ==> order[i] < |ranges|
    ensures r.Ok? ==> |r.value.0| == |ranges| && |r.value.1| == lanes
  {
    if k == 0 then Ok((ranges, seq(lanes, _ => 0)))
    else
      match PlacedTo(ranges, order, lanes, capacity, k - 1)
      case Err(f) => Err(f)
      case Ok((packed, loads)) => PlacedNext(ranges, packed, loads, order[k - 1], capacity)
  }

  function PlacedNext(ranges: seq<Range>, packed: seq<Range>, loads: seq<nat>, x: nat, capacity: nat):
      (r: Result<(seq<Range>, seq<nat>), Failure>)
    requires x < |ranges| == |packed|
    ensures r.Ok? ==> |r.value.0| == |packed| && |r.value.1| == |loads|
  {
    var lane := BestLane(loads, ranges[x].size, capacity, |loads|);
    if lane == |loads| then Err(NoLane(x, loads))
    else Ok((packed[x := packed[x].(stagingOffset := lane * capacity + loads[lane])],
             loads[lane := loads[lane] + ranges[x].size]))
  }

  /** The planner's packing: largest range first, each into the least loaded lane with room. */
  function Packing(ranges: seq<Range>, lanes: nat, capacity: nat): Result<(seq<Range>, seq<nat>), Failure> {
    PlacedTo(ranges, RangeOrder(ranges, |ranges|), lanes, capacity, |ranges|)
  }

  lemma {:induction false} PlacedStops(ranges: seq<Range>, order: seq<nat>, lanes: nat, capacity: nat, k: nat, n: nat)
    requires k <= n <= |order| && forall i :: 0 <= i < |order| ==> order[i] < |ranges|
    requires PlacedTo(ranges, order, lanes, capacity, k).Err?
    ensures PlacedTo(ranges, order, lanes, capacity, n) == PlacedTo(ranges, order, lanes, capacity, k)
    decreases n
  {
    if k < n {
      PlacedStops(ranges, order, lanes, capacity, k, n - 1);
    }
  }

  lemma {:induction false} PlacedState(ranges: seq<Range>, order: seq<nat>, lanes: nat, capacity: nat, k: nat)
      returns (places: map<nat, Place>)
    requires IsOrder(order, |ranges|) && k <= |order|
    requires forall i :: 0 <= i < |ranges| ==> WholePages(ranges[i])
    requires PlacedTo(ranges, order, lanes, capacity, k).Ok?
    ensures var (packed, loads) := PlacedTo(ranges, order, lanes, capacity, k).value;
            PackState(ranges, packed, loads, places, order, k, lanes, capacity)
  {
    if k == 0 {
      places := map[];
      StartPacking(ranges, seq(lanes, _ => 0), order, lanes, capacity);
    } else {
      var before := PlacedState(ranges, order, lanes, capacity, k - 1);
      var (packed, loads) := PlacedTo(ranges, order, lanes, capacity, k - 1).value;
      places := NextPlaced(ranges, packed, loads, before, order, k - 1, lanes, capacity,
                           PlacedTo(ranges, order, lanes, capacity, k).value);
    }
  }

  lemma {:induction false} NextPlaced(ranges: seq<Range>, packed: seq<Range>, loads: seq<nat>, before: map<nat, Place>,
                                      order: seq<nat>, k: nat, lanes: nat, capacity: nat, after: (seq<Range>, seq<nat>))
      returns (places: map<nat, Place>)
    requires IsOrder(order, |ranges|) && k < |order| && WholePages(ranges[order[k]])
    requires PackState(ranges, packed, loads, before, order, k, lanes, capacity)
    requires PlacedNext(ranges, packed, loads, order[k], capacity) == Ok(after)
    ensures PackState(ranges, after.0, after.1, places, order, k + 1, lanes, capacity)
  {
    var size := ranges[order[k]].size;
    var lane := BestLane(loads, size, capacity, |loads|);
    BestLaneMeaning(loads, size, capacity, |loads|);
    places := before[order[k] := Place(lane, loads[lane])];
    ContinuePacking(ranges, packed, loads, before, order, k, lanes, capacity, lane, after.0, after.1, places);
  }

  lemma {:induction false} NoneFits(ranges: seq<Range>, packed: seq<Range>, loads: seq<nat>, places: map<nat, Place>,
                                    order: seq<nat>, k: nat, lanes: nat, capacity: nat, f: Failure)
    requires IsOrder(order, |ranges|) && k < |order|
    requires PackState(ranges, packed, loads, places, order, k, lanes, capacity)
    requires PlacedNext(ranges, packed, loads, order[k], capacity) == Err(f)
    ensures NoRoom(ranges, f, lanes, capacity)
  {
    BestLaneMeaning(loads, ranges[order[k]].size, capacity, |loads|);
    StopPacking(ranges, packed, loads, places, order, k, lanes, capacity);
  }

  lemma {:induction false} PlacedFailure(ranges: seq<Range>, order: seq<nat>, lanes: nat, capacity: nat, k: nat)
    requires IsOrder(order, |ranges|) && k <= |order|
    requires forall i :: 0 <= i < |ranges| ==> WholePages(ranges[i])
    requires PlacedTo(ranges, order, lanes, capacity, k).Err?
    ensures NoRoom(ranges, PlacedTo(ranges, order, lanes, capacity, k).error, lanes, capacity)
  {
    if PlacedTo(ranges, order, lanes, capacity, k - 1).Err? {
      PlacedFailure(ranges, order, lanes, capacity, k - 1);
    } else {
      var (packed, loads) := PlacedTo(ranges, order, lanes, capacity, k - 1).value;
      FailsHere(ranges, packed, loads, order, k - 1, lanes, capacity, PlacedTo(ranges, order, lanes, capacity, k).error);
    }
  }

  lemma FailsHere(ranges: seq<Range>, packed: seq<Range>, loads: seq<nat>, order: seq<nat>, k: nat, lanes: nat, capacity: nat,
                  f: Failure)
    requires IsOrder(order, |ranges|) && k < |order| && |packed| == |ranges|
    requires forall i :: 0 <= i < |ranges| ==> WholePages(ranges[i])
    requires PlacedTo(ranges, order, lanes, capacity, k) == Ok((packed, loads))
    requires PlacedNext(ranges, packed, loads, order[k], capacity) == Err(f)
    ensures NoRoom(ranges, f, lanes, capacity)
  {
    var places := PlacedState(ranges, order, lanes, capacity, k);
    NoneFits(ranges, packed, loads, places, order, k, lanes, capacity, f);
  }

  /** What packing achieves, or why it stops. */
  lemma PackingMeaning(ranges: seq<Range>, lanes: nat, capacity: nat)
    requires 0 < lanes && 0 < capacity && capacity % 4096 == 0
    requires forall i :: 0 <= i < |ranges| ==> WholePages(ranges[i])
    ensures var r := Packing(ranges, lanes, capacity);
            && (r.Ok? ==> SameTransfers(ranges, r.value.0) && Packed(r.value.0, r.value.1, lanes, capacity)
                          && SumOf(r.value.1) == TotalSize(ranges))
            && (r.Err? ==> NoRoom(ranges, r.error, lanes, capacity))
  {
    var order := RangeOrder(ranges, |ranges|);
    RangeOrderMeaning(ranges, |ranges|);
    if Packing(ranges, lanes, capacity).Ok? {
      var places := PlacedState(ranges, order, lanes, capacity, |ranges|);
      var (packed, loads) := Packing(ranges, lanes, capacity).value;
      FinishPacking(ranges, packed, loads, places, order, lanes, capacity);
    } else {
      PlacedFailure(ranges, order, lanes, capacity, |ranges|);
    }
  }

  method PackLanes(ranges: seq<Range>, lanes: nat, capacity: nat)
    returns (r: Result<(seq<Range>, seq<nat>), Failure>)
    requires 0 < lanes && 0 < capacity && capacity % 4096 == 0
    requires forall i :: 0 <= i < |ranges| ==> WholePages(ranges[i])
    ensures r == Packing(ranges, lanes, capacity)
    ensures r.Ok? ==> SameTransfers(ranges, r.value.0) && Packed(r.value.0, r.value.1, lanes, capacity)
    ensures r.Ok? ==> SumOf(r.value.1) == TotalSize(ranges)
    ensures r.Err? ==> NoRoom(ranges, r.error, lanes, capacity)
  {
    PackingMeaning(ranges, lanes, capacity);
    var order := RangeOrder(ranges, |ranges|);
    var packed := ranges;
    var loads: seq<nat> := seq(lanes, _ => 0);
    var k := 0;
    while k < |order|
      invariant 0 <= k <= |order| && |packed| == |ranges| && |loads| == lanes
      invariant PlacedTo(ranges, order, lanes, capacity, k) == Ok((packed, loads))
    {
      var placed := PlaceRange(ranges, packed, loads, order[k], capacity);
      match placed {
        case Err(f) => {
          PlacedStops(ranges, order, lanes, capacity, k + 1, |order|);
          return Err(f);
        }
        case Ok(after) => packed, loads := after.0, after.1;
      }
      k := k + 1;
    }
    return Ok((packed, loads));
  }

  /** The loop body. */
  method PlaceRange(ranges: seq<Range>, packed: seq<Range>, loads: seq<nat>, x: nat, capacity: nat)
      returns (r: Result<(seq<Range>, seq<nat>), Failure>)
    requires x < |ranges| == |packed|
    ensures r == PlacedNext(ranges, packed, loads, x, capacity)
  {
    var size := ranges[x].size;
    var selected := SelectLane(loads, size, capacity);
    if selected == |loads| {
      return Err(NoLane(x, loads));
    }
    return Ok((packed[x := packed[x].(stagingOffset := selected * capacity + loads[selected])],
               loads[selected := loads[selected] + size]));
  }

  lemma StartPacking(ranges: seq<Range>, loads: seq<nat>, order: seq<nat>, lanes: nat, capacity: nat)
    requires |loads| == lanes && forall l :: 0 <= l < lanes ==> loads[l] == 0
    ensures PackState(ranges, ranges, loads, map[], order, 0, lanes, capacity)
  {
    var none: map<nat, Place> := map[];
    SumOfZeros(loads);
    SumPlacedNone(ranges);
    assert none.Keys == {};
  }

  lemma StopPacking(ranges: seq<Range>, packed: seq<Range>, loads: seq<nat>, places: map<nat, Place>,
                    order: seq<nat>, k: nat, lanes: nat, capacity: nat)
    requires IsOrder(order, |ranges|) && k < |order|
    requires PackState(ranges, packed, loads, places, order, k, lanes, capacity)
    requires forall l :: 0 <= l < lanes ==> !Fits(loads, l, ranges[order[k]].size, capacity)
    ensures NoRoom(ranges, NoLane(order[k], loads), lanes, capacity)
  {
    SumPlacedAdd(ranges, places.Keys, order[k]);
    SumPlacedBound(ranges, places.Keys + {order[k]});
    forall l | 0 <= l < lanes ensures loads[l] + ranges[order[k]].size > capacity {
      assert !Fits(loads, l, ranges[order[k]].size, capacity);
    }
  }

  lemma ContinuePacking(ranges: seq<Range>, packed: seq<Range>, loads: seq<nat>, places: map<nat, Place>,
                        order: seq<nat>, k: nat, lanes: nat, capacity: nat, lane: nat,
                        packed': seq<Range>, loads': seq<nat>, places': map<nat, Place>)
    requires IsOrder(order, |ranges|) && k < |order|
    requires PackState(ranges, packed, loads, places, order, k, lanes, capacity)
    requires WholePages(ranges[order[k]])
    requires lane < lanes && Fits(loads, lane, ranges[order[k]].size, capacity)
    requires packed' == packed[order[k] := packed[order[k]].(stagingOffset := lane * capacity + loads[lane])]
    requires places' == places[order[k] := Place(lane, loads[lane])]
    requires loads' == loads[lane := loads[lane] + ranges[order[k]].size]
    ensures PackState(ranges, packed', loads', places', order, k + 1, lanes, capacity)
  {
    PlaceNext(ranges, loads, places, lanes, capacity, order[k], lane, loads', places');
    assert order[..k + 1] == order[..k] + [order[k]];
  }

  lemma FinishPacking(ranges: seq<Range>, packed: seq<Range>, loads: seq<nat>, places: map<nat, Place>,
                      order: seq<nat>, lanes: nat, capacity: nat)
    requires 0 < capacity && capacity % 4096 == 0
    requires forall i :: 0 <= i < |ranges| ==> WholePages(ranges[i])
    requires IsOrder(order, |ranges|)
    requires PackState(ranges, packed, loads, places, order, |order|, lanes, capacity)
    ensures Packed(packed, loads, lanes, capacity) && SumOf(loads) == TotalSize(ranges)
  {
    assert order[..|order|] == order;
    PlacesGivePacked(ranges, packed, loads, places, lanes, capacity);
    SumPlacedAll(ranges, places.Keys);
  }

  lemma {:induction false} SumOfZeros(s: seq<nat>)
    requires forall l :: 0 <= l < |s| ==> s[l] == 0
    ensures SumOf(s) == 0
  {
    if s != [] {
      SumOfZeros(s[1..]);
    }
  }

  lemma {:induction false} SumPlacedNone(ranges: seq<Range>)
    ensures SumPlaced(ranges, {}) == 0
  {
    if ranges != [] {
      SumPlacedNone(ranges[..|ranges| - 1]);
    }
  }

  lemma {:induction false} SumPlacedAll(ranges: seq<Range>, placed: set<nat>)
    requires forall i :: 0 <= i < |ranges| ==> i in placed
    ensures SumPlaced(ranges, placed) == TotalSize(ranges)
  {
    if ranges != [] {
      SumPlacedAll(ranges[..|ranges| - 1], placed);
    }
  }

  lemma PlaceDecoded(r: Range, p: Place, size: nat, load: nat, capacity: nat)
    requires 0 < capacity && capacity % 4096 == 0 && 0 < size
    requires r.stagingOffset == p.lane * capacity + p.offset
    requires p.offset + size <= load <= capacity && p.offset % 4096 == 0
    ensures LaneOf(r, capacity) == p.lane && LaneOffset(r, capacity) == p.offset
    ensures r.stagingOffset % 4096 == 0
  {
    DivUnique(p.lane, capacity, p.offset);
    var pages := capacity / 4096;
    assert p.lane * capacity == (p.lane * pages) * 4096;
  }

  lemma PlacesGivePacked(ranges: seq<Range>, packed: seq<Range>, loads: seq<nat>, places: map<nat, Place>,
                         lanes: nat, capacity: nat)
    requires 0 < capacity && capacity % 4096 == 0
    requires SameTransfers(ranges, packed) && (forall i :: 0 <= i < |ranges| ==> WholePages(ranges[i]))
    requires PlacedWell(ranges, loads, places, lanes, capacity) && PlacementOf(packed, places, capacity)
    requires forall i :: 0 <= i < |ranges| ==> i in places
    ensures Packed(packed, loads, lanes, capacity)
  {
    forall i | 0 <= i < |packed|
      ensures LaneOf(packed[i], capacity) == places[i].lane && LaneOffset(packed[i], capacity) == places[i].offset
      ensures packed[i].stagingOffset % 4096 == 0
    {
      PlaceDecoded(packed[i], places[i], ranges[i].size, loads[places[i].lane], capacity);
    }
    forall l, o | 0 <= l < lanes && 0 <= o < loads[l] ensures CoveredIn(packed, capacity, l, o) {
      assert CoveredAt(ranges, places, l, o);
      var i :| i in places && i < |ranges| && places[i].lane == l
               && places[i].offset <= o < places[i].offset + ranges[i].size;
      assert LaneOf(packed[i], capacity) == l;
    }
  }

  // ---- what packing means for the staging slot ----

  lemma LaneBounds(r: Range, capacity: nat, load: nat)
    requires 0 < capacity && LaneOffset(r, capacity) + r.size <= load <= capacity
    ensures LaneOf(r, capacity) * capacity + LaneOffset(r, capacity) == r.stagingOffset
    ensures r.stagingOffset + r.size <= (LaneOf(r, capacity) + 1) * capacity
  {
    DivBounds(r.stagingOffset, capacity);
    assert (LaneOf(r, capacity) + 1) * capacity == LaneOf(r, capacity) * capacity + capacity;
  }

  /** No two planned transfers write the same staging byte, and all stay inside the slot. */
  lemma PackedIsDisjoint(packed: seq<Range>, loads: seq<nat>, lanes: nat, capacity: nat)
    requires 0 < capacity && Packed(packed, loads, lanes, capacity)
    ensures StagingDisjoint(packed)
    ensures forall i :: 0 <= i < |packed| ==> packed[i].stagingOffset + packed[i].size <= lanes * capacity
  {
    forall i | 0 <= i < |packed|
      ensures packed[i].stagingOffset + packed[i].size <= lanes * capacity
    {
      var lane := LaneOf(packed[i], capacity);
      LaneBounds(packed[i], capacity, loads[lane]);
      MulMono(lane + 1, lanes, capacity);
    }
    forall i, j | 0 <= i < j < |packed| ensures Apart(packed[i], packed[j]) {
      var a, b := LaneOf(packed[i], capacity), LaneOf(packed[j], capacity);
      LaneBounds(packed[i], capacity, loads[a]);
      LaneBounds(packed[j], capacity, loads[b]);
      if a < b {
        MulMono(a + 1, b, capacity);
      } else if b < a {
        MulMono(b + 1, a, capacity);
      }
    }
  }

  // ---- when packing cannot fail ----

  lemma {:induction false} SumOfAtLeast(s: seq<nat>, each: nat)
    requires forall l :: 0 <= l < |s| ==> s[l] >= each
    ensures SumOf(s) >= |s| * each
  {
    if s == [] {
    } else {
      SumOfAtLeast(s[1..], each);
      assert |s| * each == (|s| - 1) * each + each;
    }
  }

  /** A failed plan is large. With lanes of `L` pages, a range of `s` pages is refused only
      when every lane already holds at least `L - s + 1` pages. */
  lemma FailureMeansFull(ranges: seq<Range>, f: Failure, lanes: nat, capacity: nat)
    requires 0 < lanes && capacity % 4096 == 0
    requires forall i :: 0 <= i < |ranges| ==> WholePages(ranges[i]) && ranges[i].size <= capacity
    requires NoRoom(ranges, f, lanes, capacity)
    ensures var s := ranges[f.index].size / 4096;
            && (forall l :: 0 <= l < lanes ==> f.loads[l] / 4096 >= capacity / 4096 - s + 1)
            && TotalSize(ranges) / 4096 >= lanes * (capacity / 4096 - s + 1) + s
  {
    var s := ranges[f.index].size / 4096;
    assert WholePages(ranges[f.index]);
    var each := capacity / 4096 - s + 1;
    forall l | 0 <= l < lanes ensures f.loads[l] >= each * 4096 && f.loads[l] / 4096 >= each {
      FullLane(f.loads[l], ranges[f.index].size, capacity);
    }
    SumOfAtLeast(f.loads, each * 4096);
    InPages(lanes, each, s, TotalSize(ranges));
  }

  lemma InPages(lanes: nat, each: nat, s: nat, total: nat)
    requires total >= lanes * (each * 4096) + s * 4096
    ensures total / 4096 >= lanes * each + s
  {
    assert lanes * (each * 4096) == (lanes * each) * 4096;
  }

  lemma FullLane(load: nat, size: nat, capacity: nat)
    requires load % 4096 == 0 && size % 4096 == 0 && capacity % 4096 == 0
    requires size <= capacity && load + size > capacity
    ensures load >= capacity - size + 4096
    ensures load / 4096 >= capacity / 4096 - size / 4096 + 1
  {}

  /** Hence a plan of `T` pages whose largest range has `m` pages always packs into `W`
      lanes of `L` pages when `T < W * (L - m + 1) + m`. */
  lemma SmallPlansPack(ranges: seq<Range>, f: Failure, lanes: nat, capacity: nat, m: nat)
    requires 0 < lanes && capacity % 4096 == 0 && m <= capacity / 4096
    requires forall i :: 0 <= i < |ranges| ==> WholePages(ranges[i]) && ranges[i].size <= m * 4096
    requires TotalSize(ranges) / 4096 < lanes * (capacity / 4096 - m + 1) + m
    ensures !NoRoom(ranges, f, lanes, capacity)
  {
    if NoRoom(ranges, f, lanes, capacity) {
      FailureMeansFull(ranges, f, lanes, capacity);
      LargestRangeDecides(lanes, capacity / 4096, ranges[f.index].size / 4096, m);
    }
  }

  lemma LargestRangeDecides(lanes: nat, L: nat, s: nat, m: nat)
    requires 0 < lanes && s <= m <= L
    ensures lanes * (L - s + 1) + s >= lanes * (L - m + 1) + m
  {
    assert lanes * (L - s + 1) == lanes * (L - m + 1) + lanes * (m - s);
    MulMono(1, lanes, m - s);
  }

  // ---- when packing must fail ----

  ghost function LanesUsed(packed: seq<Range>, capacity: nat, n: nat): set<nat>
    requires 0 < capacity && n <= |packed|
  {
    if n == 0 then {} else LanesUsed(packed, capacity, n - 1) + {LaneOf(packed[n - 1], capacity)}
  }

  ghost predicate LanesDiffer(packed: seq<Range>, capacity: nat)
    requires 0 < capacity
  {
    forall i, j :: 0 <= i < j < |packed| ==> LaneOf(packed[i], capacity) != LaneOf(packed[j], capacity)
  }

  lemma {:induction false} LaneUnused(packed: seq<Range>, capacity: nat, n: nat, j: nat)
    requires 0 < capacity && LanesDiffer(packed, capacity) && n <= j < |packed|
    ensures LaneOf(packed[j], capacity) !in LanesUsed(packed, capacity, n)
  {
    if n > 0 {
      LaneUnused(packed, capacity, n - 1, j);
    }
  }

  lemma {:induction false} LanesUsedCount(packed: seq<Range>, capacity: nat, lanes: nat, n: nat)
    requires 0 < capacity && LanesDiffer(packed, capacity) && n <= |packed|
    requires forall i :: 0 <= i < |packed| ==> LaneOf(packed[i], capacity) < lanes
    ensures |LanesUsed(packed, capacity, n)| == n
    ensures forall x :: x in LanesUsed(packed, capacity, n) ==> x < lanes
  {
    if n > 0 {
      LanesUsedCount(packed, capacity, lanes, n - 1);
      LaneUnused(packed, capacity, n - 1, n - 1);
    }
  }

  lemma {:induction false} LanesBelow(s: set<nat>, n: nat)
    requires forall x :: x in s ==> x < n
    ensures |s| <= n
  {
    if n > 0 {
      LanesBelow(s - {n - 1}, n - 1);
    } else {
      assert s == {};
    }
  }

  /** However they are placed, ranges longer than half a lane need a lane each. So a plan can
      fit the staging slot as a whole and still not fit its lanes. */
  lemma LongRangesNeedLanes(packed: seq<Range>, loads: seq<nat>, lanes: nat, capacity: nat)
    requires 0 < capacity && Packed(packed, loads, lanes, capacity)
    requires forall i :: 0 <= i < |packed| ==> 2 * packed[i].size > capacity
    ensures |packed| <= lanes
  {
    forall i, j | 0 <= i < j < |packed| ensures LaneOf(packed[i], capacity) != LaneOf(packed[j], capacity) {
      assert loads[LaneOf(packed[i], capacity)] <= capacity;
    }
    LanesUsedCount(packed, capacity, lanes, |packed|);
    LanesBelow(LanesUsed(packed, capacity, |packed|), lanes);
  }

  // ---- exactly when packing succeeds ----

  /** Each range, when its turn comes, finds a lane with room: the guard of the failing branch. */
  ghost predicate RoomForEach(ranges: seq<Range>, lanes: nat, capacity: nat) {
    forall k :: 0 <= k < |ranges| && PlacedTo(ranges, RangeOrder(ranges, |ranges|), lanes, capacity, k).Ok? ==>
      RoomFor(ranges, PlacedTo(ranges, RangeOrder(ranges, |ranges|), lanes, capacity, k).value.1,
              RangeOrder(ranges, |ranges|)[k], capacity)
  }

  ghost predicate RoomFor(ranges: seq<Range>, loads: seq<nat>, x: nat, capacity: nat)
    requires x < |ranges|
  {
    exists l :: 0 <= l < |loads| && Fits(loads, l, ranges[x].size, capacity)
  }

  lemma RoomMeansPlaced(ranges: seq<Range>, packed: seq<Range>, loads: seq<nat>, x: nat, capacity: nat)
    requires x < |ranges| == |packed|
    ensures PlacedNext(ranges, packed, loads, x, capacity).Ok? <==> RoomFor(ranges, loads, x, capacity)
  {
    BestLaneMeaning(loads, ranges[x].size, capacity, |loads|);
  }

  lemma {:induction false} PlacedWhileRoom(ranges: seq<Range>, lanes: nat, capacity: nat, k: nat)
    requires RoomForEach(ranges, lanes, capacity) && k <= |ranges|
    ensures PlacedTo(ranges, RangeOrder(ranges, |ranges|), lanes, capacity, k).Ok?
  {
    if k > 0 {
      PlacedWhileRoom(ranges, lanes, capacity, k - 1);
      var order := RangeOrder(ranges, |ranges|);
      var (packed, loads) := PlacedTo(ranges, order, lanes, capacity, k - 1).value;
      RoomMeansPlaced(ranges, packed, loads, order[k - 1], capacity);
    }
  }

  lemma PackingOkIff(ranges: seq<Range>, lanes: nat, capacity: nat)
    ensures Packing(ranges, lanes, capacity).Ok? <==> RoomForEach(ranges, lanes, capacity)
  {
    var order := RangeOrder(ranges, |ranges|);
    if RoomForEach(ranges, lanes, capacity) {
      PlacedWhileRoom(ranges, lanes, capacity, |ranges|);
    } else {
      var k :| 0 <= k < |ranges| && PlacedTo(ranges, order, lanes, capacity, k).Ok?
               && !RoomFor(ranges, PlacedTo(ranges, order, lanes, capacity, k).value.1, order[k], capacity);
      var (packed, loads) := PlacedTo(ranges, order, lanes, capacity, k).value;
      RoomMeansPlaced(ranges, packed, loads, order[k], capacity);
      PlacedStops(ranges, order, lanes, capacity, k + 1, |ranges|);
    }
  }

  // ---- ranges of one size ----

  /** The loads after `k` ranges of `size` bytes: whole multiples, `k` of them in all. */
  ghost predicate Multiples(loads: seq<nat>, counts: seq<nat>, size: nat, k: nat) {
    |counts| == |loads| && SumOf(counts) == k && forall l :: 0 <= l < |loads| ==> loads[l] == counts[l] * size
  }

  lemma AddMultiple(loads: seq<nat>, counts: seq<nat>, size: nat, k: nat, lane: nat)
    requires Multiples(loads, counts, size, k) && lane < |loads|
    ensures Multiples(loads[lane := loads[lane] + size], counts[lane := counts[lane] + 1], size, k + 1)
  {
    SumOfUpdate(counts, lane, counts[lane] + 1);
    assert (counts[lane] + 1) * size == counts[lane] * size + size;
  }

  lemma {:induction false} PlacedMultiples(ranges: seq<Range>, order: seq<nat>, lanes: nat, capacity: nat, k: nat, size: nat)
      returns (counts: seq<nat>)
    requires k <= |order| && (forall i :: 0 <= i < |order| ==> order[i] < |ranges|)
    requires forall i :: 0 <= i < |ranges| ==> ranges[i].size == size
    requires PlacedTo(ranges, order, lanes, capacity, k).Ok?
    ensures Multiples(PlacedTo(ranges, order, lanes, capacity, k).value.1, counts, size, k)
    ensures forall l :: 0 <= l < |counts| ==> counts[l] * size <= capacity
  {
    if k == 0 {
      counts := seq(lanes, _ => 0);
      SumOfZeros(counts);
    } else {
      var before := PlacedMultiples(ranges, order, lanes, capacity, k - 1, size);
      var (packed, loads) := PlacedTo(ranges, order, lanes, capacity, k - 1).value;
      var lane := BestLane(loads, size, capacity, |loads|);
      BestLaneMeaning(loads, size, capacity, |loads|);
      AddMultiple(loads, before, size, k - 1, lane);
      counts := before[lane := before[lane] + 1];
    }
  }

  lemma {:induction false} SumOfBound(s: seq<nat>, each: nat)
    requires forall l :: 0 <= l < |s| ==> s[l] <= each
    ensures SumOf(s) <= |s| * each
  {
    if s != [] {
      SumOfBound(s[1..], each);
      assert |s| * each == (|s| - 1) * each + each;
    }
  }

  lemma CountBound(count: nat, size: nat, capacity: nat)
    requires 0 < size
    ensures count * size <= capacity <==> count <= capacity / size
  {
    DivBounds(capacity, size);
    if count <= capacity / size {
      MulMono(count, capacity / size, size);
    } else {
      MulMono(capacity / size + 1, count, size);
    }
  }

  /** Ranges of one size pack exactly when there are at most as many as fit lane by lane. */
  lemma UniformPacksIff(ranges: seq<Range>, lanes: nat, capacity: nat, size: nat)
    requires 0 < size && forall i :: 0 <= i < |ranges| ==> ranges[i].size == size
    ensures Packing(ranges, lanes, capacity).Ok? <==> |ranges| <= lanes * (capacity / size)
  {
    var order := RangeOrder(ranges, |ranges|);
    if Packing(ranges, lanes, capacity).Ok? {
      var counts := PlacedMultiples(ranges, order, lanes, capacity, |ranges|, size);
      forall l | 0 <= l < |counts| ensures counts[l] <= capacity / size {
        CountBound(counts[l], size, capacity);
      }
      SumOfBound(counts, capacity / size);
    } else {
      UniformFails(ranges, order, lanes, capacity, |ranges|, size);
    }
  }

  lemma FullCount(load: nat, count: nat, size: nat, capacity: nat)
    requires 0 < size && load == count * size && load + size > capacity
    ensures count >= capacity / size
  {
    CountBound(count + 1, size, capacity);
    assert (count + 1) * size == count * size + size;
  }

  lemma {:induction false} UniformFails(ranges: seq<Range>, order: seq<nat>, lanes: nat, capacity: nat, k: nat, size: nat)
    requires k <= |order| && (forall i :: 0 <= i < |order| ==> order[i] < |ranges|)
    requires 0 < size && forall i :: 0 <= i < |ranges| ==> ranges[i].size == size
    requires PlacedTo(ranges, order, lanes, capacity, k).Err?
    ensures k > lanes * (capacity / size)
  {
    if PlacedTo(ranges, order, lanes, capacity, k - 1).Err? {
      UniformFails(ranges, order, lanes, capacity, k - 1, size);
    } else {
      UniformFailsHere(ranges, order, lanes, capacity, k, size, capacity / size);
    }
  }

  lemma UniformFailsHere(ranges: seq<Range>, order: seq<nat>, lanes: nat, capacity: nat, k: nat, size: nat, each: nat)
    requires 0 < k <= |order| && (forall i :: 0 <= i < |order| ==> order[i] < |ranges|)
    requires 0 < size && each == capacity / size && forall i :: 0 <= i < |ranges| ==> ranges[i].size == size
    requires PlacedTo(ranges, order, lanes, capacity, k - 1).Ok? && PlacedTo(ranges, order, lanes, capacity, k).Err?
    ensures lanes * each <= k - 1
  {
    var counts := PlacedMultiples(ranges, order, lanes, capacity, k - 1, size);
    var (packed, loads) := PlacedTo(ranges, order, lanes, capacity, k - 1).value;
    BestLaneMeaning(loads, size, capacity, |loads|);
    AllFull(loads, counts, size, capacity, each, k - 1);
  }

  lemma AllFull(loads: seq<nat>, counts: seq<nat>, size: nat, capacity: nat, each: nat, k: nat)
    requires Multiples(loads, counts, size, k) && 0 < size && each == capacity / size
    requires forall l :: 0 <= l < |loads| ==> !Fits(loads, l, size, capacity)
    ensures |loads| * each <= k
  {
    forall l | 0 <= l < |counts| ensures counts[l] >= each {
      assert !Fits(loads, l, size, capacity);
      FullCount(loads[l], counts[l], size, capacity);
    }
    SumOfAtLeast(counts, each);
  }
}
