/** `PersistentState::read_ids` and `read`: plan, fill the staging slot, gather rows. */
module NativeRead {
  import opened Pages
  import opened Spans
  import opened PagePlan
  import opened LanePacking
  import opened GatherPlan
  import opened GreedyPlacement

  /** Fixed when the reader is built. */
  datatype Config = Config(lanes: nat, laneCapacity: nat, stagingCapacity: nat, maxSpans: nat)

  /** Sizes are 64-bit numbers, and the slot is shared out among the lanes in whole pages. */
  ghost predicate ValidConfig(c: Config) {
    && 0 < c.lanes && 0 < c.laneCapacity && c.stagingCapacity <= MAX_U64
    && c.laneCapacity == c.stagingCapacity / c.lanes / 4096 * 4096
  }

  lemma LanesFitStaging(c: Config)
    requires ValidConfig(c)
    ensures c.lanes * c.laneCapacity <= c.stagingCapacity
    ensures c.laneCapacity % 4096 == 0 && 4096 <= c.laneCapacity
  {
    var each := c.stagingCapacity / c.lanes;
    DivBounds(c.stagingCapacity, c.lanes);
    MulMono(c.laneCapacity, each, c.lanes);
  }

  datatype Request = Request(ids: seq<int>, rowCount: nat, g: Geometry, maxGap: nat, maxRangeBytes: nat,
                             outputBytes: nat, outputOffset: nat)

  /** What the caller must supply beyond the values the planner checks itself. */
  ghost predicate ValidRequest(q: Request) {
    0 < q.g.stride && q.g.base <= MAX_U64
  }

  predicate SoundGeometry(q: Request) {
    0 < q.rowCount && 0 < q.g.blockRows && 0 < q.g.rowBytes
  }

  function MaxRange(q: Request): nat {
    if q.maxRangeBytes == 0 then MAX_U64 else q.maxRangeBytes
  }

  function Limit(q: Request, c: Config): nat {
    if MaxRange(q) < c.laneCapacity then MaxRange(q) else c.laneCapacity
  }

  /** As far as the lanes and the request go, `size` bytes may be read in one transfer. */
  predicate FitsRange(q: Request, c: Config, size: int) {
    size <= c.laneCapacity && (q.maxRangeBytes == 0 || size <= q.maxRangeBytes)
  }

  lemma FitsRangeIff(q: Request, c: Config, pages: nat)
    requires ValidConfig(c)
    ensures FitsRange(q, c, pages * 4096) <==> pages <= Limit(q, c) / 4096
  {
    LanesFitStaging(c);
    MulMono(1, c.lanes, c.laneCapacity);
    LimitInPages(pages, Limit(q, c));
  }

  datatype Plan = Plan(pages: seq<nat>, ranges: seq<Range>, loads: seq<nat>, gather: seq<nat>)

  /** The planned transfers of a request, before lanes are chosen. */
  ghost predicate RangesFor(ranges: seq<Range>, pages: seq<nat>, q: Request, c: Config)
    requires SoundGeometry(q)
  {
    && ValidIds(q.ids, q.rowCount, q.g)
    && Increasing(pages) && PagesOfRows(pages, q.ids, q.g) && |pages| <= 2 * |q.ids|
    && AllWholePages(ranges) && Merged(SpansOf(ranges), pages, q.maxGap, Limit(q, c) / 4096)
  }

  ghost predicate GoodPlan(p: Plan, q: Request, c: Config) {
    && ValidConfig(c) && SoundGeometry(q) && q.ids != []
    && RangesFor(p.ranges, p.pages, q, c)
    && Packed(p.ranges, p.loads, c.lanes, c.laneCapacity)
    && TotalSize(p.ranges) <= c.stagingCapacity
    && |p.gather| == |q.ids|
    && (forall i :: 0 <= i < |q.ids| ==>
          StagedAt(p.ranges, RowOffset(q.g, q.ids[i]), p.gather[i]) && p.gather[i] + q.g.rowBytes <= c.stagingCapacity)
  }

  /** Why a request is refused before the slot is touched; the two coverage errors never are
      the reason, and the last three belong to `read`. */
  ghost predicate Refused(e: PlanError, q: Request, c: Config) {
    match e
    case NoRows => q.ids == []
    case RowCapacityExceeded => |q.ids| > c.maxSpans
    case InvalidGeometry => !SoundGeometry(q)
    case OutputByteMismatch => q.outputBytes != |q.ids| * q.g.rowBytes
    case RangeSizeTooSmall => 0 < q.maxRangeBytes < 4096
    case RowIdOutOfBounds => SoundGeometry(q) && exists i: nat :: FirstBad(q.ids, i, q.rowCount, q.g, e)
    case RowOffsetOverflow => SoundGeometry(q) && exists i: nat :: FirstBad(q.ids, i, q.rowCount, q.g, e)
    case StagingExceeded =>
      SoundGeometry(q) && exists ranges, pages ::
        RangesFor(ranges, pages, q, c) && TotalSize(ranges) > c.stagingCapacity
    case LanesExceeded =>
      SoundGeometry(q) && exists ranges, pages, f ::
        RangesFor(ranges, pages, q, c) && NoRoom(ranges, f, c.lanes, c.laneCapacity)
    case GatherSpanExceedsStaging =>
      SoundGeometry(q) && exists ranges, pages :: RangesFor(ranges, pages, q, c)
    case NoStagingRange => false
    case PageNotCovered => false
    case SlotStillOwned => false
    case OutputCapacityExceeded => false
    case ShortRead => false
  }

  /** The plan of a request, or the first reason to refuse it. */
  ghost function PlanOf(q: Request, c: Config): Result<Plan, PlanError>
    requires ValidRequest(q)
  {
    if |q.ids| == 0 then Err(NoRows)
    else if |q.ids| > c.maxSpans then Err(RowCapacityExceeded)
    else if !SoundGeometry(q) then Err(InvalidGeometry)
    else if q.outputBytes != |q.ids| * q.g.rowBytes then Err(OutputByteMismatch)
    else if MaxRange(q) < 4096 then Err(RangeSizeTooSmall)
    else
      match CollectedPages(q.ids, q.rowCount, q.g)
      case Err(e) => Err(e)
      case Ok(collected) =>
        CollectedMeaning(q.ids, q.rowCount, q.g);
        PlanOfPages(q, c, SortedUnique(collected))
  }

  ghost function PlanOfPages(q: Request, c: Config, pages: seq<nat>): Result<Plan, PlanError>
    requires SoundGeometry(q) && ValidIds(q.ids, q.rowCount, q.g) && Increasing(pages)
  {
    var merged := MergedRanges(pages, q.maxGap, Limit(q, c));
    if TotalSize(merged) > c.stagingCapacity then Err(StagingExceeded)
    else
      match Packing(merged, c.lanes, c.laneCapacity)
      case Err(_) => Err(LanesExceeded)
      case Ok((ranges, loads)) =>
        match GatheredTo(q.ids, q.g, ranges, c.stagingCapacity, |q.ids|)
        case Err(e) => Err(e)
        case Ok(gather) => Ok(Plan(pages, ranges, loads, gather))
  }

  /** A request past the first checks is planned from its pages. */
  lemma PlanFromPages(q: Request, c: Config, collected: seq<nat>, pages: seq<nat>)
    requires ValidRequest(q) && SoundGeometry(q) && 0 < |q.ids| <= c.maxSpans && 4096 <= MaxRange(q)
    requires q.outputBytes == |q.ids| * q.g.rowBytes
    requires CollectedPages(q.ids, q.rowCount, q.g) == Ok(collected) && pages == SortedUnique(collected)
    ensures ValidIds(q.ids, q.rowCount, q.g) && PlanOf(q, c) == PlanOfPages(q, c, pages)
  {
    CollectedMeaning(q.ids, q.rowCount, q.g);
  }

  lemma MergedForRequest(q: Request, c: Config, collected: seq<nat>, pages: seq<nat>)
    requires ValidConfig(c) && SoundGeometry(q) && ValidIds(q.ids, q.rowCount, q.g) && 4096 <= MaxRange(q)
    requires PagesOfRows(collected, q.ids, q.g) && |collected| <= 2 * |q.ids| && pages == SortedUnique(collected)
    ensures RangesFor(MergedRanges(pages, q.maxGap, Limit(q, c)), pages, q, c)
  {
    LanesFitStaging(c);
    SamePagesOfRows(collected, pages, q.ids, q.g);
    MergedMeaning(pages, q.maxGap, Limit(q, c));
  }

  lemma PlacedForRequest(q: Request, c: Config, pages: seq<nat>, merged: seq<Range>)
    requires ValidConfig(c) && SoundGeometry(q) && q.ids != [] && ValidIds(q.ids, q.rowCount, q.g) && Increasing(pages)
    requires merged == MergedRanges(pages, q.maxGap, Limit(q, c)) && RangesFor(merged, pages, q, c)
    ensures PlanOfPages(q, c, pages).Ok? ==> GoodPlan(PlanOfPages(q, c, pages).value, q, c)
    ensures PlanOfPages(q, c, pages).Err? ==> Refused(PlanOfPages(q, c, pages).error, q, c)
  {
    LanesFitStaging(c);
    PackingMeaning(merged, c.lanes, c.laneCapacity);
    var packed := Packing(merged, c.lanes, c.laneCapacity);
    if packed.Ok? {
      var (ranges, loads) := packed.value;
      SameSpans(merged, ranges);
      assert RangesFor(ranges, pages, q, c);
      RowsAreHeld(ranges, pages, q, c);
      GatheredMeaning(q.ids, q.g, ranges, c.stagingCapacity, |q.ids|);
      var gathered := GatheredTo(q.ids, q.g, ranges, c.stagingCapacity, |q.ids|);
      if TotalSize(merged) <= c.stagingCapacity {
        match gathered {
          case Err(e) =>
            assert Refused(GatherSpanExceedsStaging, q, c);
          case Ok(offsets) =>
            PartsMakeGood(q, c, Plan(pages, ranges, loads, offsets));
        }
      }
    } else {
      assert NoRoom(merged, packed.error, c.lanes, c.laneCapacity);
    }
  }

  lemma PartsMakeGood(q: Request, c: Config, p: Plan)
    requires ValidConfig(c) && SoundGeometry(q) && q.ids != [] && RangesFor(p.ranges, p.pages, q, c)
    requires Packed(p.ranges, p.loads, c.lanes, c.laneCapacity) && TotalSize(p.ranges) <= c.stagingCapacity
    requires |p.gather| == |q.ids| && AllStaged(q.ids, q.g, p.ranges, c.stagingCapacity, p.gather)
    ensures GoodPlan(p, q, c)
  {
    forall i | 0 <= i < |q.ids|
      ensures StagedAt(p.ranges, RowOffset(q.g, q.ids[i]), p.gather[i]) && p.gather[i] + q.g.rowBytes <= c.stagingCapacity
    {
      assert RowStaged(p.ranges, q.g, q.ids[i], p.gather[i], c.stagingCapacity);
    }
  }

  /** What the planner answers means what it should. */
  lemma PlanOfMeaning(q: Request, c: Config)
    requires ValidConfig(c) && ValidRequest(q)
    ensures PlanOf(q, c).Ok? ==>
              GoodPlan(PlanOf(q, c).value, q, c) && q.outputBytes == |q.ids| * q.g.rowBytes && |q.ids| <= c.maxSpans
    ensures PlanOf(q, c).Err? ==> Refused(PlanOf(q, c).error, q, c)
  {
    if q.ids != [] && SoundGeometry(q) && 4096 <= MaxRange(q) {
      CollectedMeaning(q.ids, q.rowCount, q.g);
      var collected := CollectedPages(q.ids, q.rowCount, q.g);
      if collected.Ok? {
        var pages := SortedUnique(collected.value);
        MergedForRequest(q, c, collected.value, pages);
        PlacedForRequest(q, c, pages, MergedRanges(pages, q.maxGap, Limit(q, c)));
      } else {
        CollectedError(q.ids, q.rowCount, q.g);
      }
    }
  }

  /** The range that holds planned page `k` holds the next planned page too, if and only if the gap
      between them may be bridged and the transfer, up to that page, fits a lane and the limit of
      the request, zero being none. */
  ghost predicate SharedWhenAllowed(p: Plan, q: Request, c: Config, k: nat)
    requires k + 1 < |p.pages|
  {
    && (exists i :: 0 <= i < |p.ranges| && HoldsPage(p.ranges[i], p.pages[k]))
    && forall i :: 0 <= i < |p.ranges| && HoldsPage(p.ranges[i], p.pages[k]) ==>
         (HoldsPage(p.ranges[i], p.pages[k + 1]) <==>
            var size := (p.pages[k + 1] + 1) * 4096 - p.ranges[i].fileOffset;
            && p.pages[k + 1] - p.pages[k] - 1 <= q.maxGap
            && size <= c.laneCapacity && (q.maxRangeBytes == 0 || size <= q.maxRangeBytes))
  }

  /** Which neighbours share a range, for every plan the planner returns. */
  lemma NeighboursShareIff(p: Plan, q: Request, c: Config)
    requires GoodPlan(p, q, c)
    ensures forall k: nat {:trigger SharedWhenAllowed(p, q, c, k)} :: k + 1 < |p.pages| ==> SharedWhenAllowed(p, q, c, k)
    ensures forall i :: 0 <= i < |p.ranges| ==> FitsRange(q, c, p.ranges[i].size)
  {
    forall k: nat | k + 1 < |p.pages| ensures SharedWhenAllowed(p, q, c, k) {
      NeighbourShares(p, q, c, k);
    }
    forall i | 0 <= i < |p.ranges| ensures FitsRange(q, c, p.ranges[i].size) {
      var span := SpansOf(p.ranges)[i];
      assert WholePages(p.ranges[i]) && span == SpanOf(p.ranges[i]);
      FitsRangeIff(q, c, span.last - span.first + 1);
    }
  }

  lemma GrownFits(r: Range, q: Request, c: Config, a: nat, b: nat)
    requires ValidConfig(c) && WholePages(r) && HoldsPage(r, a) && a < b
    ensures MayExtend(FirstPage(r), a, b, q.maxGap, Limit(q, c) / 4096) <==>
              var size := (b + 1) * 4096 - r.fileOffset;
              b - a - 1 <= q.maxGap && size <= c.laneCapacity && (q.maxRangeBytes == 0 || size <= q.maxRangeBytes)
  {
    assert (b + 1) * 4096 - r.fileOffset == (b - FirstPage(r) + 1) * 4096;
    FitsRangeIff(q, c, b - FirstPage(r) + 1);
  }

  lemma NeighbourShares(p: Plan, q: Request, c: Config, k: nat)
    requires GoodPlan(p, q, c) && k + 1 < |p.pages|
    ensures SharedWhenAllowed(p, q, c, k)
  {
    var spans, a, b := SpansOf(p.ranges), p.pages[k], p.pages[k + 1];
    Ascending(p.pages, k, k + 1);
    assert Held(spans, p.pages[k]);
    var h := HolderIndex(p.ranges, p.pages[k]);
    assert JoinedAt(spans, p.pages, k, q.maxGap, Limit(q, c) / 4096);
    forall i | 0 <= i < |p.ranges| && HoldsPage(p.ranges[i], a)
      ensures HoldsPage(p.ranges[i], b) <==>
                var size := (b + 1) * 4096 - p.ranges[i].fileOffset;
                b - a - 1 <= q.maxGap && size <= c.laneCapacity && (q.maxRangeBytes == 0 || size <= q.maxRangeBytes)
    {
      assert WholePages(p.ranges[i]) && spans[i] == SpanOf(p.ranges[i]) && InSpan(spans[i], a);
      GrownFits(p.ranges[i], q, c, a, b);
    }
  }

  /** Where the planner puts the transfers: largest first, each behind the earlier ones of the first
      least loaded lane that has room. */
  lemma PlanIsGreedy(q: Request, c: Config)
    requires ValidConfig(c) && ValidRequest(q) && PlanOf(q, c).Ok?
    ensures var ranges := PlanOf(q, c).value.ranges;
            forall i: nat :: i < |ranges| ==> PlacedGreedily(ranges, i, c.lanes, c.laneCapacity)
  {
    PlanOfMeaning(q, c);
    LanesFitStaging(c);
    var collected := CollectedPages(q.ids, q.rowCount, q.g).value;
    CollectedMeaning(q.ids, q.rowCount, q.g);
    var pages := SortedUnique(collected);
    MergedForRequest(q, c, collected, pages);
    MergedGreedily(MergedRanges(pages, q.maxGap, Limit(q, c)), c.lanes, c.laneCapacity);
  }

  lemma MergedGreedily(merged: seq<Range>, lanes: nat, capacity: nat)
    requires AllWholePages(merged) && Separate(SpansOf(merged)) && 0 < lanes && 0 < capacity && capacity % 4096 == 0
    requires Packing(merged, lanes, capacity).Ok?
    ensures var ranges := Packing(merged, lanes, capacity).value.0;
            forall i: nat :: i < |ranges| ==> PlacedGreedily(ranges, i, lanes, capacity)
  {
    MergedIsFileOrder(merged);
    InOrderDiffer(merged);
    PackingIsGreedy(merged, lanes, capacity);
  }

  lemma InOrderDiffer(ranges: seq<Range>)
    requires FileOrder(ranges)
    ensures OffsetsDiffer(ranges)
  {
    forall i, j | 0 <= i < j < |ranges| ensures ranges[i].fileOffset != ranges[j].fileOffset {
      assert WholePages(ranges[i]) && WholePages(ranges[j]);
    }
  }

  method PlanRead(q: Request, c: Config) returns (r: Result<Plan, PlanError>)
    requires ValidConfig(c) && ValidRequest(q)
    ensures r == PlanOf(q, c)
    ensures r.Ok? ==> GoodPlan(r.value, q, c) && q.outputBytes == |q.ids| * q.g.rowBytes && |q.ids| <= c.maxSpans
    ensures forall k: nat :: r.Ok? && k + 1 < |r.value.pages| ==> SharedWhenAllowed(r.value, q, c, k)
    ensures r.Err? ==> Refused(r.error, q, c)
  {
    PlanOfMeaning(q, c);
    if PlanOf(q, c).Ok? {
      NeighboursShareIff(PlanOf(q, c).value, q, c);
    }
    if |q.ids| == 0 { return Err(NoRows); }
    if |q.ids| > c.maxSpans { return Err(RowCapacityExceeded); }
    if q.rowCount == 0 || q.g.blockRows == 0 || q.g.rowBytes == 0 { return Err(InvalidGeometry); }
    if q.outputBytes != |q.ids| * q.g.rowBytes { return Err(OutputByteMismatch); }
    var maxRange := if q.maxRangeBytes == 0 then MAX_U64 else q.maxRangeBytes;
    if maxRange < 4096 { return Err(RangeSizeTooSmall); }
    LanesFitStaging(c);
    var effMax := if maxRange < c.laneCapacity then maxRange else c.laneCapacity;
    var collected := CollectPages(q.ids, q.rowCount, q.g);
    CollectedMeaning(q.ids, q.rowCount, q.g);
    match collected {
      case Err(e) => r := Err(e);
      case Ok(rowPages) => {
        var pages := SortedUnique(rowPages);
        MergedForRequest(q, c, rowPages, pages);
        var merged, cursor := MergePages(pages, q.maxGap, effMax);
        if cursor > c.stagingCapacity {
          return Err(StagingExceeded);
        }
        r := PlaceAndGather(q, c, pages, merged);
      }
    }
  }

  method PlanReadable(q: Request, c: Config) returns (r: Result<Plan, PlanError>)
    requires ValidConfig(c) && ValidRequest(q)
    ensures r == PlanOf(q, c)
    ensures r.Ok? ==> Readable(r.value, q, c) && q.outputBytes == |q.ids| * q.g.rowBytes
  {
    r := PlanRead(q, c);
    match r {
      case Err(_) =>
      case Ok(plan) => GoodPlanIsReadable(plan, q, c);
    }
  }

  lemma SamePagesOfRows(a: seq<nat>, b: seq<nat>, ids: seq<int>, g: Geometry)
    requires 0 < g.blockRows && 0 < g.rowBytes && (forall i :: 0 <= i < |ids| ==> 0 <= ids[i])
    requires PagesOfRows(a, ids, g) && forall p :: p in b <==> p in a
    ensures PagesOfRows(b, ids, g)
  {
    forall p | p in b ensures PageOfSomeRow(p, ids, g) {
      assert p in a;
    }
  }

  lemma RowPagesPlanned(pages: seq<nat>, ids: seq<int>, g: Geometry, i: nat)
    requires 0 < g.blockRows && 0 < g.rowBytes && (forall j :: 0 <= j < |ids| ==> 0 <= ids[j])
    requires PagesOfRows(pages, ids, g) && i < |ids|
    ensures RowOffset(g, ids[i]) / 4096 in pages && (RowOffset(g, ids[i]) + g.rowBytes - 1) / 4096 in pages
  {
    assert RowFirstPage(g, ids[i]) in pages && RowLastPage(g, ids[i]) in pages;
  }

  /** The second half of the plan: lanes, then one gather offset per requested row. */
  method PlaceAndGather(q: Request, c: Config, pages: seq<nat>, merged: seq<Range>)
    returns (r: Result<Plan, PlanError>)
    requires ValidConfig(c) && SoundGeometry(q) && q.ids != []
    requires RangesFor(merged, pages, q, c) && TotalSize(merged) <= c.stagingCapacity
    requires merged == MergedRanges(pages, q.maxGap, Limit(q, c))
    ensures r == PlanOfPages(q, c, pages)
  {
    LanesFitStaging(c);
    var packed := PackLanes(merged, c.lanes, c.laneCapacity);
    match packed {
      case Err(_) => r := Err(LanesExceeded);
      case Ok(placed) => {
        SameSpans(merged, placed.0);
        RowsAreHeld(placed.0, pages, q, c);
        var gather := PlanGather(q.ids, q.g, placed.0, c.stagingCapacity);
        match gather {
          case Err(e) => r := Err(e);
          case Ok(offsets) => r := Ok(Plan(pages, placed.0, placed.1, offsets));
        }
      }
    }
  }

  lemma SameSpans(a: seq<Range>, b: seq<Range>)
    requires AllWholePages(a) && SameTransfers(a, b)
    ensures AllWholePages(b) && SpansOf(a) == SpansOf(b) && TotalSize(a) == TotalSize(b)
  {
    assert AllWholePages(b);
    assert forall i :: 0 <= i < |a| ==> SpanOf(a[i]) == SpanOf(b[i]);
    SameTotal(a, b);
  }

  lemma {:induction false} SameTotal(a: seq<Range>, b: seq<Range>)
    requires SameTransfers(a, b)
    ensures TotalSize(a) == TotalSize(b)
  {
    if a != [] {
      SameTotal(a[..|a| - 1], b[..|b| - 1]);
    }
  }

  lemma RowsAreHeld(ranges: seq<Range>, pages: seq<nat>, q: Request, c: Config)
    requires SoundGeometry(q) && RangesFor(ranges, pages, q, c)
    ensures FileOrder(ranges)
    ensures forall i :: 0 <= i < |q.ids| ==> Held(SpansOf(ranges), RowFirstPage(q.g, q.ids[i]))
  {
    MergedIsFileOrder(ranges);
    forall i | 0 <= i < |q.ids| ensures Held(SpansOf(ranges), RowFirstPage(q.g, q.ids[i])) {
      assert RowFirstPage(q.g, q.ids[i]) in pages;
      var k :| 0 <= k < |pages| && pages[k] == RowFirstPage(q.g, q.ids[i]);
      assert Held(SpansOf(ranges), pages[k]);
    }
  }

  /** The checks `read` repeats on every range: whole pages, inside the slot, inside one lane. */
  lemma PlanPassesReadChecks(p: Plan, q: Request, c: Config)
    requires GoodPlan(p, q, c)
    ensures StagingDisjoint(p.ranges) && p.ranges != []
    ensures forall i :: 0 <= i < |p.ranges| ==>
              && WholePages(p.ranges[i]) && p.ranges[i].stagingOffset % 4096 == 0
              && p.ranges[i].stagingOffset + p.ranges[i].size <= c.stagingCapacity
              && LaneOf(p.ranges[i], c.laneCapacity) < c.lanes
              && LaneOffset(p.ranges[i], c.laneCapacity) + p.ranges[i].size <= c.laneCapacity
  {
    LanesFitStaging(c);
    PackedIsDisjoint(p.ranges, p.loads, c.lanes, c.laneCapacity);
    assert StagedAt(p.ranges, RowOffset(q.g, q.ids[0]), p.gather[0]);
    forall i | 0 <= i < |p.ranges|
      ensures WholePages(p.ranges[i])
              && LaneOffset(p.ranges[i], c.laneCapacity) + p.ranges[i].size <= c.laneCapacity
    {
      assert p.loads[LaneOf(p.ranges[i], c.laneCapacity)] <= c.laneCapacity;
    }
  }

  // ---- what the caller receives ----

  /** The lookup the whole pipeline stands for. */
  function NaiveRow(file: seq<Byte>, g: Geometry, id: nat): seq<Byte>
    requires 0 < g.blockRows && RowOffset(g, id) + g.rowBytes <= |file|
  {
    file[RowOffset(g, id)..RowOffset(g, id) + g.rowBytes]
  }

  ghost predicate RowReceived(output: seq<Byte>, at: nat, file: seq<Byte>, g: Geometry, id: nat)
    requires 0 < g.blockRows
  {
    && RowOffset(g, id) + g.rowBytes <= |file| && at + g.rowBytes <= |output|
    && output[at..at + g.rowBytes] == NaiveRow(file, g, id)
  }

  ghost predicate RowContiguous(p: Plan, q: Request, i: nat)
    requires 0 < q.g.blockRows && i < |q.ids| && i < |p.gather| && 0 <= q.ids[i]
  {
    Contiguous(p.ranges, RowOffset(q.g, q.ids[i]), q.g.rowBytes, p.gather[i])
  }

  /** No requested row crosses a page boundary. */
  ghost predicate NoRowCrosses(q: Request)
    requires SoundGeometry(q) && ValidIds(q.ids, q.rowCount, q.g)
  {
    forall i :: 0 <= i < |q.ids| ==> RowFirstPage(q.g, q.ids[i]) == RowLastPage(q.g, q.ids[i])
  }

  /** No run of planned pages is longer than a lane or than the request allows a range to be. */
  ghost predicate RunsFit(pages: seq<nat>, q: Request, c: Config) {
    forall a: nat, b: nat :: IsRun(pages, a, b, q.maxGap) ==> FitsRange(q, c, (pages[b] as int - pages[a] + 1) * 4096)
  }

  lemma RunsFitIff(pages: seq<nat>, q: Request, c: Config)
    requires ValidConfig(c) && Increasing(pages)
    ensures RunsFit(pages, q, c) <==> ShortRuns(pages, q.maxGap, Limit(q, c) / 4096)
  {
    forall a: nat, b: nat | IsRun(pages, a, b, q.maxGap)
      ensures FitsRange(q, c, (pages[b] - pages[a] + 1) * 4096) <==> pages[b] - pages[a] + 1 <= Limit(q, c) / 4096
    {
      Ascending(pages, a, b);
      FitsRangeIff(q, c, pages[b] - pages[a] + 1);
    }
  }

  /** Sufficient for every row, and visible before the read: rows within one page, or no run
      of planned pages longer than a range may be. */
  lemma AllRowsContiguous(p: Plan, q: Request, c: Config)
    requires GoodPlan(p, q, c) && q.g.rowBytes <= 4096
    requires NoRowCrosses(q) || RunsFit(p.pages, q, c)
    ensures forall i :: 0 <= i < |q.ids| ==> RowContiguous(p, q, i)
  {
    MergedIsFileOrder(p.ranges);
    if NoRowCrosses(q) {
      forall i | 0 <= i < |q.ids| ensures RowContiguous(p, q, i) {
        assert RowFirstPage(q.g, q.ids[i]) == RowLastPage(q.g, q.ids[i]);
        OnePageContiguous(p.ranges, RowOffset(q.g, q.ids[i]), q.g.rowBytes, p.gather[i]);
      }
    } else {
      RunsFitIff(p.pages, q, c);
      RowsInShortRuns(p.ranges, p.pages, q.maxGap, Limit(q, c) / 4096, q.ids, q.g, p.gather);
    }
  }

  lemma RowsInShortRuns(ranges: seq<Range>, pages: seq<nat>, maxGap: nat, maxPages: nat,
                        ids: seq<int>, g: Geometry, gather: seq<nat>)
    requires Increasing(pages) && FileOrder(ranges) && Merged(SpansOf(ranges), pages, maxGap, maxPages)
    requires ShortRuns(pages, maxGap, maxPages) && 0 < g.blockRows && 0 < g.rowBytes <= 4096 && |gather| == |ids|
    requires (forall j :: 0 <= j < |ids| ==> 0 <= ids[j]) && PagesOfRows(pages, ids, g)
    requires forall i :: 0 <= i < |ids| ==> StagedAt(ranges, RowOffset(g, ids[i]), gather[i])
    ensures forall i :: 0 <= i < |ids| ==> Contiguous(ranges, RowOffset(g, ids[i]), g.rowBytes, gather[i])
  {
    forall i | 0 <= i < |ids| ensures Contiguous(ranges, RowOffset(g, ids[i]), g.rowBytes, gather[i]) {
      RowPagesPlanned(pages, ids, g, i);
      ShortRunContiguous(ranges, pages, maxGap, maxPages, RowOffset(g, ids[i]), g.rowBytes, gather[i]);
    }
  }

  lemma ShortRunContiguous(ranges: seq<Range>, pages: seq<nat>, maxGap: nat, maxPages: nat,
                           offset: nat, rowBytes: nat, position: nat)
    requires Increasing(pages) && FileOrder(ranges) && Merged(SpansOf(ranges), pages, maxGap, maxPages)
    requires ShortRuns(pages, maxGap, maxPages)
    requires 0 < rowBytes <= 4096 && StagedAt(ranges, offset, position)
    requires offset / 4096 in pages && (offset + rowBytes - 1) / 4096 in pages
    ensures Contiguous(ranges, offset, rowBytes, position)
  {
    if offset / 4096 == (offset + rowBytes - 1) / 4096 {
      OnePageContiguous(ranges, offset, rowBytes, position);
    } else {
      CrossingRowContiguous(ranges, pages, maxGap, maxPages, offset, rowBytes, position);
    }
  }

  lemma OnePageContiguous(ranges: seq<Range>, offset: nat, rowBytes: nat, position: nat)
    requires 0 < rowBytes && offset / 4096 == (offset + rowBytes - 1) / 4096
    ensures Contiguous(ranges, offset, rowBytes, position)
  {}

  lemma CrossingRowContiguous(ranges: seq<Range>, pages: seq<nat>, maxGap: nat, maxPages: nat,
                              offset: nat, rowBytes: nat, position: nat)
    requires Increasing(pages) && FileOrder(ranges) && Merged(SpansOf(ranges), pages, maxGap, maxPages)
    requires ShortRuns(pages, maxGap, maxPages)
    requires 0 < rowBytes <= 4096 && StagedAt(ranges, offset, position)
    requires offset / 4096 in pages && (offset + rowBytes - 1) / 4096 in pages
    requires offset / 4096 != (offset + rowBytes - 1) / 4096
    ensures Contiguous(ranges, offset, rowBytes, position)
  {
    assert (offset + rowBytes - 1) / 4096 == offset / 4096 + 1;
    ShortRunsShareRange(ranges, pages, offset / 4096, maxGap, maxPages);
    SameRangeContiguous(ranges, offset, rowBytes, position);
  }

  // ---- when the gather offsets fit ----

  /** Wherever the row is staged, its second page follows the first. */
  ghost predicate NeverTorn(ranges: seq<Range>, g: Geometry, id: nat)
    requires 0 < g.blockRows
  {
    forall p: nat :: StagedAt(ranges, RowOffset(g, id), p) ==> Contiguous(ranges, RowOffset(g, id), g.rowBytes, p)
  }

  ghost predicate InsideSlot(ranges: seq<Range>, stagingCapacity: nat) {
    forall i :: 0 <= i < |ranges| ==> ranges[i].stagingOffset + ranges[i].size <= stagingCapacity
  }

  lemma ContiguousFits(ranges: seq<Range>, offset: nat, rowBytes: nat, position: nat, stagingCapacity: nat)
    requires AllWholePages(ranges) && InsideSlot(ranges, stagingCapacity) && 0 < rowBytes <= 4096
    requires StagedAt(ranges, offset, position) && Contiguous(ranges, offset, rowBytes, position)
    ensures position + rowBytes <= stagingCapacity
  {
    var next := (offset / 4096 + 1) * 4096;
    if offset + rowBytes <= next {
      StagedPage(ranges, offset, position, stagingCapacity);
    } else {
      StagedPage(ranges, next, position + (next - offset), stagingCapacity);
    }
  }

  /** The rest of the page of a staged byte lies inside the slot. */
  lemma StagedPage(ranges: seq<Range>, o: nat, position: nat, stagingCapacity: nat)
    requires AllWholePages(ranges) && InsideSlot(ranges, stagingCapacity) && StagedAt(ranges, o, position)
    ensures position + ((o / 4096 + 1) * 4096 - o) <= stagingCapacity
  {
    var i :| 0 <= i < |ranges| && HoldsPage(ranges[i], o / 4096)
             && position == ranges[i].stagingOffset + (o - ranges[i].fileOffset);
    assert WholePages(ranges[i]);
  }

  lemma {:induction false} UntornGathers(ids: seq<int>, g: Geometry, ranges: seq<Range>, stagingCapacity: nat, n: nat)
    requires 0 < g.blockRows && 0 < g.rowBytes <= 4096 && n <= |ids| && FileOrder(ranges)
    requires forall i :: 0 <= i < n ==> 0 <= ids[i] && Held(SpansOf(ranges), RowFirstPage(g, ids[i]))
    requires forall i :: 0 <= i < n ==> NeverTorn(ranges, g, ids[i])
    requires InsideSlot(ranges, stagingCapacity)
    ensures GatheredTo(ids, g, ranges, stagingCapacity, n).Ok?
  {
    if n > 0 {
      UntornGathers(ids, g, ranges, stagingCapacity, n - 1);
      UntornGather(ranges, g, ids[n - 1], stagingCapacity);
    }
  }

  lemma UntornGather(ranges: seq<Range>, g: Geometry, id: nat, stagingCapacity: nat)
    requires 0 < g.blockRows && 0 < g.rowBytes <= 4096 && FileOrder(ranges)
    requires Held(SpansOf(ranges), RowFirstPage(g, id)) && NeverTorn(ranges, g, id) && InsideSlot(ranges, stagingCapacity)
    ensures GatherAt(ranges, RowOffset(g, id), g.rowBytes, stagingCapacity).Ok?
  {
    var offset := RowOffset(g, id);
    GatherAtMeaning(ranges, offset, g.rowBytes, stagingCapacity);
    forall p: nat | StagedAt(ranges, offset, p) ensures p + g.rowBytes <= stagingCapacity {
      ContiguousFits(ranges, offset, g.rowBytes, p, stagingCapacity);
    }
  }

  /** A plan of untorn rows is refused by the size of the staging slot or of its lanes only. */
  lemma UntornPlans(q: Request, c: Config, pages: seq<nat>, merged: seq<Range>)
    requires ValidConfig(c) && SoundGeometry(q) && q.ids != [] && ValidIds(q.ids, q.rowCount, q.g) && Increasing(pages)
    requires merged == MergedRanges(pages, q.maxGap, Limit(q, c)) && RangesFor(merged, pages, q, c)
    requires q.g.rowBytes <= 4096 && TotalSize(merged) <= c.stagingCapacity
    requires forall ranges, i :: SameTransfers(merged, ranges) && FileOrder(ranges) && 0 <= i < |q.ids| ==>
               NeverTorn(ranges, q.g, q.ids[i])
    ensures PlanOfPages(q, c, pages).Ok? <==> Packing(merged, c.lanes, c.laneCapacity).Ok?
    ensures PlanOfPages(q, c, pages).Err? ==> PlanOfPages(q, c, pages) == Err(LanesExceeded)
  {
    LanesFitStaging(c);
    PackingMeaning(merged, c.lanes, c.laneCapacity);
    var packed := Packing(merged, c.lanes, c.laneCapacity);
    if packed.Ok? {
      var (ranges, loads) := packed.value;
      SameSpans(merged, ranges);
      assert RangesFor(ranges, pages, q, c);
      RowsAreHeld(ranges, pages, q, c);
      PackedIsDisjoint(ranges, loads, c.lanes, c.laneCapacity);
      UntornGathers(q.ids, q.g, ranges, c.stagingCapacity, |q.ids|);
    }
  }

  // ---- moving the bytes ----

  /** Mode `sync`: one transfer after the other into the staging slot. */
  /** One transfer, behind those already delivered. */
  method ReadRange(file: seq<Byte>, staging: array<Byte>, ranges: seq<Range>, k: nat)
    requires StagingDisjoint(ranges) && k < |ranges| && ranges[k].fileOffset + ranges[k].size <= |file|
    requires forall i :: 0 <= i < |ranges| ==> ranges[i].stagingOffset + ranges[i].size <= staging.Length
    requires AllDelivered(file, staging[..], ranges[..k])
    modifies staging
    ensures AllDelivered(file, staging[..], ranges[..k + 1])
  {
    var range := ranges[k];
    ghost var before := staging[..];
    CopyBlock(file[range.fileOffset..range.fileOffset + range.size], staging, range.stagingOffset);
    assert Delivered(file, staging[..], range);
    DeliveredSurvives(file, before, staging[..], ranges, k);
  }

  method ReadRanges(file: seq<Byte>, staging: array<Byte>, ranges: seq<Range>) returns (r: Result<nat, PlanError>)
    requires StagingDisjoint(ranges)
    requires forall i :: 0 <= i < |ranges| ==> ranges[i].stagingOffset + ranges[i].size <= staging.Length
    modifies staging
    ensures r.Ok? ==> AllDelivered(file, staging[..], ranges) && r.value == TotalSize(ranges)
    ensures r.Err? ==> r.error == ShortRead && exists i :: 0 <= i < |ranges| && ranges[i].fileOffset + ranges[i].size > |file|
  {
    var bytesRead := 0;
    var k := 0;
    while k < |ranges|
      invariant 0 <= k <= |ranges|
      invariant AllDelivered(file, staging[..], ranges[..k])
      invariant bytesRead == TotalSize(ranges[..k])
    {
      var range := ranges[k];
      if range.fileOffset + range.size > |file| {
        return Err(ShortRead);
      }
      ReadRange(file, staging, ranges, k);
      assert ranges[..k + 1][..k] == ranges[..k];
      bytesRead := bytesRead + range.size;
      k := k + 1;
    }
    assert ranges[..k] == ranges;
    return Ok(bytesRead);
  }

  /** Writes `data` at `at` and nothing else. */
  method CopyBlock(data: seq<Byte>, target: array<Byte>, at: nat)
    requires at + |data| <= target.Length
    modifies target
    ensures target[at..at + |data|] == data
    ensures forall q :: 0 <= q < target.Length && !(at <= q < at + |data|) ==> target[q] == old(target[q])
  {
    var o := 0;
    while o < |data|
      invariant 0 <= o <= |data|
      invariant target[at..at + o] == data[..o]
      invariant forall q :: 0 <= q < target.Length && !(at <= q < at + |data|) ==> target[q] == old(target[q])
    {
      target[at + o] := data[o];
      assert target[at..at + o + 1] == target[at..at + o] + [data[o]];
      o := o + 1;
    }
  }

  lemma DeliveredSurvives(file: seq<Byte>, before: seq<Byte>, after: seq<Byte>, ranges: seq<Range>, k: nat)
    requires StagingDisjoint(ranges) && k < |ranges| && |before| == |after|
    requires AllDelivered(file, before, ranges[..k]) && Delivered(file, after, ranges[k])
    requires forall q :: 0 <= q < |after| && !(ranges[k].stagingOffset <= q < ranges[k].stagingOffset + ranges[k].size)
               ==> after[q] == before[q]
    ensures AllDelivered(file, after, ranges[..k + 1])
  {
    forall i | 0 <= i < k + 1 ensures Delivered(file, after, ranges[i]) {
      if i < k {
        var r := ranges[i];
        assert Delivered(file, before, ranges[..k][i]);
        assert Apart(ranges[i], ranges[k]);
        assert after[r.stagingOffset..r.stagingOffset + r.size] == before[r.stagingOffset..r.stagingOffset + r.size];
      }
    }
  }

  /** The gather kernel: row `i` goes to `outputOffset + i * rowBytes`, nothing else is written. */
  method GatherRows(staging: array<Byte>, output: array<Byte>, sources: seq<nat>, outputOffset: nat, rowBytes: nat)
    requires staging != output
    requires outputOffset + |sources| * rowBytes <= output.Length
    requires forall i :: 0 <= i < |sources| ==> sources[i] + rowBytes <= staging.Length
    modifies output
    ensures forall i :: 0 <= i < |sources| ==> GatheredRow(staging[..], output[..], sources, outputOffset, rowBytes, i)
    ensures forall q :: 0 <= q < output.Length && !(outputOffset <= q < outputOffset + |sources| * rowBytes) ==>
              output[q] == old(output[q])
  {
    var i := 0;
    while i < |sources|
      invariant 0 <= i <= |sources|
      invariant forall j :: 0 <= j < i ==> GatheredRow(staging[..], output[..], sources, outputOffset, rowBytes, j)
      invariant forall q :: 0 <= q < output.Length && !(outputOffset <= q < outputOffset + |sources| * rowBytes) ==>
                  output[q] == old(output[q])
    {
      var at := outputOffset + i * rowBytes;
      RowFits(i, |sources|, rowBytes);
      ghost var before := output[..];
      CopyBlock(staging[sources[i]..sources[i] + rowBytes], output, at);
      EarlierRowsSurvive(staging[..], before, output[..], sources, outputOffset, rowBytes, i);
      i := i + 1;
    }
  }

  ghost predicate GatheredRow(staging: seq<Byte>, output: seq<Byte>, sources: seq<nat>,
                              outputOffset: nat, rowBytes: nat, i: nat)
    requires i < |sources|
  {
    var at := outputOffset + i * rowBytes;
    && at + rowBytes <= |output| && sources[i] + rowBytes <= |staging|
    && output[at..at + rowBytes] == staging[sources[i]..sources[i] + rowBytes]
  }

  lemma RowFits(i: nat, n: nat, rowBytes: nat)
    requires i < n
    ensures i * rowBytes + rowBytes <= n * rowBytes
  {
    MulMono(i + 1, n, rowBytes);
    assert (i + 1) * rowBytes == i * rowBytes + rowBytes;
  }

  lemma EarlierRowsSurvive(staging: seq<Byte>, before: seq<Byte>, after: seq<Byte>, sources: seq<nat>,
                           outputOffset: nat, rowBytes: nat, i: nat)
    requires i < |sources| && |before| == |after|
    requires forall j :: 0 <= j < i ==> GatheredRow(staging, before, sources, outputOffset, rowBytes, j)
    requires forall q :: 0 <= q < |after| && !(outputOffset + i * rowBytes <= q < outputOffset + i * rowBytes + rowBytes)
               ==> after[q] == before[q]
    ensures forall j :: 0 <= j < i ==> GatheredRow(staging, after, sources, outputOffset, rowBytes, j)
  {
    forall j | 0 <= j < i ensures GatheredRow(staging, after, sources, outputOffset, rowBytes, j) {
      var at := outputOffset + j * rowBytes;
      assert GatheredRow(staging, before, sources, outputOffset, rowBytes, j);
      RowFits(j, i, rowBytes);
      assert after[at..at + rowBytes] == before[at..at + rowBytes];
    }
  }

  /** What reading needs of a plan. */
  ghost predicate Readable(p: Plan, q: Request, c: Config) {
    && 0 < q.g.blockRows && 0 < q.g.rowBytes
    && AllWholePages(p.ranges) && StagingDisjoint(p.ranges)
    && (forall i :: 0 <= i < |p.ranges| ==> p.ranges[i].stagingOffset + p.ranges[i].size <= c.stagingCapacity)
    && |p.gather| == |q.ids|
    && (forall i :: 0 <= i < |q.ids| ==> 0 <= q.ids[i])
    && (forall i :: 0 <= i < |q.ids| ==>
          StagedAt(p.ranges, RowOffset(q.g, q.ids[i]), p.gather[i]) && p.gather[i] + q.g.rowBytes <= c.stagingCapacity)
  }

  lemma GoodPlanIsReadable(p: Plan, q: Request, c: Config)
    requires GoodPlan(p, q, c)
    ensures Readable(p, q, c)
  {
    PlanPassesReadChecks(p, q, c);
  }

  /** The refinement, whichever way the bytes were delivered: once every planned range is in
      staging and the rows are gathered, a contiguous row is the row of the file. */
  lemma GatheredRowsAreRows(file: seq<Byte>, staging: seq<Byte>, output: seq<Byte>, p: Plan, q: Request, c: Config,
                            i: nat, at: nat)
    requires Readable(p, q, c) && q.g.rowBytes <= 4096 && i < |q.ids| && at == q.outputOffset + i * q.g.rowBytes
    requires AllDelivered(file, staging, p.ranges)
    requires GatheredRow(staging, output, p.gather, q.outputOffset, q.g.rowBytes, i)
    requires RowContiguous(p, q, i)
    ensures RowReceived(output, at, file, q.g, q.ids[i])
  {
    IntactRowReceived(file, staging, output, p.ranges, RowOffset(q.g, q.ids[i]), p.gather[i], q.g.rowBytes, at);
  }

  lemma IntactRowReceived(file: seq<Byte>, staging: seq<Byte>, output: seq<Byte>, ranges: seq<Range>,
                          offset: nat, position: nat, rowBytes: nat, at: nat)
    requires AllWholePages(ranges) && AllDelivered(file, staging, ranges)
    requires 0 < rowBytes <= 4096 && StagedAt(ranges, offset, position)
    requires Contiguous(ranges, offset, rowBytes, position)
    requires at + rowBytes <= |output| && position + rowBytes <= |staging|
    requires output[at..at + rowBytes] == staging[position..position + rowBytes]
    ensures offset + rowBytes <= |file| && output[at..at + rowBytes] == file[offset..offset + rowBytes]
  {
    ContiguousRowIntact(file, staging, ranges, offset, position, rowBytes);
  }

  ghost predicate ContiguousRowsReceived(output: seq<Byte>, file: seq<Byte>, p: Plan, q: Request) {
    0 < q.g.blockRows && forall i :: 0 <= i < |q.ids| ==>
      i < |p.gather| && 0 <= q.ids[i] && (RowContiguous(p, q, i) ==>
        RowReceived(output, q.outputOffset + i * q.g.rowBytes, file, q.g, q.ids[i]))
  }

  ghost predicate OutsideRows(b: nat, q: Request) {
    !(q.outputOffset <= b < q.outputOffset + |q.ids| * q.g.rowBytes)
  }

  /** No range runs past the end of the file. */
  ghost predicate FileHolds(ranges: seq<Range>, fileSize: nat) {
    forall i :: 0 <= i < |ranges| ==> ranges[i].fileOffset + ranges[i].size <= fileSize
  }

  /** Fill the staging slot, then gather every row. */
  method FillAndGather(file: seq<Byte>, staging: array<Byte>, output: array<Byte>, p: Plan, q: Request, c: Config)
    returns (ok: bool)
    requires Readable(p, q, c) && staging != output && staging.Length == c.stagingCapacity
    requires q.outputOffset + |q.ids| * q.g.rowBytes <= output.Length
    modifies staging, output
    ensures !ok ==> output[..] == old(output[..])
    ensures ok <==> FileHolds(p.ranges, |file|)
    ensures ok && q.g.rowBytes <= 4096 ==> ContiguousRowsReceived(output[..], file, p, q)
    ensures forall b :: 0 <= b < output.Length && OutsideRows(b, q) ==> output[b] == old(output[b])
  {
    var filled := ReadRanges(file, staging, p.ranges);
    if filled.Err? { return false; }
    GatherRows(staging, output, p.gather, q.outputOffset, q.g.rowBytes);
    if q.g.rowBytes <= 4096 {
      RowsReceived(file, staging[..], output[..], p, q, c);
    }
    return true;
  }

  lemma RowsReceived(file: seq<Byte>, staging: seq<Byte>, output: seq<Byte>, p: Plan, q: Request, c: Config)
    requires Readable(p, q, c) && q.g.rowBytes <= 4096 && AllDelivered(file, staging, p.ranges)
    requires forall i :: 0 <= i < |p.gather| ==> GatheredRow(staging, output, p.gather, q.outputOffset, q.g.rowBytes, i)
    ensures ContiguousRowsReceived(output, file, p, q)
  {
    forall i: nat | i < |q.ids| && RowContiguous(p, q, i)
      ensures RowReceived(output, q.outputOffset + i * q.g.rowBytes, file, q.g, q.ids[i])
    {
      OneRowReceived(file, staging, output, p, q, c, i, q.outputOffset + i * q.g.rowBytes);
    }
  }

  lemma OneRowReceived(file: seq<Byte>, staging: seq<Byte>, output: seq<Byte>, p: Plan, q: Request, c: Config, i: nat, at: nat)
    requires Readable(p, q, c) && q.g.rowBytes <= 4096 && AllDelivered(file, staging, p.ranges)
    requires forall j :: 0 <= j < |p.gather| ==> GatheredRow(staging, output, p.gather, q.outputOffset, q.g.rowBytes, j)
    requires i < |q.ids| && i < |p.gather| && RowContiguous(p, q, i) && at == q.outputOffset + i * q.g.rowBytes
    ensures RowReceived(output, at, file, q.g, q.ids[i])
  {
    RowFits(i, |q.ids|, q.g.rowBytes);
    assert GatheredRow(staging, output, p.gather, q.outputOffset, q.g.rowBytes, i);
    GatheredRowsAreRows(file, staging, output, p, q, c, i, at);
  }

  // ---- slots ----

  class Slot {
    const staging: array<Byte>
    var output: array<Byte>
    var outputCapacity: nat
    var released: bool
    var consumerEventRecorded: bool
    var gatherEventRecorded: bool

    constructor (stagingCapacity: nat, output: array<Byte>)
      ensures this.output == output && outputCapacity == output.Length
      ensures staging.Length == stagingCapacity && fresh(staging)
      ensures released && !consumerEventRecorded && !gatherEventRecorded
    {
      staging := new Byte[stagingCapacity](_ => 0);
      this.output := output;
      outputCapacity := output.Length;
      released := true;
      consumerEventRecorded := false;
      gatherEventRecorded := false;
    }

    ghost predicate Valid(c: Config)
      reads this
    {
      && staging.Length == c.stagingCapacity
      && outputCapacity == output.Length
      && staging != output
    }

    /** What `read` answers, given the slot it finds. */
    ghost function ReadAnswer(p: Plan, q: Request, fileSize: nat, wasReleased: bool): Result<Plan, PlanError>
      reads this
    {
      if !wasReleased then Err(SlotStillOwned)
      else if q.outputOffset + |q.ids| * q.g.rowBytes > outputCapacity then Err(OutputCapacityExceeded)
      else if !FileHolds(p.ranges, fileSize) then Err(ShortRead)
      else Ok(p)
    }

    /** When a planned read is refused; the slot is looked at first, the file last. */
    lemma ReadAnswerIs(p: Plan, q: Request, fileSize: nat, wasReleased: bool)
      ensures var r, fits := ReadAnswer(p, q, fileSize, wasReleased), q.outputOffset + |q.ids| * q.g.rowBytes <= outputCapacity;
              && (r == Err(SlotStillOwned) <==> !wasReleased)
              && (r == Err(OutputCapacityExceeded) <==> wasReleased && !fits)
              && (r == Err(ShortRead) <==> wasReleased && fits && !FileHolds(p.ranges, fileSize))
              && (r.Ok? ==> r.value == p)
              && (r.Err? ==> r.error.SlotStillOwned? || r.error.OutputCapacityExceeded? || r.error.ShortRead?)
    {}

    /** `read` in mode `sync`. A slot that is still owned, or too small an output, is refused
        before anything is written; on success the consumer owns the slot. */
    method Read(file: seq<Byte>, p: Plan, q: Request, c: Config) returns (r: Result<Plan, PlanError>)
      requires Valid(c) && Readable(p, q, c) && q.outputBytes == |q.ids| * q.g.rowBytes
      modifies this, staging, output
      ensures Valid(c) && output == old(output) && outputCapacity == old(outputCapacity)
      ensures r == ReadAnswer(p, q, |file|, old(released))
      ensures r.Ok? ==> !released && gatherEventRecorded && !consumerEventRecorded
      ensures r.Ok? && q.g.rowBytes <= 4096 ==> ContiguousRowsReceived(output[..], file, p, q)
      ensures r.Ok? ==> forall b :: 0 <= b < output.Length && OutsideRows(b, q) ==> output[b] == old(output[b])
      ensures r.Err? ==> output[..] == old(output[..]) && released == old(released)
    {
      if !released { return Err(SlotStillOwned); }
      if q.outputOffset > outputCapacity || q.outputBytes > outputCapacity - q.outputOffset {
        return Err(OutputCapacityExceeded);
      }
      // Waiting for the recorded consumer or gather event clears both marks.
      consumerEventRecorded, gatherEventRecorded := false, false;
      released := false;
      var ok := FillAndGather(file, staging, output, p, q, c);
      if !ok {
        released := true;
        return Err(ShortRead);
      }
      gatherEventRecorded := true;
      return Ok(p);
    }

    /** Plan, then read. */
    method ReadIds(file: seq<Byte>, q: Request, c: Config) returns (r: Result<Plan, PlanError>)
      requires Valid(c) && ValidConfig(c) && ValidRequest(q)
      modifies this, staging, output
      ensures Valid(c) && output == old(output)
      ensures r == match PlanOf(q, c)
                   case Err(e) => Err(e)
                   case Ok(p) => ReadAnswer(p, q, |file|, old(released))
      ensures r.Ok? ==> !released && gatherEventRecorded && !consumerEventRecorded
      ensures r.Ok? && q.g.rowBytes <= 4096 ==> ContiguousRowsReceived(output[..], file, r.value, q)
      ensures r.Ok? ==> forall b :: 0 <= b < output.Length && OutsideRows(b, q) ==> output[b] == old(output[b])
      ensures r.Err? ==> output[..] == old(output[..]) && released == old(released)
    {
      var planned := PlanReadable(q, c);
      match planned {
        case Err(e) => r := Err(e);
        case Ok(plan) => r := Read(file, plan, q, c);
      }
    }

    /** `rebind_outputs`, one slot: wait for what is still recorded, then switch buffers. */
    method Rebind(output: array<Byte>)
      modifies this
      ensures this.output == output && outputCapacity == output.Length && released == old(released)
      ensures !consumerEventRecorded && !gatherEventRecorded
    {
      consumerEventRecorded, gatherEventRecorded := false, false;
      this.output := output;
      outputCapacity := output.Length;
    }

    /** The consumer gives the slot back and leaves its event behind. */
    method Release() returns (ok: bool)
      modifies this
      ensures ok == !old(released)
      ensures output == old(output) && outputCapacity == old(outputCapacity)
      ensures gatherEventRecorded == old(gatherEventRecorded)
      ensures released
      ensures consumerEventRecorded == (ok || old(consumerEventRecorded))
    {
      if released { return false; }
      consumerEventRecorded := true;
      released := true;
      return true;
    }
  }
}
