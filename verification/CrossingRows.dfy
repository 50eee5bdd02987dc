/** Rows that cross a page boundary, in the artifact as it is converted by default: 160-byte rows,
    512 to a block, blocks of exactly twenty pages one after the other.

    What the native planner does with them is computed here: where a range limit tears a row
    apart, and how many such rows the worker lanes can hold. */
module CrossingRows {
  import opened Pages
  import opened Spans
  import opened PagePlan
  import opened LanePacking
  import opened GatherPlan
  import opened NativeRead
  import EndToEnd

  function Dense(): Geometry { Geometry(0, 512, 81920, 160) }

  /** Row `id` of the first block starts on `page` and ends on the next one. */
  predicate CrossesAt(id: int, page: nat) {
    0 <= id < 512 && page * 4096 + 3936 < id * 160 < page * 4096 + 4096
  }

  lemma DenseRow(id: nat, page: nat)
    requires CrossesAt(id, page)
    ensures var g := Dense();
            RowOffset(g, id) == id * 160 <= MAX_U64 && RowFirstPage(g, id) == page && RowLastPage(g, id) == page + 1
  {
    SmallDiv(id, 512);
    DivUnique(page, 4096, id * 160 - page * 4096);
    DivUnique(page + 1, 4096, id * 160 + 159 - (page + 1) * 4096);
  }

  ghost predicate CrossingIds(ids: seq<int>, pages: seq<nat>) {
    |ids| == |pages| && forall i :: 0 <= i < |ids| ==> CrossesAt(ids[i], pages[i])
  }

  /** The page after each row's second page belongs to no row. */
  predicate FarApart(pages: seq<nat>) { forall i, j :: 0 <= i < j < |pages| ==> pages[i] + 2 < pages[j] }

  function RequestOf(ids: seq<int>, maxGap: nat, maxRangeBytes: nat, at: nat): Request {
    Request(ids, 512, Dense(), maxGap, maxRangeBytes, |ids| * 160, at)
  }

  // ---- their pages ----

  predicate Spread(pages: seq<nat>) { forall i, j :: 0 <= i < j < |pages| ==> pages[i] + 1 < pages[j] }

  function PairPages(pages: seq<nat>): seq<nat> {
    if pages == [] then []
    else PairPages(pages[..|pages| - 1]) + [pages[|pages| - 1]] + [pages[|pages| - 1] + 1]
  }

  lemma {:induction false} CollectedPairs(ids: seq<int>, pages: seq<nat>)
    requires CrossingIds(ids, pages)
    ensures CollectedPages(ids, 512, Dense()) == Ok(PairPages(pages))
  {
    if ids != [] {
      var n := |ids| - 1;
      CollectedPairs(ids[..n], pages[..n]);
      DenseRow(ids[n], pages[n]);
    }
  }

  lemma {:induction false} PairsIncrease(pages: seq<nat>)
    requires Spread(pages)
    ensures Increasing(PairPages(pages)) && |PairPages(pages)| == 2 * |pages|
    ensures pages != [] ==> forall p :: p in PairPages(pages) ==> p <= pages[|pages| - 1] + 1
  {
    if pages != [] {
      var n := |pages| - 1;
      PairsIncrease(pages[..n]);
      var front := PairPages(pages[..n]);
      assert n > 0 ==> pages[n - 1] + 1 < pages[n];
      forall k | 0 <= k < |front| ensures front[k] < pages[n] {
        assert front[k] in front;
      }
    }
  }

  lemma SortedPairs(pages: seq<nat>)
    requires Spread(pages)
    ensures SortedUnique(PairPages(pages)) == PairPages(pages)
  {
    PairsIncrease(pages);
    IncreasingSetIsUnique(SortedUnique(PairPages(pages)), PairPages(pages));
  }

  // ---- their ranges, when none is bridged ----

  function PairRanges(pages: seq<nat>): (r: seq<Range>)
    ensures |r| == |pages|
  {
    if pages == [] then []
    else
      var n := |pages| - 1;
      PairRanges(pages[..n]) + [Range(pages[n] * 4096, 8192, n * 8192)]
  }

  lemma {:induction false} PairRangeAt(pages: seq<nat>, i: nat)
    requires i < |pages|
    ensures PairRanges(pages)[i] == Range(pages[i] * 4096, 8192, i * 8192)
  {
    if i < |pages| - 1 {
      PairRangeAt(pages[..|pages| - 1], i);
    }
  }

  lemma {:induction false} PairTotal(pages: seq<nat>)
    ensures TotalSize(PairRanges(pages)) == |pages| * 8192
  {
    if pages != [] {
      var n := |pages| - 1;
      PairTotal(pages[..n]);
      assert PairRanges(pages)[..n] == PairRanges(pages[..n]);
    }
  }

  lemma RangePages(r: Range, page: nat, count: nat)
    requires r.fileOffset == page * 4096 && r.size == count * 4096
    ensures FirstPage(r) == page && LastPage(r) == page + count - 1
  {
    DivUnique(page, 4096, 0);
    DivUnique(count, 4096, 0);
  }

  /** Adding one more row's two pages opens a range and then grows it. */
  lemma OnePair(ranges: seq<Range>, total: nat, last: Range, page: nat, effMax: nat)
    requires total == TotalSize(ranges) && 8192 <= effMax
    requires ranges != [] ==> last == ranges[|ranges| - 1] && FirstPage(last) <= page && LastPage(last) + 1 < page
    ensures var started := ranges + [Range(page * 4096, 4096, total)];
            && NextRanges(ranges, page, 0, effMax) == started
            && FirstPage(started[|started| - 1]) <= page + 1
            && NextRanges(started, page + 1, 0, effMax) == ranges + [Range(page * 4096, 8192, total)]
  {
    var started := ranges + [Range(page * 4096, 4096, total)];
    RangePages(started[|ranges|], page, 1);
    assert started[|ranges| := Range(page * 4096, 8192, total)] == ranges + [Range(page * 4096, 8192, total)];
  }

  lemma TwoSteps(front: seq<nat>, page: nat, maxGap: nat, effMax: nat, ranges: seq<Range>)
    requires Increasing(front + [page] + [page + 1]) && Increasing(front) && ranges == MergedRanges(front, maxGap, effMax)
    ensures ranges != [] ==> FirstPage(ranges[|ranges| - 1]) <= page
    ensures var started := NextRanges(ranges, page, maxGap, effMax);
            && (started != [] ==> FirstPage(started[|started| - 1]) <= page + 1)
            && MergedRanges(front + [page] + [page + 1], maxGap, effMax) == NextRanges(started, page + 1, maxGap, effMax)
  {
    var one, two := front + [page], front + [page] + [page + 1];
    assert two[..|one|] == one && one[..|front|] == front;
    assert Increasing(one) by {
      forall i, j | 0 <= i < j < |one| ensures one[i] < one[j] {
        assert two[i] < two[j];
      }
    }
    assert front != [] ==> front[|front| - 1] < page by {
      if front != [] {
        assert two[|front| - 1] < two[|front|];
      }
    }
  }

  lemma LastPair(front: seq<nat>, page: nat)
    requires front != [] && front[|front| - 1] + 2 < page
    ensures var last := PairRanges(front)[|front| - 1];
            FirstPage(last) <= page && LastPage(last) + 1 < page
  {
    PairRangeAt(front, |front| - 1);
    RangePages(PairRanges(front)[|front| - 1], front[|front| - 1], 2);
  }

  lemma MergedNext(front: seq<nat>, page: nat, list: seq<nat>, ranges: seq<Range>, effMax: nat)
    requires 8192 <= effMax && (front != [] ==> front[|front| - 1] + 2 < page)
    requires Increasing(list) && Increasing(list + [page] + [page + 1])
    requires ranges == PairRanges(front) == MergedRanges(list, 0, effMax)
    ensures MergedRanges(list + [page] + [page + 1], 0, effMax) == ranges + [Range(page * 4096, 8192, |front| * 8192)]
  {
    PairTotal(front);
    TwoSteps(list, page, 0, effMax, ranges);
    if front != [] {
      LastPair(front, page);
      OnePair(ranges, |front| * 8192, ranges[|front| - 1], page, effMax);
    } else {
      OnePair(ranges, 0, Range(0, 0, 0), page, effMax);
    }
  }

  lemma {:induction false} MergedPairs(pages: seq<nat>, effMax: nat)
    requires FarApart(pages) && 8192 <= effMax
    ensures Increasing(PairPages(pages)) && MergedRanges(PairPages(pages), 0, effMax) == PairRanges(pages)
  {
    PairsIncrease(pages);
    if pages != [] {
      var front := pages[..|pages| - 1];
      MergedPairs(front, effMax);
      MoreMerged(pages, front, pages[|pages| - 1], effMax);
    }
  }

  lemma MoreMerged(pages: seq<nat>, front: seq<nat>, page: nat, effMax: nat)
    requires pages != [] && front == pages[..|pages| - 1] && page == pages[|pages| - 1] && FarApart(pages) && 8192 <= effMax
    requires Increasing(PairPages(front)) && MergedRanges(PairPages(front), 0, effMax) == PairRanges(front)
    requires Increasing(PairPages(pages))
    ensures MergedRanges(PairPages(pages), 0, effMax) == PairRanges(pages)
  {
    var list, ranges := PairPages(front), PairRanges(front);
    assert PairPages(pages) == list + [page] + [page + 1];
    MergedNext(front, page, list, ranges, effMax);
  }

  // ---- their plan ----

  lemma PairHolds(pages: seq<nat>, ranges: seq<Range>, i: nat)
    requires SameTransfers(PairRanges(pages), ranges) && i < |pages|
    ensures i < |ranges| && HoldsPage(ranges[i], pages[i]) && HoldsPage(ranges[i], pages[i] + 1)
  {
    PairRangeAt(pages, i);
    assert ranges[i].fileOffset == PairRanges(pages)[i].fileOffset && ranges[i].size == PairRanges(pages)[i].size;
    TwoPages(ranges[i], pages[i]);
  }

  lemma TwoPages(r: Range, page: nat)
    requires r.fileOffset == page * 4096 && r.size == 8192
    ensures HoldsPage(r, page) && HoldsPage(r, page + 1)
  {
    RangePages(r, page, 2);
  }

  /** Both pages of such a row share a range, so it is never torn. */
  lemma PairNeverTorn(ids: seq<int>, pages: seq<nat>, ranges: seq<Range>, i: nat)
    requires CrossingIds(ids, pages) && i < |ids| && SameTransfers(PairRanges(pages), ranges) && FileOrder(ranges)
    ensures NeverTorn(ranges, Dense(), ids[i])
  {
    DenseRow(ids[i], pages[i]);
    PairHolds(pages, ranges, i);
    forall p: nat | StagedAt(ranges, RowOffset(Dense(), ids[i]), p)
      ensures Contiguous(ranges, RowOffset(Dense(), ids[i]), 160, p)
    {
      SameRangeContiguous(ranges, RowOffset(Dense(), ids[i]), 160, p);
    }
  }

  predicate Roomy(c: Config, n: nat, maxRangeBytes: nat) {
    0 < n <= c.maxSpans && 8192 <= c.laneCapacity && (maxRangeBytes == 0 || 8192 <= maxRangeBytes)
  }

  predicate IsRequest(q: Request, ids: seq<int>, maxGap: nat) {
    q == RequestOf(ids, maxGap, q.maxRangeBytes, q.outputOffset)
  }

  /** The checks before any page is looked at. */
  ghost predicate Plannable(q: Request, c: Config, n: nat) {
    ValidConfig(c) && 0 < n <= c.maxSpans && 4096 <= MaxRange(q)
  }

  lemma RoomyLimit(q: Request, c: Config, n: nat)
    requires ValidConfig(c) && Roomy(c, n, q.maxRangeBytes)
    ensures 8192 <= Limit(q, c) && Plannable(q, c, n)
  {}

  /** The planner reaches its second half with the pages as they are. */
  lemma CrossingPages(ids: seq<int>, pages: seq<nat>, list: seq<nat>, q: Request, c: Config)
    requires Plannable(q, c, |ids|) && CrossingIds(ids, pages) && Spread(pages)
    requires IsRequest(q, ids, q.maxGap) && list == PairPages(pages)
    ensures Increasing(list) && ValidIds(ids, 512, Dense()) && PlanOf(q, c) == PlanOfPages(q, c, list)
  {
    CollectedPairs(ids, pages);
    SortedPairs(pages);
    PairsIncrease(pages);
    PlanFromPages(q, c, list, list);
  }

  lemma CrossingRanges(ids: seq<int>, pages: seq<nat>, list: seq<nat>, q: Request, c: Config)
    requires Plannable(q, c, |ids|) && CrossingIds(ids, pages) && Spread(pages)
    requires IsRequest(q, ids, q.maxGap) && list == PairPages(pages)
    requires Increasing(list) && ValidIds(ids, 512, Dense())
    ensures RangesFor(MergedRanges(list, q.maxGap, Limit(q, c)), list, q, c)
  {
    CollectedPairs(ids, pages);
    CollectedMeaning(ids, 512, Dense());
    SortedPairs(pages);
    MergedForRequest(q, c, list, list);
  }

  /** Without gaps, the plan of crossing rows far apart comes down to packing two-page ranges. */
  lemma CrossingPlan(ids: seq<int>, pages: seq<nat>, q: Request, c: Config)
    requires ValidConfig(c) && CrossingIds(ids, pages) && FarApart(pages) && Roomy(c, |ids|, q.maxRangeBytes)
    requires |ids| * 8192 <= c.stagingCapacity
    requires IsRequest(q, ids, 0)
    ensures PlanOf(q, c).Ok? <==> Packing(PairRanges(pages), c.lanes, c.laneCapacity).Ok?
    ensures PlanOf(q, c).Err? ==> PlanOf(q, c) == Err(LanesExceeded)
  {
    var list := PairPages(pages);
    RoomyLimit(q, c, |ids|);
    CrossingPages(ids, pages, list, q, c);
    CrossingRanges(ids, pages, list, q, c);
    MergedPairs(pages, Limit(q, c));
    PairTotal(pages);
    forall ranges, i | SameTransfers(PairRanges(pages), ranges) && FileOrder(ranges) && 0 <= i < |q.ids|
      ensures NeverTorn(ranges, q.g, q.ids[i])
    {
      PairNeverTorn(ids, pages, ranges, i);
    }
    UntornPlans(q, c, list, PairRanges(pages));
  }

  /** How many crossing rows far apart a chunk can hold: although each needs just the two pages of
      staging it is allowed, they are planned if and only if their two-page ranges fit lane by lane. */
  lemma CrossingChunkPlansIff(ids: seq<int>, pages: seq<nat>, maxRangeBytes: nat, at: nat, c: Config)
    requires ValidConfig(c) && CrossingIds(ids, pages) && FarApart(pages) && Roomy(c, |ids|, maxRangeBytes)
    requires |ids| * 8192 <= c.stagingCapacity
    ensures var q := RequestOf(ids, 0, maxRangeBytes, at);
            && (PlanOf(q, c).Ok? <==> |ids| <= c.lanes * (c.laneCapacity / 8192))
            && (PlanOf(q, c).Err? ==> PlanOf(q, c) == Err(LanesExceeded))
  {
    CrossingPlan(ids, pages, RequestOf(ids, 0, maxRangeBytes, at), c);
    forall i | 0 <= i < |pages| ensures PairRanges(pages)[i].size == 8192 {
      PairRangeAt(pages, i);
    }
    UniformPacksIff(PairRanges(pages), c.lanes, c.laneCapacity, 8192);
  }

  // ---- one step of the merge on concrete ranges ----

  lemma JoinNext(ranges: seq<Range>, last: Range, p: nat, count: nat, page: nat, maxGap: nat, effMax: nat)
    requires ranges != [] && last == ranges[|ranges| - 1] && last.fileOffset == p * 4096 && last.size == count * 4096
    requires p + count <= page <= p + count + maxGap && (page - p + 1) * 4096 <= effMax
    ensures FirstPage(last) <= page
    ensures NextRanges(ranges, page, maxGap, effMax)
            == ranges[|ranges| - 1 := last.(size := (page - p + 1) * 4096)]
  {
    RangePages(last, p, count);
  }

  lemma OpenNext(ranges: seq<Range>, last: Range, p: nat, count: nat, page: nat, total: nat, maxGap: nat, effMax: nat)
    requires ranges != [] && last == ranges[|ranges| - 1] && last.fileOffset == p * 4096 && last.size == count * 4096
    requires p + count <= page && total == TotalSize(ranges)
    requires page > p + count + maxGap || (page - p + 1) * 4096 > effMax
    ensures FirstPage(last) <= page
    ensures NextRanges(ranges, page, maxGap, effMax) == ranges + [Range(page * 4096, 4096, total)]
  {
    RangePages(last, p, count);
  }

  lemma OneRange(r: Range)
    ensures TotalSize([r]) == r.size
  {
    assert [r][..0] == [];
  }

  lemma TwoRanges(a: Range, b: Range)
    ensures TotalSize([a, b]) == a.size + b.size
  {
    OneRange(a);
    assert [a, b][..1] == [a];
  }

  // ---- a limit that tears a row apart ----

  /** One crossing row, with ranges at most one page long. */
  function SplitRequest(id: nat): Request { RequestOf([id], 0, 4096, 0) }

  function SplitConfig(): (c: Config)
    ensures ValidConfig(c)
  {
    Config(2, 8192, 16384, 16)
  }

  function SplitMerged(page: nat): seq<Range> { [Range(page * 4096, 4096, 0), Range((page + 1) * 4096, 4096, 4096)] }

  function SplitRanges(page: nat): seq<Range> { [Range(page * 4096, 4096, 0), Range((page + 1) * 4096, 4096, 8192)] }

  function SplitPlan(id: nat, page: nat): Plan
    requires CrossesAt(id, page)
  {
    Plan([page, page + 1], SplitRanges(page), [4096, 4096], [id * 160 - page * 4096])
  }

  lemma SplitIsMerged(page: nat)
    ensures Increasing([page, page + 1]) && MergedRanges([page, page + 1], 0, 4096) == SplitMerged(page)
  {
    var none: seq<nat> := [];
    var first := Range(page * 4096, 4096, 0);
    assert none + [page] + [page + 1] == [page, page + 1];
    TwoSteps([], page, 0, 4096, []);
    assert NextRanges([], page, 0, 4096) == [first];
    OneRange(first);
    OpenNext([first], first, page, 1, page + 1, 4096, 0, 4096);
  }

  lemma SplitIsPacked(page: nat)
    ensures Packing(SplitMerged(page), 2, 8192) == Ok((SplitRanges(page), [4096, 4096]))
  {
    var m := SplitMerged(page);
    SplitOrder(m);
    assert seq(2, _ => 0) == [0, 0];
    SplitFirst(m, page);
    SplitSecond(m, page);
    var order: seq<nat> := [0, 1];
    assert PlacedTo(m, order, 2, 8192, 0) == Ok((m, [0, 0]));
    assert PlacedTo(m, order, 2, 8192, 1) == Ok((m, [4096, 0]));
    assert PlacedTo(m, order, 2, 8192, 2) == PlacedNext(m, m, [4096, 0], order[1], 8192);
  }

  lemma SplitOrder(m: seq<Range>)
    requires |m| == 2 && !Before(m[1], m[0])
    ensures RangeOrder(m, 2) == [0, 1]
  {
    assert RangeOrder(m, 0) == [] && InsertIndex(m, 0, []) == [0] && InsertIndex(m, 1, []) == [1];
    assert RangeOrder(m, 1) == [0] && [0][1..] == [];
    assert InsertIndex(m, 1, [0]) == [0] + [1];
  }

  lemma SplitFirst(m: seq<Range>, page: nat)
    requires m == SplitMerged(page)
    ensures PlacedNext(m, m, [0, 0], 0, 8192) == Ok((m, [4096, 0]))
  {
    assert BestLane([0, 0], 4096, 8192, 1) == 0;
    assert BestLane([0, 0], 4096, 8192, 2) == 0;
    assert m[0 := m[0].(stagingOffset := 0)] == m && [0, 0][0 := 4096] == [4096, 0];
  }

  lemma SplitSecond(m: seq<Range>, page: nat)
    requires m == SplitMerged(page)
    ensures PlacedNext(m, m, [4096, 0], 1, 8192) == Ok((SplitRanges(page), [4096, 4096]))
  {
    assert BestLane([4096, 0], 4096, 8192, 1) == 0;
    assert BestLane([4096, 0], 4096, 8192, 2) == 1;
    assert m[1 := m[1].(stagingOffset := 8192)] == SplitRanges(page) && [4096, 0][1 := 4096] == [4096, 4096];
  }

  lemma SplitIsGathered(id: nat, page: nat)
    requires CrossesAt(id, page)
    ensures GatheredTo([id], Dense(), SplitRanges(page), 16384, 1) == Ok([id * 160 - page * 4096])
  {
    var r := SplitRanges(page);
    DenseRow(id, page);
    RangePages(r[0], page, 1);
    RangePages(r[1], page + 1, 1);
    UpperIndexIs(r, page, 1);
    DivUnique(page, 4096, id * 160 - page * 4096);
    assert GatherAt(r, id * 160, 160, 16384) == Ok(id * 160 - page * 4096);
    assert GatheredTo([id], Dense(), r, 16384, 0) == Ok([]) && [id][0] == id;
    var none: seq<nat> := [];
    assert none + [id * 160 - page * 4096] == [id * 160 - page * 4096];
  }

  /** The planner answers this request with a plan whose only row lies in two ranges, in two lanes. */
  lemma SplitPlanIsReturned(id: nat, page: nat)
    requires CrossesAt(id, page)
    ensures PlanOf(SplitRequest(id), SplitConfig()) == Ok(SplitPlan(id, page))
  {
    var q, c, list := SplitRequest(id), SplitConfig(), [page, page + 1];
    assert PairPages([page]) == list by {
      assert [page][..0] == [];
    }
    CrossingPages([id], [page], list, q, c);
    SplitIsMerged(page);
    TwoRanges(SplitMerged(page)[0], SplitMerged(page)[1]);
    SplitIsPacked(page);
    SplitIsGathered(id, page);
  }

  lemma SplitNotContiguous(id: nat, page: nat)
    requires CrossesAt(id, page)
    ensures AllWholePages(SplitRanges(page)) && !Contiguous(SplitRanges(page), id * 160, 160, id * 160 - page * 4096)
  {
    var ranges, next := SplitRanges(page), (page + 1) * 4096;
    RangePages(ranges[0], page, 1);
    RangePages(ranges[1], page + 1, 1);
    DivUnique(page, 4096, id * 160 - page * 4096);
    DivUnique(page + 1, 4096, 0);
    forall position: nat | StagedAt(ranges, next, position) ensures position == 8192 {
      var i :| 0 <= i < |ranges| && HoldsPage(ranges[i], next / 4096)
               && position == ranges[i].stagingOffset + (next - ranges[i].fileOffset);
      assert i == 1;
    }
  }

  /** A failing input: the planner's own answer, a file and a stale staging slot, with every range
      delivered; whatever output the gather leaves, it does not hold the row of the file. */
  lemma SplitRowIsWrong(id: nat, page: nat) returns (plan: Plan, file: seq<Byte>, staging: seq<Byte>)
    requires CrossesAt(id, page)
    ensures PlanOf(SplitRequest(id), SplitConfig()) == Ok(plan) && AllDelivered(file, staging, plan.ranges)
    ensures forall output: seq<Byte> :: EndToEnd.Gathered(staging, output, plan, SplitRequest(id)) ==>
              !RowReceived(output, 0, file, Dense(), id)
  {
    SplitPlanIsReturned(id, page);
    plan := SplitPlan(id, page);
    SplitNotContiguous(id, page);
    file, staging := SplitRowBreaks(SplitRanges(page), (page + 2) * 4096, 16384, id * 160, id * 160 - page * 4096, 160);
    forall output: seq<Byte> | EndToEnd.Gathered(staging, output, plan, SplitRequest(id))
      ensures !RowReceived(output, 0, file, Dense(), id)
    {
      SplitRowGathered(id, page, staging, output, file);
    }
  }

  lemma SplitRowGathered(id: nat, page: nat, staging: seq<Byte>, output: seq<Byte>, file: seq<Byte>)
    requires CrossesAt(id, page) && EndToEnd.Gathered(staging, output, SplitPlan(id, page), SplitRequest(id))
    requires !RowIntact(file, staging, id * 160, id * 160 - page * 4096, 160)
    ensures !RowReceived(output, 0, file, Dense(), id)
  {
    DenseRow(id, page);
    assert GatheredRow(staging, output, SplitPlan(id, page).gather, 0, 160, 0);
  }

  /** Row 25 crosses from page 0 to page 1; 102 and 179 from pages 3 and 6. */
  lemma ThreeCrossingRows()
    ensures CrossesAt(25, 0) && CrossesAt(102, 3) && CrossesAt(179, 6)
    ensures CrossingIds([25, 102, 179], [0, 3, 6]) && FarApart([0, 3, 6])
  {}

  // ---- chunks that fit by count and are refused ----

  /** Three rows, six pages, a slot of six pages: two lanes of three pages hold only two of the
      three two-page ranges. */
  lemma LanesRefuseThreeRows(maxSpans: nat, maxRangeBytes: nat, at: nat)
    requires 3 <= maxSpans && (maxRangeBytes == 0 || 8192 <= maxRangeBytes)
    ensures ValidConfig(Config(2, 12288, 24576, maxSpans))
    ensures PlanOf(RequestOf([25, 102, 179], 0, maxRangeBytes, at), Config(2, 12288, 24576, maxSpans)) == Err(LanesExceeded)
  {
    ThreeCrossingRows();
    CrossingChunkPlansIff([25, 102, 179], [0, 3, 6], maxRangeBytes, at, Config(2, 12288, 24576, maxSpans));
    DivUnique(1, 8192, 4096);
  }

  lemma BridgedMerge(p: nat)
    ensures var list := [p, p + 1, p + 3, p + 4, p + 6, p + 7];
            && Increasing(list)
            && MergedRanges(list, 1, 24576) == [Range(p * 4096, 20480, 0), Range((p + 6) * 4096, 8192, 20480)]
  {
    var none: seq<nat> := [];
    var one, two, three := [p, p + 1], [p, p + 1, p + 3, p + 4], [p, p + 1, p + 3, p + 4, p + 6, p + 7];
    assert none + [p] + [p + 1] == one && one + [p + 3] + [p + 4] == two && two + [p + 6] + [p + 7] == three;
    BridgedFirst(p, one);
    BridgedSecond(p, one, two);
    BridgedThird(p, two, three);
  }

  lemma BridgedFirst(p: nat, one: seq<nat>)
    requires one == [p, p + 1]
    ensures Increasing(one) && MergedRanges(one, 1, 24576) == [Range(p * 4096, 8192, 0)]
  {
    var none: seq<nat> := [];
    var first := Range(p * 4096, 4096, 0);
    assert none + [p] + [p + 1] == one;
    TwoSteps([], p, 1, 24576, []);
    assert NextRanges([], p, 1, 24576) == [first];
    JoinNext([first], first, p, 1, p + 1, 1, 24576);
  }

  lemma BridgedSecond(p: nat, one: seq<nat>, two: seq<nat>)
    requires two == one + [p + 3] + [p + 4] && Increasing(one) && Increasing(two)
    requires MergedRanges(one, 1, 24576) == [Range(p * 4096, 8192, 0)]
    ensures MergedRanges(two, 1, 24576) == [Range(p * 4096, 20480, 0)]
  {
    var r2, r4 := Range(p * 4096, 8192, 0), Range(p * 4096, 16384, 0);
    TwoSteps(one, p + 3, 1, 24576, [r2]);
    JoinNext([r2], r2, p, 2, p + 3, 1, 24576);
    JoinNext([r4], r4, p, 4, p + 4, 1, 24576);
  }

  lemma BridgedThird(p: nat, two: seq<nat>, three: seq<nat>)
    requires three == two + [p + 6] + [p + 7] && Increasing(two) && Increasing(three)
    requires MergedRanges(two, 1, 24576) == [Range(p * 4096, 20480, 0)]
    ensures MergedRanges(three, 1, 24576) == [Range(p * 4096, 20480, 0), Range((p + 6) * 4096, 8192, 20480)]
  {
    var r5, s1 := Range(p * 4096, 20480, 0), Range((p + 6) * 4096, 4096, 20480);
    TwoSteps(two, p + 6, 1, 24576, [r5]);
    OneRange(r5);
    OpenNext([r5], r5, p, 5, p + 6, 20480, 1, 24576);
    JoinNext([r5, s1], s1, p + 6, 1, p + 7, 1, 24576);
  }

  /** With gaps of one page bridged, the same three rows need seven pages of a slot of six. */
  lemma BridgingOverflowsStaging(maxSpans: nat, maxRangeBytes: nat, at: nat)
    requires 3 <= maxSpans && (maxRangeBytes == 0 || 24576 <= maxRangeBytes)
    ensures ValidConfig(Config(1, 24576, 24576, maxSpans))
    ensures PlanOf(RequestOf([25, 102, 179], 1, maxRangeBytes, at), Config(1, 24576, 24576, maxSpans)) == Err(StagingExceeded)
  {
    var q, c := RequestOf([25, 102, 179], 1, maxRangeBytes, at), Config(1, 24576, 24576, maxSpans);
    ThreeCrossingRows();
    ThreePairs(0);
    CrossingPages([25, 102, 179], [0, 3, 6], [0, 1, 3, 4, 6, 7], q, c);
    BridgedMerge(0);
    TwoRanges(Range(0, 20480, 0), Range(24576, 8192, 20480));
  }

  lemma ThreePairs(p: nat)
    ensures PairPages([p, p + 3, p + 6]) == [p, p + 1, p + 3, p + 4, p + 6, p + 7]
  {
    assert [p][..0] == [] && [p, p + 3][..1] == [p] && [p, p + 3, p + 6][..2] == [p, p + 3];
    assert PairPages([p]) == [p, p + 1];
    assert PairPages([p, p + 3]) == [p, p + 1, p + 3, p + 4];
  }
}
