/** The page planner of `PersistentState::read_ids`: row ids to sorted unique pages to
    merged ranges. Lanes and gather offsets follow in LanePacking and NativeRead. */
module PagePlan {
  import opened Pages
  import opened Spans

  const MAX_U64: nat := 0xFFFF_FFFF_FFFF_FFFF

  datatype PlanError =
    | RowOffsetOverflow
    | RowIdOutOfBounds
    | NoRows
    | RowCapacityExceeded
    | InvalidGeometry
    | OutputByteMismatch
    | RangeSizeTooSmall
    | StagingExceeded
    | LanesExceeded
    | NoStagingRange
    | PageNotCovered
    | GatherSpanExceedsStaging
    | SlotStillOwned
    | OutputCapacityExceeded
    | ShortRead

  // ---- row addresses ----

  /** `base + count * unit`, tested for overflow before it is formed. */
  function CheckedMulAdd(base: nat, count: nat, unit: nat): (r: Result<nat, PlanError>)
    requires 0 < unit && base <= MAX_U64
    ensures r == if base + count * unit <= MAX_U64 then Ok(base + count * unit) else Err(RowOffsetOverflow)
  {
    QuotientBound(MAX_U64 - base, unit, count);
    if count > (MAX_U64 - base) / unit then Err(RowOffsetOverflow) else Ok(base + count * unit)
  }

  /** The checked address of a row: the block offset, then the row within the block. */
  function AbsoluteOffset(g: Geometry, id: nat): (r: Result<nat, PlanError>)
    requires 0 < g.blockRows && 0 < g.rowBytes && 0 < g.stride && g.base <= MAX_U64
    ensures r == if RowOffset(g, id) <= MAX_U64 then Ok(RowOffset(g, id)) else Err(RowOffsetOverflow)
  {
    match CheckedMulAdd(g.base, id / g.blockRows, g.stride)
    case Err(e) => Err(e)
    case Ok(blockOffset) => CheckedMulAdd(blockOffset, id % g.blockRows, g.rowBytes)
  }

  lemma QuotientBound(m: nat, d: nat, x: nat)
    requires 0 < d
    ensures x > m / d <==> x * d > m
  {
    DivBounds(m, d);
    if x > m / d {
      MulMono(m / d + 1, x, d);
    } else {
      MulMono(x, m / d, d);
    }
  }

  // ---- pages of a request ----

  /** Row `r` of block `block` follows the earlier rows of its block, and blocks are a stride apart. */
  lemma AddressOf(g: Geometry, block: nat, r: nat)
    requires r < g.blockRows
    ensures RowOffset(g, block * g.blockRows + r) == g.base + block * g.stride + r * g.rowBytes
  {
    DivUnique(block, g.blockRows, r);
  }

  /** Byte `b` of the file lies on this page. */
  predicate OnPage(b: nat, page: nat) { page * 4096 <= b < page * 4096 + 4096 }

  ghost predicate EndOfSomeRow(page: nat, ids: seq<int>, g: Geometry)
    requires 0 < g.blockRows && 0 < g.rowBytes && forall i :: 0 <= i < |ids| ==> 0 <= ids[i]
  {
    exists i :: 0 <= i < |ids| && (OnPage(RowOffset(g, ids[i]), page) || OnPage(RowOffset(g, ids[i]) + g.rowBytes - 1, page))
  }

  /** The planned pages are those with the first or the last byte of a requested row. */
  lemma PagesHoldRowEnds(pages: seq<nat>, ids: seq<int>, g: Geometry, page: nat)
    requires 0 < g.blockRows && 0 < g.rowBytes && forall i :: 0 <= i < |ids| ==> 0 <= ids[i]
    requires PagesOfRows(pages, ids, g)
    ensures page in pages <==> EndOfSomeRow(page, ids, g)
  {
    if page in pages {
      assert PageOfSomeRow(page, ids, g);
      var i :| 0 <= i < |ids| && (page == RowFirstPage(g, ids[i]) || page == RowLastPage(g, ids[i]));
      RowEndsOnPage(g, ids[i], page);
    }
    if EndOfSomeRow(page, ids, g) {
      var i :| 0 <= i < |ids| && (OnPage(RowOffset(g, ids[i]), page) || OnPage(RowOffset(g, ids[i]) + g.rowBytes - 1, page));
      RowEndsOnPage(g, ids[i], page);
    }
  }

  lemma OnPageIff(b: nat, page: nat)
    ensures OnPage(b, page) <==> page == b / 4096
  {}

  lemma RowEndsOnPage(g: Geometry, id: nat, page: nat)
    requires 0 < g.blockRows && 0 < g.rowBytes
    ensures OnPage(RowOffset(g, id), page) <==> page == RowFirstPage(g, id)
    ensures OnPage(RowOffset(g, id) + g.rowBytes - 1, page) <==> page == RowLastPage(g, id)
  {
    OnPageIff(RowOffset(g, id), page);
    OnPageIff(RowOffset(g, id) + g.rowBytes - 1, page);
  }

  predicate ValidIds(ids: seq<int>, rowCount: nat, g: Geometry)
    requires 0 < g.blockRows
  {
    forall i :: 0 <= i < |ids| ==> 0 <= ids[i] < rowCount && RowOffset(g, ids[i]) <= MAX_U64
  }

  ghost predicate PageOfSomeRow(p: nat, ids: seq<int>, g: Geometry)
    requires 0 < g.blockRows && 0 < g.rowBytes
    requires forall i :: 0 <= i < |ids| ==> 0 <= ids[i]
  {
    exists i :: 0 <= i < |ids| && (p == RowFirstPage(g, ids[i]) || p == RowLastPage(g, ids[i]))
  }

  /** Exactly the first and last pages of the rows. */
  ghost predicate PagesOfRows(pages: seq<nat>, ids: seq<int>, g: Geometry)
    requires 0 < g.blockRows && 0 < g.rowBytes
    requires forall i :: 0 <= i < |ids| ==> 0 <= ids[i]
  {
    && (forall i :: 0 <= i < |ids| ==> RowFirstPage(g, ids[i]) in pages && RowLastPage(g, ids[i]) in pages)
    && (forall p {:trigger PageOfSomeRow(p, ids, g)} :: p in pages ==> PageOfSomeRow(p, ids, g))
  }

  /** The first and the last page of every row, in request order; a bad id stops the plan. */
  function CollectedPages(ids: seq<int>, rowCount: nat, g: Geometry): Result<seq<nat>, PlanError>
    requires 0 < g.blockRows && 0 < g.rowBytes && 0 < g.stride && g.base <= MAX_U64
  {
    if ids == [] then Ok([])
    else
      match CollectedPages(ids[..|ids| - 1], rowCount, g)
      case Err(e) => Err(e)
      case Ok(pages) => WithRow(pages, ids[|ids| - 1], rowCount, g)
  }

  function WithRow(pages: seq<nat>, id: int, rowCount: nat, g: Geometry): Result<seq<nat>, PlanError>
    requires 0 < g.blockRows && 0 < g.rowBytes && 0 < g.stride && g.base <= MAX_U64
  {
    if id < 0 || id >= rowCount then Err(RowIdOutOfBounds)
    else
      match AbsoluteOffset(g, id)
      case Err(e) => Err(e)
      case Ok(offset) =>
        var first, last := offset / 4096, (offset + g.rowBytes - 1) / 4096;
        Ok(pages + [first] + if last != first then [last] else [])
  }

  lemma {:induction false} CollectedMeaning(ids: seq<int>, rowCount: nat, g: Geometry)
    requires 0 < g.blockRows && 0 < g.rowBytes && 0 < g.stride && g.base <= MAX_U64
    ensures var r := CollectedPages(ids, rowCount, g);
            && (r.Ok? <==> ValidIds(ids, rowCount, g))
            && (r.Ok? ==> PagesOfRows(r.value, ids, g) && |r.value| <= 2 * |ids|)
  {
    if ids != [] {
      var n := |ids| - 1;
      CollectedMeaning(ids[..n], rowCount, g);
      assert ids == ids[..n] + [ids[n]];
      if CollectedPages(ids[..n], rowCount, g).Ok? && CollectedPages(ids, rowCount, g).Ok? {
        ExtendPages(CollectedPages(ids[..n], rowCount, g).value, CollectedPages(ids, rowCount, g).value, ids[..n], ids[n], g);
      }
    }
  }

  /** The first bad id is `ids[i]`: it names no row, or a row whose address does not fit. */
  ghost predicate FirstBad(ids: seq<int>, i: nat, rowCount: nat, g: Geometry, e: PlanError)
    requires 0 < g.blockRows
  {
    && i < |ids| && ValidIds(ids[..i], rowCount, g)
    && match e
       case RowIdOutOfBounds => !(0 <= ids[i] < rowCount)
       case RowOffsetOverflow => 0 <= ids[i] < rowCount && RowOffset(g, ids[i]) > MAX_U64
       case _ => false
  }

  lemma {:induction false} CollectedError(ids: seq<int>, rowCount: nat, g: Geometry)
    requires 0 < g.blockRows && 0 < g.rowBytes && 0 < g.stride && g.base <= MAX_U64
    requires CollectedPages(ids, rowCount, g).Err?
    ensures exists i: nat :: FirstBad(ids, i, rowCount, g, CollectedPages(ids, rowCount, g).error)
  {
    var n := |ids| - 1;
    if CollectedPages(ids[..n], rowCount, g).Err? {
      CollectedError(ids[..n], rowCount, g);
      var i: nat :| FirstBad(ids[..n], i, rowCount, g, CollectedPages(ids[..n], rowCount, g).error);
      assert ids[..n][..i] == ids[..i] && ids[..n][i] == ids[i];
      assert FirstBad(ids, i, rowCount, g, CollectedPages(ids, rowCount, g).error);
    } else {
      CollectedMeaning(ids[..n], rowCount, g);
      assert FirstBad(ids, n, rowCount, g, CollectedPages(ids, rowCount, g).error);
    }
  }

  lemma {:induction false} CollectedStops(ids: seq<int>, k: nat, rowCount: nat, g: Geometry)
    requires 0 < g.blockRows && 0 < g.rowBytes && 0 < g.stride && g.base <= MAX_U64
    requires k <= |ids| && CollectedPages(ids[..k], rowCount, g).Err?
    ensures CollectedPages(ids, rowCount, g) == CollectedPages(ids[..k], rowCount, g)
    decreases |ids|
  {
    if k < |ids| {
      assert ids[..|ids| - 1][..k] == ids[..k];
      CollectedStops(ids[..|ids| - 1], k, rowCount, g);
    } else {
      assert ids[..k] == ids;
    }
  }

  lemma CollectedStep(ids: seq<int>, index: nat, pages: seq<nat>, rowCount: nat, g: Geometry)
    requires 0 < g.blockRows && 0 < g.rowBytes && 0 < g.stride && g.base <= MAX_U64
    requires index < |ids| && CollectedPages(ids[..index], rowCount, g) == Ok(pages)
    ensures CollectedPages(ids[..index + 1], rowCount, g) == WithRow(pages, ids[index], rowCount, g)
    ensures WithRow(pages, ids[index], rowCount, g).Err? ==>
              CollectedPages(ids, rowCount, g) == WithRow(pages, ids[index], rowCount, g)
  {
    assert ids[..index + 1][..index] == ids[..index];
    if WithRow(pages, ids[index], rowCount, g).Err? {
      CollectedStops(ids, index + 1, rowCount, g);
    }
  }

  method CollectPages(ids: seq<int>, rowCount: nat, g: Geometry) returns (r: Result<seq<nat>, PlanError>)
    requires 0 < g.blockRows && 0 < g.rowBytes && 0 < g.stride && g.base <= MAX_U64
    ensures r == CollectedPages(ids, rowCount, g)
    ensures r.Ok? <==> ValidIds(ids, rowCount, g)
    ensures r.Ok? ==> PagesOfRows(r.value, ids, g) && |r.value| <= 2 * |ids|
    ensures r.Err? ==> exists i: nat :: FirstBad(ids, i, rowCount, g, r.error)
  {
    CollectedMeaning(ids, rowCount, g);
    if CollectedPages(ids, rowCount, g).Err? {
      CollectedError(ids, rowCount, g);
    }
    var pages: seq<nat> := [];
    var index := 0;
    while index < |ids|
      invariant 0 <= index <= |ids|
      invariant CollectedPages(ids[..index], rowCount, g) == Ok(pages)
    {
      CollectedStep(ids, index, pages, rowCount, g);
      var grown := AddRow(pages, ids[index], rowCount, g);
      match grown {
        case Err(e) => return Err(e);
        case Ok(more) => pages := more;
      }
      index := index + 1;
    }
    assert ids[..index] == ids;
    return Ok(pages);
  }

  /** The loop body. */
  method AddRow(pages: seq<nat>, id: int, rowCount: nat, g: Geometry) returns (r: Result<seq<nat>, PlanError>)
    requires 0 < g.blockRows && 0 < g.rowBytes && 0 < g.stride && g.base <= MAX_U64
    ensures r == WithRow(pages, id, rowCount, g)
  {
    if id < 0 || id >= rowCount {
      return Err(RowIdOutOfBounds);
    }
    var offset := AbsoluteOffset(g, id);
    match offset {
      case Err(e) => return Err(e);
      case Ok(o) => {
        var first, last := o / 4096, (o + g.rowBytes - 1) / 4096;
        var grown := pages + [first];
        assert grown + [] == grown;
        if last != first {
          grown := grown + [last];
        }
        return Ok(grown);
      }
    }
  }

  lemma ExtendPages(before: seq<nat>, after: seq<nat>, ids: seq<int>, id: nat, g: Geometry)
    requires 0 < g.blockRows && 0 < g.rowBytes
    requires forall i :: 0 <= i < |ids| ==> 0 <= ids[i]
    requires PagesOfRows(before, ids, g)
    requires after == before + [RowFirstPage(g, id)]
             || after == before + [RowFirstPage(g, id)] + [RowLastPage(g, id)]
    requires RowFirstPage(g, id) != RowLastPage(g, id) ==> |after| == |before| + 2
    ensures PagesOfRows(after, ids + [id], g)
  {
    var all := ids + [id];
    assert all[|ids|] == id;
    forall p | p in after ensures PageOfSomeRow(p, all, g) {
      if p in before {
        assert PageOfSomeRow(p, ids, g);
        var i :| 0 <= i < |ids| && (p == RowFirstPage(g, ids[i]) || p == RowLastPage(g, ids[i]));
        assert all[i] == ids[i];
      } else {
        assert p == RowFirstPage(g, all[|ids|]) || p == RowLastPage(g, all[|ids|]);
      }
    }
    assert after[|before|] == RowFirstPage(g, id);
    assert RowFirstPage(g, id) in after && RowLastPage(g, id) in after;
    forall i | 0 <= i < |all|
      ensures RowFirstPage(g, all[i]) in after && RowLastPage(g, all[i]) in after
    {
      if i < |ids| {
        assert all[i] == ids[i];
        assert forall p :: p in before ==> p in after;
      }
    }
  }

  // ---- merging pages into ranges ----

  function SpanOf(r: Range): (s: Span)
    requires WholePages(r)
    ensures s.first <= s.last && s.first * 4096 == r.fileOffset && (s.last - s.first + 1) * 4096 == r.size
  {
    Span(r.fileOffset / 4096, r.fileOffset / 4096 + r.size / 4096 - 1)
  }

  ghost predicate AllWholePages(ranges: seq<Range>) {
    forall i :: 0 <= i < |ranges| ==> WholePages(ranges[i])
  }

  ghost function SpansOf(ranges: seq<Range>): (s: seq<Span>)
    requires AllWholePages(ranges)
    ensures |s| == |ranges|
    ensures forall i :: 0 <= i < |s| ==> s[i] == SpanOf(ranges[i])
  {
    seq(|ranges|, i requires 0 <= i < |ranges| => SpanOf(ranges[i]))
  }

  /** The provisional placement before lanes are chosen: back to back. */
  ghost predicate BackToBack(ranges: seq<Range>) {
    forall i :: 0 <= i < |ranges| ==> ranges[i].stagingOffset == TotalSize(ranges[..i])
  }

  /** The state of the merge after the pages `done`. */
  ghost predicate MergeState(ranges: seq<Range>, cursor: nat, done: seq<nat>, maxGap: nat, maxPages: nat) {
    && AllWholePages(ranges)
    && Merged(SpansOf(ranges), done, maxGap, maxPages)
    && EndsAt(SpansOf(ranges), done)
    && BackToBack(ranges)
    && cursor == TotalSize(ranges)
  }

  lemma PrefixIncreases(pages: seq<nat>, k: nat)
    requires Increasing(pages) && k < |pages|
    ensures pages[..k + 1] == pages[..k] + [pages[k]] && Increasing(pages[..k] + [pages[k]])
  {
    assert pages[..k + 1] == pages[..k] + [pages[k]];
  }

  /** One step of the merge: extend the last range over `page`, or open a new range for it. */
  function NextRanges(ranges: seq<Range>, page: nat, maxGap: nat, effMax: nat): seq<Range>
    requires ranges != [] ==> FirstPage(ranges[|ranges| - 1]) <= page
  {
    if ranges != [] && Joins(ranges[|ranges| - 1], page, maxGap, effMax) then
      var previous := ranges[|ranges| - 1];
      ranges[|ranges| - 1 := previous.(size := (page - FirstPage(previous) + 1) * 4096)]
    else ranges + [Range(page * 4096, 4096, TotalSize(ranges))]
  }

  predicate Joins(previous: Range, page: nat, maxGap: nat, effMax: nat) {
    page - LastPage(previous) - 1 <= maxGap && (page - FirstPage(previous) + 1) * 4096 <= effMax
  }

  /** The ranges of the planned pages. */
  function MergedRanges(pages: seq<nat>, maxGap: nat, effMax: nat): (ranges: seq<Range>)
    requires Increasing(pages)
    ensures (ranges == []) == (pages == [])
    ensures ranges != [] ==> FirstPage(ranges[|ranges| - 1]) <= pages[|pages| - 1]
  {
    if pages == [] then []
    else
      var k := |pages| - 1;
      Ascending(pages, if k == 0 then 0 else k - 1, k);
      NextRanges(MergedRanges(pages[..k], maxGap, effMax), pages[k], maxGap, effMax)
  }

  lemma {:induction false} NextState(ranges: seq<Range>, done: seq<nat>, page: nat, maxGap: nat, effMax: nat)
    requires Increasing(done + [page]) && 4096 <= effMax
    requires MergeState(ranges, TotalSize(ranges), done, maxGap, effMax / 4096)
    requires ranges != [] ==> FirstPage(ranges[|ranges| - 1]) <= page
    ensures var after := NextRanges(ranges, page, maxGap, effMax);
            MergeState(after, TotalSize(after), done + [page], maxGap, effMax / 4096)
  {
    var after := NextRanges(ranges, page, maxGap, effMax);
    if ranges != [] {
      var previous := ranges[|ranges| - 1];
      LastPagePlanned(ranges, TotalSize(ranges), done, page, maxGap, effMax / 4096);
      LimitInPages(page - FirstPage(previous) + 1, effMax);
      if Joins(previous, page, maxGap, effMax) {
        var size := (page - FirstPage(previous) + 1) * 4096;
        GrowState(ranges, TotalSize(ranges), done, page, maxGap, effMax / 4096, after,
                  TotalSize(ranges) + (size - previous.size));
        return;
      }
    }
    StartState(ranges, TotalSize(ranges), done, page, maxGap, effMax / 4096, after, TotalSize(ranges) + 4096);
  }

  lemma MergedMore(ranges: seq<Range>, done: seq<nat>, page: nat, after: seq<Range>, pages: seq<nat>, maxGap: nat, effMax: nat)
    requires pages == done + [page] && Increasing(done + [page]) && 4096 <= effMax
    requires ranges != [] ==> FirstPage(ranges[|ranges| - 1]) <= page
    requires after == NextRanges(ranges, page, maxGap, effMax)
    requires MergeState(ranges, TotalSize(ranges), done, maxGap, effMax / 4096)
    ensures MergeState(after, TotalSize(after), pages, maxGap, effMax / 4096)
  {
    NextState(ranges, done, page, maxGap, effMax);
  }

  lemma {:induction false} MergedMeaning(pages: seq<nat>, maxGap: nat, effMax: nat)
    requires Increasing(pages) && 4096 <= effMax
    ensures var ranges := MergedRanges(pages, maxGap, effMax);
            MergeState(ranges, TotalSize(ranges), pages, maxGap, effMax / 4096)
  {
    if pages != [] {
      var k := |pages| - 1;
      MergedMeaning(pages[..k], maxGap, effMax);
      PrefixIncreases(pages, k);
      assert pages[..k + 1] == pages;
      MergedMore(MergedRanges(pages[..k], maxGap, effMax), pages[..k], pages[k], MergedRanges(pages, maxGap, effMax), pages,
                 maxGap, effMax);
    }
  }

  method MergePages(pages: seq<nat>, maxGap: nat, effMax: nat) returns (ranges: seq<Range>, cursor: nat)
    requires Increasing(pages) && 4096 <= effMax
    ensures ranges == MergedRanges(pages, maxGap, effMax) && cursor == TotalSize(ranges)
    ensures MergeState(ranges, cursor, pages, maxGap, effMax / 4096)
  {
    ranges, cursor := [], 0;
    var k := 0;
    while k < |pages|
      invariant 0 <= k <= |pages|
      invariant ranges == MergedRanges(pages[..k], maxGap, effMax) && cursor == TotalSize(ranges)
    {
      MergedStep(pages, k, maxGap, effMax);
      ranges, cursor := PlacePage(ranges, cursor, pages[k], maxGap, effMax);
      k := k + 1;
    }
    assert pages[..k] == pages;
    MergedMeaning(pages, maxGap, effMax);
  }

  lemma MergedStep(pages: seq<nat>, k: nat, maxGap: nat, effMax: nat)
    requires Increasing(pages) && k < |pages| && 4096 <= effMax
    ensures var ranges := MergedRanges(pages[..k], maxGap, effMax);
            && (ranges != [] ==> FirstPage(ranges[|ranges| - 1]) <= pages[k])
            && MergedRanges(pages[..k + 1], maxGap, effMax) == NextRanges(ranges, pages[k], maxGap, effMax)
            && BackToBack(ranges) && BackToBack(NextRanges(ranges, pages[k], maxGap, effMax))
  {
    assert pages[..k + 1][..k] == pages[..k];
    MergedMeaning(pages[..k], maxGap, effMax);
    MergedMeaning(pages[..k + 1], maxGap, effMax);
  }

  /** The loop body. */
  method PlacePage(ranges: seq<Range>, cursor: nat, page: nat, maxGap: nat, effMax: nat)
    returns (ranges': seq<Range>, cursor': nat)
    requires ranges != [] ==> FirstPage(ranges[|ranges| - 1]) <= page
    requires BackToBack(ranges) && cursor == TotalSize(ranges) && 4096 <= effMax
    requires BackToBack(NextRanges(ranges, page, maxGap, effMax))
    ensures ranges' == NextRanges(ranges, page, maxGap, effMax) && cursor' == TotalSize(ranges')
  {
    var n := |ranges|;
    if n > 0 {
      var previous := ranges[n - 1];
      var previousFirst := previous.fileOffset / 4096;
      var previousLast := previousFirst + previous.size / 4096 - 1;
      var gap := page - previousLast - 1;
      var extendedSize := (page - previousFirst + 1) * 4096;
      if gap <= maxGap && extendedSize <= effMax {
        ranges' := ranges[n - 1 := previous.(size := extendedSize)];
        GrowKeepsPlacement(ranges, previous.(size := extendedSize));
        cursor' := TotalSize(ranges');
        assert cursor' == cursor + extendedSize - previous.size;
        return;
      }
    }
    ranges' := ranges + [Range(page * 4096, 4096, cursor)];
    StartKeepsPlacement(ranges, Range(page * 4096, 4096, cursor));
    cursor' := cursor + 4096;
  }

  lemma LimitInPages(pages: nat, bytes: nat)
    ensures pages * 4096 <= bytes <==> pages <= bytes / 4096
  {}

  lemma LastPagePlanned(ranges: seq<Range>, cursor: nat, done: seq<nat>, page: nat, maxGap: nat, maxPages: nat)
    requires Increasing(done + [page]) && ranges != []
    requires MergeState(ranges, cursor, done, maxGap, maxPages)
    ensures done != [] && LastPage(ranges[|ranges| - 1]) == done[|done| - 1] < page
    ensures FirstPage(ranges[|ranges| - 1]) <= LastPage(ranges[|ranges| - 1])
  {
    assert SpansOf(ranges)[|ranges| - 1] == SpanOf(ranges[|ranges| - 1]);
    Ascending(done + [page], |done| - 1, |done|);
  }

  lemma GrowState(ranges: seq<Range>, cursor: nat, done: seq<nat>, page: nat, maxGap: nat, maxPages: nat,
                  after: seq<Range>, cursor': nat)
    requires Increasing(done + [page]) && ranges != [] && done != []
    requires MergeState(ranges, cursor, done, maxGap, maxPages)
    requires FirstPage(ranges[|ranges| - 1]) <= done[|done| - 1] < page
    requires MayExtend(FirstPage(ranges[|ranges| - 1]), done[|done| - 1], page, maxGap, maxPages)
    requires var previous := ranges[|ranges| - 1];
             var size := (page - FirstPage(previous) + 1) * 4096;
             after == ranges[|ranges| - 1 := previous.(size := size)] && cursor' == cursor + (size - previous.size)
    ensures MergeState(after, cursor', done + [page], maxGap, maxPages)
  {
    var n := |ranges|;
    var previous := ranges[n - 1];
    var grown := previous.(size := (page - FirstPage(previous) + 1) * 4096);
    GrownSpans(ranges, grown, page);
    GrowLast(SpansOf(ranges), done, page, maxGap, maxPages);
    GrowKeepsPlacement(ranges, grown);
  }

  lemma GrownSpans(ranges: seq<Range>, grown: Range, page: nat)
    requires AllWholePages(ranges) && ranges != [] && FirstPage(ranges[|ranges| - 1]) <= page
    requires grown == ranges[|ranges| - 1].(size := (page - FirstPage(ranges[|ranges| - 1]) + 1) * 4096)
    ensures var spans, last := SpansOf(ranges), |ranges| - 1;
            && spans[last].first == FirstPage(ranges[last])
            && AllWholePages(ranges[last := grown])
            && SpansOf(ranges[last := grown]) == spans[last := spans[last].(last := page)]
  {
    assert SpanOf(grown) == Span(FirstPage(ranges[|ranges| - 1]), page);
  }

  lemma StartState(ranges: seq<Range>, cursor: nat, done: seq<nat>, page: nat, maxGap: nat, maxPages: nat,
                   after: seq<Range>, cursor': nat)
    requires Increasing(done + [page]) && 1 <= maxPages
    requires MergeState(ranges, cursor, done, maxGap, maxPages)
    requires ranges != [] ==> done != [] && FirstPage(ranges[|ranges| - 1]) <= done[|done| - 1] < page
    requires ranges != [] ==>
               !MayExtend(FirstPage(ranges[|ranges| - 1]), done[|done| - 1], page, maxGap, maxPages)
    requires after == ranges + [Range(page * 4096, 4096, cursor)] && cursor' == cursor + 4096
    ensures MergeState(after, cursor', done + [page], maxGap, maxPages)
  {
    var added := Range(page * 4096, 4096, cursor);
    StartedSpans(ranges, added, page);
    StartNew(SpansOf(ranges), done, page, maxGap, maxPages);
    StartKeepsPlacement(ranges, added);
  }

  lemma StartedSpans(ranges: seq<Range>, added: Range, page: nat)
    requires AllWholePages(ranges) && added.fileOffset == page * 4096 && added.size == 4096
    ensures AllWholePages(ranges + [added]) && SpansOf(ranges + [added]) == SpansOf(ranges) + [Span(page, page)]
    ensures ranges != [] ==> SpansOf(ranges)[|ranges| - 1].first == FirstPage(ranges[|ranges| - 1])
  {}

  lemma GrowKeepsPlacement(ranges: seq<Range>, grown: Range)
    requires ranges != [] && BackToBack(ranges)
    requires grown == ranges[|ranges| - 1].(size := grown.size)
    ensures var after := ranges[|ranges| - 1 := grown];
            BackToBack(after) && TotalSize(after) == TotalSize(ranges) - ranges[|ranges| - 1].size + grown.size
  {
    var n := |ranges|;
    var after := ranges[n - 1 := grown];
    assert after[..n - 1] == ranges[..n - 1];
    forall i | 0 <= i < n ensures after[i].stagingOffset == TotalSize(after[..i]) {
      assert after[..i] == ranges[..i];
    }
  }

  lemma StartKeepsPlacement(ranges: seq<Range>, added: Range)
    requires BackToBack(ranges) && added.stagingOffset == TotalSize(ranges)
    ensures BackToBack(ranges + [added]) && TotalSize(ranges + [added]) == TotalSize(ranges) + added.size
  {
    var after := ranges + [added];
    assert after[..|ranges|] == ranges;
    forall i | 0 <= i < |after| ensures after[i].stagingOffset == TotalSize(after[..i]) {
      if i < |ranges| {
        assert after[..i] == ranges[..i];
      }
    }
  }
}
