/** When the chunks of `iter_read_at` succeed: the exact condition, cheaper sufficient ones, and
    chunks that fit their slot by count and are refused all the same. */
module ChunkSuccess {
  import opened Options
  import opened Pages
  import Spans
  import opened PagePlan
  import opened LanePacking
  import opened GatherPlan
  import opened NativeRead
  import opened ChunkedRead
  import CrossingRows
  import ReferencePlan

  /** The transfers a chunk asks for, before lanes are chosen. */
  ghost function ChunkRanges(l: Layout, c: Config, ids: seq<int>): seq<Range>
    requires ValidLayout(l) && ValidIds(ids, l.rowCount, l.g)
  {
    CollectedMeaning(ids, l.rowCount, l.g);
    MergedRanges(Spans.SortedUnique(CollectedPages(ids, l.rowCount, l.g).value), l.maxGap, Limit(RequestFor(l, ids, 0), c))
  }

  ghost predicate ChunkFits(l: Layout, c: Config, fileSize: nat, ids: seq<int>)
    requires ValidLayout(l)
  {
    && 0 < |ids| <= c.maxSpans && ValidIds(ids, l.rowCount, l.g) && (l.maxRangeBytes == 0 || 4096 <= l.maxRangeBytes)
    && TotalSize(ChunkRanges(l, c, ids)) <= c.stagingCapacity
    && RoomForEach(ChunkRanges(l, c, ids), c.lanes, c.laneCapacity)
    && FileHolds(ChunkRanges(l, c, ids), fileSize)
  }

  lemma OnePageNeverTorn(ranges: seq<Range>, g: Geometry, id: nat)
    requires 0 < g.blockRows && 0 < g.rowBytes && RowFirstPage(g, id) == RowLastPage(g, id)
    ensures NeverTorn(ranges, g, id)
  {
    forall p: nat | StagedAt(ranges, RowOffset(g, id), p) ensures Contiguous(ranges, RowOffset(g, id), g.rowBytes, p) {
      OnePageContiguous(ranges, RowOffset(g, id), g.rowBytes, p);
    }
  }

  lemma ShortRunNeverTorn(ranges: seq<Range>, pages: seq<nat>, maxPages: nat, g: Geometry, id: nat)
    requires Increasing(pages) && FileOrder(ranges) && Spans.Merged(SpansOf(ranges), pages, 0, maxPages)
    requires ShortRuns(pages, 0, maxPages) && 0 < g.blockRows && 0 < g.rowBytes <= 4096
    requires RowFirstPage(g, id) in pages && RowLastPage(g, id) in pages
    ensures NeverTorn(ranges, g, id)
  {
    forall p: nat | StagedAt(ranges, RowOffset(g, id), p) ensures Contiguous(ranges, RowOffset(g, id), g.rowBytes, p) {
      ShortRunContiguous(ranges, pages, 0, maxPages, RowOffset(g, id), g.rowBytes, p);
    }
  }

  lemma UntornNeverTorn(q: Request, c: Config, l: Layout, pages: seq<nat>, merged: seq<Range>, ranges: seq<Range>,
                        chunk: nat, i: nat)
    requires ValidConfig(c) && ValidLayout(l) && Untorn(l, c, q.ids, chunk) && |q.ids| <= chunk && q == RequestFor(l, q.ids, q.outputOffset)
    requires SoundGeometry(q) && RangesFor(merged, pages, q, c) && SameTransfers(merged, ranges) && FileOrder(ranges)
    requires i < |q.ids|
    ensures NeverTorn(ranges, q.g, q.ids[i])
  {
    if NoneCrosses(l.g, q.ids) {
      assert RowFirstPage(q.g, q.ids[i]) == RowLastPage(q.g, q.ids[i]);
      OnePageNeverTorn(ranges, q.g, q.ids[i]);
    } else {
      SameSpans(merged, ranges);
      FitsRangeIff(q, c, 2 * chunk);
      FewPagesShortRuns(pages, Limit(q, c) / 4096);
      assert RowFirstPage(q.g, q.ids[i]) in pages && RowLastPage(q.g, q.ids[i]) in pages;
      ShortRunNeverTorn(ranges, pages, Limit(q, c) / 4096, q.g, q.ids[i]);
    }
  }

  lemma SameInFile(a: seq<Range>, b: seq<Range>, fileSize: nat)
    requires SameTransfers(a, b)
    ensures FileHolds(a, fileSize) <==> FileHolds(b, fileSize)
  {
    if FileHolds(b, fileSize) {
      forall i | 0 <= i < |a| ensures a[i].fileOffset + a[i].size <= fileSize {
        assert b[i].fileOffset + b[i].size <= fileSize;
      }
    }
  }

  /** Past the checks on the request, its plan succeeds exactly when its ranges fit. */
  lemma RangesDecide(q: Request, c: Config, l: Layout, pages: seq<nat>, merged: seq<Range>, chunk: nat, fileSize: nat)
    requires ValidConfig(c) && ValidLayout(l) && q == RequestFor(l, q.ids, q.outputOffset) && SoundGeometry(q)
    requires q.ids != [] && ValidIds(q.ids, q.rowCount, q.g) && Increasing(pages)
    requires Untorn(l, c, q.ids, chunk) && |q.ids| <= chunk
    requires merged == MergedRanges(pages, q.maxGap, Limit(q, c)) && RangesFor(merged, pages, q, c)
    ensures var r := PlanOfPages(q, c, pages);
            && (r.Ok? <==> TotalSize(merged) <= c.stagingCapacity && RoomForEach(merged, c.lanes, c.laneCapacity))
            && (r.Ok? ==> SameTransfers(merged, r.value.ranges))
  {
    if TotalSize(merged) <= c.stagingCapacity {
      forall ranges, i | SameTransfers(merged, ranges) && FileOrder(ranges) && 0 <= i < |q.ids|
        ensures NeverTorn(ranges, q.g, q.ids[i])
      {
        UntornNeverTorn(q, c, l, pages, merged, ranges, chunk, i);
      }
      UntornPlans(q, c, pages, merged);
      PackingOkIff(merged, c.lanes, c.laneCapacity);
      LanesFitStaging(c);
      PackingMeaning(merged, c.lanes, c.laneCapacity);
    }
  }

  /** A chunk none of whose rows can be torn is read if and only if it is within the row capacity,
      its ids and range limit are valid, its ranges fit the staging slot, each of them in its turn
      finds a lane with room, and the file is long enough. */
  lemma ChunkSucceedsIff(l: Layout, c: Config, fileSize: nat, ids: seq<int>, at: nat, chunk: nat)
    requires ValidLayout(l) && ValidConfig(c) && Untorn(l, c, ids, chunk) && |ids| <= chunk
    ensures ChunkError(l, c, fileSize, ids, at).None? <==> ChunkFits(l, c, fileSize, ids)
  {
    var q := RequestFor(l, ids, at);
    if 0 < |ids| <= c.maxSpans && ValidIds(ids, l.rowCount, l.g) && 4096 <= MaxRange(q) {
      assert 0 <= ids[0] < l.rowCount;
      CollectedMeaning(ids, l.rowCount, l.g);
      var collected := CollectedPages(ids, l.rowCount, l.g).value;
      var pages := Spans.SortedUnique(collected);
      var merged := ChunkRanges(l, c, ids);
      assert Limit(q, c) == Limit(RequestFor(l, ids, 0), c);
      PlanFromPages(q, c, collected, pages);
      MergedForRequest(q, c, collected, pages);
      RangesDecide(q, c, l, pages, merged, chunk, fileSize);
      if PlanOf(q, c).Ok? {
        SameInFile(merged, PlanOf(q, c).value.ranges, fileSize);
      }
    } else {
      ChunkRefused(l, c, ids, at);
    }
  }

  lemma ChunkRefused(l: Layout, c: Config, ids: seq<int>, at: nat)
    requires ValidLayout(l) && ValidConfig(c)
    requires !(0 < |ids| <= c.maxSpans && ValidIds(ids, l.rowCount, l.g) && 4096 <= MaxRange(RequestFor(l, ids, at)))
    ensures PlanOf(RequestFor(l, ids, at), c).Err?
  {
    CollectedMeaning(ids, l.rowCount, l.g);
  }

  // ---- all chunks ----

  function PartFrom(ids: seq<int>, chunk: nat, start: nat): seq<int>
    requires start <= |ids|
  {
    if start + chunk < |ids| then ids[start..start + chunk] else ids[start..]
  }

  /** Chunk `k`, counted from row `start`, fits. */
  ghost predicate PartFits(l: Layout, c: Config, fileSize: nat, ids: seq<int>, chunk: nat, start: nat, k: nat)
    requires ValidLayout(l)
  {
    start + k * chunk < |ids| ==> ChunkFits(l, c, fileSize, PartFrom(ids, chunk, start + k * chunk))
  }

  ghost predicate AllPartsFit(l: Layout, c: Config, fileSize: nat, ids: seq<int>, chunk: nat, start: nat)
    requires ValidLayout(l)
  {
    forall k: nat :: PartFits(l, c, fileSize, ids, chunk, start, k)
  }

  lemma PartShift(l: Layout, c: Config, fileSize: nat, ids: seq<int>, chunk: nat, start: nat, k: nat)
    requires ValidLayout(l)
    ensures PartFits(l, c, fileSize, ids, chunk, start, k + 1) <==> PartFits(l, c, fileSize, ids, chunk, start + chunk, k)
  {
    NextStart(start, chunk, k);
  }

  lemma PartDown(l: Layout, c: Config, fileSize: nat, ids: seq<int>, chunk: nat, start: nat, next: nat, k: nat)
    requires ValidLayout(l) && next == start + chunk && AllPartsFit(l, c, fileSize, ids, chunk, start)
    ensures PartFits(l, c, fileSize, ids, chunk, next, k)
  {
    PartShift(l, c, fileSize, ids, chunk, start, k);
  }

  lemma PartUp(l: Layout, c: Config, fileSize: nat, ids: seq<int>, chunk: nat, start: nat, next: nat, k: nat)
    requires ValidLayout(l) && next == start + chunk
    requires PartFits(l, c, fileSize, ids, chunk, start, 0) && AllPartsFit(l, c, fileSize, ids, chunk, next)
    ensures PartFits(l, c, fileSize, ids, chunk, start, k)
  {
    if k > 0 {
      PartShift(l, c, fileSize, ids, chunk, start, k - 1);
    }
  }

  lemma PartsFromNext(l: Layout, c: Config, fileSize: nat, ids: seq<int>, chunk: nat, start: nat, next: nat)
    requires ValidLayout(l) && next == start + chunk
    ensures AllPartsFit(l, c, fileSize, ids, chunk, start)
            <==> PartFits(l, c, fileSize, ids, chunk, start, 0) && AllPartsFit(l, c, fileSize, ids, chunk, next)
  {
    if AllPartsFit(l, c, fileSize, ids, chunk, start) {
      forall k: nat ensures PartFits(l, c, fileSize, ids, chunk, next, k) {
        PartDown(l, c, fileSize, ids, chunk, start, next, k);
      }
    } else if PartFits(l, c, fileSize, ids, chunk, start, 0) && AllPartsFit(l, c, fileSize, ids, chunk, next) {
      forall k: nat ensures PartFits(l, c, fileSize, ids, chunk, start, k) {
        PartUp(l, c, fileSize, ids, chunk, start, next, k);
      }
    }
  }

  lemma NextStart(start: nat, chunk: nat, k: nat)
    ensures start + (k + 1) * chunk == start + chunk + k * chunk
  {}

  lemma PastEnd(start: nat, k: nat, chunk: nat, n: nat)
    requires 0 < k && n <= start + chunk
    ensures n <= start + k * chunk
  {
    MulMono(1, k, chunk);
  }

  lemma PartPastEnd(l: Layout, c: Config, fileSize: nat, ids: seq<int>, chunk: nat, start: nat, k: nat)
    requires ValidLayout(l) && 0 < k && |ids| <= start + chunk
    ensures PartFits(l, c, fileSize, ids, chunk, start, k)
  {
    PastEnd(start, k, chunk, |ids|);
  }

  lemma LastPart(l: Layout, c: Config, fileSize: nat, ids: seq<int>, chunk: nat, start: nat)
    requires ValidLayout(l) && 0 < chunk && start < |ids| <= start + chunk
    ensures AllPartsFit(l, c, fileSize, ids, chunk, start) <==> PartFits(l, c, fileSize, ids, chunk, start, 0)
  {
    forall k: nat | 0 < k ensures PartFits(l, c, fileSize, ids, chunk, start, k) {
      PartPastEnd(l, c, fileSize, ids, chunk, start, k);
    }
    assert PartFits(l, c, fileSize, ids, chunk, start, 0) ==> forall k: nat :: PartFits(l, c, fileSize, ids, chunk, start, k);
  }

  lemma FirstPart(l: Layout, c: Config, fileSize: nat, ids: seq<int>, at: nat, outputBytes: nat,
                  chunk: nat, start: nat, end: nat, next: nat)
    requires ValidLayout(l) && ValidConfig(c) && 0 < chunk && start < |ids| && Untorn(l, c, ids, chunk)
    requires end == if start + chunk < |ids| then start + chunk else |ids|
    requires next == at + start * l.g.rowBytes && at + |ids| * l.g.rowBytes <= outputBytes
    ensures LeaseError(l, c, fileSize, ids[start..end], next, outputBytes, true, false).None?
            <==> PartFits(l, c, fileSize, ids, chunk, start, 0)
  {
    var part := ids[start..end];
    PartEnds(ids, start, end, l.g.rowBytes, at, outputBytes);
    UntornPart(l, c, ids, part, chunk);
    ChunkSucceedsIff(l, c, fileSize, part, next, chunk);
    assert PartFrom(ids, chunk, start) == part;
  }

  lemma {:induction false} ChunksSucceedIff(l: Layout, c: Config, fileSize: nat, ids: seq<int>, at: nat, outputBytes: nat,
                                            chunk: nat, start: nat)
    requires ValidLayout(l) && ValidConfig(c) && 0 < chunk && start < |ids| && Untorn(l, c, ids, chunk)
    requires at + |ids| * l.g.rowBytes <= outputBytes
    ensures ChunksError(l, c, fileSize, ids, at, outputBytes, true, chunk, start).None?
            <==> AllPartsFit(l, c, fileSize, ids, chunk, start)
    decreases |ids| - start
  {
    var end := if start + chunk < |ids| then start + chunk else |ids|;
    ChunksNext(l, c, fileSize, ids, at, outputBytes, true, chunk, start, end);
    FirstPart(l, c, fileSize, ids, at, outputBytes, chunk, start, end, at + start * l.g.rowBytes);
    if end < |ids| {
      ChunksSucceedIff(l, c, fileSize, ids, at, outputBytes, chunk, end);
      PartsFromNext(l, c, fileSize, ids, chunk, start, end);
    } else {
      LastPart(l, c, fileSize, ids, chunk, start);
    }
  }

  /** A chunked read of rows that cannot be torn succeeds if and only if every chunk fits. */
  lemma ReadAllSucceedsIff(l: Layout, c: Config, fileSize: nat, ids: seq<int>, at: nat, outputBytes: nat)
    requires ValidLayout(l) && ValidConfig(c) && ids != [] && 0 < ChunkRows(l, c, outputBytes)
    requires at + |ids| * l.g.rowBytes <= outputBytes && Untorn(l, c, ids, ChunkRows(l, c, outputBytes))
    ensures ReadAllError(l, c, fileSize, ids, at, outputBytes, true, false).None?
            <==> AllPartsFit(l, c, fileSize, ids, ChunkRows(l, c, outputBytes), 0)
  {
    ChunksSucceedIff(l, c, fileSize, ids, at, outputBytes, ChunkRows(l, c, outputBytes), 0);
  }

  // ---- chunks whose pages fit one range ----

  /** Both pages of every row lie in the file. */
  predicate RowsInFile(l: Layout, fileSize: nat, ids: seq<int>)
    requires ValidLayout(l)
  {
    forall i :: 0 <= i < |ids| ==> 0 <= ids[i] && (RowLastPage(l.g, ids[i]) + 1) * 4096 <= fileSize
  }

  lemma PlannedInFile(ranges: seq<Range>, pages: seq<nat>, q: Request, c: Config, l: Layout, fileSize: nat)
    requires ValidLayout(l) && q == RequestFor(l, q.ids, q.outputOffset) && q.maxGap == 0 && SoundGeometry(q)
    requires RangesFor(ranges, pages, q, c) && RowsInFile(l, fileSize, q.ids)
    ensures FileHolds(ranges, fileSize)
  {
    forall i | 0 <= i < |ranges| ensures ranges[i].fileOffset + ranges[i].size <= fileSize {
      var page := LastPage(ranges[i]);
      assert WholePages(ranges[i]) && SpansOf(ranges)[i] == SpanOf(ranges[i]);
      assert SpansOf(ranges)[i].last in pages;
      assert PageOfSomeRow(page, q.ids, q.g);
      var k :| 0 <= k < |q.ids| && (page == RowFirstPage(q.g, q.ids[k]) || page == RowLastPage(q.g, q.ids[k]));
      PagesInOrder(q.g, q.ids[k]);
    }
  }

  lemma PagesInOrder(g: Geometry, id: nat)
    requires 0 < g.blockRows && 0 < g.rowBytes
    ensures RowFirstPage(g, id) <= RowLastPage(g, id)
  {}

  lemma {:induction false} PartOfSum(s: seq<nat>, i: nat)
    requires i < |s|
    ensures s[i] <= SumOf(s)
    decreases |s|
  {
    if i > 0 {
      PartOfSum(s[1..], i - 1);
    }
  }

  lemma OneLaneRefusesNone(ranges: seq<Range>, f: Failure, lanes: nat, capacity: nat)
    requires 0 < lanes && TotalSize(ranges) <= capacity
    ensures !NoRoom(ranges, f, lanes, capacity)
  {
    if |f.loads| == lanes {
      PartOfSum(f.loads, 0);
    }
  }

  /** Ranges that fit one lane all together find room. */
  lemma OneLaneHolds(ranges: seq<Range>, lanes: nat, capacity: nat)
    requires 0 < lanes && 0 < capacity && capacity % 4096 == 0 && AllWholePages(ranges) && TotalSize(ranges) <= capacity
    ensures RoomForEach(ranges, lanes, capacity)
  {
    PackingMeaning(ranges, lanes, capacity);
    PackingOkIff(ranges, lanes, capacity);
    match Packing(ranges, lanes, capacity) {
      case Err(f) => OneLaneRefusesNone(ranges, f, lanes, capacity);
      case Ok(_) =>
    }
  }

  /** Checks a caller can make beforehand: valid ids within the row capacity whose pages, two to a
      row, fit one range and lie in the file. */
  predicate OneRangeEnough(l: Layout, c: Config, fileSize: nat, ids: seq<int>, chunk: nat)
    requires ValidLayout(l)
  {
    && l.maxGap == 0 && l.g.rowBytes <= 4096 && chunk <= c.maxSpans && 0 < chunk
    && 8192 * chunk <= c.laneCapacity && (l.maxRangeBytes == 0 || 8192 * chunk <= l.maxRangeBytes)
    && ValidIds(ids, l.rowCount, l.g) && RowsInFile(l, fileSize, ids)
  }

  lemma SmallChunkFits(l: Layout, c: Config, fileSize: nat, ids: seq<int>, chunk: nat)
    requires ValidLayout(l) && ValidConfig(c) && OneRangeEnough(l, c, fileSize, ids, chunk) && 0 < |ids| <= chunk
    ensures ChunkFits(l, c, fileSize, ids)
  {
    var q := RequestFor(l, ids, 0);
    assert 0 <= ids[0] < l.rowCount;
    CollectedMeaning(ids, l.rowCount, l.g);
    var collected := CollectedPages(ids, l.rowCount, l.g).value;
    var pages, ranges := Spans.SortedUnique(collected), ChunkRanges(l, c, ids);
    MergedForRequest(q, c, collected, pages);
    FitsRangeIff(q, c, 2 * chunk);
    NoGapReadsPlannedPages(ranges, pages, Limit(q, c) / 4096);
    LanesFitStaging(c);
    MulMono(1, c.lanes, c.laneCapacity);
    PagesFitLane(TotalSize(ranges), |pages|, chunk, Limit(q, c), c.laneCapacity);
    OneLaneHolds(ranges, c.lanes, c.laneCapacity);
    PlannedInFile(ranges, pages, q, c, l, fileSize);
  }

  lemma PagesFitLane(total: nat, pages: nat, chunk: nat, limit: nat, capacity: nat)
    requires total <= pages * 4096 && pages <= 2 * chunk <= limit / 4096 && limit <= capacity
    ensures total <= capacity
  {}

  lemma SmallPart(l: Layout, c: Config, fileSize: nat, ids: seq<int>, part: seq<int>, chunk: nat)
    requires ValidLayout(l) && OneRangeEnough(l, c, fileSize, ids, chunk) && forall i :: i in part ==> i in ids
    ensures OneRangeEnough(l, c, fileSize, part, chunk)
  {
    forall i | 0 <= i < |part|
      ensures 0 <= part[i] < l.rowCount && RowOffset(l.g, part[i]) <= MAX_U64
              && (RowLastPage(l.g, part[i]) + 1) * 4096 <= fileSize
    {
      assert part[i] in part;
    }
  }

  /** With such chunks a read that fits the output succeeds, however many chunks it takes. */
  lemma SmallChunksSucceed(l: Layout, c: Config, fileSize: nat, ids: seq<int>, at: nat, outputBytes: nat)
    requires ValidLayout(l) && ValidConfig(c) && 0 < ChunkRows(l, c, outputBytes) && at + |ids| * l.g.rowBytes <= outputBytes
    requires OneRangeEnough(l, c, fileSize, ids, ChunkRows(l, c, outputBytes))
    ensures ReadAllError(l, c, fileSize, ids, at, outputBytes, true, false).None?
  {
    var chunk := ChunkRows(l, c, outputBytes);
    if ids != [] {
      forall k: nat ensures PartFits(l, c, fileSize, ids, chunk, 0, k) {
        if k * chunk < |ids| {
          var part := PartFrom(ids, chunk, k * chunk);
          SmallPart(l, c, fileSize, ids, part, chunk);
          SmallChunkFits(l, c, fileSize, part, chunk);
        }
      }
      ReadAllSucceedsIff(l, c, fileSize, ids, at, outputBytes);
    }
  }

  // ---- chunks that are refused ----

  function DenseLayout(maxGap: nat, maxRangeBytes: nat): Layout { Layout(CrossingRows.Dense(), 512, maxGap, maxRangeBytes) }

  /** The range limits a reader can be built with. */
  predicate ReaderLimit(maxRangeBytes: nat) { 4096 <= maxRangeBytes <= 1024 * 1024 && maxRangeBytes % 4096 == 0 }

  /** The native rows of a reader built for outputs of this size. */
  function DenseSpans(outputBytes: nat): nat { outputBytes / 160 }

  function ThreeIds(): seq<int> { [25, 102, 179] }

  /** A slot of six pages takes these three rows in one chunk. */
  lemma ThreeRowChunk(l: Layout, c: Config, fileSize: nat, outputBytes: nat, e: PlanError)
    requires ValidLayout(l) && l.g.rowBytes == 160 && c.stagingCapacity == 24576 && 480 <= outputBytes
    requires PlanOf(RequestFor(l, ThreeIds(), 0), c) == Err(e)
    ensures ChunkRows(l, c, outputBytes) == 3
    ensures ReadAllError(l, c, fileSize, ThreeIds(), 0, outputBytes, true, false) == Some(Mapped(e))
  {
    DivUnique(3, 8192, 0);
    DivUnique(outputBytes / 160, 160, outputBytes % 160);
    assert ChunkRows(l, c, outputBytes) == 3;
    ChunksNext(l, c, fileSize, ThreeIds(), 0, outputBytes, true, 3, 0, 3);
    assert ThreeIds()[0..3] == ThreeIds();
  }

  /** Failing inputs without gaps: three page-crossing rows, six pages in a slot of six, but two
      lanes of three; the read fails, and not with the request to cut the chunk smaller. */
  lemma LanesRefuseChunk(maxRangeBytes: nat, fileSize: nat, outputBytes: nat)
    requires ReaderLimit(maxRangeBytes) && 12288 <= maxRangeBytes && 480 <= outputBytes
    ensures var l, c := DenseLayout(0, maxRangeBytes), Config(2, 12288, 24576, DenseSpans(outputBytes));
            && ValidConfig(c) && ValidLayout(l) && ChunkRows(l, c, outputBytes) == |ThreeIds()|
            && ReadAllError(l, c, fileSize, ThreeIds(), 0, outputBytes, true, false) == Some(Native(LanesExceeded))
  {
    var spans := DenseSpans(outputBytes);
    DivBounds(outputBytes, 160);
    CrossingRows.LanesRefuseThreeRows(spans, maxRangeBytes, 0);
    ThreeRowChunk(DenseLayout(0, maxRangeBytes), Config(2, 12288, 24576, spans), fileSize, outputBytes, LanesExceeded);
  }

  /** Failing inputs with gaps of one page bridged: the chunk overflows the staging slot, and the
      reader that does the chunking answers that chunking is required. */
  lemma BridgingRefusesChunk(maxRangeBytes: nat, fileSize: nat, outputBytes: nat)
    requires ReaderLimit(maxRangeBytes) && 24576 <= maxRangeBytes && 480 <= outputBytes
    ensures var l, c := DenseLayout(1, maxRangeBytes), Config(1, 24576, 24576, DenseSpans(outputBytes));
            && ValidConfig(c) && ValidLayout(l) && ChunkRows(l, c, outputBytes) == |ThreeIds()|
            && ReadAllError(l, c, fileSize, ThreeIds(), 0, outputBytes, true, false) == Some(ChunkedReadRequired)
  {
    var spans := DenseSpans(outputBytes);
    DivBounds(outputBytes, 160);
    CrossingRows.BridgingOverflowsStaging(spans, maxRangeBytes, 0);
    ThreeRowChunk(DenseLayout(1, maxRangeBytes), Config(1, 24576, 24576, spans), fileSize, outputBytes, StagingExceeded);
  }
}
