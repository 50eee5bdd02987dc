/** `PersistentGdsPleReader`: slots handed out and taken back, and requests too large for one
    slot cut into chunks that follow each other in the output. */
module ChunkedRead {
  import opened Pages
  import Spans
  import opened PagePlan
  import opened LanePacking
  import opened GatherPlan
  import opened NativeRead
  import EndToEnd
  import ReferencePlan
  import opened Options

  /** What the reader takes from the artifact and its own options. */
  datatype Layout = Layout(g: Geometry, rowCount: nat, maxGap: nat, maxRangeBytes: nat)

  predicate ValidLayout(l: Layout) {
    0 < l.g.blockRows && 0 < l.g.rowBytes && 0 < l.g.stride && l.g.base <= MAX_U64
  }

  function RequestFor(l: Layout, ids: seq<int>, outputOffset: nat): Request {
    Request(ids, l.rowCount, l.g, l.maxGap, l.maxRangeBytes, |ids| * l.g.rowBytes, outputOffset)
  }

  /** Rows per chunk: what one output slot holds, at two pages of staging per row. */
  function ChunkRows(l: Layout, c: Config, outputBytes: nat): nat
    requires 0 < l.g.rowBytes
  {
    var byOutput, byStaging := outputBytes / l.g.rowBytes, c.stagingCapacity / (2 * 4096);
    if byOutput < byStaging then byOutput else byStaging
  }

  /** A chunk is the most rows that fit both the output and, at two pages each, the staging. */
  lemma ChunkRowsIs(l: Layout, c: Config, outputBytes: nat, n: nat)
    requires 0 < l.g.rowBytes
    ensures n <= ChunkRows(l, c, outputBytes) <==> n * l.g.rowBytes <= outputBytes && n * 8192 <= c.stagingCapacity
  {
    DivBounds(outputBytes, l.g.rowBytes);
    var k := outputBytes / l.g.rowBytes;
    if n <= k {
      MulMono(n, k, l.g.rowBytes);
    } else {
      MulMono(k + 1, n, l.g.rowBytes);
    }
  }

  lemma ChunkBounds(l: Layout, c: Config, outputBytes: nat, n: nat)
    requires 0 < l.g.rowBytes && n <= ChunkRows(l, c, outputBytes)
    ensures n * l.g.rowBytes <= outputBytes && n * 8192 <= c.stagingCapacity
  {
    ChunkRowsIs(l, c, outputBytes, n);
  }

  // ---- a chunk never needs more staging than a slot has ----

  ghost function PagesOfSpan(span: Spans.Span): (s: set<nat>)
    ensures forall p: nat :: p in s <==> Spans.InSpan(span, p)
  {
    set p: nat | p <= span.last && Spans.InSpan(span, p)
  }

  ghost function PagesUpTo(spans: seq<Spans.Span>, n: nat): (s: set<nat>)
    requires n <= |spans|
  {
    if n == 0 then {} else PagesUpTo(spans, n - 1) + PagesOfSpan(spans[n - 1])
  }

  lemma {:induction false} SpanHolding(spans: seq<Spans.Span>, n: nat, page: nat) returns (i: nat)
    requires n <= |spans| && page in PagesUpTo(spans, n)
    ensures i < n && Spans.InSpan(spans[i], page)
  {
    if page in PagesOfSpan(spans[n - 1]) {
      i := n - 1;
    } else {
      i := SpanHolding(spans, n - 1, page);
    }
  }

  lemma {:induction false} SpanCount(span: Spans.Span)
    requires span.first <= span.last
    ensures |PagesOfSpan(span)| == span.last - span.first + 1
    decreases span.last
  {
    if span.first == span.last {
      assert PagesOfSpan(span) == {span.first};
    } else {
      var shorter := span.(last := span.last - 1);
      SpanCount(shorter);
      assert PagesOfSpan(span) == PagesOfSpan(shorter) + {span.last};
    }
  }

  function PageCount(spans: seq<Spans.Span>, n: nat): int
    requires n <= |spans|
  {
    if n == 0 then 0 else PageCount(spans, n - 1) + (spans[n - 1].last - spans[n - 1].first + 1)
  }

  lemma {:induction false} CountIsPages(spans: seq<Spans.Span>, n: nat)
    requires Spans.Separate(spans) && n <= |spans|
    ensures |PagesUpTo(spans, n)| == PageCount(spans, n)
  {
    if n > 0 {
      CountIsPages(spans, n - 1);
      SpanCount(spans[n - 1]);
      EarlierPages(spans, n - 1);
      AddDisjoint(PagesUpTo(spans, n - 1), PagesOfSpan(spans[n - 1]));
    }
  }

  lemma EarlierPages(spans: seq<Spans.Span>, n: nat)
    requires Spans.Separate(spans) && n < |spans|
    ensures PagesUpTo(spans, n) !! PagesOfSpan(spans[n])
  {
    forall p: nat | p in PagesUpTo(spans, n) ensures p < spans[n].first {
      var i := SpanHolding(spans, n, p);
    }
  }

  lemma AddDisjoint(a: set<nat>, b: set<nat>)
    requires a !! b
    ensures |a + b| == |a| + |b|
  {}

  lemma {:induction false} SizeIsCount(ranges: seq<Range>, spans: seq<Spans.Span>, n: nat)
    requires AllWholePages(ranges) && spans == SpansOf(ranges) && n <= |ranges|
    ensures TotalSize(ranges[..n]) == PageCount(spans, n) * 4096
  {
    if n > 0 {
      SizeIsCount(ranges, spans, n - 1);
      assert ranges[..n][..n - 1] == ranges[..n - 1];
      assert WholePages(ranges[n - 1]) && spans[n - 1] == SpanOf(ranges[n - 1]);
    }
  }

  lemma {:induction false} SeqCovers(s: set<nat>, pages: seq<nat>)
    requires forall p: nat :: p in s ==> p in pages
    ensures |s| <= |pages|
  {
    if pages == [] {
      assert s == {};
    } else {
      SeqCovers(s - {pages[0]}, pages[1..]);
    }
  }

  /** Bridging no gap, the ranges hold the planned pages and nothing else. */
  lemma NoGapReadsPlannedPages(ranges: seq<Range>, pages: seq<nat>, maxPages: nat)
    requires Increasing(pages) && AllWholePages(ranges) && Spans.Merged(SpansOf(ranges), pages, 0, maxPages)
    ensures TotalSize(ranges) <= |pages| * 4096
  {
    var spans := SpansOf(ranges);
    forall p | p in PagesUpTo(spans, |spans|) ensures p in pages {
      var i := SpanHolding(spans, |spans|, p);
      ReferencePlan.SpanIsPlanned(spans, pages, maxPages, i, p);
    }
    SeqCovers(PagesUpTo(spans, |spans|), pages);
    CountIsPages(spans, |spans|);
    SizeIsCount(ranges, spans, |ranges|);
    assert ranges[..|ranges|] == ranges;
  }

  /** The comment's promise: with no gap bridged, a chunk's ranges fit the staging slot. */
  lemma ChunkFitsStaging(ranges: seq<Range>, pages: seq<nat>, q: Request, c: Config)
    requires SoundGeometry(q) && RangesFor(ranges, pages, q, c)
    requires q.maxGap == 0 && |q.ids| * 8192 <= c.stagingCapacity
    ensures TotalSize(ranges) <= c.stagingCapacity
  {
    NoGapReadsPlannedPages(ranges, pages, Limit(q, c) / 4096);
  }

  // ---- when no row of a request can be torn ----

  ghost predicate NoneCrosses(g: Geometry, ids: seq<int>)
    requires 0 < g.blockRows && 0 < g.rowBytes
  {
    forall i :: 0 <= i < |ids| ==> 0 <= ids[i] && RowFirstPage(g, ids[i]) == RowLastPage(g, ids[i])
  }

  /** Visible before the read: rows within one page, or so few rows that their pages cannot
      outgrow one range. */
  ghost predicate Untorn(l: Layout, c: Config, ids: seq<int>, chunk: nat)
    requires ValidLayout(l)
  {
    && l.g.rowBytes <= 4096
    && (NoneCrosses(l.g, ids)
        || (l.maxGap == 0 && 8192 * chunk <= c.laneCapacity && (l.maxRangeBytes == 0 || 8192 * chunk <= l.maxRangeBytes)))
  }

  lemma {:induction false} RunLength(pages: seq<nat>, a: nat, b: nat)
    requires IsRun(pages, a, b, 0) && Increasing(pages)
    ensures pages[b] - pages[a] == b - a
    decreases b
  {
    if a < b {
      assert IsRun(pages, a, b - 1, 0);
      RunLength(pages, a, b - 1);
      assert GapWithin(pages, b - 1, 0);
      Spans.Ascending(pages, b - 1, b);
    }
  }

  lemma FewPagesShortRuns(pages: seq<nat>, maxPages: nat)
    requires Increasing(pages) && |pages| <= maxPages
    ensures ShortRuns(pages, 0, maxPages)
  {
    forall a: nat, b: nat | IsRun(pages, a, b, 0) ensures pages[b] - pages[a] + 1 <= maxPages {
      RunLength(pages, a, b);
    }
  }

  /** What a successful native read leaves in the output, for a request that cannot be torn. */
  lemma ReadIsLookup(output: seq<Byte>, file: seq<Byte>, p: Plan, q: Request, c: Config, l: Layout, at: nat, chunk: nat)
    requires ValidLayout(l) && q == RequestFor(l, q.ids, at) && |q.ids| <= chunk && Untorn(l, c, q.ids, chunk)
    requires GoodPlan(p, q, c) && ContiguousRowsReceived(output, file, p, q) && at <= |output|
    ensures EndToEnd.IsLookup(output, at, file, l.g, q.ids)
  {
    if NoneCrosses(l.g, q.ids) {
      assert NoRowCrosses(q);
    } else {
      FitsRangeIff(q, c, 2 * chunk);
      FewPagesShortRuns(p.pages, Limit(q, c) / 4096);
      RunsFitIff(p.pages, q, c);
    }
    AllRowsContiguous(p, q, c);
    EndToEnd.RowsAllReceived(output, file, p, q);
    EndToEnd.ReceivedIsLookup(output, at, file, l.g, q.ids);
  }

  lemma ReadsAreLookups(output: seq<Byte>, file: seq<Byte>, p: Plan, q: Request, c: Config, l: Layout, at: nat)
    requires ValidLayout(l) && q == RequestFor(l, q.ids, at) && GoodPlan(p, q, c) && at <= |output|
    requires q.g.rowBytes <= 4096 ==> ContiguousRowsReceived(output, file, p, q)
    ensures forall k: nat :: |q.ids| <= k && Untorn(l, c, q.ids, k) ==> EndToEnd.IsLookup(output, at, file, l.g, q.ids)
  {
    forall k: nat | |q.ids| <= k && Untorn(l, c, q.ids, k) ensures EndToEnd.IsLookup(output, at, file, l.g, q.ids) {
      ReadIsLookup(output, file, p, q, c, l, at, k);
    }
  }

  // ---- the reader ----

  datatype ReadError =
    | Closed
    | NegativeOffset
    | ChunkedReadRequired
    | CannotHoldRow
    | NoFreeSlot
    | NotOwned
    | SlotsActive
    | WrongSlotCount
    | BadOutput
    | Native(e: PlanError)

  /** A view into an output slot; an empty request gets no slot. */
  datatype Lease = Lease(slot: nat, at: nat, count: nat) | Empty

  function Mapped(e: PlanError): ReadError {
    if e.StagingExceeded? then ChunkedReadRequired else Native(e)
  }

  /** Only bytes `lo..hi` may differ. */
  ghost predicate KeptOutside(before: seq<Byte>, after: seq<Byte>, lo: int, hi: int) {
    |before| == |after| && forall b :: 0 <= b < |before| && !(lo <= b < hi) ==> after[b] == before[b]
  }

  // ---- chunks put together ----

  lemma {:induction false} LookupConcat(file: seq<Byte>, g: Geometry, a: seq<int>, b: seq<int>, all: seq<int>)
    requires all == a + b && EndToEnd.RowsReadable(file, g, a) && EndToEnd.RowsReadable(file, g, b)
    ensures EndToEnd.RowsReadable(file, g, all)
    ensures EndToEnd.Lookup(file, g, all) == EndToEnd.Lookup(file, g, a) + EndToEnd.Lookup(file, g, b)
    decreases |b|
  {
    if b == [] {
      assert all == a;
    } else {
      var n := |b| - 1;
      LookupConcat(file, g, a, b[..n], a + b[..n]);
      assert all[..|all| - 1] == a + b[..n] && all[|all| - 1] == b[n];
      LastRow(file, g, b);
      LastRow(file, g, all);
      var x, y, z := EndToEnd.Lookup(file, g, a), EndToEnd.Lookup(file, g, b[..n]), NaiveRow(file, g, b[n]);
      assert x + (y + z) == (x + y) + z;
    }
  }

  lemma LastRow(file: seq<Byte>, g: Geometry, ids: seq<int>)
    requires EndToEnd.RowsReadable(file, g, ids) && ids != []
    ensures EndToEnd.RowsReadable(file, g, ids[..|ids| - 1])
    ensures EndToEnd.Lookup(file, g, ids)
            == EndToEnd.Lookup(file, g, ids[..|ids| - 1]) + NaiveRow(file, g, ids[|ids| - 1])
  {}

  /** `rows` stands at `at` in the output. */
  ghost predicate Placed(output: seq<Byte>, at: int, rows: seq<Byte>) {
    0 <= at && at + |rows| <= |output| && output[at..at + |rows|] == rows
  }

  lemma OneRowMore(m: nat, n: nat, rowBytes: nat)
    requires n == m + 1
    ensures n * rowBytes == m * rowBytes + rowBytes
  {}

  lemma {:induction false} LookupLength(file: seq<Byte>, g: Geometry, ids: seq<int>)
    requires EndToEnd.RowsReadable(file, g, ids)
    ensures |EndToEnd.Lookup(file, g, ids)| == |ids| * g.rowBytes
  {
    if ids != [] {
      LookupLength(file, g, ids[..|ids| - 1]);
      OneRowMore(|ids| - 1, |ids|, g.rowBytes);
    }
  }

  lemma LookupIsPlaced(output: seq<Byte>, at: nat, file: seq<Byte>, g: Geometry, ids: seq<int>)
    requires EndToEnd.IsLookup(output, at, file, g, ids)
    ensures Placed(output, at, EndToEnd.Lookup(file, g, ids))
  {
    LookupLength(file, g, ids);
  }

  lemma JoinPlaced(before: seq<Byte>, after: seq<Byte>, at: int, x: seq<Byte>, y: seq<Byte>)
    requires Placed(before, at, x) && Placed(after, at + |x|, y)
    requires KeptOutside(before, after, at + |x|, at + |x| + |y|)
    ensures Placed(after, at, x + y)
  {
    assert after[at..at + |x|] == x;
    assert after[at..at + |x| + |y|] == after[at..at + |x|] + after[at + |x|..at + |x| + |y|];
  }

  /** A chunk read behind an earlier part of the output leaves both parts in place. */
  lemma AppendChunk(before: seq<Byte>, after: seq<Byte>, at: int, file: seq<Byte>, g: Geometry,
                    a: seq<int>, b: seq<int>, all: seq<int>, x: seq<Byte>, y: seq<Byte>)
    requires all == a + b && EndToEnd.RowsReadable(file, g, a) && EndToEnd.RowsReadable(file, g, b)
    requires x == EndToEnd.Lookup(file, g, a) && y == EndToEnd.Lookup(file, g, b)
    requires Placed(before, at, x) && Placed(after, at + |x|, y) && KeptOutside(before, after, at + |x|, at + |x| + |y|)
    ensures EndToEnd.RowsReadable(file, g, all) && Placed(after, at, EndToEnd.Lookup(file, g, all))
  {
    JoinPlaced(before, after, at, x, y);
    LookupConcat(file, g, a, b, all);
  }

  /** `rows` is the lookup of the first `start` ids. */
  ghost predicate RowsSoFar(file: seq<Byte>, g: Geometry, ids: seq<int>, start: nat, rows: seq<Byte>)
    requires start <= |ids|
  {
    EndToEnd.RowsReadable(file, g, ids[..start]) && rows == EndToEnd.Lookup(file, g, ids[..start])
  }

  lemma RowsNext(file: seq<Byte>, g: Geometry, ids: seq<int>, start: nat, end: nat, rows: seq<Byte>, part: seq<Byte>)
    requires start <= end <= |ids| && RowsSoFar(file, g, ids, start, rows)
    requires EndToEnd.RowsReadable(file, g, ids[start..end]) && part == EndToEnd.Lookup(file, g, ids[start..end])
    ensures RowsSoFar(file, g, ids, end, rows + part)
  {
    assert ids[..end] == ids[..start] + ids[start..end];
    LookupConcat(file, g, ids[..start], ids[start..end], ids[..end]);
  }

  /** The first `start` rows are the lookup, and an output that all slots share holds them. */
  ghost predicate DeliveredIn(output: Option<seq<Byte>>, file: seq<Byte>, g: Geometry, ids: seq<int>,
                              start: nat, at: int, rows: seq<Byte>)
    requires start <= |ids|
  {
    && RowsSoFar(file, g, ids, start, rows)
    && (0 < start && output.Some? ==> Placed(output.value, at, rows))
  }

  lemma PartSizes(file: seq<Byte>, g: Geometry, ids: seq<int>, start: nat, end: nat, at: int, next: int,
                  rows: seq<Byte>, part: seq<Byte>, size: nat)
    requires start <= end <= |ids| && next == at + start * g.rowBytes && size == (end - start) * g.rowBytes
    requires RowsSoFar(file, g, ids, start, rows)
    requires EndToEnd.RowsReadable(file, g, ids[start..end]) && part == EndToEnd.Lookup(file, g, ids[start..end])
    ensures next == at + |rows| && size == |part|
  {
    LookupLength(file, g, ids[..start]);
    LookupLength(file, g, ids[start..end]);
  }

  lemma DeliveredNext(before: Option<seq<Byte>>, after: Option<seq<Byte>>, file: seq<Byte>, g: Geometry, ids: seq<int>,
                      start: nat, end: nat, at: int, rows: seq<Byte>, part: seq<Byte>)
    requires start < end <= |ids| && before.Some? == after.Some? && DeliveredIn(before, file, g, ids, start, at, rows)
    requires EndToEnd.RowsReadable(file, g, ids[start..end]) && part == EndToEnd.Lookup(file, g, ids[start..end])
    requires after.Some? ==> Placed(after.value, at + |rows|, part)
                             && KeptOutside(before.value, after.value, at + |rows|, at + |rows| + |part|)
    ensures DeliveredIn(after, file, g, ids, end, at, rows + part)
  {
    RowsNext(file, g, ids, start, end, rows, part);
    if after.Some? {
      if 0 < start {
        assert ids[..end] == ids[..start] + ids[start..end];
        AppendChunk(before.value, after.value, at, file, g, ids[..start], ids[start..end], ids[..end], rows, part);
      } else {
        assert rows == [] && rows + part == part;
      }
    }
  }

  function RowsOf(leases: seq<Lease>): nat {
    if leases == [] then 0
    else RowsOf(leases[..|leases| - 1]) + (if leases[|leases| - 1].Lease? then leases[|leases| - 1].count else 0)
  }

  /** Leases that follow each other in the output without gap or overlap, from `at`. */
  ghost predicate Tiled(leases: seq<Lease>, at: int, rowBytes: nat) {
    forall k :: 0 <= k < |leases| ==>
      leases[k].Lease? && leases[k].count > 0 && leases[k].at == at + RowsOf(leases[..k]) * rowBytes
  }

  lemma TileNext(leases: seq<Lease>, lease: Lease, at: int, rowBytes: nat)
    requires Tiled(leases, at, rowBytes) && lease.Lease? && lease.count > 0
    requires lease.at == at + RowsOf(leases) * rowBytes
    ensures Tiled(leases + [lease], at, rowBytes) && RowsOf(leases + [lease]) == RowsOf(leases) + lease.count
  {
    var all := leases + [lease];
    assert all[..|leases|] == leases;
    forall k | 0 <= k < |all| ensures all[k].at == at + RowsOf(all[..k]) * rowBytes {
      assert k < |leases| ==> all[..k] == leases[..k];
    }
  }

  lemma UntornPart(l: Layout, c: Config, ids: seq<int>, part: seq<int>, chunk: nat)
    requires ValidLayout(l) && Untorn(l, c, ids, chunk) && forall i :: i in part ==> i in ids
    ensures Untorn(l, c, part, chunk)
  {
    forall i | 0 <= i < |part| && NoneCrosses(l.g, ids)
      ensures 0 <= part[i] && RowFirstPage(l.g, part[i]) == RowLastPage(l.g, part[i])
    {
      assert part[i] in ids;
    }
  }

  /** `rows` is the lookup, and an output that all slots share holds it too. */
  ghost predicate ReadIn(output: Option<seq<Byte>>, file: seq<Byte>, g: Geometry, ids: seq<int>, at: int, rows: seq<Byte>) {
    && EndToEnd.RowsReadable(file, g, ids) && rows == EndToEnd.Lookup(file, g, ids)
    && (ids != [] && output.Some? ==> Placed(output.value, at, rows))
  }

  /** Every lease is a full chunk, except that the last row may close a shorter one. */
  ghost predicate FullLeases(leases: seq<Lease>, chunk: nat, complete: bool) {
    forall k :: 0 <= k < |leases| ==>
      && leases[k].Lease? && leases[k].count <= chunk
      && (k < |leases| - 1 || !complete ==> leases[k].count == chunk)
  }

  lemma FullNext(leases: seq<Lease>, lease: Lease, chunk: nat, start: nat, end: nat, n: nat)
    requires FullLeases(leases, chunk, false) && lease.Lease? && lease.count == end - start
    requires start < n && end == if start + chunk < n then start + chunk else n
    ensures FullLeases(leases + [lease], chunk, end == n)
  {}

  /** The first `start` rows have been delivered in consecutive leases, as the lookup has them
      unless a row may be torn. */
  ghost predicate ProgressIn(output: Option<seq<Byte>>, l: Layout, c: Config, chunk: nat, file: seq<Byte>, ids: seq<int>,
                             start: nat, at: int, leases: seq<Lease>, rows: seq<Byte>)
    requires ValidLayout(l)
  {
    && start <= |ids| && (start > 0 ==> at >= 0) && Tiled(leases, at, l.g.rowBytes) && RowsOf(leases) == start
    && (Untorn(l, c, ids, chunk) ==> DeliveredIn(output, file, l.g, ids, start, at, rows))
  }

  lemma NothingYet(output: Option<seq<Byte>>, l: Layout, c: Config, chunk: nat, file: seq<Byte>, ids: seq<int>, at: int)
    requires ValidLayout(l)
    ensures ProgressIn(output, l, c, chunk, file, ids, 0, at, [], [])
  {}

  lemma PartDelivered(before: Option<seq<Byte>>, after: Option<seq<Byte>>, l: Layout, c: Config, chunk: nat,
                      file: seq<Byte>, ids: seq<int>, start: nat, end: nat, at: int, next: int, rows: seq<Byte>,
                      mid: seq<int>, part: seq<Byte>, size: nat)
    requires ValidLayout(l) && start < end <= |ids| && end - start <= chunk && mid == ids[start..end]
    requires next == at + start * l.g.rowBytes && size == (end - start) * l.g.rowBytes && before.Some? == after.Some?
    requires Untorn(l, c, ids, chunk) && DeliveredIn(before, file, l.g, ids, start, at, rows)
    requires Untorn(l, c, mid, chunk) ==> ReadIn(after, file, l.g, mid, next, part)
    requires after.Some? ==> KeptOutside(before.value, after.value, next, next + size)
    ensures DeliveredIn(after, file, l.g, ids, end, at, rows + part)
  {
    UntornPart(l, c, ids, mid, chunk);
    PartSizes(file, l.g, ids, start, end, at, next, rows, part, size);
    DeliveredNext(before, after, file, l.g, ids, start, end, at, rows, part);
  }

  lemma ProgressNext(before: Option<seq<Byte>>, after: Option<seq<Byte>>, l: Layout, c: Config, chunk: nat,
                     file: seq<Byte>, ids: seq<int>, start: nat, end: nat, at: int, next: int, leases: seq<Lease>,
                     lease: Lease, rows: seq<Byte>, mid: seq<int>, part: seq<Byte>, size: nat)
    requires ValidLayout(l) && ProgressIn(before, l, c, chunk, file, ids, start, at, leases, rows)
    requires start < end <= |ids| && end - start <= chunk && mid == ids[start..end]
    requires next == at + start * l.g.rowBytes && size == (end - start) * l.g.rowBytes && 0 <= next
    requires before.Some? == after.Some? && lease.Lease? && lease.at == next && lease.count == end - start
    requires Untorn(l, c, mid, chunk) ==> ReadIn(after, file, l.g, mid, next, part)
    requires after.Some? ==> KeptOutside(before.value, after.value, next, next + size)
    ensures ProgressIn(after, l, c, chunk, file, ids, end, at, leases + [lease], rows + part)
  {
    TileNext(leases, lease, at, l.g.rowBytes);
    if Untorn(l, c, ids, chunk) {
      PartDelivered(before, after, l, c, chunk, file, ids, start, end, at, next, rows, mid, part, size);
    }
  }

  /** Every slot is either free, once, or owned by a consumer. */
  ghost predicate Partition(free: seq<nat>, active: set<nat>, n: nat) {
    && (forall k :: 0 <= k < |free| ==> free[k] < n)
    && (forall k, m :: 0 <= k < m < |free| ==> free[k] != free[m])
    && (forall i: nat :: i in active ==> i < n)
    && (forall i: nat :: i < n ==> (i in free) != (i in active))
  }

  lemma TakeSlot(free: seq<nat>, active: set<nat>, n: nat)
    requires Partition(free, active, n) && free != []
    ensures Partition(free[1..], active + {free[0]}, n)
    ensures free[0] < n && forall i: nat :: i in free[1..] <==> i in free && i != free[0]
  {
    assert free == [free[0]] + free[1..];
  }

  lemma ReturnSlot(free: seq<nat>, active: set<nat>, n: nat, slot: nat)
    requires Partition(free, active, n) && slot in active
    ensures Partition(free + [slot], active - {slot}, n)
    ensures forall i: nat :: i in free + [slot] <==> i in free || i == slot
  {}

  function ErrorOf<T>(r: Result<T, ReadError>): Option<ReadError> {
    match r case Err(e) => Some(e) case Ok(_) => None
  }

  /** What the native reader answers for a free slot with room for the rows. */
  ghost function NativeAnswer(q: Request, c: Config, fileSize: nat): Result<Plan, PlanError>
    requires ValidRequest(q)
  {
    match PlanOf(q, c)
    case Err(e) => Err(e)
    case Ok(p) => if FileHolds(p.ranges, fileSize) then Ok(p) else Err(ShortRead)
  }

  /** Why the native reader refuses a chunk, if it does. */
  ghost function ChunkError(l: Layout, c: Config, fileSize: nat, ids: seq<int>, at: nat): Option<ReadError>
    requires ValidLayout(l)
  {
    match NativeAnswer(RequestFor(l, ids, at), c, fileSize)
    case Err(e) => Some(Mapped(e))
    case Ok(_) => None
  }

  /** Why `_read_prepared` gives no lease, if it does not. */
  ghost function LeaseError(l: Layout, c: Config, fileSize: nat, ids: seq<int>, at: int, outputBytes: nat,
                            anyFree: bool, closed: bool): Option<ReadError>
    requires ValidLayout(l)
  {
    if at < 0 then Some(NegativeOffset)
    else if at + |ids| * l.g.rowBytes > outputBytes then Some(ChunkedReadRequired)
    else if ids == [] then None
    else if !anyFree then Some(NoFreeSlot)
    else if closed then Some(Closed)
    else ChunkError(l, c, fileSize, ids, at)
  }

  /** When each error of a lease arises; what the native reader finds comes last. */
  lemma LeaseErrorIs(l: Layout, c: Config, fileSize: nat, ids: seq<int>, at: int, outputBytes: nat, anyFree: bool, closed: bool)
    requires ValidLayout(l)
    ensures var e := LeaseError(l, c, fileSize, ids, at, outputBytes, anyFree, closed);
            var fits := 0 <= at && at + |ids| * l.g.rowBytes <= outputBytes;
            var planned := NativeAnswer(RequestFor(l, ids, if at < 0 then 0 else at), c, fileSize);
            && (e == Some(NegativeOffset) <==> at < 0)
            && (e == Some(NoFreeSlot) <==> fits && ids != [] && !anyFree)
            && (e == Some(Closed) <==> fits && ids != [] && anyFree && closed)
            && (0 <= at && !fits ==> e == Some(ChunkedReadRequired))
            && (fits && ids == [] ==> e == None)
            && (fits && ids != [] && anyFree && !closed ==>
                 && (e == None <==> planned.Ok?)
                 && (e == Some(ChunkedReadRequired) <==> planned == Err(StagingExceeded))
                 && (planned.Err? && planned != Err(StagingExceeded) ==> e == Some(Native(planned.error))))
  {}

  /** The first failure among the chunks from row `start` on. */
  ghost function ChunksError(l: Layout, c: Config, fileSize: nat, ids: seq<int>, at: int, outputBytes: nat,
                             anyFree: bool, chunk: nat, start: nat): Option<ReadError>
    requires ValidLayout(l) && 0 < chunk
    decreases |ids| - start
  {
    if start >= |ids| then None
    else
      var end := if start + chunk < |ids| then start + chunk else |ids|;
      var e := LeaseError(l, c, fileSize, ids[start..end], at + start * l.g.rowBytes, outputBytes, anyFree, false);
      if e.Some? then e else ChunksError(l, c, fileSize, ids, at, outputBytes, anyFree, chunk, end)
  }

  lemma ChunksNext(l: Layout, c: Config, fileSize: nat, ids: seq<int>, at: int, outputBytes: nat,
                   anyFree: bool, chunk: nat, start: nat, end: nat)
    requires ValidLayout(l) && 0 < chunk && start < |ids| && end == if start + chunk < |ids| then start + chunk else |ids|
    ensures var e := LeaseError(l, c, fileSize, ids[start..end], at + start * l.g.rowBytes, outputBytes, anyFree, false);
            ChunksError(l, c, fileSize, ids, at, outputBytes, anyFree, chunk, start)
            == if e.Some? then e else ChunksError(l, c, fileSize, ids, at, outputBytes, anyFree, chunk, end)
  {}

  /** Why a chunked read fails, if it does. */
  ghost function ReadAllError(l: Layout, c: Config, fileSize: nat, ids: seq<int>, at: int, outputBytes: nat,
                              anyFree: bool, closed: bool): Option<ReadError>
    requires ValidLayout(l)
  {
    if closed then Some(Closed)
    else if ChunkRows(l, c, outputBytes) == 0 then Some(CannotHoldRow)
    else if ids == [] then LeaseError(l, c, fileSize, ids, at, outputBytes, anyFree, closed)
    else ChunksError(l, c, fileSize, ids, at, outputBytes, anyFree, ChunkRows(l, c, outputBytes), 0)
  }

  /** Rows of the first chunk. */
  function FirstChunk(l: Layout, c: Config, outputBytes: nat, ids: seq<int>): nat
    requires 0 < l.g.rowBytes
  {
    if ChunkRows(l, c, outputBytes) < |ids| then ChunkRows(l, c, outputBytes) else |ids|
  }

  // ---- the promise about staging ----

  lemma NeverTooLarge(l: Layout, c: Config, fileSize: nat, ids: seq<int>, at: nat)
    requires ValidLayout(l) && ValidConfig(c) && l.maxGap == 0 && |ids| * 8192 <= c.stagingCapacity
    ensures ChunkError(l, c, fileSize, ids, at) != Some(ChunkedReadRequired)
  {
    var q := RequestFor(l, ids, at);
    PlanOfMeaning(q, c);
    if PlanOf(q, c) == Err(StagingExceeded) {
      var ranges, pages :| RangesFor(ranges, pages, q, c) && TotalSize(ranges) > c.stagingCapacity;
      ChunkFitsStaging(ranges, pages, q, c);
    }
  }

  lemma PartEnds(ids: seq<int>, start: nat, end: nat, rowBytes: nat, at: nat, outputBytes: nat)
    requires start <= end <= |ids| && at + |ids| * rowBytes <= outputBytes
    ensures at + start * rowBytes + |ids[start..end]| * rowBytes <= outputBytes
  {
    MulMono(end, |ids|, rowBytes);
    assert end * rowBytes == start * rowBytes + (end - start) * rowBytes;
  }

  lemma PartNeverTooLarge(l: Layout, c: Config, fileSize: nat, ids: seq<int>, at: nat, outputBytes: nat, anyFree: bool,
                          start: nat, end: nat, next: nat)
    requires ValidLayout(l) && ValidConfig(c) && l.maxGap == 0 && start <= end <= |ids|
    requires end - start <= ChunkRows(l, c, outputBytes)
    requires next == at + start * l.g.rowBytes && at + |ids| * l.g.rowBytes <= outputBytes
    ensures LeaseError(l, c, fileSize, ids[start..end], next, outputBytes, anyFree, false) != Some(ChunkedReadRequired)
  {
    PartEnds(ids, start, end, l.g.rowBytes, at, outputBytes);
    ChunkBounds(l, c, outputBytes, end - start);
    NeverTooLarge(l, c, fileSize, ids[start..end], next);
  }

  /** Without gaps, no chunk of a request that fits the output is sent back as too large. */
  lemma {:induction false} ChunksNeverTooLarge(l: Layout, c: Config, fileSize: nat, ids: seq<int>, at: nat, outputBytes: nat,
                                               anyFree: bool, chunk: nat, start: nat)
    requires ValidLayout(l) && ValidConfig(c) && l.maxGap == 0 && 0 < chunk == ChunkRows(l, c, outputBytes)
    requires at + |ids| * l.g.rowBytes <= outputBytes
    ensures ChunksError(l, c, fileSize, ids, at, outputBytes, anyFree, chunk, start) != Some(ChunkedReadRequired)
    decreases |ids| - start
  {
    if start < |ids| {
      var end := if start + chunk < |ids| then start + chunk else |ids|;
      ChunksNext(l, c, fileSize, ids, at, outputBytes, anyFree, chunk, start, end);
      PartNeverTooLarge(l, c, fileSize, ids, at, outputBytes, anyFree, start, end, at + start * l.g.rowBytes);
      ChunksNeverTooLarge(l, c, fileSize, ids, at, outputBytes, anyFree, chunk, end);
    }
  }

  // ---- the native row capacity ----

  lemma SmallChunkHasCapacity(l: Layout, c: Config, fileSize: nat, ids: seq<int>, at: nat, outputBytes: nat)
    requires ValidLayout(l) && ValidConfig(c) && |ids| <= c.maxSpans
    ensures LeaseError(l, c, fileSize, ids, at, outputBytes, true, false) != Some(Native(RowCapacityExceeded))
  {
    PlanOfMeaning(RequestFor(l, ids, at), c);
  }

  lemma {:induction false} SmallChunksHaveCapacity(l: Layout, c: Config, fileSize: nat, ids: seq<int>, at: nat,
                                                   outputBytes: nat, chunk: nat, start: nat)
    requires ValidLayout(l) && ValidConfig(c) && 0 < chunk && (chunk <= c.maxSpans || |ids| <= c.maxSpans)
    ensures ChunksError(l, c, fileSize, ids, at, outputBytes, true, chunk, start) != Some(Native(RowCapacityExceeded))
    decreases |ids| - start
  {
    if start < |ids| {
      var end := if start + chunk < |ids| then start + chunk else |ids|;
      SmallChunkHasCapacity(l, c, fileSize, ids[start..end], at + start * l.g.rowBytes, outputBytes);
      SmallChunksHaveCapacity(l, c, fileSize, ids, at, outputBytes, chunk, end);
    }
  }

  /** A chunked read fails for want of native row capacity exactly when its first chunk is larger
      than the rows the native reader was built for. */
  lemma CapacityIff(l: Layout, c: Config, fileSize: nat, ids: seq<int>, at: nat, outputBytes: nat)
    requires ValidLayout(l) && ValidConfig(c) && ids != [] && 0 < ChunkRows(l, c, outputBytes)
    requires at + |ids| * l.g.rowBytes <= outputBytes
    ensures ReadAllError(l, c, fileSize, ids, at, outputBytes, true, false) == Some(Native(RowCapacityExceeded))
            <==> FirstChunk(l, c, outputBytes, ids) > c.maxSpans
  {
    var chunk := ChunkRows(l, c, outputBytes);
    var end := FirstChunk(l, c, outputBytes, ids);
    PartEnds(ids, 0, end, l.g.rowBytes, at, outputBytes);
    if end > c.maxSpans {
      assert PlanOf(RequestFor(l, ids[0..end], at), c) == Err(RowCapacityExceeded);
    } else {
      SmallChunksHaveCapacity(l, c, fileSize, ids, at, outputBytes, chunk, 0);
    }
  }

  /** Nonempty buffers of one length. */
  predicate SameCapacity(outputs: seq<array<Byte>>) {
    forall i :: 0 <= i < |outputs| ==> 0 < outputs[i].Length == outputs[0].Length
  }

  class Reader {
    const l: Layout
    const c: Config
    const slots: seq<Slot>
    var outputBytes: nat
    var free: seq<nat>
    var active: set<nat>
    var closed: bool

    ghost predicate Distinct() { forall i, j :: 0 <= i < j < |slots| ==> slots[i] != slots[j] }

    /** The slots, each owned by whom the queue says. */
    ghost predicate AllOwned()
      reads this, slots
    {
      && (forall i: nat :: i < |slots| ==> slots[i].Valid(c) && slots[i].outputCapacity == outputBytes)
      && (forall i: nat :: i < |slots| ==> (slots[i].released <==> i in free))
    }

    /** The native slot agrees with the queue about who owns it. */
    ghost predicate Valid()
      reads this, slots
    {
      && ValidLayout(l) && ValidConfig(c) && Distinct()
      && 0 < |slots| && Partition(free, active, |slots|) && AllOwned()
      && (closed ==> active == {})
    }

    /** `Valid` but for slot `slot`, out of the queue and not yet read into. */
    ghost predicate Taken(slot: nat)
      reads this, slots
    {
      && ValidLayout(l) && ValidConfig(c) && Distinct() && slot < |slots|
      && (forall i: nat :: i < |slots| ==> slots[i].Valid(c) && slots[i].outputCapacity == outputBytes)
      && (forall i: nat :: i < |slots| ==> (slots[i].released <==> i in free || i == slot))
    }

    /** The output all slots are bound to, if it is the same one. */
    ghost function SharedOutput(): Option<array<Byte>>
      reads slots
    {
      if |slots| > 0 && forall i :: 0 <= i < |slots| ==> slots[i].output == slots[0].output then Some(slots[0].output) else None
    }

    /** What that output holds. */
    ghost function Shared(): Option<seq<Byte>>
      reads slots, set s | s in slots :: s.output
    {
      match SharedOutput()
      case None => None
      case Some(output) => Some(output[..])
    }

    ghost function Buffers(): set<object>
      reads slots
    {
      (set s | s in slots :: s.staging as object) + (set s | s in slots :: s.output as object)
    }

    ghost predicate Holds(lease: Lease, file: seq<Byte>, ids: seq<int>)
      reads slots, set s | s in slots :: s.output
    {
      lease.Lease? && lease.slot < |slots|
      && EndToEnd.IsLookup(slots[lease.slot].output[..], lease.at, file, l.g, ids)
    }

    /** A lease of `ids` at `at`: the head of the queue, or no slot for an empty request. */
    ghost predicate LeaseFor(lease: Lease, ids: seq<int>, at: int, freeBefore: seq<nat>, activeBefore: set<nat>)
      reads this
    {
      if ids == [] then
        lease == Empty && 0 <= at && free == freeBefore && active == activeBefore
      else
        && at >= 0 && freeBefore != [] && !closed
        && lease == Lease(freeBefore[0], at, |ids|)
        && free == freeBefore[1..] && active == activeBefore + {freeBefore[0]}
    }

    method ReadPrepared(file: seq<Byte>, ids: seq<int>, at: int) returns (r: Result<Lease, ReadError>)
      requires Valid()
      modifies this, slots, Buffers()
      ensures Valid() && Buffers() == old(Buffers()) && outputBytes == old(outputBytes) && closed == old(closed)
      ensures SharedOutput() == old(SharedOutput())
      ensures ErrorOf(r) == LeaseError(l, c, |file|, ids, at, outputBytes, old(free) != [], closed)
      ensures r.Ok? ==> LeaseFor(r.value, ids, at, old(free), old(active))
      ensures forall k: nat :: r.Ok? && r.value.Lease? && |ids| <= k && Untorn(l, c, ids, k) ==> Holds(r.value, file, ids)
      ensures forall i: nat :: r.Ok? && r.value == Lease(i, at, |ids|) && i < |slots| ==>
                KeptOutside(old(slots[i].output[..]), slots[i].output[..], at, at + |ids| * l.g.rowBytes)
      ensures r.Err? ==> active == old(active) && |free| == |old(free)|
    {
      if at < 0 {
        return Err(NegativeOffset);
      }
      if at > outputBytes || |ids| * l.g.rowBytes > outputBytes - at {
        return Err(ChunkedReadRequired);
      }
      if |ids| == 0 {
        return Ok(Empty);
      }
      var acquired := Acquire();
      match acquired {
        case Err(e) => r := Err(e);
        case Ok(slot) => r := CallNative(file, ids, at, slot);
      }
    }

    /** Take the next free slot; a reader closed meanwhile puts it back. */
    method Acquire() returns (r: Result<nat, ReadError>)
      requires Valid()
      modifies `free, `active
      ensures r.Ok? ==> old(free) != [] && r.value == old(free)[0] && r.value < |slots| && !closed
      ensures r.Ok? ==> free == old(free)[1..] && active == old(active) + {r.value}
      ensures r.Ok? ==> Partition(free, active, |slots|) && Taken(r.value)
      ensures r.Err? ==> Valid() && active == old(active) && |free| == |old(free)|
      ensures r.Err? ==> if old(free) == [] then r.error == NoFreeSlot else r.error == Closed && closed
    {
      if |free| == 0 {
        return Err(NoFreeSlot);
      }
      var slot := free[0];
      TakeSlot(free, active, |slots|);
      free := free[1..];
      if closed {
        ReturnSlot(free, active + {slot}, |slots|, slot);
        free := free + [slot];
        return Err(Closed);
      }
      active := active + {slot};
      return Ok(slot);
    }

    /** The native read of a slot just taken; a failure gives the slot back. */
    method CallNative(file: seq<Byte>, ids: seq<int>, at: nat, slot: nat) returns (r: Result<Lease, ReadError>)
      requires slot in active && !closed && ids != [] && at + |ids| * l.g.rowBytes <= outputBytes
      requires slot < |slots| && Partition(free, active, |slots|) && Taken(slot)
      modifies this, slots, Buffers()
      ensures Valid() && Buffers() == old(Buffers()) && outputBytes == old(outputBytes) && !closed
      ensures SharedOutput() == old(SharedOutput())
      ensures ErrorOf(r) == ChunkError(l, c, |file|, ids, at)
      ensures r.Ok? ==> r.value == Lease(slot, at, |ids|) && free == old(free) && active == old(active)
      ensures r.Err? ==> free == old(free) + [slot] && active == old(active) - {slot}
      ensures forall k: nat :: r.Ok? && |ids| <= k && Untorn(l, c, ids, k) ==> Holds(r.value, file, ids)
      ensures r.Ok? ==> KeptOutside(old(slots[slot].output[..]), slots[slot].output[..], at, at + |ids| * l.g.rowBytes)
    {
      var native := ReadSlot(file, ids, at, slot);
      match native {
        case Err(e) => {
          PutBack(slot);
          r := Err(e);
        }
        case Ok(_) => r := Ok(Lease(slot, at, |ids|));
      }
    }

    /** The native call itself, which leaves the queue alone. */
    method ReadSlot(file: seq<Byte>, ids: seq<int>, at: nat, slot: nat) returns (r: Result<(), ReadError>)
      requires at + |ids| * l.g.rowBytes <= outputBytes && Taken(slot) && slot !in free
      modifies slots, Buffers()
      ensures Buffers() == old(Buffers()) && slots[slot].output == old(slots[slot].output)
      ensures SharedOutput() == old(SharedOutput())
      ensures ErrorOf(r) == ChunkError(l, c, |file|, ids, at)
      ensures r.Err? ==> Taken(slot)
      ensures r.Ok? ==> AllOwned()
      ensures forall k: nat :: r.Ok? && |ids| <= k && Untorn(l, c, ids, k) ==>
                EndToEnd.IsLookup(slots[slot].output[..], at, file, l.g, ids)
      ensures r.Ok? ==> KeptOutside(old(slots[slot].output[..]), slots[slot].output[..], at, at + |ids| * l.g.rowBytes)
    {
      var request := RequestFor(l, ids, at);
      var native := CallSlot(file, request, slot);
      match native {
        case Err(e) => r := Err(Mapped(e));
        case Ok(plan) => {
          PlanOfMeaning(request, c);
          ReadsAreLookups(slots[slot].output[..], file, plan, request, c, l, at);
          r := Ok(());
        }
      }
    }

    method CallSlot(file: seq<Byte>, q: Request, slot: nat) returns (r: Result<Plan, PlanError>)
      requires ValidRequest(q) && q.outputOffset + |q.ids| * q.g.rowBytes <= outputBytes && Taken(slot) && slot !in free
      modifies slots, Buffers()
      ensures Buffers() == old(Buffers()) && slots[slot].output == old(slots[slot].output)
      ensures SharedOutput() == old(SharedOutput())
      ensures r == NativeAnswer(q, c, |file|)
      ensures r.Err? ==> Taken(slot)
      ensures r.Ok? ==> AllOwned()
      ensures r.Ok? && q.g.rowBytes <= 4096 ==> ContiguousRowsReceived(slots[slot].output[..], file, r.value, q)
      ensures r.Ok? ==> KeptOutside(old(slots[slot].output[..]), slots[slot].output[..],
                                    q.outputOffset, q.outputOffset + |q.ids| * q.g.rowBytes)
    {
      r := slots[slot].ReadIds(file, q, c);
    }

    /** The bookkeeping shared by a failed read and a release. */
    method PutBack(slot: nat)
      requires Partition(free, active, |slots|) && slot in active
      modifies `free, `active
      ensures active == old(active) - {slot} && free == old(free) + [slot]
      ensures Partition(free, active, |slots|) && forall i: nat :: i in free <==> i in old(free) || i == slot
    {
      ReturnSlot(free, active, |slots|, slot);
      active := active - {slot};
      free := free + [slot];
    }

    method Release(slot: nat) returns (ok: bool)
      requires Valid()
      modifies this, slots
      ensures Valid() && Buffers() == old(Buffers()) && outputBytes == old(outputBytes) && closed == old(closed)
      ensures SharedOutput() == old(SharedOutput())
      ensures forall i :: 0 <= i < |slots| ==> slots[i].output == old(slots[i].output)
      ensures ok <==> slot in old(active)
      ensures ok ==> active == old(active) - {slot} && free == old(free) + [slot]
      ensures !ok ==> active == old(active) && free == old(free)
    {
      if slot !in active {
        return false;
      }
      ok := slots[slot].Release();
      PutBack(slot);
    }

    /** Take a lease and copy its rows. */
    method TakeAndCopy(file: seq<Byte>, ids: seq<int>, at: int) returns (r: Result<Lease, ReadError>, rows: seq<Byte>)
      requires Valid()
      modifies this, slots, Buffers()
      ensures Valid() && Buffers() == old(Buffers()) && outputBytes == old(outputBytes) && closed == old(closed)
      ensures SharedOutput() == old(SharedOutput())
      ensures ErrorOf(r) == LeaseError(l, c, |file|, ids, at, outputBytes, old(free) != [], closed)
      ensures r.Err? ==> active == old(active) && |free| == |old(free)|
      ensures r.Ok? ==> LeaseFor(r.value, ids, at, old(free), old(active))
      ensures forall k: nat :: r.Ok? && |ids| <= k && Untorn(l, c, ids, k) ==> IsRead(rows, file, ids, at)
      ensures r.Ok? && ids != [] && Shared().Some? ==>
                KeptOutside(old(Shared()).value, Shared().value, at, at + |ids| * l.g.rowBytes)
    {
      rows := [];
      r := ReadPrepared(file, ids, at);
      if r.Ok? && r.value.Lease? {
        rows := CopyRows(r.value, file, ids, at, |ids| * l.g.rowBytes);
      }
    }

    method CopyRows(lease: Lease, ghost file: seq<Byte>, ghost ids: seq<int>, at: nat, size: nat) returns (rows: seq<Byte>)
      requires Valid() && lease.Lease? && lease.slot < |slots| && lease.at == at
      requires size == |ids| * l.g.rowBytes && at + size <= outputBytes
      ensures Holds(lease, file, ids) ==> IsRead(rows, file, ids, at)
    {
      rows := slots[lease.slot].output[at..at + size];
      CopiedIsRead(lease, file, ids, rows);
    }

    ghost predicate IsRead(rows: seq<Byte>, file: seq<Byte>, ids: seq<int>, at: int)
      reads slots, set s | s in slots :: s.output
    {
      ReadIn(Shared(), file, l.g, ids, at, rows)
    }

    lemma CopiedIsRead(lease: Lease, file: seq<Byte>, ids: seq<int>, rows: seq<Byte>)
      requires lease.Lease? && lease.slot < |slots|
      ensures Holds(lease, file, ids) && rows == slots[lease.slot].output[lease.at..lease.at + |ids| * l.g.rowBytes] ==>
                IsRead(rows, file, ids, lease.at)
    {
      if Holds(lease, file, ids) {
        LookupIsPlaced(slots[lease.slot].output[..], lease.at, file, l.g, ids);
      }
    }

    /** One turn of the loop around `iter_read_at`: take the lease, copy its rows, release it. */
    method ReadChunk(file: seq<Byte>, ids: seq<int>, at: int) returns (r: Result<Lease, ReadError>, rows: seq<Byte>)
      requires Valid()
      modifies this, slots, Buffers()
      ensures Valid() && Buffers() == old(Buffers()) && outputBytes == old(outputBytes) && closed == old(closed)
      ensures SharedOutput() == old(SharedOutput())
      ensures active == old(active) && |free| == |old(free)|
      ensures ErrorOf(r) == LeaseError(l, c, |file|, ids, at, outputBytes, old(free) != [], closed)
      ensures r.Ok? ==> at >= 0 && if ids == [] then r.value == Empty
                                   else r.value.Lease? && r.value.at == at && r.value.count == |ids|
      ensures forall k: nat :: r.Ok? && |ids| <= k && Untorn(l, c, ids, k) ==> IsRead(rows, file, ids, at)
      ensures r.Ok? && ids != [] && Shared().Some? ==>
                KeptOutside(old(Shared()).value, Shared().value, at, at + |ids| * l.g.rowBytes)
    {
      r, rows := TakeAndCopy(file, ids, at);
      if r.Ok? && r.value.Lease? {
        var ok := Release(r.value.slot);
      }
    }

    ghost predicate Progress(file: seq<Byte>, ids: seq<int>, start: nat, at: int, leases: seq<Lease>, rows: seq<Byte>)
      reads this, slots, set s | s in slots :: s.output
    {
      ValidLayout(l) && ProgressIn(Shared(), l, c, ChunkRows(l, c, outputBytes), file, ids, start, at, leases, rows)
    }

    /** One chunk: a step of the generator and of its consumer. */
    method ReadNext(file: seq<Byte>, ids: seq<int>, start: nat, end: nat, at: int, ghost leases: seq<Lease>, ghost rows: seq<Byte>)
      returns (r: Result<Lease, ReadError>, part: seq<Byte>)
      requires Valid() && Progress(file, ids, start, at, leases, rows)
      requires start < end <= |ids| && end - start <= ChunkRows(l, c, outputBytes)
      modifies this, slots, Buffers()
      ensures Valid() && Buffers() == old(Buffers()) && outputBytes == old(outputBytes) && closed == old(closed)
      ensures SharedOutput() == old(SharedOutput())
      ensures active == old(active) && |free| == |old(free)|
      ensures r.Ok? ==> Progress(file, ids, end, at, leases + [r.value], rows + part)
      ensures r.Ok? ==> r.value.Lease? && r.value.count == end - start
      ensures ErrorOf(r) == LeaseError(l, c, |file|, ids[start..end], at + start * l.g.rowBytes, outputBytes, old(free) != [], closed)
    {
      ghost var before := Shared();
      var mid, next := ids[start..end], at + start * l.g.rowBytes;
      r, part := ReadChunk(file, mid, next);
      if r.Ok? {
        ProgressNext(before, Shared(), l, c, ChunkRows(l, c, outputBytes), file, ids, start, end, at, next, leases, r.value,
                     rows, mid, part, (end - start) * l.g.rowBytes);
      }
    }

    /** `iter_read_at` driven to its end by a consumer that copies each lease and releases it. It
        fails exactly with the first failing chunk; otherwise everything has been delivered. */
    method ReadAll(file: seq<Byte>, ids: seq<int>, at: int)
      returns (r: Result<seq<Lease>, ReadError>, rows: seq<Byte>)
      requires Valid()
      modifies this, slots, Buffers()
      ensures Valid() && Buffers() == old(Buffers()) && outputBytes == old(outputBytes) && closed == old(closed)
      ensures SharedOutput() == old(SharedOutput())
      ensures active == old(active) && |free| == |old(free)|
      ensures ErrorOf(r) == ReadAllError(l, c, |file|, ids, at, outputBytes, old(free) != [], closed)
      ensures r.Ok? && ids == [] ==> r.value == [Empty]
      ensures r.Ok? && ids != [] ==> Progress(file, ids, |ids|, at, r.value, rows)
      ensures r.Ok? && ids != [] ==> FullLeases(r.value, ChunkRows(l, c, outputBytes), true)
    {
      rows := [];
      if closed {
        return Err(Closed), rows;
      }
      var chunk := ChunkRows(l, c, outputBytes);
      if chunk <= 0 {
        return Err(CannotHoldRow), rows;
      }
      if |ids| == 0 {
        var lease, none := ReadChunk(file, ids, at);
        match lease {
          case Err(e) => return Err(e), rows;
          case Ok(v) => return Ok([v]), none;
        }
      }
      r, rows := ReadChunks(file, ids, at, chunk);
    }

    method ReadChunks(file: seq<Byte>, ids: seq<int>, at: int, chunk: nat)
      returns (r: Result<seq<Lease>, ReadError>, rows: seq<Byte>)
      requires Valid() && !closed && chunk == ChunkRows(l, c, outputBytes) && 0 < chunk
      modifies this, slots, Buffers()
      ensures Valid() && Buffers() == old(Buffers()) && outputBytes == old(outputBytes) && !closed
      ensures SharedOutput() == old(SharedOutput())
      ensures active == old(active) && |free| == |old(free)|
      ensures ErrorOf(r) == ChunksError(l, c, |file|, ids, at, outputBytes, old(free) != [], chunk, 0)
      ensures r.Ok? ==> Progress(file, ids, |ids|, at, r.value, rows) && FullLeases(r.value, chunk, true)
    {
      rows := [];
      r := Ok([]);
      var start := 0;
      NothingYet(Shared(), l, c, chunk, file, ids, at);
      ghost var anyFree := free != [];
      ghost var failure := ChunksError(l, c, |file|, ids, at, outputBytes, anyFree, chunk, 0);
      while start < |ids|
        invariant start <= |ids| && outputBytes == old(outputBytes) && !closed
        invariant Valid() && Buffers() == old(Buffers()) && SharedOutput() == old(SharedOutput())
        invariant active == old(active) && |free| == |old(free)|
        invariant r.Ok? && Progress(file, ids, start, at, r.value, rows) && FullLeases(r.value, chunk, start == |ids|)
        invariant failure == ChunksError(l, c, |file|, ids, at, outputBytes, anyFree, chunk, start)
        decreases |ids| - start
      {
        var lease, part, end := NextChunk(file, ids, start, at, chunk, r.value, rows, anyFree);
        match lease {
          case Err(e) => return Err(e), rows;
          case Ok(v) => {
            FullNext(r.value, v, chunk, start, end, |ids|);
            r, rows := Ok(r.value + [v]), rows + part;
          }
        }
        start := end;
      }
    }

    /** One turn of the loop: the next chunk, of full size if as many rows are left. */
    method NextChunk(file: seq<Byte>, ids: seq<int>, start: nat, at: int, chunk: nat, ghost leases: seq<Lease>,
                     ghost rows: seq<Byte>, ghost anyFree: bool)
      returns (r: Result<Lease, ReadError>, part: seq<Byte>, end: nat)
      requires Valid() && !closed && chunk == ChunkRows(l, c, outputBytes) && 0 < chunk && start < |ids|
      requires Progress(file, ids, start, at, leases, rows) && anyFree == (free != [])
      modifies this, slots, Buffers()
      ensures Valid() && Buffers() == old(Buffers()) && outputBytes == old(outputBytes) && !closed
      ensures SharedOutput() == old(SharedOutput())
      ensures active == old(active) && |free| == |old(free)|
      ensures end == if start + chunk < |ids| then start + chunk else |ids|
      ensures r.Ok? ==> r.value.Lease? && r.value.count == end - start
      ensures r.Ok? ==> Progress(file, ids, end, at, leases + [r.value], rows + part)
      ensures r.Ok? ==> ChunksError(l, c, |file|, ids, at, outputBytes, anyFree, chunk, start)
                        == ChunksError(l, c, |file|, ids, at, outputBytes, anyFree, chunk, end)
      ensures r.Err? ==> ChunksError(l, c, |file|, ids, at, outputBytes, anyFree, chunk, start) == Some(r.error)
    {
      end := if start + chunk < |ids| then start + chunk else |ids|;
      ChunksNext(l, c, |file|, ids, at, outputBytes, anyFree, chunk, start, end);
      r, part := ReadNext(file, ids, start, end, at, leases, rows);
    }

    /** A rebinding to larger outputs, followed by a read of more rows than the native reader was
        built for: the read fails on its first chunk. */
    method RebindAndRead(outputs: seq<array<Byte>>, file: seq<Byte>, ids: seq<int>)
      returns (bound: Result<(), ReadError>, r: Result<seq<Lease>, ReadError>)
      requires Valid() && !closed && active == {} && |outputs| == |slots| && SameCapacity(outputs)
      requires forall i, j :: 0 <= i < |outputs| && 0 <= j < |slots| ==> outputs[i] != slots[j].staging
      requires |ids| * l.g.rowBytes <= outputs[0].Length && FirstChunk(l, c, outputs[0].Length, ids) > c.maxSpans
      modifies this, slots, outputs, Buffers()
      ensures bound.Ok? && r == Err(Native(RowCapacityExceeded))
    {
      bound := Rebind(outputs);
      assert free != [] by {
        assert 0 in free;
      }
      CapacityIff(l, c, |file|, ids, 0, outputBytes);
      var rows;
      r, rows := ReadAll(file, ids, 0);
    }

    /** `rebind_output_slots`: only while no consumer owns a slot. The row capacity of the native
        reader stays what it was, so larger outputs do not allow larger chunks. */
    method Rebind(outputs: seq<array<Byte>>) returns (r: Result<(), ReadError>)
      requires Valid()
      requires forall i, j :: 0 <= i < |outputs| && 0 <= j < |slots| ==> outputs[i] != slots[j].staging
      modifies this, slots
      ensures Valid() && free == old(free) && active == old(active) && closed == old(closed)
      ensures r == if closed then Err(Closed)
                   else if |outputs| != |slots| then Err(WrongSlotCount)
                   else if active != {} then Err(SlotsActive)
                   else if !SameCapacity(outputs) then Err(BadOutput)
                   else Ok(())
      ensures r.Ok? ==> outputBytes == outputs[0].Length && forall i :: 0 <= i < |slots| ==> slots[i].output == outputs[i]
      ensures r.Ok? ==> forall i :: 0 <= i < |slots| ==> !slots[i].consumerEventRecorded && !slots[i].gatherEventRecorded
      ensures r.Err? ==> outputBytes == old(outputBytes) && forall i :: 0 <= i < |slots| ==> slots[i].output == old(slots[i].output)
    {
      if closed {
        return Err(Closed);
      }
      if |outputs| != |slots| {
        return Err(WrongSlotCount);
      }
      if active != {} {
        return Err(SlotsActive);
      }
      if !SameCapacity(outputs) {
        return Err(BadOutput);
      }
      BindAll(outputs);
      outputBytes := outputs[0].Length;
      return Ok(());
    }

    method BindAll(outputs: seq<array<Byte>>)
      requires Distinct() && |outputs| == |slots|
      modifies slots
      ensures forall i :: 0 <= i < |slots| ==> slots[i].output == outputs[i] && slots[i].outputCapacity == outputs[i].Length
      ensures forall i :: 0 <= i < |slots| ==> !slots[i].consumerEventRecorded && !slots[i].gatherEventRecorded
      ensures forall i :: 0 <= i < |slots| ==> slots[i].released == old(slots[i].released)
    {
      for k := 0 to |slots|
        invariant forall i :: 0 <= i < k ==> slots[i].output == outputs[i] && slots[i].outputCapacity == outputs[i].Length
        invariant forall i :: 0 <= i < k ==> !slots[i].consumerEventRecorded && !slots[i].gatherEventRecorded
        invariant forall i :: 0 <= i < |slots| ==> slots[i].released == old(slots[i].released)
      {
        slots[k].Rebind(outputs[k]);
      }
    }

    /** A closed reader has no consumers, and stays closed. */
    method Close() returns (r: Result<(), ReadError>)
      requires Valid()
      modifies `closed
      ensures Valid()
      ensures r == if !old(closed) && active != {} then Err(SlotsActive) else Ok(())
      ensures closed == (old(closed) || active == {})
    {
      if closed {
        return Ok(());
      }
      if active != {} {
        return Err(SlotsActive);
      }
      closed := true;
      return Ok(());
    }
  }
}
