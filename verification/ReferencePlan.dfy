/** The reference page planner: which aligned ranges a list of rows needs, and where each
    row lies in the staging buffer once the ranges have been read one after the other.

    Unlike the native planner it has no range limit and no lanes, so a row that crosses a
    page boundary can never be torn apart. */
module ReferencePlan {
  import opened Pages
  import Spans

  datatype Component = Component(name: string, rowBytes: nat, baseOffset: nat, blockStride: nat)

  datatype Metadata = Metadata(rowCount: nat, alignment: nat, blockRows: nat, components: seq<Component>)

  datatype PageRange = PageRange(firstPage: nat, lastPage: nat, fileOffset: nat, size: nat, stagingOffset: nat)

  /** The two lookup errors of the caller and the two internal assertions. */
  datatype PlanError = IndexError(id: int) | KeyError(name: string) | NotCovered(id: int) | NotContiguous(id: int)

  datatype Plan = Plan(uniqueRowIds: seq<nat>, uniquePageCount: nat, ranges: seq<PageRange>,
                       gatherOffsets: seq<nat>, requestedBytes: nat, readBytes: nat)

  function GeometryOf(m: Metadata, c: Component): Geometry {
    Geometry(c.baseOffset, m.blockRows, c.blockStride, c.rowBytes)
  }

  // ---- what a plan has to be ----

  predicate Addressable(g: Geometry, align: nat) { 0 < g.blockRows && 0 < g.rowBytes && 0 < align }

  predicate Needs(g: Geometry, align: nat, id: nat, page: nat)
    requires Addressable(g, align)
  {
    RowOffset(g, id) / align <= page <= (RowOffset(g, id) + g.rowBytes - 1) / align
  }

  ghost predicate Wanted(g: Geometry, align: nat, ids: seq<nat>, page: nat)
    requires Addressable(g, align)
  {
    exists id :: id in ids && Needs(g, align, id, page)
  }

  predicate Covers(r: PageRange, page: nat) { r.firstPage <= page <= r.lastPage }

  ghost predicate Covered(ranges: seq<PageRange>, page: nat) {
    exists i :: 0 <= i < |ranges| && Covers(ranges[i], page)
  }

  /** Ranges in page order with an unplanned page between any two: nothing could be joined. */
  ghost predicate Gapped(ranges: seq<PageRange>) {
    && (forall i :: 0 <= i < |ranges| ==> ranges[i].firstPage <= ranges[i].lastPage)
    && (forall i, j :: 0 <= i < j < |ranges| ==> ranges[i].lastPage + 1 < ranges[j].firstPage)
  }

  ghost predicate Exactly(ranges: seq<PageRange>, pages: seq<nat>) {
    forall p: nat :: Covered(ranges, p) <==> p in pages
  }

  ghost predicate Measured(ranges: seq<PageRange>, align: nat) {
    forall i :: 0 <= i < |ranges| ==>
      && ranges[i].fileOffset == ranges[i].firstPage * align
      && ranges[i].size == (ranges[i].lastPage - ranges[i].firstPage + 1) * align
  }

  function Total(ranges: seq<PageRange>): nat {
    if ranges == [] then 0 else Total(ranges[..|ranges| - 1]) + ranges[|ranges| - 1].size
  }

  /** Ranges lie one after the other in staging, from offset zero. */
  ghost predicate BackToBack(ranges: seq<PageRange>) {
    forall i :: 0 <= i < |ranges| ==> ranges[i].stagingOffset == Total(ranges[..i])
  }

  /** The range holding a whole row, and the row's place inside it. */
  predicate RowInRange(g: Geometry, id: nat, r: PageRange, at: nat)
    requires 0 < g.blockRows
  {
    && r.fileOffset <= RowOffset(g, id)
    && RowOffset(g, id) + g.rowBytes <= r.fileOffset + r.size
    && at == r.stagingOffset + (RowOffset(g, id) - r.fileOffset)
  }

  ghost predicate Gathers(g: Geometry, id: nat, ranges: seq<PageRange>, at: nat)
    requires 0 < g.blockRows
  {
    exists i :: 0 <= i < |ranges| && RowInRange(g, id, ranges[i], at)
  }

  /** Every wanted page is read, and no other. */
  ghost predicate CoversWanted(g: Geometry, align: nat, ids: seq<nat>, ranges: seq<PageRange>)
    requires Addressable(g, align)
  {
    forall p: nat :: Covered(ranges, p) <==> Wanted(g, align, ids, p)
  }

  ghost predicate GathersAll(g: Geometry, ids: seq<nat>, ranges: seq<PageRange>, offsets: seq<nat>)
    requires 0 < g.blockRows
  {
    |offsets| == |ids| && forall j :: 0 <= j < |ids| ==> Gathers(g, ids[j], ranges, offsets[j])
  }

  ghost predicate SameRows(unique: seq<nat>, ids: seq<nat>) {
    Increasing(unique) && forall id :: id in unique <==> id in ids
  }

  /** Everything the planner promises for rows that exist. */
  ghost predicate GoodPlan(g: Geometry, align: nat, ids: seq<nat>, plan: Plan)
    requires Addressable(g, align)
  {
    && SameRows(plan.uniqueRowIds, ids)
    && Gapped(plan.ranges) && Measured(plan.ranges, align) && BackToBack(plan.ranges)
    && CoversWanted(g, align, ids, plan.ranges)
    && plan.readBytes == Total(plan.ranges) == plan.uniquePageCount * align
    && plan.requestedBytes == |ids| * g.rowBytes
    && GathersAll(g, ids, plan.ranges, plan.gatherOffsets)
  }

  // ---- collecting and merging pages ----

  method CollectPages(g: Geometry, align: nat, unique: seq<nat>) returns (pages: seq<nat>)
    requires Addressable(g, align)
    ensures Increasing(pages) && forall p: nat :: p in pages <==> Wanted(g, align, unique, p)
  {
    pages := [];
    for i := 0 to |unique|
      invariant forall p: nat :: p in pages <==> Wanted(g, align, unique[..i], p)
    {
      var offset := RowOffset(g, unique[i]);
      var first, last := offset / align, (offset + g.rowBytes - 1) / align;
      LastNotBefore(offset, g.rowBytes, align);
      ghost var before := pages;
      for page := first to last + 1
        invariant forall p: nat :: p in pages <==> p in before || first <= p < page
      {
        pages := pages + [page];
      }
      WantedStep(g, align, unique, i, before, pages);
    }
    assert unique[..|unique|] == unique;
    pages := Spans.SortedUnique(pages);
  }

  lemma LastNotBefore(offset: nat, size: nat, align: nat)
    requires 0 < size && 0 < align
    ensures offset / align <= (offset + size - 1) / align
  {
    DivBounds(offset, align);
    DivBounds(offset + size - 1, align);
    var a, b := offset / align, (offset + size - 1) / align;
    if b < a {
      MulMono(b + 1, a, align);
    }
  }

  lemma WantedStep(g: Geometry, align: nat, unique: seq<nat>, i: nat, before: seq<nat>, after: seq<nat>)
    requires Addressable(g, align) && i < |unique|
    requires forall p: nat :: p in before <==> Wanted(g, align, unique[..i], p)
    requires forall p: nat :: p in after <==> p in before || Needs(g, align, unique[i], p)
    ensures forall p: nat :: p in after <==> Wanted(g, align, unique[..i + 1], p)
  {
    assert unique[..i + 1] == unique[..i] + [unique[i]];
    forall p: nat ensures p in after <==> Wanted(g, align, unique[..i + 1], p) {
      if p in before {
        assert Wanted(g, align, unique[..i], p);
      }
    }
  }

  /** The ranges of the pages handled so far. */
  ghost predicate MergedSoFar(ranges: seq<PageRange>, done: seq<nat>, align: nat) {
    && Gapped(ranges) && Exactly(ranges, done) && Measured(ranges, align)
    && Total(ranges) == |done| * align
    && (ranges == []) == (done == [])
    && (ranges != [] ==> ranges[|ranges| - 1].lastPage == done[|done| - 1])
  }

  method MergeNeighbours(pages: seq<nat>, align: nat) returns (ranges: seq<PageRange>)
    requires Increasing(pages)
    ensures MergedSoFar(ranges, pages, align)
  {
    ranges := [];
    for k := 0 to |pages|
      invariant MergedSoFar(ranges, pages[..k], align)
    {
      var page, n := pages[k], |ranges|;
      ghost var done := pages[..k];
      assert pages[..k + 1] == done + [page];
      if ranges != [] && page == ranges[n - 1].lastPage + 1 {
        var grown := ranges[n - 1].(lastPage := page, size := ranges[n - 1].size + align);
        GrowRange(ranges, done, page, align, grown);
        ranges := ranges[n - 1 := grown];
      } else {
        var start := PageRange(page, page, page * align, align, 0);
        StartRange(ranges, done, page, align, start);
        ranges := ranges + [start];
      }
    }
    assert pages[..|pages|] == pages;
  }

  lemma GrownSize(first: nat, last: nat, size: nat, align: nat)
    requires first <= last && size == (last - first + 1) * align
    ensures size + align == (last + 1 - first + 1) * align
  {}

  lemma GrowCovers(ranges: seq<PageRange>, page: nat, grown: PageRange, p: nat)
    requires ranges != [] && page == ranges[|ranges| - 1].lastPage + 1 && Gapped(ranges)
    requires grown.firstPage == ranges[|ranges| - 1].firstPage && grown.lastPage == page
    ensures Covered(ranges[|ranges| - 1 := grown], p) <==> Covered(ranges, p) || p == page
  {
    var n := |ranges|;
    var after := ranges[n - 1 := grown];
    if Covered(ranges, p) {
      var i :| 0 <= i < n && Covers(ranges[i], p);
      assert Covers(after[i], p);
    }
    if p == page {
      assert Covers(after[n - 1], p);
    }
    if Covered(after, p) && p != page {
      var i :| 0 <= i < n && Covers(after[i], p);
      assert Covers(ranges[i], p);
    }
  }

  lemma AppendCovers(ranges: seq<PageRange>, item: PageRange, p: nat)
    ensures Covered(ranges + [item], p) <==> Covered(ranges, p) || Covers(item, p)
  {
    var n := |ranges|;
    var after := ranges + [item];
    if Covered(ranges, p) {
      var i :| 0 <= i < n && Covers(ranges[i], p);
      assert Covers(after[i], p);
    }
    if Covers(item, p) {
      assert Covers(after[n], p);
    }
    if Covered(after, p) && !Covers(item, p) {
      var i :| 0 <= i <= n && Covers(after[i], p);
      assert Covers(ranges[i], p);
    }
  }

  lemma GrowRange(ranges: seq<PageRange>, done: seq<nat>, page: nat, align: nat, grown: PageRange)
    requires ranges != [] && MergedSoFar(ranges, done, align)
    requires page == ranges[|ranges| - 1].lastPage + 1
    requires grown == ranges[|ranges| - 1].(lastPage := page, size := ranges[|ranges| - 1].size + align)
    ensures MergedSoFar(ranges[|ranges| - 1 := grown], done + [page], align)
  {
    var n := |ranges|;
    var after := ranges[n - 1 := grown];
    forall p: nat ensures Covered(after, p) <==> p in done + [page] {
      GrowCovers(ranges, page, grown, p);
    }
    GrownSize(grown.firstPage, page - 1, ranges[n - 1].size, align);
    assert after[..n - 1] == ranges[..n - 1];
  }

  lemma StartRange(ranges: seq<PageRange>, done: seq<nat>, page: nat, align: nat, start: PageRange)
    requires Increasing(done + [page]) && MergedSoFar(ranges, done, align)
    requires ranges != [] ==> ranges[|ranges| - 1].lastPage + 1 != page
    requires start == PageRange(page, page, page * align, align, 0)
    ensures MergedSoFar(ranges + [start], done + [page], align)
  {
    StartExactly(ranges, done, page, start);
    StartGapped(ranges, done, page, start);
    StartMeasured(ranges, start, align);
    AppendTotal(ranges, start);
    OneMore(|done|, |done + [page]|, align);
  }

  lemma OneMore(n: nat, m: nat, align: nat)
    requires m == n + 1
    ensures m * align == n * align + align
  {}

  lemma StartMeasured(ranges: seq<PageRange>, start: PageRange, align: nat)
    requires Measured(ranges, align) && start.firstPage == start.lastPage
    requires start.fileOffset == start.firstPage * align && start.size == align
    ensures Measured(ranges + [start], align)
  {}

  lemma AppendTotal(ranges: seq<PageRange>, item: PageRange)
    ensures Total(ranges + [item]) == Total(ranges) + item.size
  {
    assert (ranges + [item])[..|ranges|] == ranges;
  }

  lemma StartGapped(ranges: seq<PageRange>, done: seq<nat>, page: nat, start: PageRange)
    requires Increasing(done + [page]) && Gapped(ranges) && (ranges == []) == (done == [])
    requires ranges != [] ==> ranges[|ranges| - 1].lastPage == done[|done| - 1] && done[|done| - 1] + 1 != page
    requires start.firstPage == page && start.lastPage == page
    ensures Gapped(ranges + [start])
  {
    if done != [] {
      Spans.Ascending(done + [page], |done| - 1, |done|);
    }
  }

  lemma StartExactly(ranges: seq<PageRange>, done: seq<nat>, page: nat, start: PageRange)
    requires Exactly(ranges, done) && start.firstPage == page && start.lastPage == page
    ensures Exactly(ranges + [start], done + [page])
  {
    forall p: nat ensures Covered(ranges + [start], p) <==> p in done + [page] {
      AppendCovers(ranges, start, p);
    }
  }

  // ---- staging ----

  function Place(r: PageRange, page: nat, align: nat): int {
    r.stagingOffset + (page - r.firstPage) * align
  }

  /** `places` sends exactly the pages of `ranges` to their staging bytes. */
  ghost predicate Places(places: map<nat, nat>, ranges: seq<PageRange>, align: nat) {
    && (forall p: nat :: p in places <==> Covered(ranges, p))
    && (forall p: nat, i :: p in places && 0 <= i < |ranges| && Covers(ranges[i], p)
          ==> places[p] == Place(ranges[i], p, align))
  }

  predicate SameButPlaced(before: PageRange, after: PageRange) {
    after == before.(stagingOffset := after.stagingOffset)
  }

  method PlaceRanges(merged: seq<PageRange>, align: nat)
    returns (ranges: seq<PageRange>, places: map<nat, nat>, cursor: nat)
    requires Gapped(merged)
    ensures AllSameButPlaced(merged, ranges)
    ensures BackToBack(ranges) && Places(places, ranges, align) && cursor == Total(ranges)
  {
    ranges, places, cursor := [], map[], 0;
    for i := 0 to |merged|
      invariant |ranges| == i && forall j :: 0 <= j < i ==> SameButPlaced(merged[j], ranges[j])
      invariant BackToBack(ranges) && Places(places, ranges, align) && cursor == Total(ranges)
    {
      var item := merged[i].(stagingOffset := cursor);
      places := PlacePages(places, ranges, item, align);
      AppendPlaced(ranges, item);
      ranges := ranges + [item];
      cursor := cursor + item.size;
    }
  }

  lemma AppendPlaced(ranges: seq<PageRange>, item: PageRange)
    requires BackToBack(ranges) && item.stagingOffset == Total(ranges)
    ensures BackToBack(ranges + [item]) && Total(ranges + [item]) == Total(ranges) + item.size
  {
    var after := ranges + [item];
    assert after[..|ranges|] == ranges;
    forall j | 0 <= j < |after| ensures after[j].stagingOffset == Total(after[..j]) {
      assert after[..j] == ranges[..j];
      assert ranges[..|ranges|] == ranges;
    }
  }

  method PlacePages(before: map<nat, nat>, ghost ranges: seq<PageRange>, item: PageRange, align: nat)
    returns (places: map<nat, nat>)
    requires Places(before, ranges, align) && item.firstPage <= item.lastPage
    requires forall i :: 0 <= i < |ranges| ==> ranges[i].lastPage < item.firstPage
    ensures Places(places, ranges + [item], align)
  {
    places := before;
    for page := item.firstPage to item.lastPage + 1
      invariant forall p: nat :: p in places <==> p in before || item.firstPage <= p < page
      invariant forall p: nat :: p in places && item.firstPage <= p < page ==> places[p] == Place(item, p, align)
      invariant forall p: nat :: p in before && !(item.firstPage <= p < page) ==> places[p] == before[p]
    {
      Nonnegative(page - item.firstPage, align);
      places := places[page := item.stagingOffset + (page - item.firstPage) * align];
    }
    PlacesStep(before, places, ranges, item, align);
  }

  lemma Nonnegative(a: nat, b: nat)
    ensures 0 <= a * b
  {}

  lemma PlacesStep(before: map<nat, nat>, after: map<nat, nat>, ranges: seq<PageRange>, item: PageRange, align: nat)
    requires Places(before, ranges, align)
    requires forall i :: 0 <= i < |ranges| ==> ranges[i].lastPage < item.firstPage
    requires forall p: nat :: p in after <==> p in before || Covers(item, p)
    requires forall p: nat :: p in after && Covers(item, p) ==> after[p] == Place(item, p, align)
    requires forall p: nat :: p in before && !Covers(item, p) ==> after[p] == before[p]
    ensures Places(after, ranges + [item], align)
  {
    var n := |ranges|;
    forall p: nat ensures p in after <==> Covered(ranges + [item], p) {
      AppendCovers(ranges, item, p);
    }
    forall p: nat, i | p in after && 0 <= i <= n && Covers((ranges + [item])[i], p)
      ensures after[p] == Place((ranges + [item])[i], p, align)
    {
      if i < n {
        assert Covers(ranges[i], p) && Covered(ranges, p) && p in before;
      }
    }
  }

  // ---- gathering ----

  /** The nested `staging_offset`: where one row starts in staging. */
  method StagingOffset(g: Geometry, align: nat, places: map<nat, nat>, id: nat) returns (r: Result<nat, PlanError>)
    requires Addressable(g, align)
    ensures var page, within := RowOffset(g, id) / align, RowOffset(g, id) % align;
            r == if page !in places then Err(NotCovered(id))
                 else if within + g.rowBytes > align
                         && (page + 1 !in places || places[page + 1] != places[page] + align)
                      then Err(NotContiguous(id))
                 else Ok(places[page] + within)
  {
    var absolute := RowOffset(g, id);
    var page, within := absolute / align, absolute % align;
    if page !in places {
      return Err(NotCovered(id));
    }
    var result := places[page];
    if within + g.rowBytes > align {
      if page + 1 !in places || places[page + 1] != result + align {
        return Err(NotContiguous(id));
      }
    }
    return Ok(result + within);
  }

  lemma NeighboursShare(ranges: seq<PageRange>, i: nat, j: nat, page: nat)
    requires Gapped(ranges) && i < |ranges| && j < |ranges|
    requires Covers(ranges[i], page) && Covers(ranges[j], page + 1)
    ensures i == j
  {}

  /** All pages of a wanted row lie in one range: a run is never cut. */
  lemma RowInOneRange(g: Geometry, align: nat, ids: seq<nat>, ranges: seq<PageRange>, id: nat, i: nat, page: nat)
    requires Addressable(g, align) && id in ids && Gapped(ranges) && i < |ranges|
    requires CoversWanted(g, align, ids, ranges)
    requires Covers(ranges[i], RowOffset(g, id) / align) && Needs(g, align, id, page)
    ensures Covers(ranges[i], page)
    decreases page
  {
    if page > RowOffset(g, id) / align {
      RowInOneRange(g, align, ids, ranges, id, i, page - 1);
      assert Wanted(g, align, ids, page);
      var j :| 0 <= j < |ranges| && Covers(ranges[j], page);
      NeighboursShare(ranges, i, j, page - 1);
    }
  }

  lemma RowBytesInRange(offset: nat, size: nat, align: nat, first: nat, last: nat)
    requires 0 < size && 0 < align
    requires first <= offset / align && (offset + size - 1) / align <= last
    ensures first * align <= offset && offset + size <= (last + 1) * align
  {
    DivBounds(offset, align);
    DivBounds(offset + size - 1, align);
    MulMono(first, offset / align, align);
    MulMono((offset + size - 1) / align + 1, last + 1, align);
  }

  /** Crossing test of the source: the row runs past its first page exactly when it needs the next. */
  lemma CrossingNeedsNext(offset: nat, size: nat, align: nat)
    requires 0 < size && 0 < align
    ensures offset % align + size > align <==> offset / align + 1 <= (offset + size - 1) / align
  {
    DivBounds(offset, align);
    DivBounds(offset + size - 1, align);
    var a, b := offset / align, (offset + size - 1) / align;
    if a + 1 <= b {
      MulMono(a + 1, b, align);
    } else {
      MulMono(b, a, align);
    }
  }

  /** Both internal assertions hold for every requested row, and the offset found is the row's. */
  lemma RowIsGathered(g: Geometry, align: nat, ids: seq<nat>, ranges: seq<PageRange>, places: map<nat, nat>,
                      id: nat, page: nat, within: nat)
    requires Addressable(g, align) && id in ids && Gapped(ranges) && Measured(ranges, align)
    requires CoversWanted(g, align, ids, ranges) && Places(places, ranges, align)
    requires page == RowOffset(g, id) / align && within == RowOffset(g, id) % align
    ensures page in places
    ensures within + g.rowBytes > align ==> page + 1 in places && places[page + 1] == places[page] + align
    ensures Gathers(g, id, ranges, places[page] + within)
  {
    var last := (RowOffset(g, id) + g.rowBytes - 1) / align;
    LastNotBefore(RowOffset(g, id), g.rowBytes, align);
    CrossingNeedsNext(RowOffset(g, id), g.rowBytes, align);
    var i := RowHolder(g, align, ids, ranges, id, page);
    RowInOneRange(g, align, ids, ranges, id, i, last);
    IsPlaced(ranges, places, align, i, page);
    if page + 1 <= last {
      IsPlaced(ranges, places, align, i, page + 1);
      NextPlace(ranges[i], page, align);
    }
    RowFits(g, align, id, ranges, i, page, within, last);
  }

  lemma RowFits(g: Geometry, align: nat, id: nat, ranges: seq<PageRange>, i: nat, page: nat, within: nat, last: nat)
    requires Addressable(g, align) && Measured(ranges, align) && i < |ranges|
    requires page == RowOffset(g, id) / align && within == RowOffset(g, id) % align
    requires last == (RowOffset(g, id) + g.rowBytes - 1) / align
    requires Covers(ranges[i], page) && Covers(ranges[i], last)
    ensures 0 <= Place(ranges[i], page, align) && Gathers(g, id, ranges, Place(ranges[i], page, align) + within)
  {
    RowBytesInRange(RowOffset(g, id), g.rowBytes, align, ranges[i].firstPage, ranges[i].lastPage);
    PlaceOfRow(ranges[i], RowOffset(g, id), align);
    Nonnegative(page - ranges[i].firstPage, align);
    assert RowInRange(g, id, ranges[i], Place(ranges[i], page, align) + within);
  }

  lemma RowHolder(g: Geometry, align: nat, ids: seq<nat>, ranges: seq<PageRange>, id: nat, page: nat) returns (i: nat)
    requires Addressable(g, align) && id in ids && CoversWanted(g, align, ids, ranges) && Needs(g, align, id, page)
    ensures i < |ranges| && Covers(ranges[i], page)
  {
    assert Wanted(g, align, ids, page) && Covered(ranges, page);
    i :| 0 <= i < |ranges| && Covers(ranges[i], page);
  }

  lemma IsPlaced(ranges: seq<PageRange>, places: map<nat, nat>, align: nat, i: nat, page: nat)
    requires Places(places, ranges, align) && i < |ranges| && Covers(ranges[i], page)
    ensures page in places && places[page] == Place(ranges[i], page, align)
  {
    assert Covered(ranges, page);
  }

  lemma NextPlace(r: PageRange, page: nat, align: nat)
    ensures Place(r, page + 1, align) == Place(r, page, align) + align
  {
    assert (page + 1 - r.firstPage) * align == (page - r.firstPage) * align + align;
  }

  lemma PlaceOfRow(r: PageRange, offset: nat, align: nat)
    requires 0 < align && r.fileOffset == r.firstPage * align
    ensures Place(r, offset / align, align) + offset % align == r.stagingOffset + (offset - r.fileOffset)
  {
    DivBounds(offset, align);
    var page := offset / align;
    assert (page - r.firstPage) * align == page * align - r.firstPage * align;
  }

  // ---- the planner ----

  predicate KnownRows(ids: seq<int>, rowCount: nat) { forall j :: 0 <= j < |ids| ==> 0 <= ids[j] < rowCount }

  ghost predicate FirstUnknown(ids: seq<int>, rowCount: nat, id: int) {
    exists j :: 0 <= j < |ids| && ids[j] == id && !(0 <= id < rowCount) && KnownRows(ids[..j], rowCount)
  }

  function Known(ids: seq<int>, rowCount: nat): (r: seq<nat>)
    requires KnownRows(ids, rowCount)
    ensures |r| == |ids| && forall j :: 0 <= j < |ids| ==> r[j] == ids[j]
  {
    seq(|ids|, j requires 0 <= j < |ids| => ids[j])
  }

  predicate Unnamed(m: Metadata, name: string, k: nat)
    requires k <= |m.components|
  {
    forall j :: 0 <= j < k ==> m.components[j].name != name
  }

  predicate IsComponent(m: Metadata, name: string, k: nat) {
    k < |m.components| && m.components[k].name == name && Unnamed(m, name, k)
  }

  method FindComponent(m: Metadata, name: string) returns (k: nat)
    ensures k <= |m.components|
    ensures if k < |m.components| then IsComponent(m, name, k) else Unnamed(m, name, k)
  {
    k := 0;
    while k < |m.components| && m.components[k].name != name
      invariant k <= |m.components| && Unnamed(m, name, k)
    {
      k := k + 1;
    }
  }

  ghost predicate PlanFor(ids: seq<int>, m: Metadata, k: nat, plan: Plan) {
    && k < |m.components| && 0 < m.alignment && 0 < m.blockRows && 0 < m.components[k].rowBytes
    && KnownRows(ids, m.rowCount)
    && GoodPlan(GeometryOf(m, m.components[k]), m.alignment, Known(ids, m.rowCount), plan)
  }

  /** A request fails on the first unknown row, then on an unknown component, and otherwise
      always succeeds: neither internal assertion can fire. */
  method PlanPageRequests(ids: seq<int>, m: Metadata, name: string) returns (r: Result<Plan, PlanError>, ghost k: nat)
    requires 0 < m.alignment && 0 < m.blockRows
    requires forall k :: 0 <= k < |m.components| ==> 0 < m.components[k].rowBytes
    ensures !KnownRows(ids, m.rowCount) ==> r.Err? && r.error.IndexError? && FirstUnknown(ids, m.rowCount, r.error.id)
    ensures KnownRows(ids, m.rowCount) && Unnamed(m, name, |m.components|) ==> r == Err(KeyError(name))
    ensures KnownRows(ids, m.rowCount) && !Unnamed(m, name, |m.components|)
            ==> r.Ok? && IsComponent(m, name, k) && PlanFor(ids, m, k, r.value)
  {
    k := 0;
    for j := 0 to |ids|
      invariant KnownRows(ids[..j], m.rowCount)
    {
      if ids[j] < 0 || ids[j] >= m.rowCount {
        return Err(IndexError(ids[j])), 0;
      }
    }
    assert ids == ids[..|ids|];
    var at := FindComponent(m, name);
    if at == |m.components| {
      return Err(KeyError(name)), 0;
    }
    k := at;
    r := PlanRows(Known(ids, m.rowCount), GeometryOf(m, m.components[at]), m.alignment);
  }

  method PlanRows(ids: seq<nat>, g: Geometry, align: nat) returns (r: Result<Plan, PlanError>)
    requires Addressable(g, align)
    ensures r.Ok? && GoodPlan(g, align, ids, r.value)
  {
    var unique := Spans.SortedUnique(ids);
    var pages := CollectPages(g, align, unique);
    var merged := MergeNeighbours(pages, align);
    var ranges, places, cursor := PlaceRanges(merged, align);
    KeptByPlacing(merged, ranges, pages, align);
    WantedIsCovered(g, align, ids, unique, pages, ranges);
    var gathered := GatherOffsets(g, align, ids, ranges, places);
    match gathered {
      case Err(e) => r := Err(e);
      case Ok(offsets) => {
        Nonnegative(|ids|, g.rowBytes);
        var plan := Plan(unique, |pages|, ranges, offsets, |ids| * g.rowBytes, cursor);
        assert plan.readBytes == plan.uniquePageCount * align;
        assert SameRows(plan.uniqueRowIds, ids) && CoversWanted(g, align, ids, plan.ranges);
        r := Ok(plan);
      }
    }
  }

  method GatherOffsets(g: Geometry, align: nat, ids: seq<nat>, ghost ranges: seq<PageRange>, places: map<nat, nat>)
    returns (r: Result<seq<nat>, PlanError>)
    requires Addressable(g, align) && Gapped(ranges) && Measured(ranges, align)
    requires CoversWanted(g, align, ids, ranges) && Places(places, ranges, align)
    ensures r.Ok? && GathersAll(g, ids, ranges, r.value)
  {
    var gather: seq<nat> := [];
    for j := 0 to |ids|
      invariant |gather| == j && forall q :: 0 <= q < j ==> Gathers(g, ids[q], ranges, gather[q])
    {
      RowIsGathered(g, align, ids, ranges, places, ids[j], RowOffset(g, ids[j]) / align, RowOffset(g, ids[j]) % align);
      var at := StagingOffset(g, align, places, ids[j]);
      match at {
        case Err(e) => return Err(e);
        case Ok(offset) => gather := gather + [offset];
      }
    }
    r := Ok(gather);
  }

  lemma WantedIsCovered(g: Geometry, align: nat, ids: seq<nat>, unique: seq<nat>, pages: seq<nat>, ranges: seq<PageRange>)
    requires Addressable(g, align) && SameRows(unique, ids) && Exactly(ranges, pages)
    requires forall p: nat :: p in pages <==> Wanted(g, align, unique, p)
    ensures CoversWanted(g, align, ids, ranges)
  {
    forall p: nat ensures Wanted(g, align, ids, p) <==> Wanted(g, align, unique, p) {}
  }

  ghost predicate AllSameButPlaced(merged: seq<PageRange>, ranges: seq<PageRange>) {
    |ranges| == |merged| && forall i :: 0 <= i < |ranges| ==> SameButPlaced(merged[i], ranges[i])
  }

  lemma StillCovered(merged: seq<PageRange>, ranges: seq<PageRange>, page: nat)
    requires AllSameButPlaced(merged, ranges)
    ensures Covered(ranges, page) <==> Covered(merged, page)
  {
    if Covered(ranges, page) {
      var i :| 0 <= i < |ranges| && Covers(ranges[i], page);
      assert SameButPlaced(merged[i], ranges[i]) && Covers(merged[i], page);
    }
    if Covered(merged, page) {
      var i :| 0 <= i < |ranges| && Covers(merged[i], page);
      assert SameButPlaced(merged[i], ranges[i]) && Covers(ranges[i], page);
    }
  }

  /** Placing ranges changes only where they go. */
  lemma KeptByPlacing(merged: seq<PageRange>, ranges: seq<PageRange>, pages: seq<nat>, align: nat)
    requires AllSameButPlaced(merged, ranges)
    requires Gapped(merged) && Exactly(merged, pages) && Measured(merged, align)
    ensures Gapped(ranges) && Exactly(ranges, pages) && Measured(ranges, align) && Total(ranges) == Total(merged)
  {
    forall p: nat ensures Covered(ranges, p) <==> p in pages {
      StillCovered(merged, ranges, p);
    }
    forall i | 0 <= i < |ranges| ensures SameButPlaced(merged[i], ranges[i]) {}
    SameTotal(merged, ranges);
  }

  lemma {:induction false} SameTotal(merged: seq<PageRange>, ranges: seq<PageRange>)
    requires AllSameButPlaced(merged, ranges)
    ensures Total(ranges) == Total(merged)
  {
    if ranges != [] {
      var n := |ranges| - 1;
      SameTotal(merged[..n], ranges[..n]);
      assert SameButPlaced(merged[n], ranges[n]);
    }
  }

  // ---- what the plan is good for ----

  ghost predicate Delivered(ranges: seq<PageRange>, file: seq<Byte>, staging: seq<Byte>) {
    forall i :: 0 <= i < |ranges| ==>
      && ranges[i].fileOffset + ranges[i].size <= |file|
      && ranges[i].stagingOffset + ranges[i].size <= |staging|
      && staging[ranges[i].stagingOffset..ranges[i].stagingOffset + ranges[i].size]
         == file[ranges[i].fileOffset..ranges[i].fileOffset + ranges[i].size]
  }

  /** Once the ranges are read, each gathered row is the file's row. */
  lemma GatheredIsFileRow(g: Geometry, id: nat, ranges: seq<PageRange>, at: nat, file: seq<Byte>, staging: seq<Byte>)
    requires 0 < g.blockRows && Gathers(g, id, ranges, at) && Delivered(ranges, file, staging)
    ensures at + g.rowBytes <= |staging| && RowOffset(g, id) + g.rowBytes <= |file|
    ensures staging[at..at + g.rowBytes] == file[RowOffset(g, id)..RowOffset(g, id) + g.rowBytes]
  {
    var i :| 0 <= i < |ranges| && RowInRange(g, id, ranges[i], at);
    var r := ranges[i];
    var d := RowOffset(g, id) - r.fileOffset;
    SubSlice(staging, r.stagingOffset, r.stagingOffset + r.size, d, d + g.rowBytes);
    SubSlice(file, r.fileOffset, r.fileOffset + r.size, d, d + g.rowBytes);
  }

  // ---- minimality ----

  /** Two lists of ranges that read the same pages. */
  ghost predicate SamePages(ranges: seq<PageRange>, other: seq<PageRange>) {
    forall p: nat :: Covered(other, p) <==> Covered(ranges, p)
  }

  /** The index of an `other` range that reads the first page of range `i`. */
  ghost function HolderOf(ranges: seq<PageRange>, other: seq<PageRange>, i: nat): (k: nat)
    requires Gapped(ranges) && SamePages(ranges, other) && i < |ranges|
    ensures k < |other| && Covers(other[k], ranges[i].firstPage)
  {
    assert Covers(ranges[i], ranges[i].firstPage) && Covered(ranges, ranges[i].firstPage);
    var k :| 0 <= k < |other| && Covers(other[k], ranges[i].firstPage);
    k
  }

  /** One range that covers no unplanned page cannot serve two planned ranges. */
  lemma HoldersDiffer(ranges: seq<PageRange>, other: seq<PageRange>, i: nat, j: nat)
    requires Gapped(ranges) && SamePages(ranges, other) && i < j < |ranges|
    ensures HolderOf(ranges, other, i) != HolderOf(ranges, other, j)
  {
    var gap := ranges[i].lastPage + 1;
    GapIsFree(ranges, i, gap);
    assert ranges[i].firstPage < gap < ranges[j].firstPage;
    NotCovers(other, HolderOf(ranges, other, i), gap);
  }

  lemma NotCovers(ranges: seq<PageRange>, i: nat, page: nat)
    requires !Covered(ranges, page) && i < |ranges|
    ensures !Covers(ranges[i], page)
  {}

  lemma GapIsFree(ranges: seq<PageRange>, i: nat, gap: nat)
    requires Gapped(ranges) && i < |ranges| && gap == ranges[i].lastPage + 1
    ensures !Covered(ranges, gap)
  {
    forall q | 0 <= q < |ranges| ensures !Covers(ranges[q], gap) {
      assert q < i ==> ranges[q].lastPage + 1 < ranges[i].firstPage;
    }
  }

  ghost function Holders(ranges: seq<PageRange>, other: seq<PageRange>, n: nat): (s: set<nat>)
    requires Gapped(ranges) && SamePages(ranges, other) && n <= |ranges|
    ensures forall k :: k in s ==> k < |other|
  {
    if n == 0 then {} else Holders(ranges, other, n - 1) + {HolderOf(ranges, other, n - 1)}
  }

  lemma {:induction false} NotAmongEarlier(ranges: seq<PageRange>, other: seq<PageRange>, n: nat, j: nat)
    requires Gapped(ranges) && SamePages(ranges, other) && n <= j < |ranges|
    ensures HolderOf(ranges, other, j) !in Holders(ranges, other, n)
  {
    if n > 0 {
      NotAmongEarlier(ranges, other, n - 1, j);
      HoldersDiffer(ranges, other, n - 1, j);
    }
  }

  lemma {:induction false} HoldersCount(ranges: seq<PageRange>, other: seq<PageRange>, n: nat)
    requires Gapped(ranges) && SamePages(ranges, other) && n <= |ranges|
    ensures |Holders(ranges, other, n)| == n
  {
    if n > 0 {
      HoldersCount(ranges, other, n - 1);
      NotAmongEarlier(ranges, other, n - 1, n - 1);
    }
  }

  lemma {:induction false} BelowCount(s: set<nat>, n: nat)
    requires forall x :: x in s ==> x < n
    ensures |s| <= n
  {
    if n > 0 {
      BelowCount(s - {n - 1}, n - 1);
    } else {
      assert s == {};
    }
  }

  /** The plan is minimal: no list of ranges that reads the same pages and no others has
      fewer ranges. */
  lemma FewestRanges(ranges: seq<PageRange>, other: seq<PageRange>)
    requires Gapped(ranges) && SamePages(ranges, other)
    ensures |ranges| <= |other|
  {
    HoldersCount(ranges, other, |ranges|);
    BelowCount(Holders(ranges, other, |ranges|), |other|);
  }

  // ---- the native planner forms the same ranges when nothing is cut or bridged ----

  ghost predicate SameUpTo(spans: seq<Spans.Span>, ranges: seq<PageRange>, k: nat)
    requires k <= |spans| && k <= |ranges|
  {
    forall i :: 0 <= i < k ==> spans[i].first == ranges[i].firstPage && spans[i].last == ranges[i].lastPage
  }

  ghost predicate SameSpans(spans: seq<Spans.Span>, ranges: seq<PageRange>) {
    |spans| == |ranges| && SameUpTo(spans, ranges, |spans|)
  }

  ghost predicate SpansGapped(spans: seq<Spans.Span>) {
    forall i, j :: 0 <= i < j < |spans| ==> spans[i].last + 1 < spans[j].first
  }

  ghost predicate SpansCover(spans: seq<Spans.Span>, ranges: seq<PageRange>) {
    forall p: nat :: Spans.Held(spans, p) <==> Covered(ranges, p)
  }

  ghost predicate ShortRanges(ranges: seq<PageRange>, maxPages: nat) {
    forall i :: 0 <= i < |ranges| ==> ranges[i].lastPage - ranges[i].firstPage + 1 <= maxPages
  }

  lemma LaterIndex(pages: seq<nat>, k: nat, z: nat)
    requires Increasing(pages) && k < |pages| && z < |pages| && pages[k] < pages[z]
    ensures k < z
  {}

  lemma NextIndex(pages: seq<nat>, k: nat, z: nat)
    requires Increasing(pages) && k < |pages| && z < |pages| && pages[z] == pages[k] + 1
    ensures z == k + 1
  {
    LaterIndex(pages, k, z);
    Spans.Ascending(pages, k, k + 1);
    Spans.Ascending(pages, k + 1, z);
  }

  /** With no gap allowed, a native span holds planned pages only. */
  lemma {:induction false} SpanIsPlanned(spans: seq<Spans.Span>, pages: seq<nat>, maxPages: nat, i: nat, page: nat)
    requires Increasing(pages) && Spans.Merged(spans, pages, 0, maxPages)
    requires i < |spans| && Spans.InSpan(spans[i], page)
    ensures page in pages
    decreases page
  {
    if page > spans[i].first {
      SpanIsPlanned(spans, pages, maxPages, i, page - 1);
      var k :| 0 <= k < |pages| && pages[k] == page - 1;
      var z :| 0 <= z < |pages| && pages[z] == spans[i].last;
      LaterIndex(pages, k, z);
      Spans.Ascending(pages, k, k + 1);
      Spans.Ascending(pages, k + 1, z);
      assert Spans.JoinedAt(spans, pages, k, 0, maxPages);
    }
  }

  lemma NativeHoldsPlanned(spans: seq<Spans.Span>, pages: seq<nat>, maxPages: nat, page: nat)
    requires Increasing(pages) && Spans.Merged(spans, pages, 0, maxPages)
    ensures Spans.Held(spans, page) <==> page in pages
  {
    if Spans.Held(spans, page) {
      var i :| 0 <= i < |spans| && Spans.InSpan(spans[i], page);
      SpanIsPlanned(spans, pages, maxPages, i, page);
    }
    if page in pages {
      var k :| 0 <= k < |pages| && pages[k] == page;
      assert Spans.Held(spans, pages[k]);
    }
  }

  /** A native span lies inside one reference range. */
  lemma {:induction false} SpanInRange(spans: seq<Spans.Span>, pages: seq<nat>, maxPages: nat,
                                       ranges: seq<PageRange>, i: nat, q: nat, page: nat)
    requires Increasing(pages) && Spans.Merged(spans, pages, 0, maxPages) && Gapped(ranges) && Exactly(ranges, pages)
    requires i < |spans| && Spans.InSpan(spans[i], page) && q < |ranges| && Covers(ranges[q], spans[i].first)
    ensures Covers(ranges[q], page)
    decreases page
  {
    if page > spans[i].first {
      SpanInRange(spans, pages, maxPages, ranges, i, q, page - 1);
      SpanIsPlanned(spans, pages, maxPages, i, page);
      assert Covered(ranges, page);
      var j :| 0 <= j < |ranges| && Covers(ranges[j], page);
      NeighboursShare(ranges, q, j, page - 1);
    }
  }

  /** Two native spans touch only where the limit cut a longer reference range. */
  lemma TouchingIsLong(spans: seq<Spans.Span>, pages: seq<nat>, maxPages: nat, ranges: seq<PageRange>, i: nat, j: nat)
    requires Increasing(pages) && Spans.Merged(spans, pages, 0, maxPages) && Gapped(ranges) && Exactly(ranges, pages)
    requires i < j < |spans| && spans[j].first == spans[i].last + 1
    ensures !ShortRanges(ranges, maxPages)
  {
    var a, b := spans[i].last, spans[j].first;
    var k :| 0 <= k < |pages| && pages[k] == a;
    var z :| 0 <= z < |pages| && pages[z] == b;
    NextIndex(pages, k, z);
    assert Spans.JoinedAt(spans, pages, k, 0, maxPages) && Spans.InSpan(spans[i], a) && !Spans.InSpan(spans[i], b);
    assert Covered(ranges, spans[i].first) && Covered(ranges, b);
    var q :| 0 <= q < |ranges| && Covers(ranges[q], spans[i].first);
    var r :| 0 <= r < |ranges| && Covers(ranges[r], b);
    SpanInRange(spans, pages, maxPages, ranges, i, q, a);
    NeighboursShare(ranges, q, r, a);
    assert ranges[q].lastPage - ranges[q].firstPage + 1 > maxPages;
  }

  /** `spans` and `ranges` hold the same pages, so they split them at the same places. */
  lemma {:induction false} SpansMatch(spans: seq<Spans.Span>, ranges: seq<PageRange>, k: nat)
    requires Gapped(ranges) && Spans.Separate(spans) && SpansGapped(spans) && SpansCover(spans, ranges)
    requires k <= |spans|
    ensures k <= |ranges| && SameUpTo(spans, ranges, k)
  {
    if k > 0 {
      SpansMatch(spans, ranges, k - 1);
      SameStart(spans, ranges, k - 1);
      SameEnd(spans, ranges, k - 1);
    }
  }

  lemma SameStart(spans: seq<Spans.Span>, ranges: seq<PageRange>, k: nat)
    requires Gapped(ranges) && Spans.Separate(spans) && SpansCover(spans, ranges)
    requires k < |spans| && k <= |ranges| && SameUpTo(spans, ranges, k)
    ensures k < |ranges| && spans[k].first == ranges[k].firstPage
  {
    assert Spans.InSpan(spans[k], spans[k].first) && Spans.Held(spans, spans[k].first);
    var j :| 0 <= j < |ranges| && Covers(ranges[j], spans[k].first);
    assert k <= j;
    assert Covers(ranges[k], ranges[k].firstPage) && Covered(ranges, ranges[k].firstPage);
    var q :| 0 <= q < |spans| && Spans.InSpan(spans[q], ranges[k].firstPage);
    assert k <= q;
  }

  lemma SameEnd(spans: seq<Spans.Span>, ranges: seq<PageRange>, k: nat)
    requires Gapped(ranges) && Spans.Separate(spans) && k < |spans| && k < |ranges|
    requires SpansGapped(spans)
    requires SpansCover(spans, ranges)
    requires spans[k].first == ranges[k].firstPage
    ensures spans[k].last == ranges[k].lastPage
  {
    var after := ranges[k].lastPage + 1;
    GapIsFree(ranges, k, after);
    assert !Spans.InSpan(spans[k], after);
    SpanGapIsFree(spans, k, spans[k].last + 1);
    NotCovers(ranges, k, spans[k].last + 1);
  }

  lemma SpanGapIsFree(spans: seq<Spans.Span>, k: nat, gap: nat)
    requires Spans.Separate(spans) && k < |spans| && gap == spans[k].last + 1
    requires SpansGapped(spans)
    ensures !Spans.Held(spans, gap)
  {
    forall q | 0 <= q < |spans| ensures !Spans.InSpan(spans[q], gap) {
      assert q < k ==> spans[q].last + 1 < spans[k].first;
    }
  }

  /** The native planner, allowed no gap, forms exactly the reference ranges if and only if
      every reference range fits its size limit. */
  lemma NativeAgreesIffShort(spans: seq<Spans.Span>, pages: seq<nat>, maxPages: nat, ranges: seq<PageRange>)
    requires Increasing(pages) && Spans.Merged(spans, pages, 0, maxPages) && Gapped(ranges) && Exactly(ranges, pages)
    ensures SameSpans(spans, ranges) <==> ShortRanges(ranges, maxPages)
  {
    if ShortRanges(ranges, maxPages) {
      ShortStaysApart(spans, pages, maxPages, ranges);
      SameCover(spans, pages, maxPages, ranges);
      SpansMatch(spans, ranges, |spans|);
      if |spans| < |ranges| {
        ExtraRange(spans, ranges);
      }
    }
  }

  lemma ShortStaysApart(spans: seq<Spans.Span>, pages: seq<nat>, maxPages: nat, ranges: seq<PageRange>)
    requires Increasing(pages) && Spans.Merged(spans, pages, 0, maxPages) && Gapped(ranges) && Exactly(ranges, pages)
    requires ShortRanges(ranges, maxPages)
    ensures SpansGapped(spans)
  {
    forall i, j | 0 <= i < j < |spans| ensures spans[i].last + 1 < spans[j].first {
      if spans[j].first == spans[i].last + 1 {
        TouchingIsLong(spans, pages, maxPages, ranges, i, j);
      }
    }
  }

  lemma SameCover(spans: seq<Spans.Span>, pages: seq<nat>, maxPages: nat, ranges: seq<PageRange>)
    requires Increasing(pages) && Spans.Merged(spans, pages, 0, maxPages) && Exactly(ranges, pages)
    ensures SpansCover(spans, ranges)
  {
    forall p: nat ensures Spans.Held(spans, p) <==> Covered(ranges, p) {
      NativeHoldsPlanned(spans, pages, maxPages, p);
    }
  }

  lemma ExtraRange(spans: seq<Spans.Span>, ranges: seq<PageRange>)
    requires Gapped(ranges) && |spans| < |ranges|
    requires SameUpTo(spans, ranges, |spans|)
    ensures exists p: nat :: Covered(ranges, p) && !Spans.Held(spans, p)
  {
    var p := ranges[|spans|].firstPage;
    assert Covers(ranges[|spans|], p) && Covered(ranges, p);
    forall q | 0 <= q < |spans| ensures !Spans.InSpan(spans[q], p) {
      assert ranges[q].lastPage + 1 < ranges[|spans|].firstPage;
    }
  }
}
