/** Gather offsets, and which planned rows reach the output intact.

    The native planner looks up the range of a row's first page only. A row that crosses into
    the next page is gathered correctly exactly when that page follows in staging. */
module GatherPlan {
  import opened Pages
  import opened Spans
  import opened PagePlan

  // ---- finding a row's range ----

  ghost predicate FileOrder(ranges: seq<Range>) {
    && AllWholePages(ranges)
    && (forall i, j :: 0 <= i < j < |ranges| ==> LastPage(ranges[i]) < FirstPage(ranges[j]))
  }

  lemma MergedIsFileOrder(ranges: seq<Range>)
    requires AllWholePages(ranges) && Separate(SpansOf(ranges))
    ensures FileOrder(ranges)
  {
    forall i, j | 0 <= i < j < |ranges| ensures LastPage(ranges[i]) < FirstPage(ranges[j]) {
      assert SpansOf(ranges)[i].last < SpansOf(ranges)[j].first;
    }
  }

  lemma InFileOrder(ranges: seq<Range>, i: nat, j: nat)
    requires FileOrder(ranges) && i < |ranges| && j < |ranges|
    ensures i < j ==> LastPage(ranges[i]) < FirstPage(ranges[j])
  {}

  /** How many leading ranges start at or before `page` (`std::upper_bound`). */
  function UpperIndex(ranges: seq<Range>, page: nat): (k: nat)
    ensures k <= |ranges| && forall i :: 0 <= i < k ==> FirstPage(ranges[i]) <= page
  {
    if ranges == [] || page < FirstPage(ranges[0]) then 0 else 1 + UpperIndex(ranges[1..], page)
  }

  lemma {:induction false} UpperIndexIs(ranges: seq<Range>, page: nat, k: nat)
    requires k <= |ranges| && forall i :: 0 <= i < k ==> FirstPage(ranges[i]) <= page
    requires k < |ranges| ==> page < FirstPage(ranges[k])
    ensures UpperIndex(ranges, page) == k
  {
    if k > 0 {
      assert FirstPage(ranges[0]) <= page;
      assert forall i :: 0 <= i < |ranges| - 1 ==> ranges[1..][i] == ranges[i + 1];
      UpperIndexIs(ranges[1..], page, k - 1);
    }
  }

  method UpperBound(ranges: seq<Range>, page: nat) returns (k: nat)
    requires FileOrder(ranges)
    ensures k == UpperIndex(ranges, page)
    ensures forall i :: k <= i < |ranges| ==> page < FirstPage(ranges[i])
  {
    var lo, hi := 0, |ranges|;
    while lo < hi
      invariant 0 <= lo <= hi <= |ranges|
      invariant forall i :: 0 <= i < lo ==> FirstPage(ranges[i]) <= page
      invariant forall i :: hi <= i < |ranges| ==> page < FirstPage(ranges[i])
    {
      var mid := (lo + hi) / 2;
      FirstPagesAscend(ranges, mid);
      if page < ranges[mid].fileOffset / 4096 {
        hi := mid;
      } else {
        lo := mid + 1;
      }
    }
    k := lo;
    UpperIndexIs(ranges, page, k);
  }

  lemma UpperIndexSplits(ranges: seq<Range>, page: nat, holder: nat)
    requires FileOrder(ranges) && holder < |ranges| && HoldsPage(ranges[holder], page)
    ensures UpperIndex(ranges, page) == holder + 1
  {
    forall i | 0 <= i <= holder ensures FirstPage(ranges[i]) <= page {
      assert WholePages(ranges[i]);
    }
    assert holder + 1 < |ranges| ==> LastPage(ranges[holder]) < FirstPage(ranges[holder + 1]);
    UpperIndexIs(ranges, page, holder + 1);
  }

  lemma FirstPagesAscend(ranges: seq<Range>, mid: nat)
    requires FileOrder(ranges) && mid < |ranges|
    ensures forall i :: 0 <= i < mid ==> FirstPage(ranges[i]) <= FirstPage(ranges[mid])
    ensures forall i :: mid <= i < |ranges| ==> FirstPage(ranges[mid]) <= FirstPage(ranges[i])
  {
    forall i | 0 <= i < |ranges| ensures FirstPage(ranges[i]) <= LastPage(ranges[i]) {
      assert WholePages(ranges[i]);
    }
  }

  /** `position` is where byte `offset` of the file is staged. */
  ghost predicate StagedAt(ranges: seq<Range>, offset: nat, position: nat) {
    exists i :: 0 <= i < |ranges| && HoldsPage(ranges[i], offset / 4096)
                && position == ranges[i].stagingOffset + (offset - ranges[i].fileOffset)
  }

  /** Where a row is gathered from: through the range holding its first page only. */
  function GatherAt(ranges: seq<Range>, offset: nat, rowBytes: nat, stagingCapacity: nat): Result<nat, PlanError> {
    var page := offset / 4096;
    var k := UpperIndex(ranges, page);
    if k == 0 then Err(NoStagingRange)
    else if page > LastPage(ranges[k - 1]) then Err(PageNotCovered)
    else
      var staging := ranges[k - 1].stagingOffset + (page - FirstPage(ranges[k - 1])) * 4096 + offset % 4096;
      if staging + rowBytes > stagingCapacity then Err(GatherSpanExceedsStaging) else Ok(staging)
  }

  /** The row's first byte is staged at `r`, with room for the row behind it, or there is no room. */
  ghost predicate GatherIs(ranges: seq<Range>, offset: nat, rowBytes: nat, stagingCapacity: nat, r: Result<nat, PlanError>) {
    && (r.Ok? ==> StagedAt(ranges, offset, r.value) && r.value + rowBytes <= stagingCapacity)
    && (r.Err? ==> r.error == GatherSpanExceedsStaging
                   && exists p: nat :: StagedAt(ranges, offset, p) && p + rowBytes > stagingCapacity)
  }

  lemma StagedInRange(r: Range, offset: nat)
    requires WholePages(r) && HoldsPage(r, offset / 4096)
    ensures r.stagingOffset + (offset / 4096 - FirstPage(r)) * 4096 + offset % 4096
            == r.stagingOffset + (offset - r.fileOffset)
  {}

  lemma GatherAtMeaning(ranges: seq<Range>, offset: nat, rowBytes: nat, stagingCapacity: nat)
    requires FileOrder(ranges) && Held(SpansOf(ranges), offset / 4096)
    ensures GatherIs(ranges, offset, rowBytes, stagingCapacity, GatherAt(ranges, offset, rowBytes, stagingCapacity))
  {
    var page := offset / 4096;
    var holder := HolderIndex(ranges, page);
    UpperIndexSplits(ranges, page, holder);
    var range := ranges[holder];
    StagedInRange(range, offset);
    assert StagedAt(ranges, offset, range.stagingOffset + (page - FirstPage(range)) * 4096 + offset % 4096);
  }

  method GatherOffset(ranges: seq<Range>, offset: nat, rowBytes: nat, stagingCapacity: nat)
    returns (r: Result<nat, PlanError>)
    requires FileOrder(ranges)
    ensures r == GatherAt(ranges, offset, rowBytes, stagingCapacity)
    ensures Held(SpansOf(ranges), offset / 4096) ==> GatherIs(ranges, offset, rowBytes, stagingCapacity, r)
  {
    var page := offset / 4096;
    var k := UpperBound(ranges, page);
    r := Err(NoStagingRange);
    if k != 0 {
      var range := ranges[k - 1];
      var firstPage := range.fileOffset / 4096;
      var lastPage := firstPage + range.size / 4096 - 1;
      if page > lastPage {
        r := Err(PageNotCovered);
      } else {
        var staging := range.stagingOffset + (page - firstPage) * 4096 + offset % 4096;
        r := if staging + rowBytes > stagingCapacity then Err(GatherSpanExceedsStaging) else Ok(staging);
      }
    }
    if Held(SpansOf(ranges), page) {
      GatherAtMeaning(ranges, offset, rowBytes, stagingCapacity);
    }
  }

  ghost function HolderIndex(ranges: seq<Range>, page: nat): (i: nat)
    requires AllWholePages(ranges) && Held(SpansOf(ranges), page)
    ensures i < |ranges| && HoldsPage(ranges[i], page)
  {
    var i :| 0 <= i < |ranges| && InSpan(SpansOf(ranges)[i], page);
    i
  }

  /** The gather offsets of the first `n` rows. */
  function GatheredTo(ids: seq<int>, g: Geometry, ranges: seq<Range>, stagingCapacity: nat, n: nat):
      Result<seq<nat>, PlanError>
    requires 0 < g.blockRows && n <= |ids| && forall i :: 0 <= i < n ==> 0 <= ids[i]
  {
    if n == 0 then Ok([])
    else
      match GatheredTo(ids, g, ranges, stagingCapacity, n - 1)
      case Err(e) => Err(e)
      case Ok(offsets) =>
        match GatherAt(ranges, RowOffset(g, ids[n - 1]), g.rowBytes, stagingCapacity)
        case Err(e) => Err(e)
        case Ok(at) => Ok(offsets + [at])
  }

  ghost predicate RowStaged(ranges: seq<Range>, g: Geometry, id: nat, at: nat, stagingCapacity: nat)
    requires 0 < g.blockRows
  {
    StagedAt(ranges, RowOffset(g, id), at) && at + g.rowBytes <= stagingCapacity
  }

  ghost predicate AllStaged(ids: seq<int>, g: Geometry, ranges: seq<Range>, stagingCapacity: nat, offsets: seq<nat>) {
    && 0 < g.blockRows && |offsets| <= |ids|
    && forall i :: 0 <= i < |offsets| ==> 0 <= ids[i] && RowStaged(ranges, g, ids[i], offsets[i], stagingCapacity)
  }

  lemma OneMoreStaged(ids: seq<int>, g: Geometry, ranges: seq<Range>, stagingCapacity: nat, offsets: seq<nat>, at: nat)
    requires AllStaged(ids, g, ranges, stagingCapacity, offsets) && |offsets| < |ids| && 0 <= ids[|offsets|]
    requires RowStaged(ranges, g, ids[|offsets|], at, stagingCapacity)
    ensures AllStaged(ids, g, ranges, stagingCapacity, offsets + [at])
  {}

  lemma RowGathered(ranges: seq<Range>, g: Geometry, id: nat, stagingCapacity: nat)
    requires 0 < g.blockRows && FileOrder(ranges) && Held(SpansOf(ranges), RowFirstPage(g, id))
    ensures var r := GatherAt(ranges, RowOffset(g, id), g.rowBytes, stagingCapacity);
            && (r.Ok? ==> RowStaged(ranges, g, id, r.value, stagingCapacity))
            && (r.Err? ==> r.error == GatherSpanExceedsStaging)
  {
    GatherAtMeaning(ranges, RowOffset(g, id), g.rowBytes, stagingCapacity);
  }

  lemma {:induction false} GatheredMeaning(ids: seq<int>, g: Geometry, ranges: seq<Range>, stagingCapacity: nat, n: nat)
    requires 0 < g.blockRows && n <= |ids| && forall i :: 0 <= i < n ==> 0 <= ids[i]
    requires FileOrder(ranges)
    requires forall i :: 0 <= i < n ==> Held(SpansOf(ranges), RowFirstPage(g, ids[i]))
    ensures var r := GatheredTo(ids, g, ranges, stagingCapacity, n);
            && (r.Ok? ==> |r.value| == n)
            && (r.Ok? ==> AllStaged(ids, g, ranges, stagingCapacity, r.value))
            && (r.Err? ==> r.error == GatherSpanExceedsStaging)
  {
    if n > 0 {
      GatheredMeaning(ids, g, ranges, stagingCapacity, n - 1);
      RowGathered(ranges, g, ids[n - 1], stagingCapacity);
      var r := GatheredTo(ids, g, ranges, stagingCapacity, n - 1);
      var at := GatherAt(ranges, RowOffset(g, ids[n - 1]), g.rowBytes, stagingCapacity);
      if r.Ok? && at.Ok? {
        OneMoreStaged(ids, g, ranges, stagingCapacity, r.value, at.value);
      }
    }
  }

  lemma {:induction false} GatheredStops(ids: seq<int>, g: Geometry, ranges: seq<Range>, stagingCapacity: nat, k: nat, n: nat)
    requires 0 < g.blockRows && k <= n <= |ids| && forall i :: 0 <= i < n ==> 0 <= ids[i]
    requires GatheredTo(ids, g, ranges, stagingCapacity, k).Err?
    ensures GatheredTo(ids, g, ranges, stagingCapacity, n) == GatheredTo(ids, g, ranges, stagingCapacity, k)
    decreases n
  {
    if k < n {
      GatheredStops(ids, g, ranges, stagingCapacity, k, n - 1);
    }
  }

  /** The loop body. */
  method GatherNext(ids: seq<int>, g: Geometry, ranges: seq<Range>, stagingCapacity: nat, index: nat, offsets: seq<nat>)
    returns (r: Result<seq<nat>, PlanError>)
    requires 0 < g.blockRows && (forall i :: 0 <= i < |ids| ==> 0 <= ids[i]) && index < |ids|
    requires FileOrder(ranges) && GatheredTo(ids, g, ranges, stagingCapacity, index) == Ok(offsets)
    ensures r == GatheredTo(ids, g, ranges, stagingCapacity, index + 1)
  {
    var staging := GatherOffset(ranges, RowOffset(g, ids[index]), g.rowBytes, stagingCapacity);
    match staging {
      case Err(e) => r := Err(e);
      case Ok(at) => r := Ok(offsets + [at]);
    }
  }

  method PlanGather(ids: seq<int>, g: Geometry, ranges: seq<Range>, stagingCapacity: nat)
    returns (r: Result<seq<nat>, PlanError>)
    requires 0 < g.blockRows && (forall i :: 0 <= i < |ids| ==> 0 <= ids[i])
    requires FileOrder(ranges)
    ensures r == GatheredTo(ids, g, ranges, stagingCapacity, |ids|)
  {
    var offsets: seq<nat> := [];
    var index := 0;
    while index < |ids|
      invariant 0 <= index <= |ids|
      invariant GatheredTo(ids, g, ranges, stagingCapacity, index) == Ok(offsets)
    {
      var grown := GatherNext(ids, g, ranges, stagingCapacity, index, offsets);
      match grown {
        case Err(e) => {
          GatheredStops(ids, g, ranges, stagingCapacity, index + 1, |ids|);
          return Err(e);
        }
        case Ok(more) => offsets := more;
      }
      index := index + 1;
    }
    return Ok(offsets);
  }

  // ---- delivered ranges ----

  ghost predicate Delivered(file: seq<Byte>, staging: seq<Byte>, r: Range) {
    && r.fileOffset + r.size <= |file| && r.stagingOffset + r.size <= |staging|
    && staging[r.stagingOffset..r.stagingOffset + r.size] == file[r.fileOffset..r.fileOffset + r.size]
  }

  ghost predicate AllDelivered(file: seq<Byte>, staging: seq<Byte>, ranges: seq<Range>) {
    forall i :: 0 <= i < |ranges| ==> Delivered(file, staging, ranges[i])
  }

  lemma DeliveredByte(file: seq<Byte>, staging: seq<Byte>, r: Range, o: nat)
    requires Delivered(file, staging, r) && o < r.size
    ensures staging[r.stagingOffset + o] == file[r.fileOffset + o]
  {
    assert staging[r.stagingOffset..r.stagingOffset + r.size][o] == file[r.fileOffset..r.fileOffset + r.size][o];
  }

  /** The page after a row's first page is staged right behind it (or the row stays on one page). */
  ghost predicate Contiguous(ranges: seq<Range>, offset: nat, rowBytes: nat, position: nat) {
    var next := (offset / 4096 + 1) * 4096;
    offset + rowBytes <= next || StagedAt(ranges, next, position + (next - offset))
  }

  /** The row starting at `offset` and gathered from `position` is the row of the file. */
  ghost predicate RowIntact(file: seq<Byte>, staging: seq<Byte>, offset: nat, position: nat, rowBytes: nat) {
    && offset + rowBytes <= |file| && position + rowBytes <= |staging|
    && staging[position..position + rowBytes] == file[offset..offset + rowBytes]
  }

  lemma StagedByte(file: seq<Byte>, staging: seq<Byte>, ranges: seq<Range>, offset: nat, position: nat, o: nat)
    requires AllWholePages(ranges) && AllDelivered(file, staging, ranges)
    requires StagedAt(ranges, offset, position) && offset % 4096 + o < 4096
    ensures offset + o < |file| && position + o < |staging| && staging[position + o] == file[offset + o]
  {
    var i :| 0 <= i < |ranges| && HoldsPage(ranges[i], offset / 4096)
             && position == ranges[i].stagingOffset + (offset - ranges[i].fileOffset);
    assert WholePages(ranges[i]);
    DeliveredByte(file, staging, ranges[i], offset - ranges[i].fileOffset + o);
  }

  lemma ContiguousRowIntact(file: seq<Byte>, staging: seq<Byte>, ranges: seq<Range>,
                            offset: nat, position: nat, rowBytes: nat)
    requires AllWholePages(ranges) && AllDelivered(file, staging, ranges)
    requires 0 < rowBytes <= 4096 && StagedAt(ranges, offset, position)
    requires Contiguous(ranges, offset, rowBytes, position)
    ensures RowIntact(file, staging, offset, position, rowBytes)
  {
    var next := (offset / 4096 + 1) * 4096;
    RowByteStaged(file, staging, ranges, offset, position, rowBytes, rowBytes - 1);
    var gathered, wanted := staging[position..position + rowBytes], file[offset..offset + rowBytes];
    forall o | 0 <= o < rowBytes ensures gathered[o] == wanted[o] {
      RowByteStaged(file, staging, ranges, offset, position, rowBytes, o);
    }
  }

  lemma RowByteStaged(file: seq<Byte>, staging: seq<Byte>, ranges: seq<Range>,
                       offset: nat, position: nat, rowBytes: nat, o: nat)
    requires AllWholePages(ranges) && AllDelivered(file, staging, ranges)
    requires o < rowBytes <= 4096 && StagedAt(ranges, offset, position)
    requires Contiguous(ranges, offset, rowBytes, position)
    ensures offset + o < |file| && position + o < |staging| && staging[position + o] == file[offset + o]
  {
    var next := (offset / 4096 + 1) * 4096;
    if offset + o < next {
      StagedByte(file, staging, ranges, offset, position, o);
    } else {
      StagedByte(file, staging, ranges, next, position + (next - offset), offset + o - next);
    }
  }

  // ---- a file and a staging slot that expose a split row ----

  /** The staging byte at `q` once every range is delivered over a zeroed slot. */
  ghost function ImageByte(file: seq<Byte>, ranges: seq<Range>, q: nat): Byte {
    if ranges == [] then 0
    else
      var r := ranges[|ranges| - 1];
      if r.stagingOffset <= q < r.stagingOffset + r.size && r.fileOffset + (q - r.stagingOffset) < |file|
      then file[r.fileOffset + (q - r.stagingOffset)]
      else ImageByte(file, ranges[..|ranges| - 1], q)
  }

  ghost predicate Inside(ranges: seq<Range>, fileSize: nat, stagingSize: nat) {
    forall i :: 0 <= i < |ranges| ==>
      ranges[i].fileOffset + ranges[i].size <= fileSize && ranges[i].stagingOffset + ranges[i].size <= stagingSize
  }

  lemma {:induction false} ImageHit(file: seq<Byte>, ranges: seq<Range>, i: nat, o: nat)
    requires i < |ranges| && o < ranges[i].size && ranges[i].fileOffset + o < |file|
    requires StagingDisjoint(ranges)
    ensures ImageByte(file, ranges, ranges[i].stagingOffset + o) == file[ranges[i].fileOffset + o]
  {
    var n := |ranges| - 1;
    if i < n {
      assert Apart(ranges[i], ranges[n]);
      ImageHit(file, ranges[..n], i, o);
    }
  }

  lemma {:induction false} ImageMark(file: seq<Byte>, ranges: seq<Range>, q: nat) returns (i: nat)
    requires ImageByte(file, ranges, q) != 0
    ensures i < |ranges| && ranges[i].stagingOffset <= q < ranges[i].stagingOffset + ranges[i].size
    ensures ranges[i].fileOffset + (q - ranges[i].stagingOffset) < |file|
    ensures file[ranges[i].fileOffset + (q - ranges[i].stagingOffset)] == ImageByte(file, ranges, q)
  {
    var n := |ranges| - 1;
    var r := ranges[n];
    if r.stagingOffset <= q < r.stagingOffset + r.size && r.fileOffset + (q - r.stagingOffset) < |file| {
      i := n;
    } else {
      i := ImageMark(file, ranges[..n], q);
    }
  }

  ghost function MarkedFile(size: nat, mark: nat): (f: seq<Byte>)
    ensures |f| == size && forall i :: 0 <= i < size ==> f[i] == if i == mark then 1 else 0
  {
    seq(size, i => if i == mark then 1 else 0)
  }

  ghost function Image(file: seq<Byte>, ranges: seq<Range>, size: nat): (s: seq<Byte>)
    ensures |s| == size && forall q :: 0 <= q < size ==> s[q] == ImageByte(file, ranges, q)
  {
    seq(size, q requires 0 <= q => ImageByte(file, ranges, q))
  }

  lemma ImageDelivers(file: seq<Byte>, ranges: seq<Range>, size: nat)
    requires Inside(ranges, |file|, size)
    requires StagingDisjoint(ranges)
    ensures AllDelivered(file, Image(file, ranges, size), ranges)
  {
    var staging := Image(file, ranges, size);
    forall i | 0 <= i < |ranges| ensures Delivered(file, staging, ranges[i]) {
      var r := ranges[i];
      assert r.fileOffset + r.size <= |file| && r.stagingOffset + r.size <= size;
      var placed, wanted := staging[r.stagingOffset..r.stagingOffset + r.size], file[r.fileOffset..r.fileOffset + r.size];
      forall o | 0 <= o < r.size ensures placed[o] == wanted[o] {
        ImageHit(file, ranges, i, o);
      }
    }
  }

  lemma SplitRowBreaks(ranges: seq<Range>, fileSize: nat, stagingSize: nat,
                       offset: nat, position: nat, rowBytes: nat) returns (file: seq<Byte>, staging: seq<Byte>)
    requires AllWholePages(ranges) && Inside(ranges, fileSize, stagingSize)
    requires StagingDisjoint(ranges)
    requires !Contiguous(ranges, offset, rowBytes, position)
    ensures |file| == fileSize && |staging| == stagingSize && AllDelivered(file, staging, ranges)
    ensures !RowIntact(file, staging, offset, position, rowBytes)
  {
    var next := (offset / 4096 + 1) * 4096;
    file := MarkedFile(fileSize, next);
    staging := Image(file, ranges, stagingSize);
    ImageDelivers(file, ranges, stagingSize);
    if RowIntact(file, staging, offset, position, rowBytes) {
      var q := position + (next - offset);
      assert staging[position..position + rowBytes][next - offset] == file[offset..offset + rowBytes][next - offset];
      assert staging[q] == 1;
      MarkIsStaged(ranges, fileSize, next, q);
      assert false;
    }
  }

  lemma MarkIsStaged(ranges: seq<Range>, fileSize: nat, mark: nat, q: nat)
    requires AllWholePages(ranges) && ImageByte(MarkedFile(fileSize, mark), ranges, q) != 0
    ensures StagedAt(ranges, mark, q)
  {
    var i := ImageMark(MarkedFile(fileSize, mark), ranges, q);
    assert WholePages(ranges[i]);
    assert HoldsPage(ranges[i], mark / 4096);
  }

  /** A planned row is gathered correctly for every file and every stale staging content
      exactly when its second page, if it has one, is staged right behind the first. */
  lemma RowIntactIffContiguous(ranges: seq<Range>, fileSize: nat, stagingSize: nat,
                               offset: nat, position: nat, rowBytes: nat)
    requires AllWholePages(ranges) && Inside(ranges, fileSize, stagingSize)
    requires StagingDisjoint(ranges)
    requires 0 < rowBytes <= 4096 && StagedAt(ranges, offset, position)
    ensures Contiguous(ranges, offset, rowBytes, position) <==>
            forall file: seq<Byte>, staging: seq<Byte> ::
              |file| == fileSize && |staging| == stagingSize && AllDelivered(file, staging, ranges)
              ==> RowIntact(file, staging, offset, position, rowBytes)
  {
    if Contiguous(ranges, offset, rowBytes, position) {
      forall file: seq<Byte>, staging: seq<Byte> |
        |file| == fileSize && |staging| == stagingSize && AllDelivered(file, staging, ranges)
        ensures RowIntact(file, staging, offset, position, rowBytes)
      {
        ContiguousRowIntact(file, staging, ranges, offset, position, rowBytes);
      }
    } else {
      var file, staging := SplitRowBreaks(ranges, fileSize, stagingSize, offset, position, rowBytes);
    }
  }

  // ---- conditions a caller can check ----

  ghost predicate SameRange(ranges: seq<Range>, a: nat, b: nat) {
    exists i :: 0 <= i < |ranges| && HoldsPage(ranges[i], a) && HoldsPage(ranges[i], b)
  }

  lemma SameRangeContiguous(ranges: seq<Range>, offset: nat, rowBytes: nat, position: nat)
    requires FileOrder(ranges) && 0 < rowBytes <= 4096 && StagedAt(ranges, offset, position)
    requires SameRange(ranges, offset / 4096, (offset + rowBytes - 1) / 4096)
    ensures Contiguous(ranges, offset, rowBytes, position)
  {
    var first, last, next := offset / 4096, (offset + rowBytes - 1) / 4096, (offset / 4096 + 1) * 4096;
    if offset + rowBytes > next {
      CrossingPages(offset, rowBytes, next);
      HeldTogether(ranges, first, last, offset, next, position);
    }
  }

  lemma HeldTogether(ranges: seq<Range>, first: nat, last: nat, offset: nat, next: nat, position: nat)
    requires FileOrder(ranges) && SameRange(ranges, first, last) && StagedAt(ranges, offset, position)
    requires first == offset / 4096 && last == next / 4096 && offset <= next
    ensures StagedAt(ranges, next, position + (next - offset))
  {
    var i :| 0 <= i < |ranges| && HoldsPage(ranges[i], first) && HoldsPage(ranges[i], last);
    var j :| 0 <= j < |ranges| && HoldsPage(ranges[j], first)
             && position == ranges[j].stagingOffset + (offset - ranges[j].fileOffset);
    InFileOrder(ranges, i, j);
    InFileOrder(ranges, j, i);
    assert i == j;
    StagedTogether(ranges, i, offset, next, position);
  }

  lemma CrossingPages(offset: nat, rowBytes: nat, next: nat)
    requires 0 < rowBytes <= 4096 && next == (offset / 4096 + 1) * 4096 && offset + rowBytes > next
    ensures offset <= next && next / 4096 == (offset + rowBytes - 1) / 4096
  {}

  lemma StagedTogether(ranges: seq<Range>, i: nat, offset: nat, next: nat, position: nat)
    requires i < |ranges| && WholePages(ranges[i]) && offset <= next
    requires HoldsPage(ranges[i], offset / 4096) && HoldsPage(ranges[i], next / 4096)
    requires position == ranges[i].stagingOffset + (offset - ranges[i].fileOffset)
    ensures StagedAt(ranges, next, position + (next - offset))
  {
    assert position + (next - offset) == ranges[i].stagingOffset + (next - ranges[i].fileOffset);
  }

  /** The planned pages `a..b` form a run: no gap wider than the merge may bridge. */
  ghost predicate IsRun(pages: seq<nat>, a: nat, b: nat, maxGap: nat) {
    a <= b < |pages| && forall k :: a <= k < b ==> GapWithin(pages, k, maxGap)
  }

  ghost predicate GapWithin(pages: seq<nat>, k: nat, maxGap: nat)
    requires k + 1 < |pages|
  {
    pages[k + 1] <= pages[k] + 1 + maxGap
  }

  ghost predicate ShortRuns(pages: seq<nat>, maxGap: nat, maxPages: nat) {
    forall a: nat, b: nat :: IsRun(pages, a, b, maxGap) ==> pages[b] - pages[a] + 1 <= maxPages
  }

  lemma {:induction false} SpanIsRun(spans: seq<Span>, pages: seq<nat>, i: nat, a: nat, b: nat, maxGap: nat, maxPages: nat)
    requires Increasing(pages) && Merged(spans, pages, maxGap, maxPages) && i < |spans|
    requires a <= b < |pages| && spans[i].first == pages[a] && InSpan(spans[i], pages[b])
    ensures IsRun(pages, a, b, maxGap)
    decreases b
  {
    if a < b {
      Ascending(pages, a, b - 1);
      Ascending(pages, b - 1, b);
      SpanIsRun(spans, pages, i, a, b - 1, maxGap, maxPages);
      assert JoinedAt(spans, pages, b - 1, maxGap, maxPages);
      assert GapWithin(pages, b - 1, maxGap);
    }
  }

  /** When no run outgrows the size limit, neighbouring planned pages share a range. */
  lemma ShortRunsShareRange(ranges: seq<Range>, pages: seq<nat>, p: nat, maxGap: nat, maxPages: nat)
    requires Increasing(pages) && AllWholePages(ranges) && Merged(SpansOf(ranges), pages, maxGap, maxPages)
    requires ShortRuns(pages, maxGap, maxPages) && p in pages && p + 1 in pages
    ensures SameRange(ranges, p, p + 1)
  {
    var spans := SpansOf(ranges);
    var k :| 0 <= k < |pages| && pages[k] == p;
    var m :| 0 <= m < |pages| && pages[m] == p + 1;
    NeighbourIndex(pages, k, m);
    assert Held(spans, pages[k]);
    var i :| 0 <= i < |spans| && InSpan(spans[i], pages[k]);
    var a :| 0 <= a < |pages| && pages[a] == spans[i].first;
    PagesApart(pages, k, a);
    SpanIsRun(spans, pages, i, a, k, maxGap, maxPages);
    assert IsRun(pages, a, k + 1, maxGap) by {
      assert GapWithin(pages, k, maxGap);
    }
    assert JoinedAt(spans, pages, k, maxGap, maxPages);
    assert InSpan(spans[i], pages[k + 1]);
    assert HoldsPage(ranges[i], p) && HoldsPage(ranges[i], p + 1);
  }

  lemma NeighbourIndex(pages: seq<nat>, k: nat, m: nat)
    requires Increasing(pages) && k < |pages| && m < |pages| && pages[m] == pages[k] + 1
    ensures m == k + 1
  {
    PagesApart(pages, k, m);
    PagesApart(pages, m, k);
    if k + 1 < |pages| {
      PagesApart(pages, k + 1, m);
      PagesApart(pages, k, k + 1);
    }
  }

  lemma PagesApart(pages: seq<nat>, i: nat, j: nat)
    requires Increasing(pages) && i < |pages| && j < |pages|
    ensures i < j ==> pages[i] < pages[j]
  {}
}
