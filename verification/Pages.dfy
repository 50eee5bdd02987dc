/** Pages, aligned ranges and row addresses shared by the planners and the reader.

    A row id is turned into a byte offset of the artifact (blocks of `blockRows` rows,
    `stride` bytes apart), the offset into 4096-byte pages, and pages into ranges that
    are read from the file into a staging buffer. */
module Pages {

  type Byte = x: nat | x < 256

  datatype Result<+T, +E> = Ok(value: T) | Err(error: E)

  /** One planned transfer: `size` bytes of the file, placed at `stagingOffset`. */
  datatype Range = Range(fileOffset: nat, size: nat, stagingOffset: nat)

  /** Whole pages only, and at least one. */
  predicate WholePages(r: Range) {
    r.fileOffset % 4096 == 0 && r.size % 4096 == 0 && 0 < r.size
  }

  function FirstPage(r: Range): nat { r.fileOffset / 4096 }

  function LastPage(r: Range): int { r.fileOffset / 4096 + r.size / 4096 - 1 }

  predicate HoldsPage(r: Range, page: nat) { FirstPage(r) <= page <= LastPage(r) }

  function TotalSize(ranges: seq<Range>): nat {
    if ranges == [] then 0 else TotalSize(ranges[..|ranges| - 1]) + ranges[|ranges| - 1].size
  }

  /** Two transfers write different staging bytes. */
  predicate Apart(a: Range, b: Range) {
    a.stagingOffset + a.size <= b.stagingOffset || b.stagingOffset + b.size <= a.stagingOffset
  }

  ghost predicate StagingDisjoint(ranges: seq<Range>) {
    forall i, j :: 0 <= i < j < |ranges| ==> Apart(ranges[i], ranges[j])
  }

  predicate Increasing(s: seq<nat>) {
    forall i, j :: 0 <= i < j < |s| ==> s[i] < s[j]
  }

  /** Where the artifact keeps its rows. */
  datatype Geometry = Geometry(base: nat, blockRows: nat, stride: nat, rowBytes: nat)

  function RowOffset(g: Geometry, id: nat): nat
    requires 0 < g.blockRows
  {
    g.base + (id / g.blockRows) * g.stride + (id % g.blockRows) * g.rowBytes
  }

  function RowFirstPage(g: Geometry, id: nat): nat
    requires 0 < g.blockRows
  {
    RowOffset(g, id) / 4096
  }

  function RowLastPage(g: Geometry, id: nat): nat
    requires 0 < g.blockRows && 0 < g.rowBytes
  {
    (RowOffset(g, id) + g.rowBytes - 1) / 4096
  }

  // ---- arithmetic used throughout ----

  lemma DivUnique(q: nat, d: nat, r: nat)
    requires r < d
    ensures (q * d + r) / d == q && (q * d + r) % d == r
  {
    if q == 0 {
      SmallDiv(r, d);
    } else {
      DivUnique(q - 1, d, r);
      assert q * d + r == ((q - 1) * d + r) + d;
      DivStep((q - 1) * d + r, d);
    }
  }

  lemma SmallDiv(r: nat, d: nat)
    requires r < d
    ensures r / d == 0 && r % d == r
  {}

  lemma DivStep(x: nat, d: nat)
    requires 0 < d
    ensures (x + d) / d == x / d + 1 && (x + d) % d == x % d
  {
    DivBounds(x, d);
    DivBounds(x + d, d);
    QuotientUnique(x + d, d, x / d + 1, x % d, (x + d) / d, (x + d) % d);
  }

  lemma DivBounds(x: nat, d: nat)
    requires 0 < d
    ensures x == (x / d) * d + x % d && x % d < d
  {}

  lemma QuotientUnique(x: nat, d: nat, q: nat, r: nat, q': nat, r': nat)
    requires x == q * d + r == q' * d + r' && r < d && r' < d
    ensures q == q' && r == r'
  {
    if q < q' {
      MulMono(q + 1, q', d);
    } else if q' < q {
      MulMono(q' + 1, q, d);
    }
  }

  lemma MulMono(a: nat, b: nat, c: nat)
    requires a <= b
    ensures a * c <= b * c
  {
    assert b * c == a * c + (b - a) * c;
  }

  /** A slice of a slice, the shape every gather needs. */
  lemma SubSlice<T>(s: seq<T>, lo: nat, hi: nat, a: nat, b: nat)
    requires lo <= hi <= |s| && a <= b <= hi - lo
    ensures s[lo..hi][a..b] == s[lo + a..lo + b]
  {
    var left, right := s[lo..hi][a..b], s[lo + a..lo + b];
    assert |left| == |right|;
    forall i | 0 <= i < b - a ensures left[i] == right[i] {
      assert left[i] == s[lo..hi][a + i] == s[lo + a + i];
    }
  }
}
