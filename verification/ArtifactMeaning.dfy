/** What a conversion and the metadata check mean, in terms of the shards as they are listed and of
    the extents as they lie in the data file. */
module ArtifactMeaning {
  import opened Options
  import opened Pages
  import opened Artifact

  // ---- a converted artifact holds the listed shards ----

  /** What `ConvertCompact` ensures of a valid specification. */
  ghost predicate Converted(spec: Spec, m: Metadata, data: seq<Byte>, rows: seq<RowSource>, globals: seq<GlobalSource>) {
    && ValidSpec(spec, m.alignment) && MetadataOk(m) && m.rowCount == spec.rowCount
    && rows == RowParts(spec.components, |spec.components|) && globals == GlobalParts(spec.components, |spec.components|)
    && LaidOut(m, rows, globals) && StoredUpTo(data, m, rows, globals, |rows|, |globals|)
  }

  lemma {:induction false} RowPartOf(components: seq<Component>, n: nat, j: nat) returns (i: nat)
    requires j < n <= |components| && (forall k :: 0 <= k < n ==> components[k].shards != []) && !components[j].isGlobal
    ensures i < |RowParts(components, n)| && RowParts(components, n)[i] == RowSourceOf(components[j])
  {
    if j == n - 1 {
      i := |RowParts(components, n - 1)|;
    } else {
      i := RowPartOf(components, n - 1, j);
    }
  }

  lemma {:induction false} GlobalPartOf(components: seq<Component>, n: nat, j: nat) returns (i: nat)
    requires j < n <= |components| && (forall k :: 0 <= k < n ==> components[k].shards != []) && components[j].isGlobal
    ensures i < |GlobalParts(components, n)|
    ensures GlobalParts(components, n)[i] == GlobalSource(components[j].name, components[j].shards[0])
  {
    if j == n - 1 {
      i := |GlobalParts(components, n - 1)|;
    } else {
      i := GlobalPartOf(components, n - 1, j);
    }
  }

  /** The row as the shard's file holds it. */
  ghost predicate IsRowOf(row: seq<Byte>, s: Shard, r: int) {
    var at := s.offset + (r - s.rowStart) * s.rowBytes;
    0 <= at && 0 < s.rowBytes && at + s.rowBytes <= |s.file| && row == s.file[at..at + s.rowBytes]
  }

  /** A row of a checked component comes from whichever listed shard covers it. */
  lemma SourceRowIsListed(c: Component, rowCount: nat, s: Shard, r: nat)
    requires ValidComponent(c, rowCount) && !c.isGlobal && s in c.shards && s.rowStart <= r < s.rowStart + s.rows
    ensures r < rowCount && RowSourceOf(c).rowBytes == s.rowBytes && IsRowOf(SourceRow(RowSourceOf(c), rowCount, r), s, r)
  {
    var source := RowSourceOf(c);
    OrderKeeps(c.shards);
    assert s in multiset(source.shards);
    var k :| 0 <= k < |source.shards| && source.shards[k] == s;
    ShardBounds(source, rowCount, k);
    var j: nat := r - s.rowStart;
    ShardRow(source, rowCount, k, j, j + 1, r);
    StretchIsRow(s, source.rowBytes, r, j);
  }

  lemma StretchIsRow(s: Shard, rowBytes: nat, r: int, j: nat)
    requires ShardFits(s, rowBytes) && j == r - s.rowStart < s.rows
    ensures IsRowOf(Stretch(s, rowBytes, j, j + 1), s, r)
  {
    StretchInside(s, rowBytes, j, j + 1);
    OneMore(j + 1, rowBytes);
  }

  /** Every row of every listed shard stands where the metadata of its component says. */
  lemma ConvertedRow(spec: Spec, m: Metadata, data: seq<Byte>, rows: seq<RowSource>, globals: seq<GlobalSource>,
                     j: nat, s: Shard, r: nat) returns (i: nat)
    requires Converted(spec, m, data, rows, globals) && j < |spec.components| && !spec.components[j].isGlobal
    requires s in spec.components[j].shards && s.rowStart <= r < s.rowStart + s.rows
    ensures i < |m.components| && m.components[i].name == spec.components[j].name
    ensures var g := m.components[i].g;
            && 0 < g.blockRows && g.rowBytes == s.rowBytes && RowOffset(g, r) + g.rowBytes <= |data|
            && IsRowOf(data[RowOffset(g, r)..RowOffset(g, r) + g.rowBytes], s, r)
  {
    var c := spec.components[j];
    assert ValidComponent(c, spec.rowCount);
    i := RowPartOf(spec.components, |spec.components|, j);
    SourceRowIsListed(c, spec.rowCount, s, r);
    assert RowLaidOut(m, i, rows[i]);
    StoredRowIsSourceRow(data, m, rows, globals, i, r);
  }

  /** So does every global tensor. */
  lemma ConvertedGlobal(spec: Spec, m: Metadata, data: seq<Byte>, rows: seq<RowSource>, globals: seq<GlobalSource>, j: nat)
    returns (i: nat)
    requires Converted(spec, m, data, rows, globals) && j < |spec.components| && spec.components[j].isGlobal
    ensures i < |m.globals| && m.globals[i].name == spec.components[j].name && |spec.components[j].shards| == 1
    ensures var s, l := spec.components[j].shards[0], m.globals[i];
            && l.size == s.rows * s.rowBytes && 0 <= s.offset && s.offset + l.size <= |s.file| && l.offset + l.size <= |data|
            && data[l.offset..l.offset + l.size] == s.file[s.offset..s.offset + l.size]
  {
    var c := spec.components[j];
    assert ValidComponent(c, spec.rowCount);
    i := GlobalPartOf(spec.components, |spec.components|, j);
    assert GlobalLaidOut(m, i, globals[i]) && GlobalStored(data, m, globals, i);
  }

  // ---- what the metadata check accepts ----

  lemma AlignLeast(value: nat, bound: nat, alignment: nat)
    requires 0 < alignment && bound % alignment == 0
    ensures value <= bound <==> Align(value, alignment) <= bound
  {
    var r := Align(value, alignment);
    if value <= bound < r {
      DivUnique(bound / alignment, alignment, 0);
      DivUnique(r / alignment, alignment, 0);
      if bound / alignment < r / alignment {
        OneMultipleApart(bound / alignment, r / alignment, alignment);
      } else {
        MulMono(r / alignment, bound / alignment, alignment);
      }
    }
  }

  lemma OneMultipleApart(a: nat, b: nat, d: nat)
    requires a < b
    ensures a * d + d <= b * d
  {
    MulMono(a + 1, b, d);
  }

  lemma AlignIs(value: nat, r: nat, alignment: nat)
    requires 0 < alignment && r % alignment == 0
    ensures r == Align(value, alignment) <==> value <= r < value + alignment
  {
    AlignLeast(value, r, alignment);
    if value <= r < value + alignment {
      var least := Align(value, alignment);
      DivUnique(least / alignment, alignment, 0);
      DivUnique(r / alignment, alignment, 0);
      if least / alignment < r / alignment {
        OneMultipleApart(least / alignment, r / alignment, alignment);
      } else {
        MulMono(r / alignment, least / alignment, alignment);
      }
    }
  }

  /** Components and globals one after the other, each aligned and behind the one before. */
  ghost predicate ExtentsInPlace(m: Metadata)
    requires 0 < m.alignment
  {
    forall k: nat :: k < |m.components| + |m.globals| ==>
      ExtentStart(m, k) % m.alignment == 0 && (k > 0 ==> ExtentEnd(m, k - 1) <= ExtentStart(m, k))
  }

  /** Blocks that are aligned, and large enough for their rows, of one number and size. */
  ghost predicate BlocksHold(m: Metadata)
    requires 0 < m.alignment
  {
    forall i: nat :: i < |m.components| ==>
      var g := m.components[i].g;
      && g.stride % m.alignment == 0 && m.blockRows * g.rowBytes <= g.stride
      && g.blockRows == m.blockRows && m.components[i].blockCount == m.blockCount
  }

  ghost predicate GlobalsHold(m: Metadata) {
    forall j: nat :: j < |m.globals| ==> 0 < m.globals[j].size
  }

  /** Where the last extent ends. */
  function LastEnd(m: Metadata): nat {
    var n := |m.components| + |m.globals|;
    if n == 0 then 0 else ExtentEnd(m, n - 1)
  }

  lemma RowLayoutIff(m: Metadata, i: nat)
    requires i < |m.components| && 0 < m.alignment
    ensures RowLayoutOk(m, i) <==>
              && m.components[i].g.stride % m.alignment == 0
              && m.blockRows * m.components[i].g.rowBytes <= m.components[i].g.stride
              && m.components[i].g.blockRows == m.blockRows && m.components[i].blockCount == m.blockCount
              && ExtentStart(m, i) % m.alignment == 0 && (i > 0 ==> ExtentEnd(m, i - 1) <= ExtentStart(m, i))
  {}

  lemma GlobalLayoutIff(m: Metadata, j: nat)
    requires j < |m.globals| && 0 < m.alignment
    ensures var k := |m.components| + j;
            GlobalLayoutOk(m, j) <==>
              && 0 < m.globals[j].size && ExtentStart(m, k) % m.alignment == 0
              && (k > 0 ==> ExtentEnd(m, k - 1) <= ExtentStart(m, k))
  {
    if j > 0 && m.globals[j].offset % m.alignment == 0 {
      AlignLeast(m.globals[j - 1].offset + m.globals[j - 1].size, m.globals[j].offset, m.alignment);
    }
  }

  lemma LayoutsIff(m: Metadata)
    requires 0 < m.alignment
    ensures (forall i: nat | i < |m.components| :: RowLayoutOk(m, i)) && (forall j: nat | j < |m.globals| :: GlobalLayoutOk(m, j))
            <==> BlocksHold(m) && GlobalsHold(m) && ExtentsInPlace(m)
  {
    var n := |m.components|;
    forall i: nat | i < n { RowLayoutIff(m, i); }
    forall j: nat | j < |m.globals| { GlobalLayoutIff(m, j); }
    if (forall i: nat | i < n :: RowLayoutOk(m, i)) && (forall j: nat | j < |m.globals| :: GlobalLayoutOk(m, j)) {
      forall k: nat | k < n + |m.globals|
        ensures ExtentStart(m, k) % m.alignment == 0 && (k > 0 ==> ExtentEnd(m, k - 1) <= ExtentStart(m, k))
      {
        if k < n {
          assert RowLayoutOk(m, k);
        } else {
          assert GlobalLayoutOk(m, k - n);
        }
      }
    }
  }

  /** The last extent of a valid layout ends at the data size, rounded up. */
  lemma DataSizeIff(m: Metadata)
    requires 0 < m.alignment && BlocksHold(m) && ExtentsInPlace(m)
    ensures Cursor(m, |m.globals|) == m.dataSize
            <==> m.dataSize % m.alignment == 0 && LastEnd(m) <= m.dataSize < LastEnd(m) + m.alignment
  {
    var n := |m.components|;
    if m.globals == [] && n > 0 {
      assert ExtentStart(m, n - 1) % m.alignment == 0;
      EndAligned(m.components[n - 1].g.base, m.components[n - 1].blockCount, m.components[n - 1].g.stride, m.alignment);
      AlignedStays(LastEnd(m), m.alignment);
    }
    assert LastEnd(m) == 0 ==> 0 % m.alignment == 0;
    if m.dataSize % m.alignment == 0 {
      AlignIs(LastEnd(m), m.dataSize, m.alignment);
    }
  }

  lemma EndAligned(base: nat, count: nat, stride: nat, alignment: nat)
    requires 0 < alignment && base % alignment == 0 && stride % alignment == 0
    ensures (base + count * stride) % alignment == 0
  {
    var b, s := base / alignment, stride / alignment;
    assert base == b * alignment && stride == s * alignment;
    assert count * (s * alignment) == (count * s) * alignment;
    assert base + count * stride == (b + count * s) * alignment;
    DivUnique(b + count * s, alignment, 0);
  }

  lemma BlockCountIff(rowCount: nat, blockRows: nat, count: nat)
    requires 0 < rowCount && 0 < blockRows
    ensures count == (rowCount + blockRows - 1) / blockRows <==> rowCount <= count * blockRows < rowCount + blockRows
  {
    DivBounds(rowCount + blockRows - 1, blockRows);
    var least := (rowCount + blockRows - 1) / blockRows;
    if least < count {
      OneMultipleApart(least, count, blockRows);
    } else if count < least {
      OneMultipleApart(count, least, blockRows);
    }
  }

  /** The check accepts exactly the metadata of a nonempty table in just enough blocks whose aligned
      extents, in order and under different names, fill the data file. */
  lemma MetadataOkIff(m: Metadata)
    ensures MetadataOk(m) <==>
              && IsPowerOfTwo(m.alignment) && 0 < m.rowCount && 0 < m.blockRows
              && m.rowCount <= m.blockCount * m.blockRows < m.rowCount + m.blockRows
              && BlocksHold(m) && GlobalsHold(m) && ExtentsInPlace(m) && NamesDiffer(m)
              && m.dataSize % m.alignment == 0 && LastEnd(m) <= m.dataSize < LastEnd(m) + m.alignment
  {
    if 0 < m.rowCount && 0 < m.blockRows {
      BlockCountIff(m.rowCount, m.blockRows, m.blockCount);
    }
    if 0 < m.alignment {
      LayoutsIff(m);
      if BlocksHold(m) && ExtentsInPlace(m) {
        DataSizeIff(m);
      }
    }
  }

  // ---- element types and shapes ----

  /** A vector has one element per row, a matrix a row of elements, and a further dimension
      multiplies. */
  lemma ShapeMeans(itemSize: nat, shape: seq<int>, n: nat)
    requires 1 <= n <= |shape|
    ensures n == 1 ==> ElementBytes(itemSize, shape, n) == itemSize
    ensures n == 2 ==> ElementBytes(itemSize, shape, n) == itemSize * shape[1]
    ensures n > 2 ==> ElementBytes(itemSize, shape, n) == ElementBytes(itemSize, shape, n - 1) * shape[n - 1]
  {}
}
