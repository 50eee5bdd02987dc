/** The compact artifact: a source specification is checked, regions are laid out, rows and
    global tensors are copied, and the metadata is checked again before it is published. */
module Artifact {
  import opened Options
  import opened Pages
  import NativeRead

  // ---- source specifications ----

  /** `rows` rows of `rowBytes` bytes at `offset` of a file, the first being row `rowStart`. */
  datatype Shard = Shard(file: seq<Byte>, offset: int, rows: int, rowBytes: int, rowStart: int)

  /** `itemSize` is that of the element type, if the type is a known one. */
  datatype Component = Component(name: string, isGlobal: bool, rowBytes: Option<int>,
                                 itemSize: Option<nat>, shape: Option<seq<int>>, shards: seq<Shard>)

  datatype Spec = Spec(rowCount: int, components: seq<Component>)

  /** A checked row component: shards in row order. */
  datatype RowSource = RowSource(name: string, rowBytes: nat, shards: seq<Shard>)

  datatype GlobalSource = GlobalSource(name: string, shard: Shard)

  function InsertShard(s: Shard, sorted: seq<Shard>): (r: seq<Shard>)
    ensures |r| == |sorted| + 1
  {
    if sorted == [] || sorted[|sorted| - 1].rowStart <= s.rowStart then sorted + [s]
    else InsertShard(s, sorted[..|sorted| - 1]) + [sorted[|sorted| - 1]]
  }

  /** The stable sort by first row. */
  function InRowOrder(shards: seq<Shard>): (r: seq<Shard>)
    ensures |r| == |shards|
  {
    if shards == [] then [] else InsertShard(shards[|shards| - 1], InRowOrder(shards[..|shards| - 1]))
  }

  lemma {:induction false} InsertKeeps(s: Shard, sorted: seq<Shard>)
    ensures multiset(InsertShard(s, sorted)) == multiset(sorted) + multiset{s}
  {
    if sorted != [] && sorted[|sorted| - 1].rowStart > s.rowStart {
      assert sorted == sorted[..|sorted| - 1] + [sorted[|sorted| - 1]];
      InsertKeeps(s, sorted[..|sorted| - 1]);
    }
  }

  /** Sorting neither loses nor adds a shard. */
  lemma {:induction false} OrderKeeps(shards: seq<Shard>)
    ensures multiset(InRowOrder(shards)) == multiset(shards)
  {
    if shards != [] {
      assert shards == shards[..|shards| - 1] + [shards[|shards| - 1]];
      OrderKeeps(shards[..|shards| - 1]);
      InsertKeeps(shards[|shards| - 1], InRowOrder(shards[..|shards| - 1]));
    }
  }

  predicate ShardFits(s: Shard, rowBytes: int) {
    && s.rows > 0 && s.rowBytes == rowBytes && s.offset >= 0 && rowBytes > 0
    && s.offset + s.rows * rowBytes <= |s.file|
  }

  /** The first `n` shards cover the rows from 0 without gap, up to where the next one starts. */
  predicate Covers(shards: seq<Shard>, rowBytes: int, n: nat)
    requires n <= |shards|
  {
    && (forall k :: 0 <= k < n ==> ShardFits(shards[k], rowBytes))
    && (forall k :: 0 <= k < n ==> StartsInPlace(shards, k))
  }

  predicate StartsInPlace(shards: seq<Shard>, k: nat)
    requires k < |shards|
  {
    shards[k].rowStart == RowsBefore(shards, k)
  }

  function RowsBefore(shards: seq<Shard>, n: nat): int
    requires n <= |shards|
  {
    if n == 0 then 0 else RowsBefore(shards, n - 1) + shards[n - 1].rows
  }

  predicate ValidRows(c: RowSource, rowCount: int) {
    && c.rowBytes > 0 && c.shards != [] && Covers(c.shards, c.rowBytes, |c.shards|)
    && RowsBefore(c.shards, |c.shards|) == rowCount
  }

  predicate ValidGlobal(s: Shard) {
    s.rows > 0 && s.offset >= 0 && s.rowBytes > 0 && s.offset + s.rows * s.rowBytes <= |s.file|
  }

  function RowSourceOf(c: Component): RowSource
    requires c.shards != []
  {
    var sorted := InRowOrder(c.shards);
    var rowBytes := if c.rowBytes.Some? then c.rowBytes.value else sorted[0].rowBytes;
    RowSource(c.name, if rowBytes < 0 then 0 else rowBytes, sorted)
  }

  /** The size of an element times the dimensions after the first, up to `n`. */
  function ElementBytes(itemSize: nat, shape: seq<int>, n: nat): int
    requires 1 <= n <= |shape|
  {
    if n == 1 then itemSize else ElementBytes(itemSize, shape, n - 1) * shape[n - 1]
  }

  /** Where both the element type and the shape are known, they account for the bytes of a row. */
  predicate ShapeAgrees(c: Component, rowBytes: int) {
    c.itemSize.Some? && c.shape.Some? && c.shape.value != [] ==>
      rowBytes == ElementBytes(c.itemSize.value, c.shape.value, |c.shape.value|)
  }

  predicate ValidComponent(c: Component, rowCount: int) {
    && c.shards != []
    && if c.isGlobal then |c.shards| == 1 && ValidGlobal(c.shards[0])
       else ValidRows(RowSourceOf(c), rowCount) && ShapeAgrees(c, RowSourceOf(c).rowBytes)
  }

  predicate IsPowerOfTwo(n: int) {
    n > 0 && (n == 1 || (n % 2 == 0 && IsPowerOfTwo(n / 2)))
  }

  function PowerOfTwo(k: nat): (r: nat)
    ensures r > 0
  {
    if k == 0 then 1 else 2 * PowerOfTwo(k - 1)
  }

  lemma {:induction false} PowersPass(k: nat)
    ensures IsPowerOfTwo(PowerOfTwo(k))
  {
    if k > 0 {
      PowersPass(k - 1);
      DivUnique(PowerOfTwo(k - 1), 2, 0);
    }
  }

  lemma {:induction false} ExponentOf(n: int) returns (k: nat)
    requires IsPowerOfTwo(n)
    ensures n == PowerOfTwo(k)
  {
    if n == 1 {
      k := 0;
    } else {
      var half := ExponentOf(n / 2);
      k := half + 1;
    }
  }

  /** The bit test of the source singles out exactly the powers of two. */
  lemma PowerOfTwoIff(n: int)
    ensures IsPowerOfTwo(n) <==> exists k: nat :: n == PowerOfTwo(k)
  {
    if IsPowerOfTwo(n) {
      var k := ExponentOf(n);
    }
    forall k: nat | n == PowerOfTwo(k) ensures IsPowerOfTwo(n) {
      PowersPass(k);
    }
  }

  predicate NamesOk(components: seq<Component>) {
    && (forall i :: 0 <= i < |components| ==> components[i].name != "")
    && (forall i, j :: 0 <= i < j < |components| ==> components[i].name != components[j].name)
  }

  predicate ValidSpec(spec: Spec, alignment: int) {
    && IsPowerOfTwo(alignment) && NamesOk(spec.components)
    && (forall i :: 0 <= i < |spec.components| ==> ValidComponent(spec.components[i], spec.rowCount))
    && (exists i :: 0 <= i < |spec.components| && !spec.components[i].isGlobal)
  }

  /** The row components of the first `n`, in order. */
  function RowParts(components: seq<Component>, n: nat): (r: seq<RowSource>)
    requires n <= |components| && forall i :: 0 <= i < n ==> components[i].shards != []
  {
    if n == 0 then []
    else if components[n - 1].isGlobal then RowParts(components, n - 1)
    else RowParts(components, n - 1) + [RowSourceOf(components[n - 1])]
  }

  function GlobalParts(components: seq<Component>, n: nat): (r: seq<GlobalSource>)
    requires n <= |components| && forall i :: 0 <= i < n ==> components[i].shards != []
  {
    if n == 0 then []
    else if !components[n - 1].isGlobal then GlobalParts(components, n - 1)
    else GlobalParts(components, n - 1) + [GlobalSource(components[n - 1].name, components[n - 1].shards[0])]
  }

  /** The walk over one component's sorted shards. */
  method CheckRows(c: RowSource, rowCount: int) returns (ok: bool)
    requires c.shards != []
    ensures ok == ValidRows(c, rowCount)
  {
    if c.rowBytes == 0 {
      return false;
    }
    var expected := 0;
    for k := 0 to |c.shards|
      invariant expected == RowsBefore(c.shards, k) && Covers(c.shards, c.rowBytes, k)
    {
      var s := c.shards[k];
      if s.rowStart != expected {
        assert !StartsInPlace(c.shards, k);
        return false;
      }
      if s.rows <= 0 || s.rowBytes != c.rowBytes {
        return false;
      }
      if s.offset < 0 || s.offset + s.rows * c.rowBytes > |s.file| {
        return false;
      }
      expected := expected + s.rows;
    }
    ok := expected == rowCount;
  }

  method CheckComponent(c: Component, rowCount: int) returns (ok: bool)
    ensures ok == ValidComponent(c, rowCount)
  {
    if c.shards == [] {
      return false;
    }
    if c.isGlobal {
      ok := |c.shards| == 1 && ValidGlobal(c.shards[0]);
    } else {
      ok := CheckShape(c, RowSourceOf(c).rowBytes);
      if ok {
        ok := CheckRows(RowSourceOf(c), rowCount);
      }
    }
  }

  method CheckShape(c: Component, rowBytes: int) returns (ok: bool)
    ensures ok == ShapeAgrees(c, rowBytes)
  {
    if c.itemSize.None? || c.shape.None? || c.shape.value == [] {
      return true;
    }
    var expected: int := c.itemSize.value;
    for n := 1 to |c.shape.value|
      invariant expected == ElementBytes(c.itemSize.value, c.shape.value, n)
    {
      expected := expected * c.shape.value[n];
    }
    ok := rowBytes == expected;
  }

  predicate DistinctNames(rows: seq<RowSource>, globals: seq<GlobalSource>) {
    && (forall i :: 0 <= i < |rows| ==> rows[i].name != "")
    && (forall i, j :: 0 <= i < j < |rows| ==> rows[i].name != rows[j].name)
    && (forall i, j :: 0 <= i < j < |globals| ==> globals[i].name != globals[j].name)
    && (forall i, j :: 0 <= i < |rows| && 0 <= j < |globals| ==> rows[i].name != globals[j].name)
  }

  /** Some component among the first `n` has this name and this kind. */
  ghost predicate NamedAmong(components: seq<Component>, n: nat, name: string, isGlobal: bool) {
    exists i :: 0 <= i < n <= |components| && components[i].name == name && components[i].isGlobal == isGlobal
  }

  lemma NamedMore(components: seq<Component>, n: nat, name: string, isGlobal: bool)
    requires NamesOk(components) && n < |components| && NamedAmong(components, n, name, isGlobal)
    ensures NamedAmong(components, n + 1, name, isGlobal) && name != components[n].name
  {
    var i :| 0 <= i < n && components[i].name == name && components[i].isGlobal == isGlobal;
  }

  ghost predicate PartsOk(components: seq<Component>, n: nat, rowCount: int, rows: seq<RowSource>, globals: seq<GlobalSource>) {
    && (forall k :: 0 <= k < |rows| ==> ValidRows(rows[k], rowCount) && NamedAmong(components, n, rows[k].name, false))
    && (forall k :: 0 <= k < |globals| ==>
          ValidGlobal(globals[k].shard) && NamedAmong(components, n, globals[k].name, true))
    && DistinctNames(rows, globals)
  }

  lemma OldNamesStay(components: seq<Component>, n: nat, rowCount: int, rows: seq<RowSource>, globals: seq<GlobalSource>)
    requires NamesOk(components) && n < |components| && PartsOk(components, n, rowCount, rows, globals)
    ensures PartsOk(components, n + 1, rowCount, rows, globals)
    ensures forall k :: 0 <= k < |rows| ==> rows[k].name != components[n].name
    ensures forall k :: 0 <= k < |globals| ==> globals[k].name != components[n].name
  {
    forall k | 0 <= k < |rows| ensures NamedAmong(components, n + 1, rows[k].name, false) && rows[k].name != components[n].name {
      NamedMore(components, n, rows[k].name, false);
    }
    forall k | 0 <= k < |globals|
      ensures NamedAmong(components, n + 1, globals[k].name, true) && globals[k].name != components[n].name
    {
      NamedMore(components, n, globals[k].name, true);
    }
  }

  lemma OneMoreRowPart(components: seq<Component>, n: nat, rowCount: int, rows: seq<RowSource>, globals: seq<GlobalSource>,
                       part: RowSource)
    requires NamesOk(components) && n < |components| && PartsOk(components, n, rowCount, rows, globals)
    requires !components[n].isGlobal && part.name == components[n].name && ValidRows(part, rowCount)
    ensures PartsOk(components, n + 1, rowCount, rows + [part], globals)
  {
    OldNamesStay(components, n, rowCount, rows, globals);
    assert NamedAmong(components, n + 1, part.name, false);
  }

  lemma OneMoreGlobalPart(components: seq<Component>, n: nat, rowCount: int, rows: seq<RowSource>, globals: seq<GlobalSource>,
                          part: GlobalSource)
    requires NamesOk(components) && n < |components| && PartsOk(components, n, rowCount, rows, globals)
    requires components[n].isGlobal && part.name == components[n].name && ValidGlobal(part.shard)
    ensures PartsOk(components, n + 1, rowCount, rows, globals + [part])
  {
    OldNamesStay(components, n, rowCount, rows, globals);
    assert NamedAmong(components, n + 1, part.name, true);
  }

  ghost predicate Checked(components: seq<Component>, rowCount: int, n: nat, rows: seq<RowSource>, globals: seq<GlobalSource>) {
    && n <= |components| && (forall j :: 0 <= j < n ==> ValidComponent(components[j], rowCount))
    && rows == RowParts(components, n) && globals == GlobalParts(components, n)
  }

  lemma {:induction false} SomeRowPart(components: seq<Component>, n: nat)
    requires n <= |components| && forall i :: 0 <= i < n ==> components[i].shards != []
    ensures RowParts(components, n) != [] <==> exists j :: 0 <= j < n && !components[j].isGlobal
  {
    if n > 0 {
      SomeRowPart(components, n - 1);
    }
  }

  lemma PartsMore(components: seq<Component>, n: nat)
    requires n < |components| && forall i :: 0 <= i <= n ==> components[i].shards != []
    ensures RowParts(components, n + 1)
            == if components[n].isGlobal then RowParts(components, n) else RowParts(components, n) + [RowSourceOf(components[n])]
    ensures GlobalParts(components, n + 1)
            == if components[n].isGlobal then GlobalParts(components, n) + [GlobalSource(components[n].name, components[n].shards[0])]
               else GlobalParts(components, n)
  {}

  lemma CheckedMore(components: seq<Component>, rowCount: int, n: nat, rows: seq<RowSource>, globals: seq<GlobalSource>,
                    rows': seq<RowSource>, globals': seq<GlobalSource>)
    requires Checked(components, rowCount, n, rows, globals) && n < |components| && ValidComponent(components[n], rowCount)
    requires rows' == if components[n].isGlobal then rows else rows + [RowSourceOf(components[n])]
    requires globals' == if components[n].isGlobal
                         then globals + [GlobalSource(components[n].name, components[n].shards[0])] else globals
    ensures Checked(components, rowCount, n + 1, rows', globals')
  {
    forall j | 0 <= j < n + 1 ensures ValidComponent(components[j], rowCount) {
      if j == n {
        assert components[j] == components[n];
      }
    }
    PartsMore(components, n);
  }

  method TakePart(components: seq<Component>, rowCount: int, i: nat, rows: seq<RowSource>, globals: seq<GlobalSource>)
      returns (rows': seq<RowSource>, globals': seq<GlobalSource>)
    requires i < |components| && NamesOk(components) && ValidComponent(components[i], rowCount)
    requires Checked(components, rowCount, i, rows, globals) && PartsOk(components, i, rowCount, rows, globals)
    ensures Checked(components, rowCount, i + 1, rows', globals') && PartsOk(components, i + 1, rowCount, rows', globals')
  {
    var c := components[i];
    if c.isGlobal {
      OneMoreGlobalPart(components, i, rowCount, rows, globals, GlobalSource(c.name, c.shards[0]));
      rows', globals' := rows, globals + [GlobalSource(c.name, c.shards[0])];
    } else {
      OneMoreRowPart(components, i, rowCount, rows, globals, RowSourceOf(c));
      rows', globals' := rows + [RowSourceOf(c)], globals;
    }
    CheckedMore(components, rowCount, i, rows, globals, rows', globals');
  }

  /** `_validate_spec`: what it accepts, and the parts it hands on. */
  method ValidateSpec(spec: Spec, alignment: int)
      returns (ok: bool, rows: seq<RowSource>, globals: seq<GlobalSource>)
    ensures ok == ValidSpec(spec, alignment)
    ensures ok ==> rows == RowParts(spec.components, |spec.components|) && rows != []
    ensures ok ==> globals == GlobalParts(spec.components, |spec.components|)
    ensures ok ==> PartsOk(spec.components, |spec.components|, spec.rowCount, rows, globals)
  {
    rows, globals := [], [];
    if !IsPowerOfTwo(alignment) || !NamesOk(spec.components) {
      return false, [], [];
    }
    for i := 0 to |spec.components|
      invariant Checked(spec.components, spec.rowCount, i, rows, globals)
      invariant PartsOk(spec.components, i, spec.rowCount, rows, globals)
    {
      var valid := CheckComponent(spec.components[i], spec.rowCount);
      if !valid {
        return false, [], [];
      }
      rows, globals := TakePart(spec.components, spec.rowCount, i, rows, globals);
    }
    SomeRowPart(spec.components, |spec.components|);
    ok := rows != [];
  }

  // ---- layout ----

  /** `_align`: the next multiple. */
  function Align(value: nat, alignment: nat): (r: nat)
    requires 0 < alignment
    ensures value <= r < value + alignment && r % alignment == 0
  {
    DivBounds(value + alignment - 1, alignment);
    DivUnique((value + alignment - 1) / alignment, alignment, 0);
    ((value + alignment - 1) / alignment) * alignment
  }

  datatype RowLayout = RowLayout(name: string, g: Geometry, blockCount: nat)

  datatype GlobalLayout = GlobalLayout(name: string, offset: nat, size: nat)

  datatype Metadata = Metadata(alignment: nat, rowCount: nat, blockRows: nat, blockCount: nat,
                               components: seq<RowLayout>, globals: seq<GlobalLayout>, dataSize: nat)

  function RegionEnd(l: RowLayout): nat { l.g.base + l.blockCount * l.g.stride }

  /** Where the metadata check stands after `i` components, and after `j` globals. */
  function RowCursor(m: Metadata, i: nat): nat
    requires i <= |m.components|
  {
    if i == 0 then 0 else RegionEnd(m.components[i - 1])
  }

  function Cursor(m: Metadata, j: nat): nat
    requires j <= |m.globals| && 0 < m.alignment
  {
    if j == 0 then RowCursor(m, |m.components|)
    else Align(m.globals[j - 1].offset + m.globals[j - 1].size, m.alignment)
  }

  predicate RowLayoutOk(m: Metadata, i: nat)
    requires i < |m.components| && 0 < m.alignment
  {
    var l := m.components[i];
    && l.g.base % m.alignment == 0 && l.g.base >= RowCursor(m, i)
    && l.g.stride % m.alignment == 0 && l.g.stride >= m.blockRows * l.g.rowBytes
    && l.blockCount == m.blockCount && l.g.blockRows == m.blockRows
  }

  predicate GlobalLayoutOk(m: Metadata, j: nat)
    requires j < |m.globals| && 0 < m.alignment
  {
    m.globals[j].offset % m.alignment == 0 && m.globals[j].offset >= Cursor(m, j) && m.globals[j].size > 0
  }

  function NameAt(m: Metadata, k: nat): string
    requires k < |m.components| + |m.globals|
  {
    if k < |m.components| then m.components[k].name else m.globals[k - |m.components|].name
  }

  predicate NamesDiffer(m: Metadata) {
    && (forall k: nat | k < |m.components| :: m.components[k].name != "")
    && (forall a: nat, b: nat | a < b < |m.components| + |m.globals| :: NameAt(m, a) != NameAt(m, b))
  }

  /** The geometry `validate_compact_metadata` accepts. */
  predicate MetadataOk(m: Metadata) {
    && IsPowerOfTwo(m.alignment) && 0 < m.rowCount && 0 < m.blockRows
    && m.blockCount == (m.rowCount + m.blockRows - 1) / m.blockRows
    && (forall i: nat | i < |m.components| :: RowLayoutOk(m, i))
    && (forall j: nat | j < |m.globals| :: GlobalLayoutOk(m, j))
    && NamesDiffer(m)
    && Cursor(m, |m.globals|) == m.dataSize
  }

  /** The check as the source runs it, with one cursor through all extents. */
  method ValidateMetadata(m: Metadata) returns (ok: bool)
    ensures ok == MetadataOk(m)
  {
    if !IsPowerOfTwo(m.alignment) || m.rowCount == 0 || m.blockRows == 0
       || m.blockCount != (m.rowCount + m.blockRows - 1) / m.blockRows || !NamesDiffer(m)
    {
      return false;
    }
    var cursor := 0;
    for i := 0 to |m.components|
      invariant cursor == RowCursor(m, i) && forall k: nat | k < i :: RowLayoutOk(m, k)
    {
      var l := m.components[i];
      if l.g.base % m.alignment != 0 || l.g.base < cursor || l.g.stride % m.alignment != 0
         || l.g.stride < m.blockRows * l.g.rowBytes || l.blockCount != m.blockCount || l.g.blockRows != m.blockRows
      {
        assert !RowLayoutOk(m, i);
        return false;
      }
      cursor := l.g.base + m.blockCount * l.g.stride;
    }
    for j := 0 to |m.globals|
      invariant cursor == Cursor(m, j) && forall k: nat | k < j :: GlobalLayoutOk(m, k)
    {
      var item := m.globals[j];
      if item.offset % m.alignment != 0 || item.offset < cursor || item.size == 0 {
        assert !GlobalLayoutOk(m, j);
        return false;
      }
      cursor := Align(item.offset + item.size, m.alignment);
    }
    ok := cursor == m.dataSize;
  }

  /** Component `i` starts at the first aligned offset after the one before it, and its blocks are
      the smallest aligned ones that hold their rows. */
  predicate RowTight(m: Metadata, i: nat)
    requires i < |m.components|
  {
    && m.components[i].g.base < (if i == 0 then 0 else RegionEnd(m.components[i - 1])) + m.alignment
    && m.components[i].g.stride < m.blockRows * m.components[i].g.rowBytes + m.alignment
  }

  /** Global `j` starts at the first aligned offset after what stands before it. */
  predicate GlobalTight(m: Metadata, j: nat)
    requires j < |m.globals|
  {
    m.globals[j].offset < m.alignment + (if j > 0 then m.globals[j - 1].offset + m.globals[j - 1].size
                                         else if m.components == [] then 0 else RegionEnd(m.components[|m.components| - 1]))
  }

  predicate Tight(m: Metadata) {
    && (forall i: nat | i < |m.components| :: RowTight(m, i))
    && (forall j: nat | j < |m.globals| :: GlobalTight(m, j))
  }

  lemma AlignedStays(value: nat, alignment: nat)
    requires 0 < alignment && value % alignment == 0
    ensures Align(value, alignment) == value
  {
    var r := Align(value, alignment);
    DivUnique(value / alignment, alignment, 0);
    if r > value {
      MulMono(value / alignment + 1, r / alignment, alignment);
    }
  }

  ghost predicate RowsPlaced(m: Metadata, rows: seq<RowSource>, n: nat, cursor: nat) {
    && 0 < m.alignment && |m.components| == n <= |rows| && cursor == RowCursor(m, n)
    && forall k: nat | k < n :: RowLayoutOk(m, k) && RowLaidOut(m, k, rows[k]) && RowTight(m, k)
  }

  ghost predicate GlobalsPlaced(m: Metadata, globals: seq<GlobalSource>, n: nat, cursor: nat) {
    && 0 < m.alignment && |m.globals| == n <= |globals| && cursor == Cursor(m, n)
    && forall k: nat | k < n :: GlobalLayoutOk(m, k) && GlobalLaidOut(m, k, globals[k]) && GlobalTight(m, k)
  }

  method PlaceRows(m: Metadata, cursor: nat, ghost rows: seq<RowSource>, n: nat, c: RowSource) returns (m': Metadata, cursor': nat)
    requires n < |rows| && rows[n] == c && RowsPlaced(m, rows, n, cursor)
    ensures RowsPlaced(m', rows, n + 1, cursor') && m' == m.(components := m'.components)
  {
    var stride := Align(m.blockRows * c.rowBytes, m.alignment);
    var base := Align(cursor, m.alignment);
    m' := m.(components := m.components + [RowLayout(c.name, Geometry(base, m.blockRows, stride, c.rowBytes), m.blockCount)]);
    cursor' := base + m.blockCount * stride;
    forall k: nat | k < n + 1 ensures RowLayoutOk(m', k) && RowLaidOut(m', k, rows[k]) && RowTight(m', k) {
      assert k < n ==> RowLayoutOk(m, k) && RowLaidOut(m, k, rows[k]) && RowTight(m, k);
    }
  }

  method PlaceGlobal(m: Metadata, cursor: nat, ghost globals: seq<GlobalSource>, n: nat, c: GlobalSource)
      returns (m': Metadata, cursor': nat)
    requires n < |globals| && globals[n] == c && GlobalsPlaced(m, globals, n, cursor) && ValidGlobal(c.shard)
    ensures GlobalsPlaced(m', globals, n + 1, cursor') && m' == m.(globals := m'.globals)
  {
    ProductPositive(c.shard.rows, c.shard.rowBytes);
    var offset, size := Align(cursor, m.alignment), c.shard.rows * c.shard.rowBytes;
    m' := m.(globals := m.globals + [GlobalLayout(c.name, offset, size)]);
    cursor' := Align(offset + size, m.alignment);
    if n > 0 {
      AlignedStays(cursor, m.alignment);
    }
    forall k: nat | k < n + 1 ensures GlobalLayoutOk(m', k) && GlobalLaidOut(m', k, globals[k]) && GlobalTight(m', k) {
      assert k < n ==> GlobalLayoutOk(m, k) && GlobalLaidOut(m, k, globals[k]) && GlobalTight(m, k);
    }
  }

  lemma LaidOutNames(m: Metadata, rows: seq<RowSource>, globals: seq<GlobalSource>)
    requires LaidOut(m, rows, globals) && DistinctNames(rows, globals)
    ensures NamesDiffer(m)
  {
    forall a: nat, b: nat | a < b < |rows| + |globals| ensures NameAt(m, a) != NameAt(m, b) {
      SourceName(m, rows, globals, a);
      SourceName(m, rows, globals, b);
    }
    forall k: nat | k < |m.components| ensures m.components[k].name != "" {
      SourceName(m, rows, globals, k);
    }
  }

  lemma SourceName(m: Metadata, rows: seq<RowSource>, globals: seq<GlobalSource>, k: nat)
    requires LaidOut(m, rows, globals) && k < |rows| + |globals|
    ensures NameAt(m, k) == if k < |rows| then rows[k].name else globals[k - |rows|].name
  {
    if k < |rows| {
      assert RowLaidOut(m, k, rows[k]);
    } else {
      assert GlobalLaidOut(m, k - |rows|, globals[k - |rows|]);
    }
  }

  /** The layout loop of `convert_compact`. */
  method PlanLayout(rowCount: nat, blockRows: nat, alignment: nat, rows: seq<RowSource>, globals: seq<GlobalSource>)
      returns (m: Metadata)
    requires 0 < rowCount && 0 < blockRows && IsPowerOfTwo(alignment) && DistinctNames(rows, globals)
    requires forall i :: 0 <= i < |globals| ==> ValidGlobal(globals[i].shard)
    ensures MetadataOk(m) && LaidOut(m, rows, globals) && Tight(m)
    ensures m.rowCount == rowCount && m.blockRows == blockRows && m.alignment == alignment
  {
    var blockCount := (rowCount + blockRows - 1) / blockRows;
    m := Metadata(alignment, rowCount, blockRows, blockCount, [], [], 0);
    var cursor := 0;
    for i := 0 to |rows|
      invariant m == Metadata(alignment, rowCount, blockRows, blockCount, m.components, [], 0)
      invariant RowsPlaced(m, rows, i, cursor)
    {
      m, cursor := PlaceRows(m, cursor, rows, i, rows[i]);
    }
    ghost var placed := m.components;
    for j := 0 to |globals|
      invariant m == Metadata(alignment, rowCount, blockRows, blockCount, placed, m.globals, 0)
      invariant GlobalsPlaced(m, globals, j, cursor)
    {
      m, cursor := PlaceGlobal(m, cursor, globals, j, globals[j]);
    }
    ghost var before := m;
    m := m.(dataSize := cursor);
    LayoutDone(Metadata(alignment, rowCount, blockRows, blockCount, placed, [], 0), before, m, rows, globals, cursor);
  }

  lemma LayoutDone(a: Metadata, b: Metadata, m: Metadata, rows: seq<RowSource>, globals: seq<GlobalSource>, cursor: nat)
    requires DistinctNames(rows, globals) && IsPowerOfTwo(m.alignment) && 0 < m.rowCount && 0 < m.blockRows
    requires m.blockCount == (m.rowCount + m.blockRows - 1) / m.blockRows
    requires RowsPlaced(a, rows, |rows|, RowCursor(a, |a.components|)) && GlobalsPlaced(b, globals, |globals|, cursor)
    requires a == m.(globals := [], dataSize := 0) && b == m.(dataSize := 0) && m.dataSize == cursor
    ensures MetadataOk(m) && LaidOut(m, rows, globals) && Tight(m)
  {
    forall k: nat | k < |rows| ensures RowLayoutOk(m, k) && RowLaidOut(m, k, rows[k]) && RowTight(m, k) {
      assert RowLayoutOk(a, k) && RowLaidOut(a, k, rows[k]) && RowTight(a, k);
    }
    forall k: nat | k < |globals| ensures GlobalLayoutOk(m, k) && GlobalLaidOut(m, k, globals[k]) && GlobalTight(m, k) {
      assert GlobalLayoutOk(b, k) && GlobalLaidOut(b, k, globals[k]) && GlobalTight(b, k);
    }
    LaidOutNames(m, rows, globals);
  }

  lemma ProductPositive(a: int, b: int)
    requires a > 0 && b > 0
    ensures a * b > 0
  {}

  predicate RowLaidOut(m: Metadata, i: nat, c: RowSource)
    requires i < |m.components|
  {
    m.components[i].name == c.name && m.components[i].g.rowBytes == c.rowBytes
  }

  predicate GlobalLaidOut(m: Metadata, j: nat, c: GlobalSource)
    requires j < |m.globals|
  {
    m.globals[j].name == c.name && m.globals[j].size == c.shard.rows * c.shard.rowBytes
  }

  predicate LaidOut(m: Metadata, rows: seq<RowSource>, globals: seq<GlobalSource>) {
    && |m.components| == |rows| && |m.globals| == |globals|
    && (forall i: nat | i < |rows| :: RowLaidOut(m, i, rows[i]))
    && (forall j: nat | j < |globals| :: GlobalLaidOut(m, j, globals[j]))
  }

  // ---- accepted metadata describes disjoint extents ----

  /** The bytes of component or global `k`. */
  function ExtentStart(m: Metadata, k: nat): nat
    requires k < |m.components| + |m.globals|
  {
    if k < |m.components| then m.components[k].g.base else m.globals[k - |m.components|].offset
  }

  function ExtentEnd(m: Metadata, k: nat): nat
    requires k < |m.components| + |m.globals|
  {
    if k < |m.components| then RegionEnd(m.components[k])
    else m.globals[k - |m.components|].offset + m.globals[k - |m.components|].size
  }

  lemma ExtentsFollow(m: Metadata, k: nat)
    requires MetadataOk(m) && k + 1 < |m.components| + |m.globals|
    ensures ExtentEnd(m, k) <= ExtentStart(m, k + 1)
  {
    var n := |m.components|;
    if k + 1 < n {
      assert RowLayoutOk(m, k + 1);
    } else if k + 1 == n {
      assert GlobalLayoutOk(m, 0);
    } else {
      assert GlobalLayoutOk(m, k + 1 - n);
    }
  }

  lemma {:induction false} ExtentsOrdered(m: Metadata, a: nat, b: nat)
    requires MetadataOk(m) && a < b < |m.components| + |m.globals|
    ensures ExtentEnd(m, a) <= ExtentStart(m, b)
    decreases b
  {
    ExtentsFollow(m, b - 1);
    if a < b - 1 {
      ExtentsOrdered(m, a, b - 1);
    }
  }

  lemma LastExtentEnds(m: Metadata)
    requires MetadataOk(m) && 0 < |m.components| + |m.globals|
    ensures ExtentEnd(m, |m.components| + |m.globals| - 1) <= m.dataSize
  {}

  /** Accepted metadata describes extents that are in order, disjoint and inside the data file. */
  lemma ExtentsDisjoint(m: Metadata, a: nat, b: nat)
    requires MetadataOk(m) && a < b < |m.components| + |m.globals|
    ensures ExtentEnd(m, a) <= ExtentStart(m, b) && ExtentEnd(m, b) <= m.dataSize
  {
    ExtentsOrdered(m, a, b);
    ExtentInside(m, b);
  }

  lemma ExtentInside(m: Metadata, k: nat)
    requires MetadataOk(m) && k < |m.components| + |m.globals|
    ensures ExtentEnd(m, k) <= m.dataSize
  {
    LastExtentEnds(m);
    var last := |m.components| + |m.globals| - 1;
    if k < last {
      ExtentsOrdered(m, k, last);
    }
  }

  // ---- source rows ----

  /** The shard that holds row `r` among the first `n`. */
  function ShardOf(shards: seq<Shard>, n: nat, r: nat): (k: nat)
    requires 1 <= n <= |shards| && shards[0].rowStart == 0
    ensures k < n && shards[k].rowStart <= r
    ensures forall q :: k < q < n ==> r < shards[q].rowStart
  {
    if n == 1 || shards[n - 1].rowStart <= r then n - 1 else ShardOf(shards, n - 1, r)
  }

  lemma {:induction false} RowsBeforeGrows(shards: seq<Shard>, rowBytes: int, a: nat, b: nat)
    requires a <= b <= |shards| && forall k :: 0 <= k < |shards| ==> ShardFits(shards[k], rowBytes)
    ensures 0 <= RowsBefore(shards, a) <= RowsBefore(shards, b)
  {
    if a < b {
      RowsBeforeGrows(shards, rowBytes, a, b - 1);
      assert ShardFits(shards[b - 1], rowBytes);
    } else if a > 0 {
      RowsBeforeGrows(shards, rowBytes, 0, a - 1);
      assert ShardFits(shards[a - 1], rowBytes);
    }
  }

  lemma RowInShard(c: RowSource, rowCount: nat, r: nat)
    requires ValidRows(c, rowCount) && r < rowCount
    ensures c.shards[0].rowStart == 0
    ensures var s := c.shards[ShardOf(c.shards, |c.shards|, r)];
            0 <= s.rowStart <= r < s.rowStart + s.rows && ShardFits(s, c.rowBytes)
  {
    ShardBounds(c, rowCount, 0);
    var k := ShardOf(c.shards, |c.shards|, r);
    ShardBounds(c, rowCount, k);
    if k + 1 < |c.shards| {
      ShardBounds(c, rowCount, k + 1);
    }
  }

  lemma StretchInside(s: Shard, rowBytes: nat, a: nat, b: nat)
    requires ShardFits(s, rowBytes) && a <= b <= s.rows
    ensures 0 <= s.offset + a * rowBytes <= s.offset + b * rowBytes <= |s.file|
  {
    MulMono(a, b, rowBytes);
    MulMono(b, s.rows, rowBytes);
  }

  /** Rows `a..b` of one shard, counted from its first row, as its file holds them. */
  function Stretch(s: Shard, rowBytes: nat, a: nat, b: nat): seq<Byte>
    requires ShardFits(s, rowBytes) && a <= b <= s.rows
  {
    StretchInside(s, rowBytes, a, b);
    s.file[s.offset + a * rowBytes..s.offset + b * rowBytes]
  }

  lemma StretchLength(s: Shard, rowBytes: nat, a: nat, b: nat)
    requires ShardFits(s, rowBytes) && a <= b <= s.rows
    ensures |Stretch(s, rowBytes, a, b)| == (b - a) * rowBytes
  {
    StretchInside(s, rowBytes, a, b);
    assert b * rowBytes - a * rowBytes == (b - a) * rowBytes;
  }

  lemma StretchJoins(s: Shard, rowBytes: nat, a: nat, m: nat, b: nat)
    requires ShardFits(s, rowBytes) && a <= m <= b <= s.rows
    ensures Stretch(s, rowBytes, a, b) == Stretch(s, rowBytes, a, m) + Stretch(s, rowBytes, m, b)
  {
    StretchInside(s, rowBytes, a, m);
    StretchInside(s, rowBytes, m, b);
    SliceJoins(s.file, s.offset + a * rowBytes, s.offset + m * rowBytes, s.offset + b * rowBytes);
  }

  lemma SliceJoins<T>(f: seq<T>, x: int, y: int, z: int)
    requires 0 <= x <= y <= z <= |f|
    ensures f[x..z] == f[x..y] + f[y..z]
  {}

  /** Row `r` of the source table. */
  function SourceRow(c: RowSource, rowCount: nat, r: nat): (row: seq<Byte>)
    requires ValidRows(c, rowCount) && r < rowCount
    ensures |row| == c.rowBytes
  {
    RowInShard(c, rowCount, r);
    var s := c.shards[ShardOf(c.shards, |c.shards|, r)];
    StretchLength(s, c.rowBytes, r - s.rowStart, r - s.rowStart + 1);
    Stretch(s, c.rowBytes, r - s.rowStart, r - s.rowStart + 1)
  }

  /** Rows `a..b`, one after the other. */
  function SourceRows(c: RowSource, rowCount: nat, a: nat, b: nat): seq<Byte>
    requires ValidRows(c, rowCount) && a <= b <= rowCount
    decreases b
  {
    if a == b then []
    else
      SourceRows(c, rowCount, a, b - 1) + SourceRow(c, rowCount, b - 1)
  }

  lemma OneMore(n: nat, rowBytes: nat)
    requires 0 < n
    ensures n * rowBytes == (n - 1) * rowBytes + rowBytes
  {}

  lemma {:induction false} LengthOfRows(c: RowSource, rowCount: nat, a: nat, b: nat, n: nat)
    requires ValidRows(c, rowCount) && b == a + n <= rowCount
    ensures |SourceRows(c, rowCount, a, b)| == n * c.rowBytes
    decreases n
  {
    if n > 0 {
      LengthOfRows(c, rowCount, a, b - 1, n - 1);
      OneMore(n, c.rowBytes);
    }
  }

  lemma SourceRowsLength(c: RowSource, rowCount: nat, a: nat, b: nat)
    requires ValidRows(c, rowCount) && a <= b <= rowCount
    ensures |SourceRows(c, rowCount, a, b)| == (b - a) * c.rowBytes
  {
    LengthOfRows(c, rowCount, a, b, b - a);
  }

  lemma {:induction false} RowsConcat(c: RowSource, rowCount: nat, a: nat, m: nat, b: nat)
    requires ValidRows(c, rowCount) && a <= m <= b <= rowCount
    ensures SourceRows(c, rowCount, a, b) == SourceRows(c, rowCount, a, m) + SourceRows(c, rowCount, m, b)
    decreases b
  {
    if m < b {
      RowsConcat(c, rowCount, a, m, b - 1);
      var x, y, z := SourceRows(c, rowCount, a, m), SourceRows(c, rowCount, m, b - 1), SourceRow(c, rowCount, b - 1);
      assert x + (y + z) == (x + y) + z;
    } else {
      assert SourceRows(c, rowCount, m, m) == [];
    }
  }

  lemma ShardHolds(c: RowSource, rowCount: nat, k: nat, r: nat)
    requires ValidRows(c, rowCount) && k < |c.shards| && r < rowCount
    requires c.shards[k].rowStart <= r < c.shards[k].rowStart + c.shards[k].rows
    ensures c.shards[0].rowStart == 0 && ShardOf(c.shards, |c.shards|, r) == k
  {
    RowInShard(c, rowCount, r);
    var q := ShardOf(c.shards, |c.shards|, r);
    ShardBounds(c, rowCount, k);
    ShardBounds(c, rowCount, q);
    if k < q {
      RowsBeforeGrows(c.shards, c.rowBytes, k + 1, q);
    }
  }

  lemma ShardRow(c: RowSource, rowCount: nat, k: nat, j: nat, next: nat, r: nat)
    requires ValidRows(c, rowCount) && k < |c.shards| && ShardFits(c.shards[k], c.rowBytes) && j < c.shards[k].rows
    requires 0 <= c.shards[k].rowStart && r == c.shards[k].rowStart + j < rowCount && next == j + 1
    ensures SourceRow(c, rowCount, r) == Stretch(c.shards[k], c.rowBytes, j, next)
  {
    ShardHolds(c, rowCount, k, r);
  }

  /** Rows `x..z` of the table are rows `a..b` of shard `k`, a stretch of its file. */
  lemma {:induction false} ShardSlice(c: RowSource, rowCount: nat, k: nat, a: nat, b: nat, x: nat, z: nat)
    requires ValidRows(c, rowCount) && k < |c.shards| && ShardFits(c.shards[k], c.rowBytes) && z <= rowCount
    requires 0 <= c.shards[k].rowStart && a <= b <= c.shards[k].rows
    requires x == c.shards[k].rowStart + a && z == c.shards[k].rowStart + b
    ensures SourceRows(c, rowCount, x, z) == Stretch(c.shards[k], c.rowBytes, a, b)
    decreases b
  {
    if a == b {
      EmptyStretch(c.shards[k], c.rowBytes, b);
    } else {
      var m, y := b - 1, z - 1;
      assert x <= y && y == c.shards[k].rowStart + m;
      ShardSlice(c, rowCount, k, a, m, x, y);
      OneMoreRow(c, rowCount, k, a, m, b, x, y, z);
    }
  }

  lemma OneMoreRow(c: RowSource, rowCount: nat, k: nat, a: nat, m: nat, b: nat, x: nat, y: nat, z: nat)
    requires ValidRows(c, rowCount) && k < |c.shards| && ShardFits(c.shards[k], c.rowBytes) && z <= rowCount
    requires 0 <= c.shards[k].rowStart && a <= m && b == m + 1 <= c.shards[k].rows
    requires x == c.shards[k].rowStart + a && y == c.shards[k].rowStart + m && z == y + 1
    requires SourceRows(c, rowCount, x, y) == Stretch(c.shards[k], c.rowBytes, a, m)
    ensures SourceRows(c, rowCount, x, z) == Stretch(c.shards[k], c.rowBytes, a, b)
  {
    var prev, last := Stretch(c.shards[k], c.rowBytes, a, m), Stretch(c.shards[k], c.rowBytes, m, b);
    ShardRow(c, rowCount, k, m, b, y);
    StretchJoins(c.shards[k], c.rowBytes, a, m, b);
    LastRow(c, rowCount, x, y, z);
    assert SourceRows(c, rowCount, x, z) == prev + last;
  }

  lemma EmptyStretch(s: Shard, rowBytes: nat, a: nat)
    requires ShardFits(s, rowBytes) && a <= s.rows
    ensures Stretch(s, rowBytes, a, a) == []
  {
    StretchLength(s, rowBytes, a, a);
  }

  lemma LastRow(c: RowSource, rowCount: nat, x: nat, y: nat, z: nat)
    requires ValidRows(c, rowCount) && x <= y && z == y + 1 <= rowCount
    ensures SourceRows(c, rowCount, x, z) == SourceRows(c, rowCount, x, y) + SourceRow(c, rowCount, y)
  {}

  // ---- reading source rows ----

  function Clamp(x: int, low: nat, high: nat): (c: nat)
    requires low <= high
    ensures low <= c <= high
  {
    if x < low then low else if x > high then high else x
  }

  /** What shard `k` contributes to rows `start..b`: its own rows `i..j`. */
  lemma ShardPart(c: RowSource, rowCount: nat, k: nat, start: nat, a: nat, b: nat, i: nat, j: nat)
    requires ValidRows(c, rowCount) && k < |c.shards| && ShardFits(c.shards[k], c.rowBytes) && start <= a <= b <= rowCount
    requires 0 <= c.shards[k].rowStart && a == c.shards[k].rowStart + i && b == c.shards[k].rowStart + j && j <= c.shards[k].rows
    ensures SourceRows(c, rowCount, start, b) == SourceRows(c, rowCount, start, a) + Stretch(c.shards[k], c.rowBytes, i, j)
  {
    ShardSlice(c, rowCount, k, i, j, a, b);
    RowsConcat(c, rowCount, start, a, b);
  }

  lemma ShardBounds(c: RowSource, rowCount: nat, k: nat)
    requires ValidRows(c, rowCount) && k < |c.shards|
    ensures ShardFits(c.shards[k], c.rowBytes) && 0 <= c.shards[k].rowStart
    ensures c.shards[k].rowStart == RowsBefore(c.shards, k)
    ensures c.shards[k].rowStart + c.shards[k].rows == RowsBefore(c.shards, k + 1) <= rowCount
  {
    assert StartsInPlace(c.shards, k);
    RowsBeforeGrows(c.shards, c.rowBytes, k, k + 1);
    RowsBeforeGrows(c.shards, c.rowBytes, k + 1, |c.shards|);
  }

  /** The first row at or after `start` that the first `k` shards do not hold, or `end`. */
  function ReadTo(c: RowSource, start: nat, end: nat, k: nat): (n: nat)
    requires start <= end && k <= |c.shards|
    ensures start <= n <= end
  {
    Clamp(RowsBefore(c.shards, k), start, end)
  }

  /** The wanted rows that the first `k` shards hold. */
  function RowsThrough(c: RowSource, rowCount: nat, start: nat, end: nat, k: nat): seq<Byte>
    requires ValidRows(c, rowCount) && start <= end <= rowCount && k <= |c.shards|
  {
    SourceRows(c, rowCount, start, ReadTo(c, start, end, k))
  }

  lemma NoShardsRead(c: RowSource, rowCount: nat, start: nat, end: nat)
    requires ValidRows(c, rowCount) && start <= end <= rowCount
    ensures RowsThrough(c, rowCount, start, end, 0) == []
  {}

  lemma AllShardsRead(c: RowSource, rowCount: nat, start: nat, end: nat)
    requires ValidRows(c, rowCount) && start <= end <= rowCount
    ensures RowsThrough(c, rowCount, start, end, |c.shards|) == SourceRows(c, rowCount, start, end)
  {}

  /** `_read_rows`: the parts of the wanted rows that each shard holds, joined. */
  method ReadRows(c: RowSource, rowCount: nat, start: nat, end: nat) returns (bytes: seq<Byte>)
    requires ValidRows(c, rowCount) && start <= end <= rowCount
    ensures bytes == SourceRows(c, rowCount, start, end)
  {
    bytes := [];
    NoShardsRead(c, rowCount, start, end);
    AllShardsRead(c, rowCount, start, end);
    ghost var wanted := SourceRows(c, rowCount, start, end);
    for k := 0 to |c.shards|
      invariant bytes == RowsThrough(c, rowCount, start, end, k)
      invariant RowsThrough(c, rowCount, start, end, |c.shards|) == wanted
    {
      bytes := ReadShard(c, rowCount, start, end, k, bytes);
    }
  }

  /** Appends the rows of shard `k` that are wanted, if any. */
  method ReadShard(c: RowSource, rowCount: nat, start: nat, end: nat, k: nat, bytes: seq<Byte>) returns (more: seq<Byte>)
    requires ValidRows(c, rowCount) && start <= end <= rowCount && k < |c.shards|
    requires bytes == RowsThrough(c, rowCount, start, end, k)
    ensures more == RowsThrough(c, rowCount, start, end, k + 1)
  {
    var s := c.shards[k];
    ShardBounds(c, rowCount, k);
    ghost var a, b := ReadTo(c, start, end, k), ReadTo(c, start, end, k + 1);
    var low, high := Wanted(s, start, end, a, b);
    var part := TakeWanted(c, rowCount, start, k, low, high, a, b);
    more := bytes + part;
  }

  method Wanted(s: Shard, start: nat, end: nat, ghost a: nat, ghost b: nat) returns (low: int, high: int)
    requires 0 <= s.rowStart && 0 < s.rows && start <= end
    requires a == Clamp(s.rowStart, start, end) && b == Clamp(s.rowStart + s.rows, start, end)
    ensures if low < high then a == low && b == high && s.rowStart <= low && high <= s.rowStart + s.rows else a == b
  {
    low := if start > s.rowStart then start else s.rowStart;
    high := if end < s.rowStart + s.rows then end else s.rowStart + s.rows;
  }

  method TakeWanted(c: RowSource, rowCount: nat, start: nat, k: nat, low: int, high: int, ghost a: nat, ghost b: nat)
    returns (part: seq<Byte>)
    requires ValidRows(c, rowCount) && k < |c.shards| && ShardFits(c.shards[k], c.rowBytes) && start <= a && b <= rowCount
    requires 0 <= c.shards[k].rowStart
    requires if low < high then a == low && b == high && c.shards[k].rowStart <= low && high <= c.shards[k].rowStart + c.shards[k].rows
             else a == b
    ensures SourceRows(c, rowCount, start, b) == SourceRows(c, rowCount, start, a) + part
  {
    var s := c.shards[k];
    part := [];
    if low < high {
      ShardPart(c, rowCount, k, start, low, high, low - s.rowStart, high - s.rowStart);
      part := Stretch(s, c.rowBytes, low - s.rowStart, high - s.rowStart);
    }
  }

  // ---- what a stored component is ----

  /** The data holds `bytes` at position `at`. */
  ghost predicate Holds<T>(data: seq<T>, at: nat, bytes: seq<T>) {
    at + |bytes| <= |data| && data[at..at + |bytes|] == bytes
  }

  lemma HoldsPart<T>(data: seq<T>, at: nat, x: seq<T>, y: seq<T>, z: seq<T>)
    requires Holds(data, at, x + y + z)
    ensures Holds(data, at + |x|, y)
  {
    var n := |x + y + z|;
    forall i | 0 <= i < |y| ensures data[at + |x|..at + |x| + |y|][i] == y[i] {
      assert data[at..at + n][|x| + i] == (x + y + z)[|x| + i];
    }
  }

  lemma HoldsJoin<T>(before: seq<T>, after: seq<T>, at: nat, x: seq<T>, y: seq<T>)
    requires Holds(before, at, x) && Holds(after, at + |x|, y) && OnlyWithin(before, after, at + |x|, at + |x| + |y|)
    ensures Holds(after, at, x + y)
  {
    var to := at + |x|;
    assert after[at..to] == before[at..to];
    SliceJoins(after, at, to, to + |y|);
  }

  /** Nothing outside `[from, to)` changed. */
  ghost predicate OnlyWithin<T>(before: seq<T>, after: seq<T>, from: nat, to: nat) {
    |before| == |after| && forall q :: 0 <= q < |after| && !(from <= q < to) ==> after[q] == before[q]
  }

  lemma HoldsKept<T>(before: seq<T>, after: seq<T>, from: nat, to: nat, at: nat, bytes: seq<T>)
    requires Holds(before, at, bytes) && OnlyWithin(before, after, from, to) && (at + |bytes| <= from || to <= at)
    ensures Holds(after, at, bytes)
  {
    assert after[at..at + |bytes|] == before[at..at + |bytes|];
  }

  lemma WithinMore<T>(a: seq<T>, b: seq<T>, c: seq<T>, from: nat, to: nat, x: nat, y: nat)
    requires OnlyWithin(a, b, from, to) && OnlyWithin(b, c, x, y) && from <= x && y <= to
    ensures OnlyWithin(a, c, from, to)
  {}

  ghost predicate RowStored(data: seq<Byte>, l: RowLayout, c: RowSource, rowCount: nat, r: nat)
    requires ValidRows(c, rowCount) && r < rowCount && 0 < l.g.blockRows
  {
    Holds(data, RowOffset(l.g, r), SourceRow(c, rowCount, r))
  }

  ghost predicate RowsStored(data: seq<Byte>, l: RowLayout, c: RowSource, rowCount: nat, n: nat)
    requires ValidRows(c, rowCount) && n <= rowCount && 0 < l.g.blockRows
  {
    forall r: nat {:trigger RowStored(data, l, c, rowCount, r)} :: r < n ==> RowStored(data, l, c, rowCount, r)
  }

  /** A layout that fits a component: what accepted metadata says of it. */
  predicate LayoutFits(l: RowLayout, c: RowSource, rowCount: nat) {
    && 0 < rowCount && 0 < l.g.blockRows && l.g.rowBytes == c.rowBytes && l.g.stride >= l.g.blockRows * c.rowBytes
    && l.blockCount == (rowCount + l.g.blockRows - 1) / l.g.blockRows
  }

  /** Rows `a..b` written at `dst` can be found one by one. */
  lemma SegmentRow(data: seq<Byte>, dst: nat, c: RowSource, rowCount: nat, a: nat, b: nat, r: nat, at: nat)
    requires ValidRows(c, rowCount) && a <= r < b <= rowCount && Holds(data, dst, SourceRows(c, rowCount, a, b))
    requires at == dst + (r - a) * c.rowBytes
    ensures Holds(data, at, SourceRow(c, rowCount, r))
  {
    RowsConcat(c, rowCount, a, r + 1, b);
    LastRow(c, rowCount, a, r, r + 1);
    var x, y, z := SourceRows(c, rowCount, a, r), SourceRow(c, rowCount, r), SourceRows(c, rowCount, r + 1, b);
    SourceRowsLength(c, rowCount, a, r);
    assert SourceRows(c, rowCount, a, b) == x + y + z;
    HoldsPart(data, dst, x, y, z);
    assert dst + |x| == at;
  }

  /** The row's block is one of the component's, and the row ends before the block does. */
  lemma BlockBounds(l: RowLayout, c: RowSource, rowCount: nat, r: nat, b: nat)
    requires LayoutFits(l, c, rowCount) && r < rowCount && b == r / l.g.blockRows
    ensures b < l.blockCount
    ensures l.g.base <= RowOffset(l.g, r) && RowOffset(l.g, r) + c.rowBytes <= l.g.base + b * l.g.stride + l.g.stride
  {
    var n, m := l.g.blockRows, r % l.g.blockRows;
    BlockIndexBelow(r, rowCount, n);
    RowInBlock(m, n, c.rowBytes);
  }

  lemma RowInBlock(m: nat, n: nat, rowBytes: nat)
    requires m < n
    ensures m * rowBytes + rowBytes <= n * rowBytes
  {
    MulMono(m + 1, n, rowBytes);
    assert (m + 1) * rowBytes == m * rowBytes + rowBytes;
  }

  lemma BlockIndexBelow(r: nat, rowCount: nat, n: nat)
    requires 0 < n && r < rowCount
    ensures r / n < (rowCount + n - 1) / n
  {
    DivStep(r, n);
    DivMono(r + n, rowCount + n - 1, n);
  }

  lemma DivMono(a: nat, b: nat, d: nat)
    requires 0 < d && a <= b
    ensures a / d <= b / d
  {
    DivBounds(a, d);
    DivBounds(b, d);
    if a / d > b / d {
      MulMono(b / d + 1, a / d, d);
    }
  }

  /** With a stride of exactly one block's rows, the rows lie back to back. */
  lemma DenseAddress(g: Geometry, r: nat)
    requires 0 < g.blockRows && g.stride == g.blockRows * g.rowBytes
    ensures RowOffset(g, r) == g.base + r * g.rowBytes
  {
    var n, q, m := g.blockRows, r / g.blockRows, r % g.blockRows;
    DivBounds(r, n);
    assert q * (n * g.rowBytes) == (q * n) * g.rowBytes;
    assert (q * n + m) * g.rowBytes == (q * n) * g.rowBytes + m * g.rowBytes;
  }

  lemma BlockAddress(g: Geometry, b: nat, start: nat, r: nat)
    requires 0 < g.blockRows && start == b * g.blockRows && start <= r < start + g.blockRows
    ensures RowOffset(g, r) == (g.base + b * g.stride) + (r - start) * g.rowBytes
  {
    DivUnique(b, g.blockRows, r - start);
  }

  // ---- writing ----

  method Write(bytes: seq<Byte>, data: array<Byte>, at: nat)
    requires at + |bytes| <= data.Length
    modifies data
    ensures Holds(data[..], at, bytes) && OnlyWithin(old(data[..]), data[..], at, at + |bytes|)
  {
    NativeRead.CopyBlock(bytes, data, at);
  }

  ghost predicate ShardsCopied(c: RowSource, rowCount: nat, base: nat, limit: nat, before: seq<Byte>, after: seq<Byte>, n: nat) {
    && ValidRows(c, rowCount) && n <= rowCount && OnlyWithin(before, after, base, limit)
    && Holds(after, base, SourceRows(c, rowCount, 0, n))
  }

  lemma ShardCopied(c: RowSource, rowCount: nat, base: nat, limit: nat, start: seq<Byte>, before: seq<Byte>, after: seq<Byte>,
                    a: nat, b: nat, bytes: seq<Byte>)
    requires a <= b <= rowCount && ShardsCopied(c, rowCount, base, limit, start, before, a)
    requires bytes == SourceRows(c, rowCount, a, b) && base + |SourceRows(c, rowCount, 0, a)| + |bytes| <= limit
    requires var at := base + |SourceRows(c, rowCount, 0, a)|;
             Holds(after, at, bytes) && OnlyWithin(before, after, at, at + |bytes|)
    ensures ShardsCopied(c, rowCount, base, limit, start, after, b)
  {
    var x := SourceRows(c, rowCount, 0, a);
    RowsConcat(c, rowCount, 0, a, b);
    HoldsJoin(before, after, base, x, bytes);
    WithinMore(start, before, after, base, limit, base + |x|, base + |x| + |bytes|);
  }

  /** Whole shards, when blocks leave no gap. */
  method CopyShards(c: RowSource, base: nat, rowCount: nat, data: array<Byte>, ghost limit: nat)
    requires ValidRows(c, rowCount) && limit == base + rowCount * c.rowBytes <= data.Length
    modifies data
    ensures OnlyWithin(old(data[..]), data[..], base, limit)
    ensures Holds(data[..], base, SourceRows(c, rowCount, 0, rowCount))
  {
    ghost var n: nat := 0;
    for k := 0 to |c.shards|
      invariant n == RowsBefore(c.shards, k)
      invariant ShardsCopied(c, rowCount, base, limit, old(data[..]), data[..], n)
    {
      ghost var next := CopyShard(c, base, rowCount, data, limit, old(data[..]), k, n);
      n := next;
    }
  }

  method CopyShard(c: RowSource, base: nat, rowCount: nat, data: array<Byte>, ghost limit: nat, ghost start: seq<Byte>,
                   k: nat, ghost n: nat) returns (ghost next: nat)
    requires ValidRows(c, rowCount) && limit == base + rowCount * c.rowBytes <= data.Length
    requires k < |c.shards| && n == RowsBefore(c.shards, k) && ShardsCopied(c, rowCount, base, limit, start, data[..], n)
    modifies data
    ensures next == RowsBefore(c.shards, k + 1) && ShardsCopied(c, rowCount, base, limit, start, data[..], next)
  {
    var s := c.shards[k];
    var bytes := Stretch(s, c.rowBytes, 0, s.rows);
    next := RowsBefore(c.shards, k + 1);
    ghost var at := ShardPlace(c, base, rowCount, limit, k, n, next, bytes);
    ghost var before := data[..];
    Write(bytes, data, base + s.rowStart * c.rowBytes);
    ShardCopied(c, rowCount, base, limit, start, before, data[..], n, next, bytes);
  }

  /** Where shard `k` goes: behind the rows before it, and inside the region. */
  lemma ShardPlace(c: RowSource, base: nat, rowCount: nat, limit: nat, k: nat, n: nat, next: nat, bytes: seq<Byte>)
    returns (at: nat)
    requires ValidRows(c, rowCount) && limit == base + rowCount * c.rowBytes && k < |c.shards|
    requires n == RowsBefore(c.shards, k) && next == RowsBefore(c.shards, k + 1) && n <= rowCount
    requires ShardFits(c.shards[k], c.rowBytes) && bytes == Stretch(c.shards[k], c.rowBytes, 0, c.shards[k].rows)
    ensures n <= next <= rowCount && bytes == SourceRows(c, rowCount, n, next)
    ensures at == base + c.shards[k].rowStart * c.rowBytes == base + |SourceRows(c, rowCount, 0, n)|
    ensures at + |bytes| <= limit
  {
    ShardBounds(c, rowCount, k);
    ShardSlice(c, rowCount, k, 0, c.shards[k].rows, n, next);
    SourceRowsLength(c, rowCount, 0, n);
    SourceRowsLength(c, rowCount, n, next);
    PositionInside(n, next, rowCount, c.rowBytes);
    at := base + c.shards[k].rowStart * c.rowBytes;
  }

  lemma PositionInside(a: nat, b: nat, rowCount: nat, rowBytes: nat)
    requires a <= b <= rowCount
    ensures a * rowBytes + (b - a) * rowBytes <= rowCount * rowBytes
  {
    MulMono(b, rowCount, rowBytes);
    assert a * rowBytes + (b - a) * rowBytes == b * rowBytes;
  }

  ghost predicate BlocksCopied(c: RowSource, l: RowLayout, rowCount: nat, before: seq<Byte>, after: seq<Byte>, n: nat) {
    && ValidRows(c, rowCount) && LayoutFits(l, c, rowCount) && OnlyWithin(before, after, l.g.base, RegionEnd(l))
    && n <= rowCount && RowsStored(after, l, c, rowCount, n)
  }

  /** Where block `b` is written, and that it fits. */
  lemma BlockPlace(l: RowLayout, c: RowSource, rowCount: nat, b: nat, start: nat, end: nat)
    requires LayoutFits(l, c, rowCount) && b < l.blockCount && start == b * l.g.blockRows
    requires start <= end <= start + l.g.blockRows
    ensures l.g.base <= l.g.base + b * l.g.stride
    ensures l.g.base + b * l.g.stride + (end - start) * c.rowBytes <= RegionEnd(l)
  {
    MulMono(end - start, l.g.blockRows, c.rowBytes);
    MulMono(b + 1, l.blockCount, l.g.stride);
    assert (b + 1) * l.g.stride == b * l.g.stride + l.g.stride;
  }

  lemma BlockExists(rowCount: nat, n: nat, blockCount: nat, b: nat)
    requires 0 < n && blockCount == (rowCount + n - 1) / n && b < blockCount
    ensures b * n < rowCount
  {
    DivBounds(rowCount + n - 1, n);
    MulMono(b + 1, blockCount, n);
    assert (b + 1) * n == b * n + n;
  }

  lemma EarlierBlock(l: RowLayout, c: RowSource, rowCount: nat, b: nat, start: nat, r: nat)
    requires LayoutFits(l, c, rowCount) && start == b * l.g.blockRows && r < start && r < rowCount
    ensures RowOffset(l.g, r) + c.rowBytes <= l.g.base + b * l.g.stride
  {
    var q := r / l.g.blockRows;
    BlockBounds(l, c, rowCount, r, q);
    DivBounds(r, l.g.blockRows);
    if q >= b {
      MulMono(b, q, l.g.blockRows);
    }
    MulMono(q + 1, b, l.g.stride);
    assert (q + 1) * l.g.stride == q * l.g.stride + l.g.stride;
  }

  lemma BlockCopied(c: RowSource, l: RowLayout, rowCount: nat, start0: seq<Byte>, before: seq<Byte>, after: seq<Byte>,
                    b: nat, start: nat, end: nat, dst: nat, payload: seq<Byte>)
    requires BlocksCopied(c, l, rowCount, start0, before, start) && start == b * l.g.blockRows
    requires start <= end <= start + l.g.blockRows && end <= rowCount && payload == SourceRows(c, rowCount, start, end)
    requires dst == l.g.base + b * l.g.stride && l.g.base <= dst && dst + |payload| <= RegionEnd(l)
    requires Holds(after, dst, payload) && OnlyWithin(before, after, dst, dst + |payload|)
    ensures BlocksCopied(c, l, rowCount, start0, after, end)
  {
    WithinMore(start0, before, after, l.g.base, RegionEnd(l), dst, dst + |payload|);
    forall r: nat | r < end ensures RowStored(after, l, c, rowCount, r) {
      if r < start {
        assert RowStored(before, l, c, rowCount, r);
        EarlierBlock(l, c, rowCount, b, start, r);
        HoldsKept(before, after, dst, dst + |payload|, RowOffset(l.g, r), SourceRow(c, rowCount, r));
      } else {
        BlockAddress(l.g, b, start, r);
        SegmentRow(after, dst, c, rowCount, start, end, r, RowOffset(l.g, r));
      }
    }
  }

  method CopyBlock(c: RowSource, l: RowLayout, rowCount: nat, data: array<Byte>, ghost start0: seq<Byte>, b: nat)
      returns (end: nat)
    requires RegionEnd(l) <= data.Length && LayoutFits(l, c, rowCount) && b < l.blockCount
    requires b * l.g.blockRows <= rowCount && BlocksCopied(c, l, rowCount, start0, data[..], b * l.g.blockRows)
    modifies data
    ensures BlocksCopied(c, l, rowCount, start0, data[..], end)
    ensures end == if b * l.g.blockRows + l.g.blockRows < rowCount then b * l.g.blockRows + l.g.blockRows else rowCount
  {
    var start := b * l.g.blockRows;
    end := if start + l.g.blockRows < rowCount then start + l.g.blockRows else rowCount;
    var payload := ReadRows(c, rowCount, start, end);
    SourceRowsLength(c, rowCount, start, end);
    BlockPlace(l, c, rowCount, b, start, end);
    ghost var before := data[..];
    var dst := l.g.base + b * l.g.stride;
    Write(payload, data, dst);
    BlockCopied(c, l, rowCount, start0, before, data[..], b, start, end, dst, payload);
  }

  /** Block by block, when blocks are padded to the alignment. */
  method CopyBlocks(c: RowSource, l: RowLayout, rowCount: nat, data: array<Byte>)
    requires ValidRows(c, rowCount) && LayoutFits(l, c, rowCount) && RegionEnd(l) <= data.Length
    modifies data
    ensures OnlyWithin(old(data[..]), data[..], l.g.base, RegionEnd(l))
    ensures RowsStored(data[..], l, c, rowCount, rowCount)
  {
    ghost var done: nat := 0;
    for b := 0 to l.blockCount
      invariant done == (if b * l.g.blockRows < rowCount then b * l.g.blockRows else rowCount)
      invariant BlocksCopied(c, l, rowCount, old(data[..]), data[..], done)
    {
      BlockExists(rowCount, l.g.blockRows, l.blockCount, b);
      var end := CopyBlock(c, l, rowCount, data, old(data[..]), b);
      NextBlock(b, l.g.blockRows);
      done := end;
    }
    AllBlocks(rowCount, l.g.blockRows, l.blockCount);
  }

  lemma NextBlock(b: nat, n: nat)
    ensures (b + 1) * n == b * n + n
  {}

  lemma AllBlocks(rowCount: nat, n: nat, blockCount: nat)
    requires 0 < n && blockCount == (rowCount + n - 1) / n
    ensures blockCount * n >= rowCount
  {
    DivBounds(rowCount + n - 1, n);
  }

  /** One component, by the path its padding asks for. */
  method StoreComponent(c: RowSource, l: RowLayout, rowCount: nat, data: array<Byte>)
    requires ValidRows(c, rowCount) && LayoutFits(l, c, rowCount) && RegionEnd(l) <= data.Length
    modifies data
    ensures OnlyWithin(old(data[..]), data[..], l.g.base, RegionEnd(l))
    ensures RowsStored(data[..], l, c, rowCount, rowCount)
  {
    if l.g.stride == l.g.blockRows * c.rowBytes {
      DenseEnd(l, c, rowCount);
      CopyShards(c, l.g.base, rowCount, data, l.g.base + rowCount * c.rowBytes);
      DenseStored(data[..], l, c, rowCount);
    } else {
      CopyBlocks(c, l, rowCount, data);
    }
  }

  lemma DenseStored(data: seq<Byte>, l: RowLayout, c: RowSource, rowCount: nat)
    requires ValidRows(c, rowCount) && LayoutFits(l, c, rowCount) && l.g.stride == l.g.blockRows * c.rowBytes
    requires Holds(data, l.g.base, SourceRows(c, rowCount, 0, rowCount))
    ensures RowsStored(data, l, c, rowCount, rowCount)
  {
    forall r: nat | r < rowCount ensures RowStored(data, l, c, rowCount, r) {
      DenseAddress(l.g, r);
      SegmentRow(data, l.g.base, c, rowCount, 0, rowCount, r, RowOffset(l.g, r));
    }
  }

  lemma DenseEnd(l: RowLayout, c: RowSource, rowCount: nat)
    requires LayoutFits(l, c, rowCount) && l.g.stride == l.g.blockRows * c.rowBytes
    ensures l.g.base + rowCount * c.rowBytes <= RegionEnd(l)
  {
    AllBlocks(rowCount, l.g.blockRows, l.blockCount);
    MulMono(rowCount, l.blockCount * l.g.blockRows, c.rowBytes);
    assert (l.blockCount * l.g.blockRows) * c.rowBytes == l.blockCount * (l.g.blockRows * c.rowBytes);
  }

  // ---- the whole artifact ----

  predicate AllRowsValid(rows: seq<RowSource>, rowCount: nat) {
    forall i :: 0 <= i < |rows| ==> ValidRows(rows[i], rowCount)
  }

  ghost predicate ComponentStored(data: seq<Byte>, m: Metadata, rows: seq<RowSource>, i: nat) {
    && i < |m.components| && i < |rows| && ValidRows(rows[i], m.rowCount) && 0 < m.components[i].g.blockRows
    && RowsStored(data, m.components[i], rows[i], m.rowCount, m.rowCount)
  }

  function GlobalBytes(s: Shard): seq<Byte>
    requires ValidGlobal(s)
  {
    ProductPositive(s.rows, s.rowBytes);
    s.file[s.offset..s.offset + s.rows * s.rowBytes]
  }

  ghost predicate GlobalStored(data: seq<Byte>, m: Metadata, globals: seq<GlobalSource>, j: nat) {
    && j < |m.globals| && j < |globals| && ValidGlobal(globals[j].shard)
    && Holds(data, m.globals[j].offset, GlobalBytes(globals[j].shard))
  }

  lemma FitsFromMetadata(m: Metadata, rows: seq<RowSource>, i: nat)
    requires MetadataOk(m) && i < |m.components| && i < |rows| && RowLaidOut(m, i, rows[i])
    ensures LayoutFits(m.components[i], rows[i], m.rowCount) && RegionEnd(m.components[i]) <= m.dataSize
    ensures m.components[i].g.base == ExtentStart(m, i) && RegionEnd(m.components[i]) == ExtentEnd(m, i)
  {
    assert RowLayoutOk(m, i);
    ExtentInside(m, i);
  }

  /** A write inside one extent leaves every other component and global as it was. */
  lemma ComponentKept(before: seq<Byte>, after: seq<Byte>, m: Metadata, rows: seq<RowSource>, i: nat, k: nat)
    requires MetadataOk(m) && k < |m.components| + |m.globals| && i != k && ComponentStored(before, m, rows, i)
    requires RowLaidOut(m, i, rows[i]) && OnlyWithin(before, after, ExtentStart(m, k), ExtentEnd(m, k))
    ensures ComponentStored(after, m, rows, i)
  {
    var l, c := m.components[i], rows[i];
    FitsFromMetadata(m, rows, i);
    if i < k { ExtentsOrdered(m, i, k); } else { ExtentsOrdered(m, k, i); }
    forall r: nat | r < m.rowCount ensures RowStored(after, l, c, m.rowCount, r) {
      assert RowStored(before, l, c, m.rowCount, r);
      RowInRegion(l, c, m.rowCount, r);
      HoldsKept(before, after, ExtentStart(m, k), ExtentEnd(m, k), RowOffset(l.g, r), SourceRow(c, m.rowCount, r));
    }
  }

  lemma RowInRegion(l: RowLayout, c: RowSource, rowCount: nat, r: nat)
    requires LayoutFits(l, c, rowCount) && r < rowCount
    ensures l.g.base <= RowOffset(l.g, r) && RowOffset(l.g, r) + c.rowBytes <= RegionEnd(l)
  {
    var b := r / l.g.blockRows;
    BlockBounds(l, c, rowCount, r, b);
    MulMono(b + 1, l.blockCount, l.g.stride);
    assert (b + 1) * l.g.stride == b * l.g.stride + l.g.stride;
  }

  lemma GlobalKept(before: seq<Byte>, after: seq<Byte>, m: Metadata, globals: seq<GlobalSource>, j: nat, k: nat)
    requires MetadataOk(m) && k < |m.components| + |m.globals| && |m.components| + j < k && GlobalStored(before, m, globals, j)
    requires GlobalLaidOut(m, j, globals[j]) && OnlyWithin(before, after, ExtentStart(m, k), ExtentEnd(m, k))
    ensures GlobalStored(after, m, globals, j)
  {
    ExtentsOrdered(m, |m.components| + j, k);
    HoldsKept(before, after, ExtentStart(m, k), ExtentEnd(m, k), m.globals[j].offset, GlobalBytes(globals[j].shard));
  }

  ghost predicate ReadyToWrite(m: Metadata, rows: seq<RowSource>, globals: seq<GlobalSource>) {
    && MetadataOk(m) && LaidOut(m, rows, globals) && AllRowsValid(rows, m.rowCount)
    && forall j :: 0 <= j < |globals| ==> ValidGlobal(globals[j].shard)
  }

  ghost predicate StoredUpTo(data: seq<Byte>, m: Metadata, rows: seq<RowSource>, globals: seq<GlobalSource>, i: nat, j: nat) {
    && |data| == m.dataSize
    && (forall k: nat :: k < i ==> ComponentStored(data, m, rows, k))
    && (forall k: nat :: k < j ==> GlobalStored(data, m, globals, k))
  }

  method WriteRows(m: Metadata, rows: seq<RowSource>, ghost globals: seq<GlobalSource>, data: array<Byte>, i: nat)
    requires ReadyToWrite(m, rows, globals) && i < |rows| && StoredUpTo(data[..], m, rows, globals, i, 0)
    modifies data
    ensures StoredUpTo(data[..], m, rows, globals, i + 1, 0)
  {
    assert RowLaidOut(m, i, rows[i]);
    FitsFromMetadata(m, rows, i);
    ghost var before := data[..];
    StoreComponent(rows[i], m.components[i], m.rowCount, data);
    forall k: nat | k < i ensures ComponentStored(data[..], m, rows, k) {
      assert RowLaidOut(m, k, rows[k]);
      ComponentKept(before, data[..], m, rows, k, i);
    }
  }

  method WriteGlobal(m: Metadata, ghost rows: seq<RowSource>, globals: seq<GlobalSource>, data: array<Byte>, j: nat)
    requires ReadyToWrite(m, rows, globals) && j < |globals| && StoredUpTo(data[..], m, rows, globals, |rows|, j)
    modifies data
    ensures StoredUpTo(data[..], m, rows, globals, |rows|, j + 1)
  {
    ghost var before, e := data[..], |m.components| + j;
    assert GlobalLaidOut(m, j, globals[j]);
    ExtentInside(m, e);
    Write(GlobalBytes(globals[j].shard), data, m.globals[j].offset);
    forall k: nat | k < |rows| ensures ComponentStored(data[..], m, rows, k) {
      assert RowLaidOut(m, k, rows[k]);
      ComponentKept(before, data[..], m, rows, k, e);
    }
    forall k: nat | k < j ensures GlobalStored(data[..], m, globals, k) {
      assert GlobalLaidOut(m, k, globals[k]);
      GlobalKept(before, data[..], m, globals, k, e);
    }
  }

  /** All components, then all globals. */
  method WriteData(m: Metadata, rows: seq<RowSource>, globals: seq<GlobalSource>) returns (data: array<Byte>)
    requires ReadyToWrite(m, rows, globals)
    ensures fresh(data) && StoredUpTo(data[..], m, rows, globals, |rows|, |globals|)
  {
    data := new Byte[m.dataSize](_ => 0);
    for i := 0 to |rows|
      invariant StoredUpTo(data[..], m, rows, globals, i, 0)
    {
      WriteRows(m, rows, globals, data, i);
    }
    for j := 0 to |globals|
      invariant StoredUpTo(data[..], m, rows, globals, |rows|, j)
    {
      WriteGlobal(m, rows, globals, data, j);
    }
  }

  // ---- from specification to artifact ----

  /** `convert_compact`: refused exactly for invalid specifications or block sizes; otherwise the
      metadata passes the check and every row and global tensor is where the metadata says. */
  method ConvertCompact(spec: Spec, blockRows: int, alignment: int)
      returns (ok: bool, m: Metadata, data: array<Byte>, ghost rows: seq<RowSource>, ghost globals: seq<GlobalSource>)
    ensures ok == (blockRows > 0 && ValidSpec(spec, alignment))
    ensures ok ==> MetadataOk(m) && m.rowCount == spec.rowCount && m.blockRows == blockRows && m.alignment == alignment
    ensures ok ==> rows == RowParts(spec.components, |spec.components|) && rows != []
    ensures ok ==> globals == GlobalParts(spec.components, |spec.components|)
    ensures ok ==> LaidOut(m, rows, globals) && StoredUpTo(data[..], m, rows, globals, |rows|, |globals|)
  {
    m := Metadata(1, 0, 0, 0, [], [], 0);
    data := new Byte[0];
    rows, globals := [], [];
    if blockRows <= 0 {
      return false, m, data, [], [];
    }
    var valid, rowParts, globalParts := ValidateSpec(spec, alignment);
    if !valid {
      return false, m, data, [], [];
    }
    RowCountPositive(rowParts[0], spec.rowCount);
    m := PlanLayout(spec.rowCount, blockRows, alignment, rowParts, globalParts);
    data := WriteData(m, rowParts, globalParts);
    ok, rows, globals := true, rowParts, globalParts;
  }

  lemma RowCountPositive(c: RowSource, rowCount: int)
    requires ValidRows(c, rowCount)
    ensures 0 < rowCount
  {
    RowsBeforeGrows(c.shards, c.rowBytes, 0, |c.shards| - 1);
    assert ShardFits(c.shards[|c.shards| - 1], c.rowBytes);
  }

  /** The naive lookup in the artifact is the row of the source table. */
  lemma StoredRowIsSourceRow(data: seq<Byte>, m: Metadata, rows: seq<RowSource>, globals: seq<GlobalSource>, i: nat, r: nat)
    requires MetadataOk(m) && LaidOut(m, rows, globals) && StoredUpTo(data, m, rows, globals, |rows|, |globals|)
    requires i < |rows| && ValidRows(rows[i], m.rowCount) && r < m.rowCount
    ensures var g := m.components[i].g;
            && 0 < g.blockRows && g.rowBytes == rows[i].rowBytes && RowOffset(g, r) + g.rowBytes <= |data|
            && NativeRead.NaiveRow(data, g, r) == SourceRow(rows[i], m.rowCount, r)
  {
    assert ComponentStored(data, m, rows, i);
    assert RowLaidOut(m, i, rows[i]);
    FitsFromMetadata(m, rows, i);
    assert RowStored(data, m.components[i], rows[i], m.rowCount, r);
  }
}
