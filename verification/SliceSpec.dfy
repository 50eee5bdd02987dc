/** `slice_source_spec`: the first rows of a table, without copying any.

    It walks the shards as they are listed and stops at the first one past the wanted rows, while
    the validation puts them in row order first. */
module SliceSpec {
  import opened Options
  import opened Pages
  import opened Artifact

  function Shortened(s: Shard, n: int): Shard {
    if s.rowStart + s.rows <= n then s else s.(rows := n - s.rowStart)
  }

  function Sliced(shards: seq<Shard>, n: int): seq<Shard> {
    if shards == [] || shards[0].rowStart >= n then [] else [Shortened(shards[0], n)] + Sliced(shards[1..], n)
  }

  /** The walk over one component's shards. */
  method SliceShards(shards: seq<Shard>, n: int) returns (kept: seq<Shard>)
    ensures kept == Sliced(shards, n)
  {
    kept := [];
    for k := 0 to |shards|
      invariant kept + Sliced(shards[k..], n) == Sliced(shards, n)
    {
      var s := shards[k];
      if s.rowStart >= n {
        return;
      }
      assert shards[k..][1..] == shards[k + 1..];
      kept := kept + [s.(rows := if s.rows < n - s.rowStart then s.rows else n - s.rowStart)];
    }
  }

  function SlicedComponent(c: Component, n: int): Component {
    if c.isGlobal then c else c.(shards := Sliced(c.shards, n))
  }

  function SlicedSpec(spec: Spec, n: int): (t: Spec)
    ensures t.rowCount == n && |t.components| == |spec.components|
    ensures forall i :: 0 <= i < |t.components| ==> t.components[i] == SlicedComponent(spec.components[i], n)
  {
    Spec(n, seq(|spec.components|, i requires 0 <= i < |spec.components| => SlicedComponent(spec.components[i], n)))
  }

  /** Refused unless the number of rows is between one and that of the table. */
  method SliceSourceSpec(spec: Spec, n: int) returns (r: Option<Spec>)
    ensures r == if 0 < n <= spec.rowCount then Some(SlicedSpec(spec, n)) else None
  {
    if n <= 0 || n > spec.rowCount {
      return None;
    }
    var components: seq<Component> := [];
    for i := 0 to |spec.components|
      invariant |components| == i && forall j :: 0 <= j < i ==> components[j] == SlicedComponent(spec.components[j], n)
    {
      var c := spec.components[i];
      if !c.isGlobal {
        var kept := SliceShards(c.shards, n);
        c := c.(shards := kept);
      }
      components := components + [c];
    }
    assert components == SlicedSpec(spec, n).components;
    return Some(Spec(n, components));
  }

  // ---- tables in row order ----

  ghost predicate IsSlice(kept: seq<Shard>, shards: seq<Shard>, n: int) {
    && |kept| <= |shards| && (forall k :: 0 <= k < |kept| ==> shards[k].rowStart < n && kept[k] == Shortened(shards[k], n))
    && (|kept| < |shards| ==> shards[|kept|].rowStart >= n)
  }

  lemma ShortenedFits(s: Shard, rowBytes: nat, n: int)
    requires ShardFits(s, rowBytes) && s.rowStart < n
    ensures ShardFits(Shortened(s, n), rowBytes)
  {
    if s.rowStart + s.rows > n {
      MulMono(n - s.rowStart, s.rows, rowBytes);
    }
  }

  lemma {:induction false} SliceRowsBefore(kept: seq<Shard>, c: RowSource, rowCount: nat, n: nat, k: nat)
    requires ValidRows(c, rowCount) && IsSlice(kept, c.shards, n) && k <= |kept|
    ensures RowsBefore(kept, k) == if RowsBefore(c.shards, k) < n then RowsBefore(c.shards, k) else n
  {
    if k > 0 {
      SliceRowsBefore(kept, c, rowCount, n, k - 1);
      ShardBounds(c, rowCount, k - 1);
      assert kept[k - 1] == Shortened(c.shards[k - 1], n);
    }
  }

  /** A prefix of a valid table is a valid table with the same rows. */
  lemma SliceIsPrefix(kept: seq<Shard>, c: RowSource, rowCount: nat, n: nat)
    requires ValidRows(c, rowCount) && 0 < n <= rowCount && IsSlice(kept, c.shards, n)
    ensures ValidRows(c.(shards := kept), n)
    ensures forall r: nat :: r < n ==> SourceRow(c.(shards := kept), n, r) == SourceRow(c, rowCount, r)
  {
    var d := c.(shards := kept);
    SliceRowsBefore(kept, c, rowCount, n, |kept|);
    SliceRowsBefore(kept, c, rowCount, n, 0);
    ShardBounds(c, rowCount, 0);
    assert kept != [];
    forall k | 0 <= k < |kept| ensures ShardFits(kept[k], c.rowBytes) && StartsInPlace(kept, k) {
      ShardBounds(c, rowCount, k);
      ShortenedFits(c.shards[k], c.rowBytes, n);
      SliceRowsBefore(kept, c, rowCount, n, k);
    }
    if |kept| < |c.shards| {
      ShardBounds(c, rowCount, |kept|);
    }
    assert ValidRows(d, n);
    forall r: nat | r < n ensures SourceRow(d, n, r) == SourceRow(c, rowCount, r) {
      SlicedRow(kept, c, rowCount, n, r);
    }
  }

  lemma SlicedRow(kept: seq<Shard>, c: RowSource, rowCount: nat, n: nat, r: nat)
    requires ValidRows(c, rowCount) && n <= rowCount && IsSlice(kept, c.shards, n) && ValidRows(c.(shards := kept), n) && r < n
    ensures SourceRow(c.(shards := kept), n, r) == SourceRow(c, rowCount, r)
  {
    var d := c.(shards := kept);
    RowInShard(d, n, r);
    var k := ShardOf(kept, |kept|, r);
    assert kept[k] == Shortened(c.shards[k], n);
    ShardBounds(c, rowCount, k);
    var j := r - kept[k].rowStart;
    ShardRow(d, n, k, j, j + 1, r);
    ShardRow(c, rowCount, k, j, j + 1, r);
    SameStretch(kept[k], c.shards[k], c.rowBytes, j);
  }

  lemma SameStretch(a: Shard, b: Shard, rowBytes: nat, j: nat)
    requires ShardFits(a, rowBytes) && ShardFits(b, rowBytes) && a.file == b.file && a.offset == b.offset
    requires j < a.rows && j < b.rows
    ensures Stretch(a, rowBytes, j, j + 1) == Stretch(b, rowBytes, j, j + 1)
  {}

  // ---- shards as they are listed ----

  /** No shard at or past row `n` is listed before one that starts below it. */
  predicate Listed(shards: seq<Shard>, n: int) {
    forall i, j :: 0 <= i < j < |shards| && shards[i].rowStart >= n ==> shards[j].rowStart >= n
  }

  function AllShortened(shards: seq<Shard>, n: int): (t: seq<Shard>)
    ensures |t| == |shards| && forall i :: 0 <= i < |t| ==> t[i] == Shortened(shards[i], n)
  {
    seq(|shards|, i requires 0 <= i < |shards| => Shortened(shards[i], n))
  }

  lemma {:induction false} SlicedMeaning(shards: seq<Shard>, n: int)
    ensures var p := |Sliced(shards, n)|;
            && p <= |shards| && Sliced(shards, n) == AllShortened(shards[..p], n)
            && (forall k :: 0 <= k < p ==> shards[k].rowStart < n) && (p < |shards| ==> shards[p].rowStart >= n)
  {
    if shards != [] && shards[0].rowStart < n {
      SlicedMeaning(shards[1..], n);
      var q := |Sliced(shards[1..], n)|;
      assert shards[..q + 1] == [shards[0]] + shards[1..][..q];
    }
  }

  predicate SplitAt(shards: seq<Shard>, n: int, p: nat) {
    && p <= |shards| && (forall k :: 0 <= k < p ==> shards[k].rowStart < n)
    && (forall k :: p <= k < |shards| ==> shards[k].rowStart >= n)
  }

  lemma {:induction false} InsertPastEnd(s: Shard, sorted: seq<Shard>, n: int, p: nat)
    requires SplitAt(sorted, n, p) && s.rowStart >= n
    ensures SplitAt(InsertShard(s, sorted), n, p) && InsertShard(s, sorted)[..p] == sorted[..p]
  {
    if sorted != [] && sorted[|sorted| - 1].rowStart > s.rowStart {
      var front, last := sorted[..|sorted| - 1], sorted[|sorted| - 1];
      FrontSplits(sorted, front, sorted[..p], n, p);
      InsertPastEnd(s, front, n, p);
      AppendPastEnd(InsertShard(s, front), last, n, p);
      assert InsertShard(s, sorted) == InsertShard(s, front) + [last];
    } else {
      AppendPastEnd(sorted, s, n, p);
    }
  }

  lemma AppendPastEnd(sorted: seq<Shard>, s: Shard, n: int, p: nat)
    requires SplitAt(sorted, n, p) && s.rowStart >= n
    ensures SplitAt(sorted + [s], n, p) && (sorted + [s])[..p] == sorted[..p]
  {}

  /** Sorted, the shards below `n` come first, in the order they have alone. */
  predicate SortsApart(shards: seq<Shard>, low: seq<Shard>, n: int, p: nat) {
    SplitAt(InRowOrder(shards), n, p) && InRowOrder(shards)[..p] == InRowOrder(low)
  }

  lemma {:induction false} SortSplits(shards: seq<Shard>, low: seq<Shard>, n: int, p: nat)
    requires SplitAt(shards, n, p) && low == shards[..p]
    ensures SortsApart(shards, low, n, p)
    decreases |shards|
  {
    if |shards| == p {
      assert low == shards;
      SortAllLow(shards, n, p);
    } else {
      var front, last := shards[..|shards| - 1], shards[|shards| - 1];
      FrontSplits(shards, front, low, n, p);
      SortSplits(front, low, n, p);
      SortNext(shards, front, last, low, n, p);
    }
  }

  lemma FrontSplits(shards: seq<Shard>, front: seq<Shard>, low: seq<Shard>, n: int, p: nat)
    requires SplitAt(shards, n, p) && p < |shards| && front == shards[..|shards| - 1] && low == shards[..p]
    ensures SplitAt(front, n, p) && low == front[..p]
  {}

  lemma {:induction false} SortAllLow(shards: seq<Shard>, n: int, p: nat)
    requires SplitAt(shards, n, p) && p == |shards|
    ensures SortsApart(shards, shards, n, p)
  {
    SortedBelow(shards, n);
  }

  lemma {:induction false} SortNext(shards: seq<Shard>, front: seq<Shard>, last: Shard, low: seq<Shard>, n: int, p: nat)
    requires shards == front + [last] && last.rowStart >= n && SortsApart(front, low, n, p)
    ensures SortsApart(shards, low, n, p)
  {
    assert shards[..|shards| - 1] == front;
    InsertPastEnd(last, InRowOrder(front), n, p);
  }

  /** Where a sorted shard was listed. */
  lemma ListedAt(shards: seq<Shard>, k: nat) returns (i: nat)
    requires k < |InRowOrder(shards)|
    ensures i < |shards| && shards[i] == InRowOrder(shards)[k]
  {
    OrderKeeps(shards);
    var x := InRowOrder(shards)[k];
    assert x in multiset(InRowOrder(shards));
    assert x in shards;
    i :| 0 <= i < |shards| && shards[i] == x;
  }

  lemma SortedBelow(shards: seq<Shard>, n: int)
    requires forall k :: 0 <= k < |shards| ==> shards[k].rowStart < n
    ensures forall k :: 0 <= k < |InRowOrder(shards)| ==> InRowOrder(shards)[k].rowStart < n
  {
    forall k: nat | k < |InRowOrder(shards)| ensures InRowOrder(shards)[k].rowStart < n {
      var i := ListedAt(shards, k);
    }
  }

  lemma {:induction false} InsertShortened(s: Shard, sorted: seq<Shard>, n: int)
    ensures InsertShard(Shortened(s, n), AllShortened(sorted, n)) == AllShortened(InsertShard(s, sorted), n)
  {
    if sorted != [] && sorted[|sorted| - 1].rowStart > s.rowStart {
      var front := sorted[..|sorted| - 1];
      InsertShortened(s, front, n);
      assert AllShortened(sorted, n)[..|sorted| - 1] == AllShortened(front, n);
    }
  }

  lemma {:induction false} SortShortened(shards: seq<Shard>, n: int)
    ensures InRowOrder(AllShortened(shards, n)) == AllShortened(InRowOrder(shards), n)
  {
    if shards != [] {
      var front := shards[..|shards| - 1];
      SortShortened(front, n);
      assert AllShortened(shards, n)[..|shards| - 1] == AllShortened(front, n);
      InsertShortened(shards[|shards| - 1], InRowOrder(front), n);
    }
  }

  /** With the shards listed as they should be, slicing and sorting commute. */
  lemma SliceOfSorted(shards: seq<Shard>, n: int)
    requires Listed(shards, n)
    ensures IsSlice(InRowOrder(Sliced(shards, n)), InRowOrder(shards), n)
  {
    SlicedMeaning(shards, n);
    var p := |Sliced(shards, n)|;
    SortSplits(shards, shards[..p], n, p);
    SortShortened(shards[..p], n);
    FrontIsSlice(InRowOrder(shards), n, p, InRowOrder(Sliced(shards, n)));
  }

  lemma FrontIsSlice(sorted: seq<Shard>, n: int, p: nat, kept: seq<Shard>)
    requires SplitAt(sorted, n, p) && kept == AllShortened(sorted[..p], n)
    ensures IsSlice(kept, sorted, n)
  {}

  // ---- exactly when a slice is valid ----

  /** Row by row, the slice holds what the table holds. */
  ghost predicate SameFirstRows(c: Component, rowCount: nat, n: nat) {
    && c.shards != [] && Sliced(c.shards, n) != [] && n <= rowCount
    && ValidRows(RowSourceOf(c), rowCount) && ValidRows(RowSourceOf(SlicedComponent(c, n)), n) && !c.isGlobal
    && forall r: nat :: r < n ==>
         SourceRow(RowSourceOf(SlicedComponent(c, n)), n, r) == SourceRow(RowSourceOf(c), rowCount, r)
  }

  lemma ListedSlice(c: Component, rowCount: nat, n: nat)
    requires !c.isGlobal && ValidComponent(c, rowCount) && 0 < n <= rowCount && Listed(c.shards, n)
    ensures ValidComponent(SlicedComponent(c, n), n) && SameFirstRows(c, rowCount, n)
  {
    var whole, kept := RowSourceOf(c), Sliced(c.shards, n);
    SliceOfSorted(c.shards, n);
    SliceIsPrefix(InRowOrder(kept), whole, rowCount, n);
    assert InRowOrder(kept)[0] == Shortened(InRowOrder(c.shards)[0], n);
    assert RowSourceOf(SlicedComponent(c, n)) == whole.(shards := InRowOrder(kept));
  }

  lemma {:induction false} DistinctOnce(s: seq<Shard>, x: Shard)
    requires forall i, j :: 0 <= i < j < |s| ==> s[i] != s[j]
    ensures multiset(s)[x] <= 1
  {
    if s != [] {
      DistinctOnce(s[..|s| - 1], x);
      assert s == s[..|s| - 1] + [s[|s| - 1]];
    }
  }

  lemma TwiceIsTwo(s: seq<Shard>, i: nat, j: nat)
    requires i < j < |s| && s[i] == s[j]
    ensures multiset(s)[s[i]] >= 2
  {
    assert s == s[..j] + [s[j]] + s[j + 1..];
    assert s[..j][i] in multiset(s[..j]);
  }

  predicate HoldsRow(s: Shard, r: int) { s.rowStart <= r < s.rowStart + s.rows }

  /** A row of a valid table stands in one of the listed shards only. */
  lemma OneShardHolds(c: Component, rowCount: nat, i: nat, j: nat, r: nat)
    requires c.shards != [] && ValidRows(RowSourceOf(c), rowCount) && i < j < |c.shards| && r < rowCount
    requires HoldsRow(c.shards[i], r)
    ensures !HoldsRow(c.shards[j], r)
  {
    var d := RowSourceOf(c);
    forall a, b | 0 <= a < b < |d.shards| ensures d.shards[a] != d.shards[b] {
      ShardBounds(d, rowCount, a);
      ShardBounds(d, rowCount, b);
      RowsBeforeGrows(d.shards, d.rowBytes, a + 1, b);
    }
    if HoldsRow(c.shards[j], r) {
      var a := PlaceOf(c.shards, i);
      var b := PlaceOf(c.shards, j);
      ShardHolds(d, rowCount, a, r);
      ShardHolds(d, rowCount, b, r);
      OrderKeeps(c.shards);
      TwiceIsTwo(c.shards, i, j);
      DistinctOnce(d.shards, c.shards[i]);
    }
  }

  /** Where a listed shard is once they are sorted. */
  lemma PlaceOf(shards: seq<Shard>, i: nat) returns (k: nat)
    requires i < |shards|
    ensures k < |InRowOrder(shards)| && InRowOrder(shards)[k] == shards[i]
  {
    OrderKeeps(shards);
    var x := shards[i];
    assert x in multiset(shards);
    assert x in InRowOrder(shards);
    k :| 0 <= k < |InRowOrder(shards)| && InRowOrder(shards)[k] == x;
  }

  lemma KeptShardHolds(shards: seq<Shard>, n: int, k: nat, r: nat) returns (i: nat)
    requires k < |InRowOrder(Sliced(shards, n))| && HoldsRow(InRowOrder(Sliced(shards, n))[k], r)
    ensures i < |Sliced(shards, n)| <= |shards| && HoldsRow(shards[i], r)
  {
    var kept := Sliced(shards, n);
    SlicedMeaning(shards, n);
    i := ListedAt(kept, k);
    assert kept[i] == Shortened(shards[i], n);
  }

  /** A shard listed too late is lost, and its rows with it. */
  lemma UnlistedSlice(c: Component, rowCount: nat, n: nat, i: nat, j: nat)
    requires !c.isGlobal && ValidComponent(c, rowCount) && 0 < n <= rowCount
    requires i < j < |c.shards| && c.shards[i].rowStart >= n > c.shards[j].rowStart
    ensures !ValidComponent(SlicedComponent(c, n), n)
  {
    var kept, d := Sliced(c.shards, n), SlicedComponent(c, n);
    SlicedMeaning(c.shards, n);
    var at := PlaceOf(c.shards, j);
    ShardBounds(RowSourceOf(c), rowCount, at);
    var r: nat := c.shards[j].rowStart;
    if kept != [] && ValidRows(RowSourceOf(d), n) {
      RowInShard(RowSourceOf(d), n, r);
      var q := KeptShardHolds(c.shards, n, ShardOf(RowSourceOf(d).shards, |kept|, r), r);
      OneShardHolds(c, rowCount, q, j, r);
    }
  }

  /** A slice of a valid component is valid, and then holds the same first rows, if and only if no
      shard past the wanted rows is listed before one that is wanted. */
  lemma SliceIsValidIff(c: Component, rowCount: nat, n: nat)
    requires !c.isGlobal && ValidComponent(c, rowCount) && 0 < n <= rowCount
    ensures ValidComponent(SlicedComponent(c, n), n) <==> Listed(c.shards, n)
    ensures Listed(c.shards, n) ==> SameFirstRows(c, rowCount, n)
  {
    if Listed(c.shards, n) {
      ListedSlice(c, rowCount, n);
    } else {
      var i, j :| 0 <= i < j < |c.shards| && c.shards[i].rowStart >= n && c.shards[j].rowStart < n;
      UnlistedSlice(c, rowCount, n, i, j);
    }
  }

  predicate AllListed(spec: Spec, n: int) {
    forall i :: 0 <= i < |spec.components| && !spec.components[i].isGlobal ==> Listed(spec.components[i].shards, n)
  }

  /** The same for a whole source specification. */
  lemma SlicedSpecValidIff(spec: Spec, alignment: int, n: nat)
    requires ValidSpec(spec, alignment) && 0 < n <= spec.rowCount
    ensures ValidSpec(SlicedSpec(spec, n), alignment) <==> AllListed(spec, n)
    ensures AllListed(spec, n) ==>
              forall i :: 0 <= i < |spec.components| && !spec.components[i].isGlobal ==>
                SameFirstRows(spec.components[i], spec.rowCount, n)
  {
    forall i: nat | i < |spec.components| ensures PartAsListed(spec, n, i) {
      SlicedPart(spec, n, i);
    }
    if AllListed(spec, n) {
      ListedSpec(spec, alignment, n);
    } else {
      UnlistedSpec(spec, alignment, n);
    }
  }

  lemma ListedSpec(spec: Spec, alignment: int, n: nat)
    requires ValidSpec(spec, alignment) && 0 < n <= spec.rowCount && AllListed(spec, n)
    requires forall i: nat :: i < |spec.components| ==> PartAsListed(spec, n, i)
    ensures ValidSpec(SlicedSpec(spec, n), alignment)
    ensures forall i :: 0 <= i < |spec.components| && !spec.components[i].isGlobal ==>
              SameFirstRows(spec.components[i], spec.rowCount, n)
  {
    var t := SlicedSpec(spec, n);
    SlicedNames(spec, n);
    forall i: nat | i < |t.components| ensures ValidComponent(t.components[i], n) {
      assert PartAsListed(spec, n, i);
    }
    forall i: nat | i < |spec.components| && !spec.components[i].isGlobal
      ensures SameFirstRows(spec.components[i], spec.rowCount, n)
    {
      assert PartAsListed(spec, n, i);
    }
  }

  lemma UnlistedSpec(spec: Spec, alignment: int, n: nat)
    requires 0 < n <= spec.rowCount && !AllListed(spec, n)
    requires forall i: nat :: i < |spec.components| ==> PartAsListed(spec, n, i)
    ensures !ValidSpec(SlicedSpec(spec, n), alignment)
  {
    var t := SlicedSpec(spec, n);
    var i: nat :| i < |spec.components| && !spec.components[i].isGlobal && !Listed(spec.components[i].shards, n);
    assert PartAsListed(spec, n, i) && !ValidComponent(t.components[i], t.rowCount);
  }

  /** What slicing does to one component of a specification. */
  ghost predicate PartAsListed(spec: Spec, n: nat, i: nat)
    requires i < |spec.components| && 0 <= spec.rowCount
  {
    var c := spec.components[i];
    && (ValidComponent(SlicedComponent(c, n), n) <==> c.isGlobal || Listed(c.shards, n))
    && (!c.isGlobal && Listed(c.shards, n) ==> SameFirstRows(c, spec.rowCount, n))
  }

  lemma SlicedPart(spec: Spec, n: nat, i: nat)
    requires i < |spec.components| && ValidComponent(spec.components[i], spec.rowCount) && 0 < n <= spec.rowCount
    ensures PartAsListed(spec, n, i)
  {
    if !spec.components[i].isGlobal {
      SliceIsValidIff(spec.components[i], spec.rowCount, n);
    }
  }

  lemma SlicedNames(spec: Spec, n: int)
    requires NamesOk(spec.components)
    ensures NamesOk(SlicedSpec(spec, n).components)
    ensures (exists i :: 0 <= i < |spec.components| && !spec.components[i].isGlobal) ==>
              exists i :: 0 <= i < |SlicedSpec(spec, n).components| && !SlicedSpec(spec, n).components[i].isGlobal
  {
    var t := SlicedSpec(spec, n).components;
    assert forall i :: 0 <= i < |t| ==> t[i].name == spec.components[i].name && t[i].isGlobal == spec.components[i].isGlobal;
    if exists i :: 0 <= i < |spec.components| && !spec.components[i].isGlobal {
      var i :| 0 <= i < |spec.components| && !spec.components[i].isGlobal;
      assert !t[i].isGlobal;
    }
  }

  // ---- an input that loses its rows ----

  /** Ten rows of one byte in two shards of five, the second one listed first. */
  function TwoShards(file: seq<Byte>): Component {
    Component("table", false, None, None, None, [Shard(file, 5, 5, 1, 5), Shard(file, 0, 5, 1, 0)])
  }

  lemma TwoShardsValid(file: seq<Byte>)
    requires |file| == 10
    ensures ValidComponent(TwoShards(file), 10)
  {
    var a, b := Shard(file, 5, 5, 1, 5), Shard(file, 0, 5, 1, 0);
    assert InRowOrder([a]) == [a] by {
      assert [a][..0] == [];
    }
    assert [a, b][..1] == [a] && [a][..0] == [];
    assert InsertShard(b, []) == [b] && InsertShard(b, [a]) == [b] + [a];
    assert InRowOrder([a, b]) == [b, a];
    assert RowsBefore([b, a], 0) == 0 && RowsBefore([b, a], 1) == 5;
    assert RowsBefore([b, a], 2) == RowsBefore([b, a], 1) + a.rows;
    assert StartsInPlace([b, a], 0) && StartsInPlace([b, a], 1);
  }

  /** The validation accepts the specification; its first five rows have no shard at all. */
  lemma SliceLosesRows(file: seq<Byte>)
    requires |file| == 10
    ensures var spec := Spec(10, [TwoShards(file)]);
            && ValidSpec(spec, 1) && SlicedSpec(spec, 5).components[0].shards == []
            && !ValidSpec(SlicedSpec(spec, 5), 1)
  {
    var spec := Spec(10, [TwoShards(file)]);
    TwoShardsValid(file);
    assert !spec.components[0].isGlobal;
    assert ValidSpec(spec, 1);
    assert !ValidComponent(SlicedSpec(spec, 5).components[0], 5);
  }
}
