/** Row-id planning for N-grams of size 3: the batched planner, its one-token and seven-token
    fast paths, and the token history that supplies the context of a slice. */
module NgramPlan {

  datatype Result<+T> = Ok(value: T) | Err(error: PlanError)

  datatype PlanError = NoRequest | ContextShape | StartNotZero | Decreasing | EndsOutside | OutOfRange
                     | UnknownRequest | NegativeSlice | ShadowUnderflow | PaddingTooSmall

  /** The embedding layer: two hash mixes (64-bit in the source, unknown functions here) and, for
      each head, the size and the offset of its part of the table. */
  datatype Layer = Layer(eos: int, heads: nat, mix2: (int, int) -> int, mix3: (int, int, int) -> int,
                         sizes: seq<int>, offsets: seq<int>, rowCount: nat)

  predicate ValidLayer(l: Layer) {
    && |l.sizes| == |l.offsets| == 2 * l.heads
    && forall j :: 0 <= j < |l.sizes| ==> l.sizes[j] != 0
  }

  /** The remainder with the sign of the divisor. */
  function Remainder(a: int, b: int): (r: int)
    requires b != 0
    ensures b > 0 ==> 0 <= r < b
    ensures b < 0 ==> b < r <= 0
  {
    if b > 0 then a % b else -((-a) % (-b))
  }

  // ---- the sliding window ----

  /** A token with its two predecessors; nothing is seen through an end-of-text token. */
  datatype Window = Window(current: int, previous1: int, previous2: int)

  function WindowAt(eos: int, s: seq<int>, p: nat): Window
    requires 2 <= p < |s|
  {
    Window(s[p], s[p - 1], if s[p - 1] == eos then eos else s[p - 2])
  }

  /** The row ids of one token: first the 2-gram heads, then the 3-gram heads. */
  function TokenIds(l: Layer, w: Window): (ids: seq<int>)
    requires ValidLayer(l)
    ensures |ids| == 2 * l.heads
  {
    var mixed2, mixed3 := l.mix2(w.current, w.previous1), l.mix3(w.current, w.previous1, w.previous2);
    seq(2 * l.heads, j requires 0 <= j < 2 * l.heads =>
      Remainder(if j < l.heads then mixed2 else mixed3, l.sizes[j]) + l.offsets[j])
  }

  function Flatten(rows: seq<seq<int>>): seq<int> {
    if rows == [] then [] else Flatten(rows[..|rows| - 1]) + rows[|rows| - 1]
  }

  lemma {:induction false} FlattenConcat(a: seq<seq<int>>, b: seq<seq<int>>)
    ensures Flatten(a + b) == Flatten(a) + Flatten(b)
  {
    if b == [] {
      assert a + b == a;
    } else {
      assert (a + b)[..|a + b| - 1] == a + b[..|b| - 1];
      FlattenConcat(a, b[..|b| - 1]);
    }
  }

  // ---- what a batch means ----

  /** Tokens of all requests, where each request starts, and two tokens of context each. */
  datatype Batch = Batch(inputIds: seq<int>, starts: seq<int>, context: seq<seq<int>>)

  predicate ContextShapeOk(b: Batch) {
    |b.context| == |b.starts| - 1 && forall r :: 0 <= r < |b.context| ==> |b.context[r]| == 2
  }

  predicate NonDecreasing(s: seq<int>) {
    forall i :: 0 <= i < |s| - 1 ==> s[i] <= s[i + 1]
  }

  predicate ValidBatch(b: Batch) {
    && 2 <= |b.starts| && ContextShapeOk(b) && b.starts[0] == 0 && NonDecreasing(b.starts)
    && 0 <= b.starts[|b.starts| - 1] <= |b.inputIds|
  }

  /** Why a batch is refused, in the order of the checks. */
  function Refusal(b: Batch): PlanError
    requires !ValidBatch(b)
  {
    if |b.starts| < 2 then NoRequest
    else if !ContextShapeOk(b) then ContextShape
    else if b.starts[0] != 0 then StartNotZero
    else if !NonDecreasing(b.starts) then Decreasing
    else EndsOutside
  }

  lemma {:induction false} Ordered(s: seq<int>, i: nat, j: nat)
    requires NonDecreasing(s) && i <= j < |s|
    ensures s[i] <= s[j]
    decreases j
  {
    if i < j {
      Ordered(s, i, j - 1);
      assert s[j - 1] <= s[j - 1 + 1];
    }
  }

  /** The tokens of request `r`. */
  function Tokens(b: Batch, r: nat): (t: seq<int>)
    requires ValidBatch(b) && r < |b.context|
    ensures |t| == b.starts[r + 1] - b.starts[r]
  {
    Ordered(b.starts, 0, r);
    Ordered(b.starts, r, r + 1);
    Ordered(b.starts, r + 1, |b.starts| - 1);
    b.inputIds[b.starts[r]..b.starts[r + 1]]
  }

  function MaxLength(b: Batch, n: nat): (m: nat)
    requires ValidBatch(b) && n <= |b.context|
    ensures 1 <= m && forall r :: 0 <= r < n ==> |Tokens(b, r)| <= m
    ensures m == 1 || exists r :: 0 <= r < n && |Tokens(b, r)| == m
  {
    if n == 0 then 1
    else
      var m := MaxLength(b, n - 1);
      if |Tokens(b, n - 1)| > m then |Tokens(b, n - 1)| else m
  }

  function Fill(eos: int, n: nat): (s: seq<int>)
    ensures |s| == n && forall i :: 0 <= i < n ==> s[i] == eos
  {
    seq(n, _ => eos)
  }

  /** A request's row of the padded matrix: context, tokens, end-of-text padding. */
  function RowOf(l: Layer, b: Batch, r: nat): (s: seq<int>)
    requires ValidBatch(b) && r < |b.context|
    ensures |s| == 2 + MaxLength(b, |b.context|)
  {
    b.context[r] + Tokens(b, r) + Fill(l.eos, MaxLength(b, |b.context|) - |Tokens(b, r)|)
  }

  /** The last request that starts at or before a position. */
  function RequestOf(b: Batch, p: nat, n: nat): (r: nat)
    requires ValidBatch(b) && 1 <= n <= |b.context|
    ensures r < n && b.starts[r] <= p
    ensures forall q :: r < q < n ==> p < b.starts[q]
  {
    if n == 1 then 0
    else if b.starts[n - 1] <= p then n - 1
    else RequestOf(b, p, n - 1)
  }

  /** The column of a position in its row; padding positions are clamped to the last column. */
  function ColumnOf(b: Batch, p: nat): (c: nat)
    requires ValidBatch(b)
    ensures c < MaxLength(b, |b.context|)
  {
    var c := p - b.starts[RequestOf(b, p, |b.context|)];
    var m := MaxLength(b, |b.context|);
    if c < m then c else m - 1
  }

  function WindowOf(l: Layer, b: Batch, p: nat): Window
    requires ValidBatch(b)
  {
    WindowAt(l.eos, RowOf(l, b, RequestOf(b, p, |b.context|)), 2 + ColumnOf(b, p))
  }

  function RowsTo(l: Layer, b: Batch, n: nat): (rows: seq<seq<int>>)
    requires ValidLayer(l) && ValidBatch(b)
    ensures |rows| == n && forall p :: 0 <= p < n ==> rows[p] == TokenIds(l, WindowOf(l, b, p))
  {
    seq(n, p requires 0 <= p < n => TokenIds(l, WindowOf(l, b, p)))
  }

  predicate InTable(l: Layer, ids: seq<int>) {
    forall i :: 0 <= i < |ids| ==> 0 <= ids[i] < l.rowCount
  }

  predicate IsOneToken(b: Batch) {
    |b.inputIds| == 1 && |b.starts| == 2 && b.starts[1] == 1
  }

  /** The result of a plan; only the one-token path skips the range check. */
  function PlanOf(l: Layer, b: Batch): Result<seq<int>>
    requires ValidLayer(l)
  {
    if !ValidBatch(b) then Err(Refusal(b))
    else
      var ids := Flatten(RowsTo(l, b, |b.inputIds|));
      if IsOneToken(b) || InTable(l, ids) then Ok(ids) else Err(OutOfRange)
  }

  // ---- what the flat answer is, entry by entry ----

  predicate Divides(a: int, b: int, quotient: int, r: int) { a == b * quotient + r }

  /** What is left of `a` by `b`, with the sign of `b`. */
  ghost predicate IsRemainder(a: int, b: int, r: int) {
    (exists quotient :: Divides(a, b, quotient, r)) && (b > 0 ==> 0 <= r < b) && (b < 0 ==> b < r <= 0)
  }

  lemma RemainderIs(a: int, b: int)
    requires b != 0
    ensures IsRemainder(a, b, Remainder(a, b))
  {
    if b > 0 {
      assert Divides(a, b, a / b, Remainder(a, b));
    } else {
      assert Divides(a, b, (-a) / (-b), Remainder(a, b)) by {
        SignsCancel(b, (-a) / (-b));
      }
    }
  }

  lemma SignsCancel(b: int, q: int)
    ensures (-b) * q == -(b * q)
  {}

  lemma MultiplesApart(b: int, x: int, y: int)
    requires 0 < b && y < x
    ensures b * y + b <= b * x
  {
    var d := x - y - 1;
    assert b * x == b * y + b + b * d;
    assert 0 <= b * d;
  }

  lemma OneRemainder(a: int, b: int, r: int, s: int)
    requires b != 0 && IsRemainder(a, b, r) && IsRemainder(a, b, s)
    ensures r == s
  {
    var x :| Divides(a, b, x, r);
    var y :| Divides(a, b, y, s);
    var size := if b > 0 then b else -b;
    SignsCancel(b, x);
    SignsCancel(b, y);
    if x < y {
      MultiplesApart(size, y, x);
    } else if y < x {
      MultiplesApart(size, x, y);
    }
  }

  /** Place `k` of request `r`: its two tokens of context stand before its own, end-of-text behind. */
  function TokenAtPlace(l: Layer, b: Batch, r: nat, k: int): int
    requires ValidBatch(b) && r < |b.context| && -2 <= k
  {
    if k < 0 then b.context[r][2 + k]
    else if k < b.starts[r + 1] - b.starts[r] then TokensInside(b, r); b.inputIds[b.starts[r] + k]
    else l.eos
  }

  lemma TokensInside(b: Batch, r: nat)
    requires ValidBatch(b) && r < |b.context|
    ensures 0 <= b.starts[r] <= b.starts[r + 1] <= |b.inputIds|
  {
    Ordered(b.starts, 0, r);
    Ordered(b.starts, r + 1, |b.starts| - 1);
  }

  /** Position `p` is a token of request `r`, or padding behind the last request. */
  predicate BelongsTo(b: Batch, p: nat, r: nat)
    requires ValidBatch(b)
  {
    r < |b.context| && b.starts[r] <= p && (r + 1 < |b.context| ==> p < b.starts[r + 1])
  }

  /** The length of the longest request, at least one. */
  ghost predicate IsLongest(b: Batch, m: nat)
    requires ValidBatch(b)
  {
    && 1 <= m && (forall r :: 0 <= r < |b.context| ==> b.starts[r + 1] - b.starts[r] <= m)
    && (m == 1 || exists r :: 0 <= r < |b.context| && b.starts[r + 1] - b.starts[r] == m)
  }

  /** Entries `at..` are those of a token with these predecessors: for every 2-gram head what its
      size leaves of the first mix, for every 3-gram head what it leaves of the second, each behind
      the head's offset. */
  ghost predicate IdsFor(l: Layer, current: int, previous1: int, previous2: int, ids: seq<int>, at: nat)
    requires ValidLayer(l)
  {
    at + 2 * l.heads <= |ids| && forall j :: 0 <= j < 2 * l.heads ==>
      IsRemainder(if j < l.heads then l.mix2(current, previous1) else l.mix3(current, previous1, previous2),
                  l.sizes[j], ids[at + j] - l.offsets[j])
  }

  /** The entries of place `k`: the second predecessor reads end-of-text when the first one does. */
  ghost predicate IdsOfPlace(l: Layer, b: Batch, r: nat, k: nat, ids: seq<int>, at: nat)
    requires ValidLayer(l) && ValidBatch(b) && r < |b.context|
  {
    var previous1 := TokenAtPlace(l, b, r, k - 1);
    IdsFor(l, TokenAtPlace(l, b, r, k), previous1, if previous1 == l.eos then l.eos else TokenAtPlace(l, b, r, k - 2), ids, at)
  }

  function Clamped(column: int, m: nat): nat
    requires 0 <= column && 1 <= m
  {
    if column < m then column else m - 1
  }

  /** Entries `at..` are those of position `p`; padding is clamped to the longest request. */
  ghost predicate IdsOfPosition(l: Layer, b: Batch, p: nat, ids: seq<int>, at: nat)
    requires ValidLayer(l) && ValidBatch(b)
  {
    forall r: nat, m: nat :: BelongsTo(b, p, r) && IsLongest(b, m) ==>
      IdsOfPlace(l, b, r, Clamped(p - b.starts[r], m), ids, at)
  }

  /** `ids` is what the planner should compute: token-major, then head-major. */
  ghost predicate AreIds(l: Layer, b: Batch, ids: seq<int>)
    requires ValidLayer(l) && ValidBatch(b)
  {
    |ids| == |b.inputIds| * (2 * l.heads) && EveryPosition(l, b, ids, 2 * l.heads)
  }

  ghost predicate EveryPosition(l: Layer, b: Batch, ids: seq<int>, width: nat)
    requires ValidLayer(l) && ValidBatch(b)
  {
    forall p: nat, at: nat :: p < |b.inputIds| && at == p * width ==> IdsOfPosition(l, b, p, ids, at)
  }

  lemma OneOwner(b: Batch, p: nat, r: nat)
    requires ValidBatch(b) && BelongsTo(b, p, r)
    ensures r == RequestOf(b, p, |b.context|)
  {
    var q := RequestOf(b, p, |b.context|);
    if r < q {
      Ordered(b.starts, r + 1, q);
    }
  }

  lemma LongestIs(b: Batch, m: nat)
    requires ValidBatch(b) && IsLongest(b, m)
    ensures m == MaxLength(b, |b.context|)
  {
    var n := MaxLength(b, |b.context|);
    assert forall r :: 0 <= r < |b.context| ==> |Tokens(b, r)| == b.starts[r + 1] - b.starts[r];
    if n != 1 {
      var r :| 0 <= r < |b.context| && |Tokens(b, r)| == n;
      assert b.starts[r + 1] - b.starts[r] == n;
    }
  }

  lemma RowHoldsPlace(l: Layer, b: Batch, r: nat, k: int)
    requires ValidBatch(b) && r < |b.context| && -2 <= k < MaxLength(b, |b.context|)
    ensures RowOf(l, b, r)[2 + k] == TokenAtPlace(l, b, r, k)
  {
    TokensInside(b, r);
    if 0 <= k < |Tokens(b, r)| {
      TokenAt(b, r, k);
    }
  }

  lemma WindowIsPlace(l: Layer, b: Batch, p: nat, r: nat, k: nat)
    requires ValidBatch(b) && r == RequestOf(b, p, |b.context|) && k == ColumnOf(b, p)
    ensures var previous1 := TokenAtPlace(l, b, r, k - 1);
            WindowOf(l, b, p) == Window(TokenAtPlace(l, b, r, k), previous1,
                                        if previous1 == l.eos then l.eos else TokenAtPlace(l, b, r, k - 2))
  {
    RowHoldsPlace(l, b, r, k);
    RowHoldsPlace(l, b, r, k - 1);
    RowHoldsPlace(l, b, r, k - 2);
  }

  /** The entries of a window are fixed by what they must be. */
  lemma IdsForIff(l: Layer, w: Window, ids: seq<int>, at: nat)
    requires ValidLayer(l) && at + 2 * l.heads <= |ids|
    ensures IdsFor(l, w.current, w.previous1, w.previous2, ids, at) <==> ids[at..at + 2 * l.heads] == TokenIds(l, w)
  {
    var part, own := ids[at..at + 2 * l.heads], TokenIds(l, w);
    forall j | 0 <= j < 2 * l.heads
      ensures (IsRemainder(if j < l.heads then l.mix2(w.current, w.previous1) else l.mix3(w.current, w.previous1, w.previous2),
                           l.sizes[j], ids[at + j] - l.offsets[j])) <==> part[j] == own[j]
    {
      var mixed := if j < l.heads then l.mix2(w.current, w.previous1) else l.mix3(w.current, w.previous1, w.previous2);
      RemainderIs(mixed, l.sizes[j]);
      if IsRemainder(mixed, l.sizes[j], ids[at + j] - l.offsets[j]) {
        OneRemainder(mixed, l.sizes[j], ids[at + j] - l.offsets[j], Remainder(mixed, l.sizes[j]));
      }
    }
    if IdsFor(l, w.current, w.previous1, w.previous2, ids, at) {
      assert forall j :: 0 <= j < |part| ==> part[j] == own[j];
    }
  }

  lemma PartFromPosition(l: Layer, b: Batch, p: nat, ids: seq<int>, at: nat)
    requires ValidLayer(l) && ValidBatch(b) && IdsOfPosition(l, b, p, ids, at) && at + 2 * l.heads <= |ids|
    ensures ids[at..at + 2 * l.heads] == TokenIds(l, WindowOf(l, b, p))
  {
    var r, k, m := RequestOf(b, p, |b.context|), ColumnOf(b, p), MaxLength(b, |b.context|);
    WindowIsPlace(l, b, p, r, k);
    LongestExists(b);
    PlaceOfPosition(l, b, p, r, m, k, ids, at);
    IdsForIff(l, WindowOf(l, b, p), ids, at);
  }

  lemma PositionFromPart(l: Layer, b: Batch, row: seq<int>, ids: seq<int>, p: nat, at: nat, width: nat)
    requires ValidLayer(l) && ValidBatch(b) && row == TokenIds(l, WindowOf(l, b, p)) && width == 2 * l.heads
    requires at + width <= |ids| && ids[at..at + width] == row
    ensures IdsOfPosition(l, b, p, ids, at)
  {
    var r, k := RequestOf(b, p, |b.context|), ColumnOf(b, p);
    PlaceFromPart(l, b, row, ids, p, r, k, at, width);
    PositionOfPlace(l, b, p, r, k, ids, at);
  }

  lemma PlaceFromPart(l: Layer, b: Batch, row: seq<int>, ids: seq<int>, p: nat, r: nat, k: nat, at: nat, width: nat)
    requires ValidLayer(l) && ValidBatch(b) && row == TokenIds(l, WindowOf(l, b, p)) && width == 2 * l.heads
    requires at + width <= |ids| && ids[at..at + width] == row
    requires r == RequestOf(b, p, |b.context|) && k == ColumnOf(b, p)
    ensures IdsOfPlace(l, b, r, k, ids, at)
  {
    WindowIsPlace(l, b, p, r, k);
    IdsForIff(l, WindowOf(l, b, p), ids, at);
  }

  lemma PlaceOfPosition(l: Layer, b: Batch, p: nat, r: nat, m: nat, k: nat, ids: seq<int>, at: nat)
    requires ValidLayer(l) && ValidBatch(b) && IdsOfPosition(l, b, p, ids, at)
    requires BelongsTo(b, p, r) && IsLongest(b, m) && k == Clamped(p - b.starts[r], m)
    ensures IdsOfPlace(l, b, r, k, ids, at)
  {}

  lemma PositionOfPlace(l: Layer, b: Batch, p: nat, r: nat, k: nat, ids: seq<int>, at: nat)
    requires ValidLayer(l) && ValidBatch(b)
    requires r == RequestOf(b, p, |b.context|) && k == ColumnOf(b, p)
    requires IdsOfPlace(l, b, r, k, ids, at)
    ensures IdsOfPosition(l, b, p, ids, at)
  {
    forall q: nat, m: nat | BelongsTo(b, p, q) && IsLongest(b, m)
      ensures IdsOfPlace(l, b, q, Clamped(p - b.starts[q], m), ids, at)
    {
      SamePlace(b, p, q, m);
    }
  }

  lemma SamePlace(b: Batch, p: nat, q: nat, m: nat)
    requires ValidBatch(b) && BelongsTo(b, p, q) && IsLongest(b, m)
    ensures q == RequestOf(b, p, |b.context|) && ColumnOf(b, p) == Clamped(p - b.starts[q], m)
  {
    OneOwner(b, p, q);
    LongestIs(b, m);
  }

  lemma LongestExists(b: Batch)
    requires ValidBatch(b)
    ensures IsLongest(b, MaxLength(b, |b.context|))
  {
    var m := MaxLength(b, |b.context|);
    assert forall r :: 0 <= r < |b.context| ==> |Tokens(b, r)| == b.starts[r + 1] - b.starts[r];
    if m != 1 {
      var r :| 0 <= r < |b.context| && |Tokens(b, r)| == m;
      assert b.starts[r + 1] - b.starts[r] == m;
    }
  }

  lemma NextPlace(p: nat, width: nat)
    ensures (p + 1) * width == p * width + width
  {}

  lemma {:induction false} FlatLength(rows: seq<seq<int>>, width: nat)
    requires forall q :: 0 <= q < |rows| ==> |rows[q]| == width
    ensures |Flatten(rows)| == |rows| * width
  {
    if rows != [] {
      FlatLength(rows[..|rows| - 1], width);
      NextPlace(|rows| - 1, width);
    }
  }

  lemma {:induction false} FlatParts(rows: seq<seq<int>>, width: nat, p: nat, at: nat)
    requires (forall q :: 0 <= q < |rows| ==> |rows[q]| == width) && p < |rows| && at == p * width
    ensures at + width <= |Flatten(rows)| && Flatten(rows)[at..at + width] == rows[p]
    decreases |rows|
  {
    var n := |rows| - 1;
    var front := Flatten(rows[..n]);
    if p < n {
      FlatParts(rows[..n], width, p, at);
      assert (front + rows[n])[at..at + width] == front[at..at + width];
    } else {
      FlatLength(rows[..n], width);
    }
  }

  lemma {:induction false} FlatFromParts(rows: seq<seq<int>>, width: nat, ids: seq<int>)
    requires |ids| == |rows| * width && forall q :: 0 <= q < |rows| ==> |rows[q]| == width
    requires forall p: nat :: p < |rows| ==> PartIs(rows, width, ids, p)
    ensures ids == Flatten(rows)
    decreases |rows|
  {
    if rows == [] {
    } else {
      var n := |rows| - 1;
      NextPlace(n, width);
      var front := ids[..n * width];
      forall p: nat | p < n ensures PartIs(rows[..n], width, front, p) {
        MulUpTo(p + 1, n, width);
        NextPlace(p, width);
        assert PartIs(rows, width, ids, p);
      }
      FlatFromParts(rows[..n], width, front);
      assert PartIs(rows, width, ids, n);
      assert ids == front + ids[n * width..];
    }
  }

  lemma MulUpTo(a: nat, b: nat, c: nat)
    requires a <= b
    ensures a * c <= b * c
  {}

  ghost predicate PartIs(rows: seq<seq<int>>, width: nat, ids: seq<int>, p: nat)
    requires p < |rows|
  {
    p * width + width <= |ids| && ids[p * width..p * width + width] == rows[p]
  }

  /** Every entry of the flat list of rows is as it must be. */
  lemma RowsAreIds(l: Layer, b: Batch, rows: seq<seq<int>>, ids: seq<int>, width: nat)
    requires ValidLayer(l) && ValidBatch(b) && rows == RowsTo(l, b, |b.inputIds|) && ids == Flatten(rows) && width == 2 * l.heads
    ensures |ids| == |b.inputIds| * width && EveryPosition(l, b, ids, width)
  {
    FlatLength(rows, width);
    forall p: nat, at: nat | p < |b.inputIds| && at == p * width ensures IdsOfPosition(l, b, p, ids, at) {
      FlatParts(rows, width, p, at);
      PositionFromPart(l, b, rows[p], ids, p, at, width);
    }
  }

  lemma IdsAreRows(l: Layer, b: Batch, rows: seq<seq<int>>, ids: seq<int>, width: nat)
    requires ValidLayer(l) && ValidBatch(b) && rows == RowsTo(l, b, |b.inputIds|) && width == 2 * l.heads
    requires |ids| == |b.inputIds| * width && EveryPosition(l, b, ids, width)
    ensures ids == Flatten(rows)
  {
    forall p: nat | p < |rows| ensures PartIs(rows, width, ids, p) {
      MulUpTo(p + 1, |rows|, width);
      NextPlace(p, width);
      PartOfIds(l, b, rows, ids, p, p * width, width);
    }
    FlatFromParts(rows, width, ids);
  }

  lemma PartOfIds(l: Layer, b: Batch, rows: seq<seq<int>>, ids: seq<int>, p: nat, at: nat, width: nat)
    requires ValidLayer(l) && ValidBatch(b) && rows == RowsTo(l, b, |b.inputIds|) && width == 2 * l.heads
    requires p < |rows| && at == p * width && at + width <= |ids| && EveryPosition(l, b, ids, width)
    ensures ids[at..at + width] == rows[p]
  {
    assert IdsOfPosition(l, b, p, ids, at);
    PartFromPosition(l, b, p, ids, at);
  }

  /** What the ids of a valid batch are, and that nothing else will do. */
  lemma IdsAreExactly(l: Layer, b: Batch, ids: seq<int>)
    requires ValidLayer(l) && ValidBatch(b)
    ensures AreIds(l, b, ids) <==> ids == Flatten(RowsTo(l, b, |b.inputIds|))
  {
    var rows := RowsTo(l, b, |b.inputIds|);
    if ids == Flatten(rows) {
      RowsAreIds(l, b, rows, ids, 2 * l.heads);
    } else if AreIds(l, b, ids) {
      IdsAreRows(l, b, rows, ids, 2 * l.heads);
    }
  }

  /** Why a batch is refused: the first of these checks that fails. */
  ghost predicate RefusedFor(e: PlanError, b: Batch) {
    var n := |b.starts|;
    var shaped := |b.context| == n - 1 && forall r :: 0 <= r < |b.context| ==> |b.context[r]| == 2;
    match e
    case NoRequest => n < 2
    case ContextShape => 2 <= n && !shaped
    case StartNotZero => 2 <= n && shaped && b.starts[0] != 0
    case Decreasing => 2 <= n && shaped && b.starts[0] == 0 && exists i :: 0 <= i < n - 1 && b.starts[i] > b.starts[i + 1]
    case EndsOutside =>
      && 2 <= n && shaped && b.starts[0] == 0 && (forall i :: 0 <= i < n - 1 ==> b.starts[i] <= b.starts[i + 1])
      && !(0 <= b.starts[n - 1] <= |b.inputIds|)
    case _ => false
  }

  /** The ids of a batch are answered unless one of them is no row of the table, which a batch of a
      single token is not asked; a batch is refused for the first check it fails. */
  ghost predicate PlanIs(l: Layer, b: Batch, result: Result<seq<int>>)
    requires ValidLayer(l)
  {
    var alone := |b.inputIds| == 1 && |b.starts| == 2 && b.starts[1] == 1;
    match result
    case Ok(ids) =>
      && ValidBatch(b) && (forall e :: !RefusedFor(e, b)) && AreIds(l, b, ids)
      && (alone || forall i :: 0 <= i < |ids| ==> 0 <= ids[i] < l.rowCount)
    case Err(OutOfRange) =>
      && ValidBatch(b) && (forall e :: !RefusedFor(e, b)) && !alone
      && exists ids :: AreIds(l, b, ids) && exists i :: 0 <= i < |ids| && !(0 <= ids[i] < l.rowCount)
    case Err(e) => RefusedFor(e, b)
  }

  lemma PlanIsExactly(l: Layer, b: Batch)
    requires ValidLayer(l)
    ensures PlanIs(l, b, PlanOf(l, b))
  {
    if ValidBatch(b) {
      var ids := Flatten(RowsTo(l, b, |b.inputIds|));
      IdsAreExactly(l, b, ids);
      if !InTable(l, ids) {
        assert exists i :: 0 <= i < |ids| && !(0 <= ids[i] < l.rowCount);
      }
    }
  }

  // ---- the batched planner ----

  /** `searchsorted(right) - 1`, clamped to the requests. */
  method FindRequest(b: Batch, p: nat) returns (r: nat)
    requires ValidBatch(b)
    ensures r == RequestOf(b, p, |b.context|)
  {
    r := |b.context| - 1;
    while r > 0 && b.starts[r] > p
      invariant r < |b.context| && RequestOf(b, p, |b.context|) == RequestOf(b, p, r + 1)
    {
      r := r - 1;
    }
  }

  method LongestRequest(b: Batch) returns (m: nat)
    requires ValidBatch(b)
    ensures m == MaxLength(b, |b.context|)
  {
    m := 1;
    for r := 0 to |b.context|
      invariant m == MaxLength(b, r)
    {
      if |Tokens(b, r)| > m {
        m := |Tokens(b, r)|;
      }
    }
  }

  /** Entry (r, c) of the padded matrix after the first `n` positions were written. */
  function PackedEntry(l: Layer, b: Batch, n: int, r: nat, c: nat): int
    requires ValidBatch(b) && r < |b.context|
  {
    if b.starts[r] + c < n && c < |Tokens(b, r)| then Tokens(b, r)[c] else l.eos
  }

  ghost predicate PackedTo(l: Layer, b: Batch, packed: array2<int>, n: int)
    requires ValidBatch(b)
    reads packed
  {
    && packed.Length0 == |b.context| && packed.Length1 == MaxLength(b, |b.context|)
    && forall r, c :: 0 <= r < packed.Length0 && 0 <= c < packed.Length1 ==> packed[r, c] == PackedEntry(l, b, n, r, c)
  }

  lemma LengthBound(b: Batch, r: nat)
    requires ValidBatch(b) && r < |b.context|
    ensures |Tokens(b, r)| <= MaxLength(b, |b.context|)
  {}

  lemma {:induction false} RequestHolds(b: Batch, p: nat, r: nat)
    requires ValidBatch(b) && p < b.starts[|b.starts| - 1] && r == RequestOf(b, p, |b.context|)
    ensures 0 <= b.starts[r] <= p < b.starts[r + 1] <= |b.inputIds|
  {
    Ordered(b.starts, 0, r);
    Ordered(b.starts, r + 1, |b.starts| - 1);
    if r + 1 == |b.context| {
      assert b.starts[r + 1] == b.starts[|b.starts| - 1];
    }
  }

  lemma {:induction false} PositionInRequest(b: Batch, p: nat)
    requires ValidBatch(b) && p < b.starts[|b.starts| - 1]
    ensures var r := RequestOf(b, p, |b.context|);
            && 0 <= b.starts[r] <= p < b.starts[r + 1] <= |b.inputIds|
            && ColumnOf(b, p) == p - b.starts[r] < |Tokens(b, r)|
            && b.inputIds[p] == Tokens(b, r)[p - b.starts[r]]
  {
    var r := RequestOf(b, p, |b.context|);
    RequestHolds(b, p, r);
    ColumnInRequest(b, p, r, p - b.starts[r]);
  }

  lemma {:induction false} ColumnInRequest(b: Batch, p: nat, r: nat, k: nat)
    requires ValidBatch(b) && r == RequestOf(b, p, |b.context|)
    requires 0 <= b.starts[r] && p == b.starts[r] + k && p < b.starts[r + 1] <= |b.inputIds|
    ensures ColumnOf(b, p) == k < |Tokens(b, r)| && b.inputIds[p] == Tokens(b, r)[k]
  {
    ColumnIs(b, p, r, k);
    TokenAt(b, r, k);
  }

  lemma ColumnIs(b: Batch, p: nat, r: nat, k: nat)
    requires ValidBatch(b) && r == RequestOf(b, p, |b.context|) && p == b.starts[r] + k && k < |Tokens(b, r)|
    ensures ColumnOf(b, p) == k
  {
    LengthBound(b, r);
  }

  lemma TokenAt(b: Batch, r: nat, k: nat)
    requires ValidBatch(b) && r < |b.context| && k < |Tokens(b, r)|
    ensures 0 <= b.starts[r] + k < |b.inputIds| && Tokens(b, r)[k] == b.inputIds[b.starts[r] + k]
  {
    Ordered(b.starts, 0, r);
    Ordered(b.starts, r + 1, |b.starts| - 1);
  }

  lemma OnlyOneRequest(b: Batch, p: nat, r: nat, c: nat)
    requires ValidBatch(b) && r < |b.context| && c < |Tokens(b, r)| && b.starts[r] + c == p
    ensures r == RequestOf(b, p, |b.context|)
  {
    var q := RequestOf(b, p, |b.context|);
    if r < q {
      Ordered(b.starts, r + 1, q);
    }
  }

  lemma PackStep(l: Layer, b: Batch, p: nat, r: nat, c: nat)
    requires ValidBatch(b) && p < b.starts[|b.starts| - 1] && r < |b.context|
    ensures var q := RequestOf(b, p, |b.context|);
            PackedEntry(l, b, p + 1, r, c)
            == if r == q && c == p - b.starts[q] then b.inputIds[p] else PackedEntry(l, b, p, r, c)
  {
    PositionInRequest(b, p);
    if c < |Tokens(b, r)| && b.starts[r] + c == p {
      OnlyOneRequest(b, p, r, c);
    }
  }

  method PackOne(l: Layer, b: Batch, packed: array2<int>, p: nat)
    requires ValidBatch(b) && p < b.starts[|b.starts| - 1] && PackedTo(l, b, packed, p)
    modifies packed
    ensures PackedTo(l, b, packed, p + 1)
  {
    var r := FindRequest(b, p);
    PositionInRequest(b, p);
    forall q: nat, c: nat | q < packed.Length0 && c < packed.Length1
      ensures PackedEntry(l, b, p + 1, q, c)
              == if q == r && c == p - b.starts[r] then b.inputIds[p] else PackedEntry(l, b, p, q, c)
    {
      PackStep(l, b, p, q, c);
    }
    packed[r, p - b.starts[r]] := b.inputIds[p];
  }

  method Pack(l: Layer, b: Batch, m: nat) returns (packed: array2<int>)
    requires ValidBatch(b) && m == MaxLength(b, |b.context|)
    ensures fresh(packed) && PackedTo(l, b, packed, b.starts[|b.starts| - 1])
  {
    packed := new int[|b.context|, m]((_, _) => l.eos);
    forall r | 0 <= r < |b.context| ensures b.starts[r] >= 0 {
      Ordered(b.starts, 0, r);
    }
    for p := 0 to b.starts[|b.starts| - 1]
      invariant PackedTo(l, b, packed, p)
    {
      PackOne(l, b, packed, p);
    }
  }

  lemma PackedRow(l: Layer, b: Batch, packed: array2<int>, r: nat, c: nat)
    requires ValidBatch(b) && PackedTo(l, b, packed, b.starts[|b.starts| - 1]) && r < |b.context| && c < packed.Length1
    ensures RowOf(l, b, r)[2 + c] == packed[r, c]
  {
    Ordered(b.starts, r + 1, |b.starts| - 1);
  }

  /** Entry `c` of a row, where the first two columns are the context. */
  method Entry(l: Layer, b: Batch, packed: array2<int>, r: nat, c: nat) returns (token: int)
    requires ValidBatch(b) && PackedTo(l, b, packed, b.starts[|b.starts| - 1]) && r < |b.context| && c < 2 + packed.Length1
    ensures token == RowOf(l, b, r)[c]
  {
    if c < 2 {
      token := b.context[r][c];
    } else {
      PackedRow(l, b, packed, r, c - 2);
      token := packed[r, c - 2];
    }
  }

  /** The window ending at entry `c` of a row. */
  method WindowInRow(l: Layer, b: Batch, packed: array2<int>, r: nat, c: nat) returns (w: Window)
    requires ValidBatch(b) && PackedTo(l, b, packed, b.starts[|b.starts| - 1]) && r < |b.context| && c < packed.Length1
    ensures w == WindowAt(l.eos, RowOf(l, b, r), 2 + c)
  {
    var current := Entry(l, b, packed, r, 2 + c);
    var previous1 := Entry(l, b, packed, r, 1 + c);
    var previous2 := Entry(l, b, packed, r, c);
    w := Window(current, previous1, if previous1 == l.eos then l.eos else previous2);
  }

  method GatherWindow(l: Layer, b: Batch, packed: array2<int>, m: nat, p: nat) returns (w: Window)
    requires ValidBatch(b) && m == MaxLength(b, |b.context|) && PackedTo(l, b, packed, b.starts[|b.starts| - 1])
    ensures w == WindowOf(l, b, p)
  {
    var r := FindRequest(b, p);
    var column := p - b.starts[r];
    if column > m - 1 {
      column := m - 1;
    }
    w := WindowInRow(l, b, packed, r, column);
  }

  lemma NextRow(l: Layer, b: Batch, p: nat)
    requires ValidLayer(l) && ValidBatch(b)
    ensures RowsTo(l, b, p + 1) == RowsTo(l, b, p) + [TokenIds(l, WindowOf(l, b, p))]
  {}

  method PlanReference(l: Layer, b: Batch) returns (result: Result<seq<int>>)
    requires ValidLayer(l)
    ensures result == PlanOf(l, b)
  {
    if !ValidBatch(b) {
      return Err(Refusal(b));
    }
    if IsOneToken(b) {
      result := PlanOneToken(l, b);
      return;
    }
    var m := LongestRequest(b);
    var packed := Pack(l, b, m);
    var rows: seq<seq<int>> := [];
    for p := 0 to |b.inputIds|
      invariant PackedTo(l, b, packed, b.starts[|b.starts| - 1])
      invariant rows == RowsTo(l, b, p)
    {
      var w := GatherWindow(l, b, packed, m, p);
      NextRow(l, b, p);
      rows := rows + [TokenIds(l, w)];
    }
    var ids := Flatten(rows);
    result := if InTable(l, ids) then Ok(ids) else Err(OutOfRange);
  }

  // ---- the fast paths ----

  lemma SingleRequest(l: Layer, b: Batch)
    requires ValidBatch(b) && |b.starts| == 2
    ensures MaxLength(b, 1) == if b.starts[1] == 0 then 1 else b.starts[1]
    ensures RowOf(l, b, 0) == b.context[0] + (if b.starts[1] == 0 then [l.eos] else b.inputIds[..b.starts[1]])
    ensures forall p: nat :: RequestOf(b, p, 1) == 0
  {
    assert MaxLength(b, 0) == 1;
    assert Tokens(b, 0) == b.inputIds[..b.starts[1]];
  }

  method PlanOneToken(l: Layer, b: Batch) returns (result: Result<seq<int>>)
    requires ValidLayer(l) && ValidBatch(b) && IsOneToken(b)
    ensures result == PlanOf(l, b)
  {
    var token, c := b.inputIds[0], b.context[0];
    var previous1 := if c[1] == l.eos then l.eos else c[1];
    var previous2 := if c[1] == l.eos || c[0] == l.eos then l.eos else c[0];
    var ids := TokenIds(l, Window(token, previous1, previous2));
    OneTokenPlan(l, b);
    result := Ok(ids);
  }

  /** The seven-token path, which also serves shorter and empty queries padded to seven. */
  method PlanSeven(l: Layer, b: Batch) returns (result: Result<seq<int>>)
    requires ValidLayer(l) && |b.inputIds| == 7 && |b.starts| == 2 && ContextShapeOk(b)
    ensures result == PlanOf(l, b)
  {
    if b.starts[0] != 0 {
      return Err(StartNotZero);
    }
    var valid := b.starts[1];
    if valid < 0 {
      assert b.starts[0] > b.starts[0 + 1];
      return Err(Decreasing);
    }
    if valid > 7 {
      return Err(EndsOutside);
    }
    var s := b.context[0] + (if valid != 0 then b.inputIds[..valid] else [l.eos]);
    var last := (if valid > 1 then valid else 1) - 1;
    SingleRequest(l, b);
    var rows: seq<seq<int>> := [];
    for p := 0 to 7
      invariant rows == RowsTo(l, b, p)
    {
      var index := (if p < last then p else last) + 2;
      var w := Window(s[index], s[index - 1], if s[index - 1] == l.eos then l.eos else s[index - 2]);
      assert w == WindowOf(l, b, p);
      NextRow(l, b, p);
      rows := rows + [TokenIds(l, w)];
    }
    var ids := Flatten(rows);
    result := if InTable(l, ids) then Ok(ids) else Err(OutOfRange);
  }

  /** `plan_ngram_row_ids`: which path is taken makes no difference. */
  method Plan(l: Layer, b: Batch) returns (result: Result<seq<int>>)
    requires ValidLayer(l)
    ensures result == PlanOf(l, b)
    ensures PlanIs(l, b, result)
  {
    PlanIsExactly(l, b);
    if |b.inputIds| == 7 && |b.starts| == 2 && |b.context| == 1 && |b.context[0]| == 2 {
      result := PlanSeven(l, b);
    } else {
      result := PlanReference(l, b);
    }
  }

  // ---- the meaning of a batch, request by request ----

  /** The window of a valid position looks only at its own request's context and tokens. */
  lemma WindowOfValid(l: Layer, b: Batch, p: nat)
    requires ValidBatch(b) && p < b.starts[|b.starts| - 1]
    ensures var r := RequestOf(b, p, |b.context|);
            && 0 <= p - b.starts[r] < |Tokens(b, r)|
            && WindowOf(l, b, p) == WindowAt(l.eos, b.context[r] + Tokens(b, r), 2 + (p - b.starts[r]))
  {
    PositionInRequest(b, p);
    var r := RequestOf(b, p, |b.context|);
    WindowInTokens(l, b, p, r, p - b.starts[r]);
  }

  lemma WindowInTokens(l: Layer, b: Batch, p: nat, r: nat, k: nat)
    requires ValidBatch(b) && r == RequestOf(b, p, |b.context|) && p == b.starts[r] + k && k < |Tokens(b, r)|
    ensures WindowOf(l, b, p) == WindowAt(l.eos, b.context[r] + Tokens(b, r), 2 + k)
  {
    assert ColumnOf(b, p) == k;
    var row, s := RowOf(l, b, r), b.context[r] + Tokens(b, r);
    assert row[2 + k] == s[2 + k] && row[1 + k] == s[1 + k] && row[k] == s[k];
  }

  /** A request planned on its own. */
  function Alone(b: Batch, r: nat): (a: Batch)
    requires ValidBatch(b) && r < |b.context|
    ensures ValidBatch(a)
  {
    Batch(Tokens(b, r), [0, |Tokens(b, r)|], [b.context[r]])
  }

  function RowsAlone(l: Layer, b: Batch, n: nat): seq<seq<int>>
    requires ValidLayer(l) && ValidBatch(b) && n <= |b.context|
  {
    if n == 0 then [] else RowsAlone(l, b, n - 1) + RowsTo(l, Alone(b, n - 1), |Tokens(b, n - 1)|)
  }

  lemma AloneWindow(l: Layer, b: Batch, r: nat, k: nat)
    requires ValidBatch(b) && r < |b.context| && k < |Tokens(b, r)|
    ensures 0 <= b.starts[r] + k < b.starts[|b.starts| - 1]
    ensures WindowOf(l, b, b.starts[r] + k) == WindowOf(l, Alone(b, r), k)
  {
    var a := Alone(b, r);
    Ordered(b.starts, 0, r);
    Ordered(b.starts, r + 1, |b.starts| - 1);
    OnlyOneRequest(b, b.starts[r] + k, r, k);
    WindowOfValid(l, b, b.starts[r] + k);
    assert a.starts[|a.starts| - 1] == |Tokens(b, r)|;
    WindowOfValid(l, a, k);
    assert Tokens(a, 0) == Tokens(b, r);
  }

  lemma RowsPrefix(l: Layer, b: Batch, m: nat, n: nat)
    requires ValidLayer(l) && ValidBatch(b) && m <= n
    ensures RowsTo(l, b, n)[..m] == RowsTo(l, b, m)
  {}

  lemma RowsSuffix(l: Layer, b: Batch, r: nat, s: nat)
    requires ValidLayer(l) && ValidBatch(b) && r < |b.context| && s == b.starts[r]
    ensures RowsTo(l, b, s + |Tokens(b, r)|)[s..] == RowsTo(l, Alone(b, r), |Tokens(b, r)|)
  {
    var n := |Tokens(b, r)|;
    var whole, rest := RowsTo(l, b, s + n), RowsTo(l, Alone(b, r), n);
    forall k | 0 <= k < n ensures whole[s..][k] == rest[k] {
      AloneWindow(l, b, r, k);
      assert whole[s + k] == TokenIds(l, WindowOf(l, b, s + k));
    }
  }

  lemma TakeDrop<T>(x: seq<T>, s: nat)
    requires s <= |x|
    ensures x == x[..s] + x[s..]
  {}

  lemma RowsSplit(l: Layer, b: Batch, r: nat, s: nat, n: nat)
    requires ValidLayer(l) && ValidBatch(b) && r < |b.context| && s == b.starts[r] && n == |Tokens(b, r)|
    ensures RowsTo(l, b, s + n) == RowsTo(l, b, s) + RowsTo(l, Alone(b, r), n)
  {
    RowsPrefix(l, b, s, s + n);
    RowsSuffix(l, b, r, s);
    TakeDrop(RowsTo(l, b, s + n), s);
  }

  /** Requests do not influence each other: the rows of a batch are the rows of its requests. */
  lemma {:induction false} BatchIsConcatenation(l: Layer, b: Batch, n: nat)
    requires ValidLayer(l) && ValidBatch(b) && n <= |b.context|
    ensures 0 <= b.starts[n] && RowsTo(l, b, b.starts[n]) == RowsAlone(l, b, n)
  {
    Ordered(b.starts, 0, n);
    if n > 0 {
      BatchIsConcatenation(l, b, n - 1);
      Ordered(b.starts, 0, n - 1);
      RowsSplit(l, b, n - 1, b.starts[n - 1], |Tokens(b, n - 1)|);
    }
  }

  // ---- ids stay in the table ----

  /** Every head's part lies inside the table. */
  predicate GoodTable(l: Layer) {
    && ValidLayer(l)
    && forall j :: 0 <= j < |l.sizes| ==> l.sizes[j] > 0 && 0 <= l.offsets[j] && l.offsets[j] + l.sizes[j] <= l.rowCount
  }

  lemma {:induction false} FlattenInTable(l: Layer, rows: seq<seq<int>>)
    requires forall i :: 0 <= i < |rows| ==> InTable(l, rows[i])
    ensures InTable(l, Flatten(rows))
  {
    if rows != [] {
      FlattenInTable(l, rows[..|rows| - 1]);
    }
  }

  /** With a good table no valid batch is refused, and the missing check does not matter. */
  lemma GoodTablePlans(l: Layer, b: Batch)
    requires GoodTable(l) && ValidBatch(b)
    ensures PlanOf(l, b) == Ok(Flatten(RowsTo(l, b, |b.inputIds|)))
    ensures InTable(l, Flatten(RowsTo(l, b, |b.inputIds|)))
  {
    var rows := RowsTo(l, b, |b.inputIds|);
    forall p | 0 <= p < |rows| ensures InTable(l, rows[p]) {
      assert rows[p] == TokenIds(l, WindowOf(l, b, p));
    }
    FlattenInTable(l, rows);
  }

  // ---- the path without the check ----

  /** The window of a one-token batch. */
  function OneWindow(l: Layer, b: Batch): Window
    requires ValidBatch(b) && IsOneToken(b)
  {
    var c := b.context[0];
    Window(b.inputIds[0], c[1], if c[1] == l.eos then l.eos else c[0])
  }

  lemma OneTokenPlan(l: Layer, b: Batch)
    requires ValidLayer(l) && ValidBatch(b) && IsOneToken(b)
    ensures PlanOf(l, b) == Ok(TokenIds(l, OneWindow(l, b)))
  {
    var ids := TokenIds(l, OneWindow(l, b));
    SingleRequest(l, b);
    assert b.inputIds[..1] == b.inputIds;
    assert WindowOf(l, b, 0) == OneWindow(l, b);
    assert RowsTo(l, b, 1) == [ids];
    assert Flatten([ids]) == [] + ids == ids by {
      assert [ids][..0] == [];
    }
  }

  /** Head `j` yields the values between its offset and the end of its part, whose size may be
      negative; all of them are rows of the table. */
  predicate HeadInside(l: Layer, j: nat)
    requires |l.sizes| == |l.offsets| && j < |l.sizes|
  {
    if l.sizes[j] > 0 then 0 <= l.offsets[j] && l.offsets[j] + l.sizes[j] <= l.rowCount
    else 0 <= l.offsets[j] + l.sizes[j] + 1 && l.offsets[j] < l.rowCount
  }

  function WithMixes(l: Layer, m2: (int, int) -> int, m3: (int, int, int) -> int): Layer {
    l.(mix2 := m2, mix3 := m3)
  }

  /** The one-token path answers with rows of the table, whatever the hash mixes are. */
  ghost predicate OneTokenSafe(l: Layer, b: Batch)
    requires ValidLayer(l) && ValidBatch(b) && IsOneToken(b)
  {
    forall m2: (int, int) -> int, m3: (int, int, int) -> int ::
      PlanOf(WithMixes(l, m2, m3), b).Ok? && InTable(l, PlanOf(WithMixes(l, m2, m3), b).value)
  }

  lemma HeadReaches(l: Layer, b: Batch, j: nat, v: int)
    requires ValidLayer(l) && ValidBatch(b) && IsOneToken(b) && j < |l.sizes| && OneTokenSafe(l, b)
    ensures 0 <= Remainder(v, l.sizes[j]) + l.offsets[j] < l.rowCount
  {
    var same := WithMixes(l, (x, y) => v, (x, y, z) => v);
    OneTokenPlan(same, b);
    assert InTable(l, PlanOf(same, b).value);
    assert PlanOf(same, b).value[j] == Remainder(v, l.sizes[j]) + l.offsets[j];
  }

  lemma NegativeExtreme(size: int)
    requires size < 0
    ensures Remainder(size + 1, size) == size + 1
  {
    assert (-size - 1) % (-size) == -size - 1;
  }

  /** A one-token batch, whose ids are not checked, gets rows of the table for all hash mixes if and
      only if every head lies inside it. */
  lemma OneTokenSafeIff(l: Layer, b: Batch)
    requires ValidLayer(l) && ValidBatch(b) && IsOneToken(b)
    ensures OneTokenSafe(l, b) <==> forall j :: 0 <= j < |l.sizes| ==> HeadInside(l, j)
  {
    if OneTokenSafe(l, b) {
      forall j | 0 <= j < |l.sizes| ensures HeadInside(l, j) {
        HeadReaches(l, b, j, 0);
        if l.sizes[j] > 0 {
          HeadReaches(l, b, j, l.sizes[j] - 1);
        } else {
          NegativeExtreme(l.sizes[j]);
          HeadReaches(l, b, j, l.sizes[j] + 1);
        }
      }
    } else {
      var m2: (int, int) -> int, m3: (int, int, int) -> int :|
        !(PlanOf(WithMixes(l, m2, m3), b).Ok? && InTable(l, PlanOf(WithMixes(l, m2, m3), b).value));
      OneTokenPlan(WithMixes(l, m2, m3), b);
      var ids := TokenIds(WithMixes(l, m2, m3), OneWindow(l, b));
      var i :| 0 <= i < |ids| && !(0 <= ids[i] < l.rowCount);
      assert !HeadInside(l, i);
    }
  }

  /** For given mixes the unchecked ids are rows of the table exactly when those of the window are. */
  lemma OneTokenInTableIff(l: Layer, b: Batch)
    requires ValidLayer(l) && ValidBatch(b) && IsOneToken(b)
    ensures PlanOf(l, b).Ok? && (InTable(l, PlanOf(l, b).value) <==> InTable(l, TokenIds(l, OneWindow(l, b))))
  {
    OneTokenPlan(l, b);
  }

  lemma OutsideHead(l: Layer, w: Window, j: nat)
    requires ValidLayer(l) && j < |l.sizes| && l.sizes[j] == 1 && l.offsets[j] >= l.rowCount
    ensures TokenIds(l, w)[j] == l.offsets[j] && !InTable(l, TokenIds(l, w))
  {}

  lemma LastRowCounts(l: Layer, rows: seq<seq<int>>)
    requires rows != [] && !InTable(l, rows[|rows| - 1])
    ensures !InTable(l, Flatten(rows))
  {
    var front, last := Flatten(rows[..|rows| - 1]), rows[|rows| - 1];
    var i :| 0 <= i < |last| && !(0 <= last[i] < l.rowCount);
    assert (front + last)[|front| + i] == last[i];
  }

  /** Failing inputs: any layer with a head of one row that starts past the table. A batch of one
      token is planned with that row, any other batch is refused. */
  lemma OneTokenOutside(l: Layer, j: nat, b: Batch)
    requires ValidLayer(l) && j < |l.sizes| && l.sizes[j] == 1 && l.offsets[j] >= l.rowCount
    requires ValidBatch(b) && 0 < |b.inputIds|
    ensures if IsOneToken(b) then PlanOf(l, b).Ok? && l.offsets[j] in PlanOf(l, b).value && !InTable(l, PlanOf(l, b).value)
            else PlanOf(l, b) == Err(OutOfRange)
  {
    if IsOneToken(b) {
      OneTokenPlan(l, b);
      OutsideHead(l, OneWindow(l, b), j);
    } else {
      var n := |b.inputIds|;
      OutsideHead(l, WindowOf(l, b, n - 1), j);
      LastRowCounts(l, RowsTo(l, b, n));
    }
  }

  /** There is such a layer and such a batch. */
  lemma OneTokenOutsideInput()
    ensures var l, b := Layer(0, 1, (x, y) => 0, (x, y, z) => 0, [1, 1], [0, 5], 1), Batch([7], [0, 1], [[0, 0]]);
            ValidLayer(l) && ValidBatch(b) && IsOneToken(b) && PlanOf(l, b).Ok? && !InTable(l, PlanOf(l, b).value)
  {
    OneTokenOutside(Layer(0, 1, (x, y) => 0, (x, y, z) => 0, [1, 1], [0, 5], 1), 1, Batch([7], [0, 1], [[0, 0]]));
  }

  // ---- slices of a token history ----

  /** The last two accepted tokens before `start`, filled up with end-of-text on the left. */
  function ShadowContext(eos: int, tokens: seq<int>, start: nat): (c: seq<int>)
    ensures |c| == 2
  {
    var from := if start < 2 then 0 else start - 2;
    var prefix := if from >= |tokens| then [] else tokens[from..if start < |tokens| then start else |tokens|];
    Fill(eos, 2 - |prefix|) + prefix
  }

  /** The accepted token at place `k`, or end-of-text before the first. */
  function TokenBefore(eos: int, tokens: seq<int>, k: int): int {
    if 0 <= k < |tokens| then tokens[k] else eos
  }

  /** Up to the end of the accepted tokens, the two just before `start`. */
  lemma ContextInside(eos: int, tokens: seq<int>, start: nat)
    requires start <= |tokens|
    ensures ShadowContext(eos, tokens, start) == [TokenBefore(eos, tokens, start - 2), TokenBefore(eos, tokens, start - 1)]
  {}

  /** One token past it only the last accepted token is left, and further on none. */
  lemma ContextPast(eos: int, tokens: seq<int>, start: nat)
    requires start > |tokens|
    ensures start == |tokens| + 1 ==> ShadowContext(eos, tokens, start) == [eos, TokenBefore(eos, tokens, start - 2)]
    ensures start > |tokens| + 1 ==> ShadowContext(eos, tokens, start) == [eos, eos]
  {}

  /** A history behind two end-of-text tokens. */
  function Padded(eos: int, v: seq<int>): seq<int> { [eos, eos] + v }

  function SliceWindows(eos: int, context: seq<int>, slice: seq<int>): (w: seq<Window>)
    requires |context| == 2
    ensures |w| == |slice| && forall k :: 0 <= k < |slice| ==> w[k] == WindowAt(eos, context + slice, 2 + k)
  {
    seq(|slice|, k requires 0 <= k < |slice| => WindowAt(eos, context + slice, 2 + k))
  }

  function AllWindows(eos: int, v: seq<int>): (w: seq<Window>)
    ensures |w| == |v|
  {
    SliceWindows(eos, [eos, eos], v)
  }

  lemma ContextIsHistory(eos: int, tokens: seq<int>, draft: seq<int>, start: nat)
    requires start <= |tokens|
    ensures ShadowContext(eos, tokens, start) == Padded(eos, tokens + draft)[start..start + 2]
  {}

  /** A slice planned with the shadow's context sees what the whole history would show it. */
  lemma SliceSeesHistory(eos: int, tokens: seq<int>, draft: seq<int>, start: nat, end: nat)
    requires start <= end <= |tokens + draft| && start <= |tokens|
    ensures SliceWindows(eos, ShadowContext(eos, tokens, start), (tokens + draft)[start..end])
            == AllWindows(eos, tokens + draft)[start..end]
  {
    var v := tokens + draft;
    ContextIsHistory(eos, tokens, draft, start);
    var c, all := ShadowContext(eos, tokens, start), Padded(eos, v);
    SeenFrom(c, v[start..end], all, start);
    var here, whole := SliceWindows(eos, c, v[start..end]), AllWindows(eos, v);
    forall k | 0 <= k < end - start ensures here[k] == whole[start + k] {
      assert (c + v[start..end])[2 + k] == all[start + 2 + k] && (c + v[start..end])[1 + k] == all[start + 1 + k];
      assert (c + v[start..end])[k] == all[start + k];
    }
    assert here == whole[start..end];
  }

  lemma SeenFrom(c: seq<int>, slice: seq<int>, all: seq<int>, start: nat)
    requires |c| == 2 && start + 2 + |slice| <= |all|
    requires c == all[start..start + 2] && slice == all[start + 2..start + 2 + |slice|]
    ensures forall k :: 0 <= k < |c + slice| ==> (c + slice)[k] == all[start + k]
  {}

  ghost predicate SliceIsRight(eos: int, tokens: seq<int>, draft: seq<int>, start: nat, end: nat)
    requires start <= end <= |tokens + draft|
  {
    SliceWindows(eos, ShadowContext(eos, tokens, start), (tokens + draft)[start..end])
    == AllWindows(eos, tokens + draft)[start..end]
  }

  ghost predicate RightForEveryDraft(eos: int, tokens: seq<int>, start: nat, end: nat)
    requires start <= end
  {
    forall draft: seq<int> :: end <= |tokens + draft| ==> SliceIsRight(eos, tokens, draft, start, end)
  }

  /** The shadow's context is right for every draft exactly when the slice does not start past
      the accepted tokens. */
  lemma ContextRightIff(eos: int, tokens: seq<int>, start: nat, end: nat)
    requires start < end
    ensures RightForEveryDraft(eos, tokens, start, end) <==> start <= |tokens|
  {
    if start <= |tokens| {
      forall draft: seq<int> | end <= |tokens + draft| ensures SliceIsRight(eos, tokens, draft, start, end) {
        SliceSeesHistory(eos, tokens, draft, start, end);
      }
    } else {
      var seen := ShadowContext(eos, tokens, start)[1];
      var draft := seq(end - |tokens|, _ => seen + 1);
      var v := tokens + draft;
      assert AllWindows(eos, v)[start].previous1 == v[start - 1] == seen + 1;
      assert SliceWindows(eos, ShadowContext(eos, tokens, start), v[start..end])[0].previous1 == seen;
      assert !SliceIsRight(eos, tokens, draft, start, end) by {
        assert AllWindows(eos, v)[start..end][0] == AllWindows(eos, v)[start];
      }
    }
  }

  // ---- cutting a history does not change its row ids ----

  /** One planned slice: the tokens accepted at that time, the draft behind them, and the cut. */
  datatype Piece = Piece(tokens: seq<int>, draft: seq<int>, start: nat, end: nat)

  predicate Cut(p: Piece) {
    p.start <= p.end <= |p.tokens + p.draft|
  }

  /** The slice agrees with history `v` and starts within the accepted tokens. */
  predicate PieceOf(v: seq<int>, p: Piece) {
    && Cut(p) && p.end <= |v| && p.start <= |p.tokens|
    && (p.tokens + p.draft)[..p.end] == v[..p.end]
  }

  predicate Consecutive(v: seq<int>, pieces: seq<Piece>, end: nat) {
    && (forall i :: 0 <= i < |pieces| ==> PieceOf(v, pieces[i]))
    && (pieces == [] ==> end == 0)
    && (pieces != [] ==> pieces[0].start == 0 && pieces[|pieces| - 1].end == end)
    && (forall i :: 0 <= i < |pieces| - 1 ==> pieces[i].end == pieces[i + 1].start)
  }

  function PieceBatch(eos: int, p: Piece): (b: Batch)
    requires Cut(p)
    ensures ValidBatch(b)
  {
    Batch((p.tokens + p.draft)[p.start..p.end], [0, p.end - p.start], [ShadowContext(eos, p.tokens, p.start)])
  }

  function HistoryBatch(eos: int, v: seq<int>): (b: Batch)
    ensures ValidBatch(b)
  {
    Batch(v, [0, |v|], [[eos, eos]])
  }

  function RowsOfWindows(l: Layer, w: seq<Window>): (rows: seq<seq<int>>)
    requires ValidLayer(l)
    ensures |rows| == |w| && forall i :: 0 <= i < |w| ==> rows[i] == TokenIds(l, w[i])
  {
    seq(|w|, i requires 0 <= i < |w| => TokenIds(l, w[i]))
  }

  lemma SingleBatchRows(l: Layer, tokens: seq<int>, context: seq<int>)
    requires ValidLayer(l) && |context| == 2
    ensures ValidBatch(Batch(tokens, [0, |tokens|], [context]))
    ensures RowsTo(l, Batch(tokens, [0, |tokens|], [context]), |tokens|)
            == RowsOfWindows(l, SliceWindows(l.eos, context, tokens))
  {
    var b := Batch(tokens, [0, |tokens|], [context]);
    assert ValidBatch(b);
    assert Tokens(b, 0) == tokens;
    forall p | 0 <= p < |tokens| ensures WindowOf(l, b, p) == SliceWindows(l.eos, context, tokens)[p] {
      WindowOfValid(l, b, p);
    }
  }

  lemma PieceWindows(eos: int, v: seq<int>, p: Piece)
    requires PieceOf(v, p)
    ensures SliceWindows(eos, ShadowContext(eos, p.tokens, p.start), (p.tokens + p.draft)[p.start..p.end])
            == AllWindows(eos, v)[p.start..p.end]
  {
    var u := p.tokens + p.draft;
    SliceSeesHistory(eos, p.tokens, p.draft, p.start, p.end);
    forall k | p.start <= k < p.end ensures AllWindows(eos, u)[k] == AllWindows(eos, v)[k] {
      assert u[..p.end][k] == v[..p.end][k];
      assert k > 0 ==> u[..p.end][k - 1] == v[..p.end][k - 1];
      assert k > 1 ==> u[..p.end][k - 2] == v[..p.end][k - 2];
    }
    assert AllWindows(eos, u)[p.start..p.end] == AllWindows(eos, v)[p.start..p.end];
  }

  function HistoryRows(l: Layer, v: seq<int>): (rows: seq<seq<int>>)
    requires ValidLayer(l)
    ensures |rows| == |v|
  {
    RowsTo(l, HistoryBatch(l.eos, v), |v|)
  }

  function PieceRows(l: Layer, p: Piece): (rows: seq<seq<int>>)
    requires ValidLayer(l) && Cut(p)
    ensures |rows| == p.end - p.start
  {
    RowsTo(l, PieceBatch(l.eos, p), p.end - p.start)
  }

  /** The row ids of all pieces, one plan after the other. */
  function PiecesIds(l: Layer, pieces: seq<Piece>): seq<int>
    requires ValidLayer(l) && forall i :: 0 <= i < |pieces| ==> Cut(pieces[i])
  {
    if pieces == [] then []
    else PiecesIds(l, pieces[..|pieces| - 1]) + Flatten(PieceRows(l, pieces[|pieces| - 1]))
  }

  lemma PieceRowsAreHistory(l: Layer, v: seq<int>, p: Piece)
    requires ValidLayer(l) && PieceOf(v, p)
    ensures PieceRows(l, p) == HistoryRows(l, v)[p.start..p.end]
  {
    HistoryWindows(l, v);
    PieceRowsOfWindows(l, v, p);
    RowsSlice(l, AllWindows(l.eos, v), p.start, p.end);
  }

  lemma PieceRowsOfWindows(l: Layer, v: seq<int>, p: Piece)
    requires ValidLayer(l) && PieceOf(v, p)
    ensures PieceRows(l, p) == RowsOfWindows(l, AllWindows(l.eos, v)[p.start..p.end])
  {
    PieceWindows(l.eos, v, p);
    SingleBatchRows(l, (p.tokens + p.draft)[p.start..p.end], ShadowContext(l.eos, p.tokens, p.start));
  }

  lemma HistoryWindows(l: Layer, v: seq<int>)
    requires ValidLayer(l)
    ensures HistoryRows(l, v) == RowsOfWindows(l, AllWindows(l.eos, v))
  {
    SingleBatchRows(l, v, [l.eos, l.eos]);
  }

  lemma RowsSlice(l: Layer, w: seq<Window>, start: nat, end: nat)
    requires ValidLayer(l) && start <= end <= |w|
    ensures RowsOfWindows(l, w)[start..end] == RowsOfWindows(l, w[start..end])
  {
    forall i | 0 <= i < end - start ensures RowsOfWindows(l, w)[start..end][i] == RowsOfWindows(l, w[start..end])[i] {
      assert RowsOfWindows(l, w)[start + i] == TokenIds(l, w[start + i]);
    }
  }

  lemma FlattenSlices(whole: seq<seq<int>>, start: nat, end: nat)
    requires start <= end <= |whole|
    ensures Flatten(whole[..end]) == Flatten(whole[..start]) + Flatten(whole[start..end])
  {
    assert whole[..end] == whole[..start] + whole[start..end];
    FlattenConcat(whole[..start], whole[start..end]);
  }

  lemma DropLastPiece(v: seq<int>, pieces: seq<Piece>, end: nat)
    requires Consecutive(v, pieces, end) && pieces != []
    ensures PieceOf(v, pieces[|pieces| - 1]) && pieces[|pieces| - 1].end == end
    ensures Consecutive(v, pieces[..|pieces| - 1], pieces[|pieces| - 1].start)
  {}

  /** Cutting a history into consecutive slices, each planned with the shadow's context at its
      time, gives the row ids of the whole history planned at once. */
  lemma {:induction false} ChunkingInvariant(l: Layer, v: seq<int>, pieces: seq<Piece>, end: nat)
    requires ValidLayer(l) && Consecutive(v, pieces, end)
    ensures end <= |v|
    ensures PiecesIds(l, pieces) == Flatten(HistoryRows(l, v)[..end])
  {
    if pieces != [] {
      var p := pieces[|pieces| - 1];
      DropLastPiece(v, pieces, end);
      assert forall i :: 0 <= i < |pieces| ==> PieceOf(v, pieces[i]) ==> Cut(pieces[i]);
      ChunkingInvariant(l, v, pieces[..|pieces| - 1], p.start);
      PieceRowsAreHistory(l, v, p);
      FlattenSlices(HistoryRows(l, v), p.start, p.end);
    }
  }

  // ---- the token history ----

  datatype ShadowRequest = ShadowRequest(generation: nat, tokens: seq<int>, numComputed: nat)

  /** One request's slice of a step. */
  datatype Slice = Slice(reqId: string, start: int, length: int, draft: seq<int>)

  /** One row of sampled tokens; rows outside the mask are skipped. */
  datatype SampledRow = SampledRow(reqId: string, generation: nat, sampled: seq<int>, count: int, included: bool)

  /** Neither stale nor impossible. */
  predicate Acceptable(requests: map<string, ShadowRequest>, row: SampledRow) {
    row.reqId in requests && requests[row.reqId].generation == row.generation && 0 <= row.count <= |row.sampled|
  }

  predicate AllAcceptable(requests: map<string, ShadowRequest>, rows: seq<SampledRow>, n: nat) {
    n <= |rows| && forall i :: 0 <= i < n && rows[i].included ==> Acceptable(requests, rows[i])
  }

  /** How many rows are taken before one is refused. */
  function Accepted(requests: map<string, ShadowRequest>, rows: seq<SampledRow>): (n: nat)
    ensures AllAcceptable(requests, rows, n)
    ensures n < |rows| ==> rows[n].included && !Acceptable(requests, rows[n])
  {
    if rows == [] || (rows[0].included && !Acceptable(requests, rows[0])) then 0
    else Accepted(requests, rows[1..]) + 1
  }

  lemma AcceptedIs(requests: map<string, ShadowRequest>, rows: seq<SampledRow>, n: nat)
    requires AllAcceptable(requests, rows, n)
    requires n < |rows| ==> rows[n].included && !Acceptable(requests, rows[n])
    ensures Accepted(requests, rows) == n
  {}

  /** What the rows add to one request, in order. */
  function TokensFor(rows: seq<SampledRow>, id: string): seq<int> {
    if rows == [] then []
    else
      var row := rows[|rows| - 1];
      TokensFor(rows[..|rows| - 1], id)
      + (if row.included && row.reqId == id && 0 <= row.count <= |row.sampled| then row.sampled[..row.count] else [])
  }

  lemma TokensNext(rows: seq<SampledRow>, i: nat)
    requires i < |rows|
    ensures forall id :: TokensFor(rows[..i + 1], id)
                         == TokensFor(rows[..i], id)
                            + (if rows[i].included && rows[i].reqId == id && 0 <= rows[i].count <= |rows[i].sampled|
                               then rows[i].sampled[..rows[i].count] else [])
  {
    assert rows[..i + 1][..i] == rows[..i];
  }

  /** The same requests, with tokens appended and nothing else changed. */
  predicate SameButTokens(before: map<string, ShadowRequest>, after: map<string, ShadowRequest>) {
    && before.Keys == after.Keys
    && forall id :: id in before ==>
         before[id].generation == after[id].generation && before[id].numComputed == after[id].numComputed
         && before[id].tokens <= after[id].tokens
  }

  ghost predicate AppendedSoFar(before: map<string, ShadowRequest>, after: map<string, ShadowRequest>,
                                rows: seq<SampledRow>, n: nat)
  {
    && SameButTokens(before, after) && AllAcceptable(before, rows, n)
    && forall id :: id in after ==> after[id].tokens == before[id].tokens + TokensFor(rows[..n], id)
  }

  function WithRow(requests: map<string, ShadowRequest>, row: SampledRow): map<string, ShadowRequest>
    requires row.included ==> Acceptable(requests, row)
  {
    if row.included then
      requests[row.reqId := requests[row.reqId].(tokens := requests[row.reqId].tokens + row.sampled[..row.count])]
    else requests
  }

  lemma AppendedNext(before: map<string, ShadowRequest>, after: map<string, ShadowRequest>, rows: seq<SampledRow>, n: nat)
    requires n < |rows| && AppendedSoFar(before, after, rows, n) && (rows[n].included ==> Acceptable(after, rows[n]))
    ensures AppendedSoFar(before, WithRow(after, rows[n]), rows, n + 1)
  {
    var next := WithRow(after, rows[n]);
    forall id | id in next ensures next[id].tokens == before[id].tokens + TokensFor(rows[..n + 1], id) {
      TokensGrow(before[id].tokens, after[id].tokens, rows, n, id);
    }
    forall id | id in next ensures before[id].tokens <= next[id].tokens {
      assert after[id].tokens <= next[id].tokens;
    }
  }

  lemma TokensGrow(was: seq<int>, now: seq<int>, rows: seq<SampledRow>, n: nat, id: string)
    requires n < |rows| && now == was + TokensFor(rows[..n], id)
    requires rows[n].included ==> 0 <= rows[n].count <= |rows[n].sampled|
    ensures was + TokensFor(rows[..n + 1], id)
            == now + (if rows[n].included && rows[n].reqId == id then rows[n].sampled[..rows[n].count] else [])
  {
    TokensNext(rows, n);
  }

  class CpuTokenShadow {
    const eos: int
    var requests: map<string, ShadowRequest>
    var nextGeneration: nat
    var epoch: nat

    constructor (eos: int)
      ensures this.eos == eos && requests == map[] && nextGeneration == 1 && epoch == 1 && Valid()
    {
      this.eos := eos;
      requests, nextGeneration, epoch := map[], 1, 1;
    }

    /** Generations are never reused. */
    ghost predicate Valid()
      reads this
    {
      && (forall id :: id in requests ==> requests[id].generation < nextGeneration && requests[id].numComputed <= |requests[id].tokens|)
      && (forall a, b :: a in requests && b in requests && requests[a].generation == requests[b].generation ==> a == b)
    }

    method AddOrReplace(reqId: string, tokens: seq<int>, numComputed: int) returns (ok: bool)
      requires Valid()
      modifies this`requests, this`nextGeneration
      ensures Valid() && ok == (0 <= numComputed <= |tokens|)
      ensures ok ==> requests == old(requests)[reqId := ShadowRequest(old(nextGeneration), tokens, numComputed)]
      ensures ok ==> nextGeneration == old(nextGeneration) + 1
      ensures !ok ==> requests == old(requests) && nextGeneration == old(nextGeneration)
    {
      if numComputed < 0 || numComputed > |tokens| {
        return false;
      }
      requests := requests[reqId := ShadowRequest(nextGeneration, tokens, numComputed)];
      nextGeneration := nextGeneration + 1;
      ok := true;
    }

    method Remove(reqId: string) returns (removed: bool)
      requires Valid()
      modifies this`requests, this`epoch
      ensures Valid() && removed == (reqId in old(requests)) && requests == old(requests) - {reqId}
      ensures epoch == old(epoch) + (if removed then 1 else 0)
    {
      removed := reqId in requests;
      requests := requests - {reqId};
      if removed {
        epoch := epoch + 1;
      }
    }

    /** The sampled tokens of a batch, row by row, up to the first row that is refused. */
    method AppendSampled(rows: seq<SampledRow>) returns (ok: bool)
      requires Valid()
      modifies this`requests
      ensures Valid()
      ensures ok == (Accepted(old(requests), rows) == |rows|)
      ensures SameButTokens(old(requests), requests)
      ensures forall id :: id in requests ==>
                requests[id].tokens == old(requests)[id].tokens + TokensFor(rows[..Accepted(old(requests), rows)], id)
    {
      ghost var before := requests;
      for i := 0 to |rows|
        invariant Valid() && AppendedSoFar(before, requests, rows, i)
      {
        var row := rows[i];
        if row.included && !Acceptable(requests, row) {
          AcceptedIs(before, rows, i);
          return false;
        }
        AppendedNext(before, requests, rows, i);
        requests := WithRow(requests, row);
      }
      AcceptedIs(before, rows, |rows|);
      ok := true;
    }

    predicate SliceFits(s: Slice)
      reads this
    {
      && s.reqId in requests && 0 <= s.start && 0 <= s.length
      && s.start + s.length <= |requests[s.reqId].tokens + s.draft|
    }

    /** What is wrong with a slice, in the order of the checks; otherwise its length. */
    function CheckedLength(s: Slice): (r: Result<nat>)
      reads this
      ensures r.Ok? <==> SliceFits(s)
    {
      if s.reqId !in requests then Err(UnknownRequest)
      else if s.start < 0 || s.length < 0 then Err(NegativeSlice)
      else if s.start + s.length > |requests[s.reqId].tokens + s.draft| then Err(ShadowUnderflow)
      else Ok(s.length)
    }

    /** When a slice is refused, and for what. */
    lemma CheckedLengthIs(s: Slice)
      ensures var r := CheckedLength(s);
              && (r == Err(UnknownRequest) <==> s.reqId !in requests)
              && (r == Err(NegativeSlice) <==> s.reqId in requests && (s.start < 0 || s.length < 0))
              && (r == Err(ShadowUnderflow) <==>
                    && s.reqId in requests && 0 <= s.start && 0 <= s.length
                    && s.start + s.length > |requests[s.reqId].tokens| + |s.draft|)
              && (r.Ok? ==> r.value == s.length)
              && (r.Err? ==> r.error.UnknownRequest? || r.error.NegativeSlice? || r.error.ShadowUnderflow?)
    {}

    /** A step is refused for its first refused slice, or else for padding below the sum of the lengths. */
    lemma StepRefusedFor(slices: seq<Slice>, paddedTokens: nat, i: nat, n: nat)
      requires i <= |slices| && Needed(slices[..i]) == Ok(n) && (i < |slices| ==> CheckedLength(slices[i]).Err?)
      ensures i < |slices| ==> StepAnswer(slices, paddedTokens) == CheckedLength(slices[i])
      ensures i == |slices| ==> (StepAnswer(slices, paddedTokens) == Err(PaddingTooSmall) <==> paddedTokens < n)
    {
      if i < |slices| {
        NeededNext(slices, i, n);
      } else {
        assert slices[..i] == slices;
      }
    }

    /** How many tokens the slices take, or what is wrong with the first bad one. */
    function Needed(slices: seq<Slice>): (r: Result<nat>)
      reads this
      ensures r.Ok? <==> forall i :: 0 <= i < |slices| ==> SliceFits(slices[i])
    {
      if slices == [] then Ok(0)
      else
        match Needed(slices[..|slices| - 1])
        case Err(e) => Err(e)
        case Ok(n) => match CheckedLength(slices[|slices| - 1]) case Err(e) => Err(e) case Ok(more) => Ok(n + more)
    }

    function StepAnswer(slices: seq<Slice>, paddedTokens: nat): Result<nat>
      reads this
    {
      match Needed(slices)
      case Err(e) => Err(e)
      case Ok(n) => if paddedTokens < n then Err(PaddingTooSmall) else Ok(n)
    }

    lemma {:induction false} NeededStops(slices: seq<Slice>, k: nat)
      requires k <= |slices| && Needed(slices[..k]).Err?
      ensures Needed(slices) == Needed(slices[..k])
      decreases |slices|
    {
      if k < |slices| {
        var front := slices[..|slices| - 1];
        assert front[..k] == slices[..k];
        NeededStops(front, k);
      } else {
        assert slices[..k] == slices;
      }
    }

    lemma NeededNext(slices: seq<Slice>, i: nat, n: nat)
      requires i < |slices| && Needed(slices[..i]) == Ok(n)
      ensures Needed(slices[..i + 1])
              == match CheckedLength(slices[i]) case Err(e) => Err(e) case Ok(more) => Ok(n + more)
      ensures CheckedLength(slices[i]).Err? ==> Needed(slices) == CheckedLength(slices[i])
    {
      var front := slices[..i + 1];
      assert front[..|front| - 1] == slices[..i] && front[|front| - 1] == slices[i];
      if CheckedLength(slices[i]).Err? {
        NeededStops(slices, i + 1);
      }
    }

    function PieceOfSlice(s: Slice): Piece
      reads this
      requires SliceFits(s)
    {
      Piece(requests[s.reqId].tokens, s.draft, s.start, s.start + s.length)
    }

    /** The batch of a step: every request's slice behind the shadow's context. */
    method PlanStep(slices: seq<Slice>, paddedTokens: nat) returns (r: Result<Batch>)
      requires Valid()
      ensures match StepAnswer(slices, paddedTokens)
              case Err(e) => r == Err(e)
              case Ok(n) => r.Ok? && IsStepBatch(r.value, slices) && |r.value.inputIds| == n
    {
      var b := Batch([], [0], []);
      for i := 0 to |slices|
        invariant PlannedTo(b, slices, i) && Needed(slices[..i]) == Ok(|b.inputIds|)
      {
        NeededNext(slices, i, |b.inputIds|);
        var next := AddSlice(b, slices, i);
        match next {
          case Err(e) => return Err(e);
          case Ok(more) => b := more;
        }
      }
      assert slices[..|slices|] == slices;
      if paddedTokens < |b.inputIds| {
        return Err(PaddingTooSmall);
      }
      if slices != [] {
        PlannedIsValid(b, slices);
      }
      return Ok(b);
    }

    /** Every slice in its place: planned alone, request `i` is exactly slice `i`. */
    ghost predicate IsStepBatch(b: Batch, slices: seq<Slice>)
      reads this
    {
      && |b.context| == |slices| && |b.starts| == |slices| + 1
      && (slices != [] ==>
            && ValidBatch(b) && b.starts[|slices|] == |b.inputIds|
            && forall i :: 0 <= i < |slices| ==>
                 SliceFits(slices[i]) && Alone(b, i) == PieceBatch(eos, PieceOfSlice(slices[i])))
    }

    ghost predicate PlannedTo(b: Batch, slices: seq<Slice>, i: nat)
      reads this
    {
      && i <= |slices| && |b.context| == i && |b.starts| == i + 1 && b.starts[0] == 0 && b.starts[i] == |b.inputIds|
      && forall j :: 0 <= j < i ==> PlannedSlice(b, j, slices[j])
    }

    /** One turn of the loop. */
    method AddSlice(b: Batch, slices: seq<Slice>, i: nat) returns (r: Result<Batch>)
      requires i < |slices| && PlannedTo(b, slices, i)
      ensures match CheckedLength(slices[i])
              case Err(e) => r == Err(e)
              case Ok(n) => r.Ok? && PlannedTo(r.value, slices, i + 1) && |r.value.inputIds| == |b.inputIds| + n
    {
      var s := slices[i];
      if s.reqId !in requests {
        return Err(UnknownRequest);
      }
      if s.start < 0 || s.length < 0 {
        return Err(NegativeSlice);
      }
      var tokens := requests[s.reqId].tokens;
      var virtual := tokens + s.draft;
      if s.start + s.length > |virtual| {
        return Err(ShadowUnderflow);
      }
      var more := Batch(b.inputIds + virtual[s.start..s.start + s.length], b.starts + [|b.inputIds| + s.length],
                        b.context + [ShadowContext(eos, tokens, s.start)]);
      PlannedMore(b, more, slices, i);
      return Ok(more);
    }

    ghost predicate PlannedSlice(b: Batch, j: nat, s: Slice)
      reads this
      requires j < |b.context| && |b.starts| == |b.context| + 1
    {
      && SliceFits(s) && b.context[j] == ShadowContext(eos, requests[s.reqId].tokens, s.start)
      && 0 <= b.starts[j] <= b.starts[j + 1] <= |b.inputIds| && b.starts[j + 1] == b.starts[j] + s.length
      && b.inputIds[b.starts[j]..b.starts[j + 1]] == (requests[s.reqId].tokens + s.draft)[s.start..s.start + s.length]
    }

    lemma PlannedMore(before: Batch, b: Batch, slices: seq<Slice>, i: nat)
      requires i < |slices| && SliceFits(slices[i]) && |before.context| == i && |before.starts| == i + 1
      requires 0 <= before.starts[i] == |before.inputIds|
      requires forall j :: 0 <= j < i ==> PlannedSlice(before, j, slices[j])
      requires var s, tokens := slices[i], requests[slices[i].reqId].tokens;
               b == Batch(before.inputIds + (tokens + s.draft)[s.start..s.start + s.length],
                          before.starts + [|before.inputIds| + s.length],
                          before.context + [ShadowContext(eos, tokens, s.start)])
      ensures forall j :: 0 <= j <= i ==> PlannedSlice(b, j, slices[j])
    {
      forall j | 0 <= j < i ensures PlannedSlice(b, j, slices[j]) {
        assert PlannedSlice(before, j, slices[j]);
      }
    }

    lemma PlannedIsValid(b: Batch, slices: seq<Slice>)
      requires slices != [] && |b.context| == |slices| && |b.starts| == |slices| + 1
      requires b.starts[0] == 0 && b.starts[|slices|] == |b.inputIds|
      requires forall j :: 0 <= j < |slices| ==> PlannedSlice(b, j, slices[j])
      ensures ValidBatch(b)
      ensures forall i :: 0 <= i < |slices| ==> SliceFits(slices[i]) && Alone(b, i) == PieceBatch(eos, PieceOfSlice(slices[i]))
    {
      forall j | 0 <= j < |slices| ensures b.starts[j] <= b.starts[j + 1] && |b.context[j]| == 2 {
        assert PlannedSlice(b, j, slices[j]);
      }
      assert ValidBatch(b);
      forall i | 0 <= i < |slices| ensures SliceFits(slices[i]) && Alone(b, i) == PieceBatch(eos, PieceOfSlice(slices[i])) {
        assert PlannedSlice(b, i, slices[i]);
      }
    }
  }
}
