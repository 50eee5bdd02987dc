/** The lossless top-k transport: a shard's `K` largest scores with their ids, its K-th score,
    and one bit per vocabulary entry equal to that score. */
module TopkTransport {
  import opened Scores
  import opened FilterMeaning
  import Pages

  const K: nat := 20

  /** A 32-bit cell of the packet, holding a score's bits or an integer. */
  datatype Cell = OfScore(score: Score) | OfWord(word: nat)

  // ---- the tie bitmap ----

  function Pow2(n: nat): (p: nat)
    ensures 0 < p
  {
    if n == 0 then 1 else 2 * Pow2(n - 1)
  }

  predicate Tied(x: seq<Score>, threshold: Score, col: nat) {
    col < |x| && x[col] == threshold
  }

  /** The first `bits` bits of one bitmap word, lowest bit first. */
  function BitWord(x: seq<Score>, threshold: Score, word: nat, bits: nat): (v: nat)
    ensures v < Pow2(bits)
  {
    if bits == 0 then 0
    else BitWord(x, threshold, word, bits - 1)
         + (if Tied(x, threshold, word * 32 + (bits - 1)) then Pow2(bits - 1) else 0)
  }

  function BitAt(v: nat, bit: nat): bool {
    (v / Pow2(bit)) % 2 != 0
  }

  lemma {:induction false} PowProduct(a: nat, b: nat)
    ensures Pow2(a + b) == Pow2(a) * Pow2(b)
  {
    if a > 0 {
      PowProduct(a - 1, b);
      assert Pow2(a) * Pow2(b) == 2 * (Pow2(a - 1) * Pow2(b));
    }
  }

  lemma EvenMultiple(v: nat, p: nat, h: nat)
    requires 0 < p
    ensures ((v + (2 * h) * p) / p) % 2 == (v / p) % 2
  {
    Pages.DivBounds(v, p);
    assert v + (2 * h) * p == (v / p + 2 * h) * p + v % p;
    Pages.DivUnique(v / p + 2 * h, p, v % p);
  }

  lemma HigherBitKeeps(v: nat, n: nat, bit: nat)
    requires bit < n
    ensures BitAt(v + Pow2(n), bit) == BitAt(v, bit)
  {
    PowProduct(n - bit, bit);
    assert Pow2(n - bit) == 2 * Pow2(n - bit - 1);
    EvenMultiple(v, Pow2(bit), Pow2(n - bit - 1));
  }

  lemma TopBit(v: nat, bit: nat, on: bool)
    requires v < Pow2(bit)
    ensures BitAt(v + (if on then Pow2(bit) else 0), bit) == on
  {
    if on {
      Pages.DivUnique(1, Pow2(bit), v);
    } else {
      Pages.SmallDiv(v, Pow2(bit));
    }
  }

  lemma NextBit(v: nat, n: nat, on: bool, bit: nat)
    requires v < Pow2(n) && bit <= n
    ensures BitAt(v + (if on then Pow2(n) else 0), bit) == if bit == n then on else BitAt(v, bit)
  {
    if bit == n {
      TopBit(v, n, on);
    } else if on {
      HigherBitKeeps(v, n, bit);
    }
  }

  /** Reading a bit back gives what was written. */
  lemma {:induction false} BitWordRoundTrip(x: seq<Score>, threshold: Score, word: nat, bits: nat, bit: nat)
    requires bit < bits
    ensures BitAt(BitWord(x, threshold, word, bits), bit) == Tied(x, threshold, word * 32 + bit)
  {
    var rest, on := BitWord(x, threshold, word, bits - 1), Tied(x, threshold, word * 32 + (bits - 1));
    assert BitWord(x, threshold, word, bits) == rest + (if on then Pow2(bits - 1) else 0);
    NextBit(rest, bits - 1, on, bit);
    if bit < bits - 1 {
      BitWordRoundTrip(x, threshold, word, bits - 1, bit);
    }
  }

  lemma WordFits(x: seq<Score>, threshold: Score, word: nat)
    ensures BitWord(x, threshold, word, 32) < 0x1_0000_0000
  {
    assert Pow2(32) == 0x1_0000_0000 by {
      assert Pow2(8) == 256;
      assert Pow2(16) == 0x1_0000;
      assert Pow2(24) == 0x100_0000;
    }
  }

  // ---- packing ----

  function Words(width: nat): nat { (width + 31) / 32 }

  function Bitmap(x: seq<Score>, threshold: Score, words: nat): (b: seq<Cell>)
    ensures |b| == words
    ensures forall w :: 0 <= w < words ==> b[w] == OfWord(BitWord(x, threshold, w, 32))
  {
    seq(words, w requires 0 <= w => OfWord(BitWord(x, threshold, w, 32)))
  }

  function PacketOf(x: seq<Score>, values: seq<Score>, indices: seq<nat>): (p: seq<Cell>)
    requires |values| == |indices| == K
    ensures |p| == 2 * K + 1 + Words(|x|)
    ensures forall j :: 0 <= j < K ==> p[j] == OfScore(values[j]) && p[K + j] == OfWord(indices[j])
    ensures p[2 * K] == OfScore(values[K - 1])
    ensures p[2 * K + 1..] == Bitmap(x, values[K - 1], Words(|x|))
  {
    seq(K, j requires 0 <= j < K => OfScore(values[j])) + seq(K, j requires 0 <= j < K => OfWord(indices[j]))
    + [OfScore(values[K - 1])] + Bitmap(x, values[K - 1], Words(|x|))
  }

  /** One lane of the packing kernel: the sum of the 32 shifted comparisons of one word. */
  method PackWord(x: seq<Score>, threshold: Score, word: nat) returns (bits: nat)
    ensures bits == BitWord(x, threshold, word, 32)
  {
    bits := 0;
    for bit := 0 to 32
      invariant bits == BitWord(x, threshold, word, bit)
    {
      var col := word * 32 + bit;
      if col < |x| && x[col] == threshold {
        bits := bits + Pow2(bit);
      }
    }
  }

  ghost predicate Packed(x: seq<Score>, values: seq<Score>, indices: seq<nat>, packet: seq<Cell>, words: nat)
    requires |values| == |indices| == K && |packet| == 2 * K + 1 + Words(|x|) && words <= Words(|x|)
  {
    packet[..2 * K + 1 + words] == PacketOf(x, values, indices)[..2 * K + 1 + words]
  }

  lemma PackedMore(x: seq<Score>, values: seq<Score>, indices: seq<nat>, packet: seq<Cell>, word: nat, after: seq<Cell>)
    requires |values| == |indices| == K && |packet| == 2 * K + 1 + Words(|x|) && word < Words(|x|)
    requires Packed(x, values, indices, packet, word)
    requires after == packet[2 * K + 1 + word := OfWord(BitWord(x, values[K - 1], word, 32))]
    ensures Packed(x, values, indices, after, word + 1)
  {
    var whole, n := PacketOf(x, values, indices), 2 * K + 1 + word;
    assert whole[n] == whole[2 * K + 1..][word];
    assert after[..n] == packet[..n];
    assert after[..n + 1] == after[..n] + [whole[n]];
    assert whole[..n + 1] == whole[..n] + [whole[n]];
  }

  function Least(a: nat, b: nat): nat { if a < b then a else b }

  /** One lane of a kernel program: the bitmap word `word`. */
  method PackOneWord(x: seq<Score>, values: seq<Score>, indices: seq<nat>, word: nat, packet: array<Cell>)
    requires |values| == |indices| == K && packet.Length == 2 * K + 1 + Words(|x|) && word < Words(|x|)
    requires Packed(x, values, indices, packet[..], word)
    modifies packet
    ensures Packed(x, values, indices, packet[..], word + 1)
  {
    var bits := PackWord(x, values[K - 1], word);
    ghost var before := packet[..];
    packet[2 * K + 1 + word] := OfWord(bits);
    PackedMore(x, values, indices, before, word, packet[..]);
  }

  /** The first kernel program also stores the scores, the ids and the threshold. */
  method PackTop(x: seq<Score>, values: seq<Score>, indices: seq<nat>, packet: array<Cell>)
    requires |values| == |indices| == K && packet.Length == 2 * K + 1 + Words(|x|)
    modifies packet
    ensures Packed(x, values, indices, packet[..], 0)
  {
    for j := 0 to K
      invariant forall i :: 0 <= i < j ==> packet[i] == OfScore(values[i])
      invariant forall i :: K <= i < K + j ==> packet[i] == OfWord(indices[i - K])
    {
      packet[j] := OfScore(values[j]);
      packet[K + j] := OfWord(indices[j]);
    }
    packet[2 * K] := OfScore(values[K - 1]);
    var whole := PacketOf(x, values, indices);
    forall i | 0 <= i < 2 * K + 1 ensures packet[..][i] == whole[i] {
      assert i < K ==> whole[i] == OfScore(values[i]);
      assert K <= i < 2 * K ==> whole[K + (i - K)] == OfWord(indices[i - K]);
    }
    assert packet[..][..2 * K + 1] == whole[..2 * K + 1];
  }

  /** `pack_topk` for one row; `values` and `indices` are what `topk` returned. Every kernel
      program covers 32 words. */
  method PackTies(x: seq<Score>, values: seq<Score>, indices: seq<nat>) returns (packet: array<Cell>)
    requires |values| == |indices| == K
    ensures fresh(packet) && packet[..] == PacketOf(x, values, indices)
  {
    var words := Words(|x|);
    packet := new Cell[2 * K + 1 + words](_ => OfWord(0));
    PackTop(x, values, indices, packet);
    for block := 0 to (words + 31) / 32
      invariant Packed(x, values, indices, packet[..], Least(block * 32, words))
    {
      for lane := 0 to 32
        invariant Packed(x, values, indices, packet[..], Least(block * 32 + lane, words))
      {
        var word := block * 32 + lane;
        if word < words {
          PackOneWord(x, values, indices, word, packet);
        }
      }
    }
    assert packet[..2 * K + 1 + words] == packet[..];
  }

  // ---- unpacking ----

  /** The `j`-th of the largest scores, and its id. */
  ghost predicate HasTop(p: seq<Cell>, width: nat, j: nat)
    requires 2 * K <= |p|
  {
    j < K ==> p[j].OfScore? && p[K + j].OfWord? && p[K + j].word < width
  }

  /** The shape of a packet of a shard of `width` scores. */
  ghost predicate WellFormed(p: seq<Cell>, width: nat) {
    && |p| == 2 * K + 1 + Words(width)
    && (forall j: nat :: HasTop(p, width, j))
    && p[2 * K].OfScore?
    && (forall w :: 2 * K + 1 <= w < |p| ==> p[w].OfWord?)
  }

  function TopIndex(p: seq<Cell>, width: nat, j: nat): (i: nat)
    requires WellFormed(p, width) && j < K
    ensures i < width
  {
    assert HasTop(p, width, j);
    p[K + j].word
  }

  function TopScore(p: seq<Cell>, width: nat, j: nat): Score
    requires WellFormed(p, width) && j < K
  {
    assert HasTop(p, width, j);
    p[j].score
  }

  /** What the bitmap says of one position. */
  function TieScore(p: seq<Cell>, width: nat, local: nat): Score
    requires WellFormed(p, width) && local < width
  {
    if BitAt(p[2 * K + 1 + local / 32].word, local % 32) then p[2 * K].score else NegInf
  }

  function Ties(p: seq<Cell>, width: nat): (y: seq<Score>)
    requires WellFormed(p, width)
    ensures |y| == width && forall i :: 0 <= i < width ==> y[i] == TieScore(p, width, i)
  {
    seq(width, i requires 0 <= i < width => TieScore(p, width, i))
  }

  /** The first `n` top scores written over `y`. */
  function WithTop(p: seq<Cell>, width: nat, y: seq<Score>, n: nat): (r: seq<Score>)
    requires WellFormed(p, width) && |y| == width && n <= K
    ensures |r| == width
  {
    if n == 0 then y else WithTop(p, width, y, n - 1)[TopIndex(p, width, n - 1) := TopScore(p, width, n - 1)]
  }

  /** One shard's row after both kernels. */
  function Restored(p: seq<Cell>, width: nat): (y: seq<Score>)
    requires WellFormed(p, width)
    ensures |y| == width
  {
    WithTop(p, width, Ties(p, width), K)
  }

  lemma TwoShards(col: nat, width: nat)
    requires col < 2 * width
    ensures col / width == (if col < width then 0 else 1)
    ensures col % width == (if col < width then col else col - width)
  {
    if col < width {
      Pages.SmallDiv(col, width);
    } else {
      Pages.DivUnique(1, width, col - width);
    }
  }

  /** The first kernel: every position of both shards from its tie bit. */
  method UnpackTies(p0: seq<Cell>, p1: seq<Cell>, width: nat, y: array<Score>)
    requires WellFormed(p0, width) && WellFormed(p1, width) && y.Length == 2 * width
    modifies y
    ensures y[..] == Ties(p0, width) + Ties(p1, width)
  {
    for col := 0 to 2 * width
      invariant forall c :: 0 <= c < col ==> y[c] == (Ties(p0, width) + Ties(p1, width))[c]
    {
      TwoShards(col, width);
      var shard, local := col / width, col % width;
      var p := if shard == 0 then p0 else p1;
      y[col] := if BitAt(p[2 * K + 1 + local / 32].word, local % 32) then p[2 * K].score else NegInf;
    }
  }

  /** The second kernel, for one shard starting at `base`. */
  method UnpackTop(p: seq<Cell>, width: nat, y: array<Score>, base: nat, ghost rest: (seq<Score>, seq<Score>))
    requires WellFormed(p, width) && base + width <= y.Length && |rest.0| == base
    requires y[..] == rest.0 + Ties(p, width) + rest.1
    modifies y
    ensures y[..] == rest.0 + Restored(p, width) + rest.1
  {
    for j := 0 to K
      invariant y[..] == rest.0 + WithTop(p, width, Ties(p, width), j) + rest.1
    {
      y[base + TopIndex(p, width, j)] := TopScore(p, width, j);
    }
  }

  /** `unpack_topk` for one row: ties first, then the top scores over them. */
  method UnpackTopk(p0: seq<Cell>, p1: seq<Cell>, width: nat) returns (y: array<Score>)
    requires WellFormed(p0, width) && WellFormed(p1, width)
    ensures fresh(y) && y[..] == Restored(p0, width) + Restored(p1, width)
  {
    y := new Score[2 * width](_ => NegInf);
    UnpackTies(p0, p1, width, y);
    UnpackLower(p0, width, y, Ties(p1, width));
    UnpackUpper(p1, width, y, Restored(p0, width));
  }

  /** The second kernel on the first shard, the second still holding its ties. */
  method UnpackLower(p: seq<Cell>, width: nat, y: array<Score>, ghost upper: seq<Score>)
    requires WellFormed(p, width) && y[..] == Ties(p, width) + upper
    modifies y
    ensures y[..] == Restored(p, width) + upper
  {
    assert y[..] == [] + Ties(p, width) + upper;
    UnpackTop(p, width, y, 0, ([], upper));
  }

  /** The second kernel on the second shard, the first being done. */
  method UnpackUpper(p: seq<Cell>, width: nat, y: array<Score>, ghost lower: seq<Score>)
    requires WellFormed(p, width) && |lower| == width && y[..] == lower + Ties(p, width)
    modifies y
    ensures y[..] == lower + Restored(p, width)
  {
    assert y[..] == lower + Ties(p, width) + [];
    UnpackTop(p, width, y, width, (lower, []));
  }

  // ---- nothing that matters is lost ----

  /** The shard with every score below its K-th largest replaced by negative infinity. */
  function AtLeastKth(x: seq<Score>, threshold: Score): (y: seq<Score>)
    ensures |y| == |x|
    ensures forall i :: 0 <= i < |x| ==> y[i] == if Below(x[i], threshold) then NegInf else x[i]
  {
    seq(|x|, i requires 0 <= i < |x| => if Below(x[i], threshold) then NegInf else x[i])
  }

  lemma PacketIsWellFormed(x: seq<Score>, values: seq<Score>, indices: seq<nat>)
    requires IsTopK(x, K, values, indices)
    ensures WellFormed(PacketOf(x, values, indices), |x|)
  {
    var p := PacketOf(x, values, indices);
    forall j: nat ensures HasTop(p, |x|, j) {
      assert j < K ==> indices[j] < |x|;
    }
    forall w | 2 * K + 1 <= w < |p| ensures p[w].OfWord? {
      assert p[w] == p[2 * K + 1..][w - (2 * K + 1)];
    }
  }

  lemma TiesAreExact(x: seq<Score>, values: seq<Score>, indices: seq<nat>, i: nat)
    requires IsTopK(x, K, values, indices) && i < |x|
    requires WellFormed(PacketOf(x, values, indices), |x|)
    ensures Ties(PacketOf(x, values, indices), |x|)[i] == if x[i] == values[K - 1] then values[K - 1] else NegInf
  {
    var p := PacketOf(x, values, indices);
    var w := i / 32;
    assert p[2 * K + 1 + w] == p[2 * K + 1..][w];
    BitWordRoundTrip(x, values[K - 1], w, 32, i % 32);
  }

  lemma {:induction false} TopWritten(p: seq<Cell>, width: nat, y: seq<Score>, n: nat, i: nat)
    requires WellFormed(p, width) && |y| == width && n <= K && i < width
    ensures (forall j: nat :: j < n ==> TopIndex(p, width, j) != i) ==> WithTop(p, width, y, n)[i] == y[i]
    ensures (exists j: nat :: j < n && TopIndex(p, width, j) == i) ==>
              exists j: nat :: j < n && TopIndex(p, width, j) == i && WithTop(p, width, y, n)[i] == TopScore(p, width, j)
  {
    if n > 0 {
      TopWritten(p, width, y, n - 1, i);
    }
  }

  /** Packing and unpacking a shard restores every score that is at least its K-th largest,
      with any number of ties, and turns the others into negative infinity. */
  lemma ShardRoundTrip(x: seq<Score>, values: seq<Score>, indices: seq<nat>)
    requires IsTopK(x, K, values, indices)
    ensures WellFormed(PacketOf(x, values, indices), |x|)
    ensures Restored(PacketOf(x, values, indices), |x|) == AtLeastKth(x, values[K - 1])
  {
    PacketIsWellFormed(x, values, indices);
    var p := PacketOf(x, values, indices);
    forall i | 0 <= i < |x| ensures Restored(p, |x|)[i] == AtLeastKth(x, values[K - 1])[i] {
      RestoredAt(x, values, indices, i);
    }
  }

  lemma RestoredAt(x: seq<Score>, values: seq<Score>, indices: seq<nat>, i: nat)
    requires IsTopK(x, K, values, indices) && i < |x| && WellFormed(PacketOf(x, values, indices), |x|)
    ensures Restored(PacketOf(x, values, indices), |x|)[i] == if Below(x[i], values[K - 1]) then NegInf else x[i]
  {
    var p := PacketOf(x, values, indices);
    TopWritten(p, |x|, Ties(p, |x|), K, i);
    TiesAreExact(x, values, indices, i);
    if i in indices {
      var j: nat :| j < K && indices[j] == i;
      assert TopIndex(p, |x|, j) == i;
      assert j < K - 1 ==> !Below(values[j], values[K - 1]);
    } else {
      forall j: nat | j < K ensures TopIndex(p, |x|, j) != i {
        assert indices[j] in indices;
      }
    }
  }

  // ---- the global filter is unchanged ----

  /** Both shards as the other side restores them. */
  ghost predicate Transported(x0: seq<Score>, x1: seq<Score>, y: seq<Score>) {
    exists v0, i0, v1, i1 ::
      && IsTopK(x0, K, v0, i0) && IsTopK(x1, K, v1, i1)
      && y == AtLeastKth(x0, v0[K - 1]) + AtLeastKth(x1, v1[K - 1])
  }

  ghost function SortedScores(x: seq<Score>): (e: seq<Entry>)
    ensures |e| == |x| && Ordered(e) && IdsDistinct(e)
    ensures forall i :: 0 <= i < |e| ==> e[i].id < |x|
    ensures forall e': Entry :: e' in e <==> e'.id < |x| && x[e'.id] == e'.score
  {
    var e := StableSort(false, Entries(x, 0));
    SortedIds(x);
    forall e': Entry | e' in e ensures e'.id < |x| && x[e'.id] == e'.score {
      var i :| 0 <= i < |e| && e[i] == e';
    }
    forall e': Entry | e'.id < |x| && x[e'.id] == e'.score ensures e' in e {
      assert e' == Entry(x[e'.id], e'.id);
    }
    OrderedHasDistinctIds(x, e);
    e
  }

  lemma OrderedHasDistinctIds(x: seq<Score>, e: seq<Entry>)
    requires Ordered(e) && forall i :: 0 <= i < |e| ==> e[i].id < |x| && x[e[i].id] == e[i].score
    ensures IdsDistinct(e)
  {
    forall i, j | 0 <= i < j < |e| ensures e[i].id != e[j].id {
      assert Before(e[i], e[j]);
    }
  }

  /** Both ranks' rows packed, gathered and unpacked. */
  method Exchange(x0: seq<Score>, v0: seq<Score>, i0: seq<nat>, x1: seq<Score>, v1: seq<Score>, i1: seq<nat>)
      returns (y: array<Score>)
    requires |x0| == |x1| && IsTopK(x0, K, v0, i0) && IsTopK(x1, K, v1, i1)
    ensures fresh(y) && Transported(x0, x1, y[..])
    ensures y.Length == |x0| + |x1| && IsTop(x0, 20, y[..|x0|]) && IsTop(x1, 20, y[|x0|..])
  {
    var p0 := PackTies(x0, v0, i0);
    var p1 := PackTies(x1, v1, i1);
    ShardRoundTrip(x0, v0, i0);
    ShardRoundTrip(x1, v1, i1);
    y := UnpackTopk(p0[..], p1[..], |x0|);
    ArrivesAsTop(x0, x1, y[..]);
  }

  /** `K` scores of the whole reach a shard's K-th largest. */
  lemma ShardReaches(x: seq<Score>, offset: nat, shard: seq<Score>, values: seq<Score>, indices: seq<nat>)
    requires offset + |shard| <= |x| && x[offset..offset + |shard|] == shard && IsTopK(shard, K, values, indices)
    ensures |Reaching(x, values[K - 1])| >= K
  {
    var shifted := seq(K, j requires 0 <= j < K => offset + indices[j]);
    DistinctSize(shifted);
    forall j | 0 <= j < K ensures shifted[j] in Reaching(x, values[K - 1]) {
      assert x[offset..offset + |shard|][indices[j]] == x[offset + indices[j]];
      assert j < K - 1 ==> !Below(values[j], values[K - 1]);
    }
    SubsetSize(Members(shifted), Reaching(x, values[K - 1]));
  }

  /** A score that `k` others reach lies at or below the k-th largest. */
  lemma KthReaches(x: seq<Score>, k: nat, t: Score)
    requires 1 <= k <= |x| && |Reaching(x, t)| >= k
    ensures !Below(KthScore(SortedScores(x), k), t)
  {
    SortIsSorted(x);
    ManyReachIff(x, SortedScores(x), k, t);
  }

  /** Above both shards' thresholds, nothing changed. */
  lemma TransportKeepsTop(x0: seq<Score>, x1: seq<Score>, t0: Score, t1: Score, t: Score)
    requires !Below(t, t0) && !Below(t, t1)
    ensures SameTop(SortedScores(AtLeastKth(x0, t0) + AtLeastKth(x1, t1)), SortedScores(x0 + x1), t)
  {
    var x, y := x0 + x1, AtLeastKth(x0, t0) + AtLeastKth(x1, t1);
    forall e: Entry | !Below(e.score, t) ensures e in SortedScores(y) <==> e in SortedScores(x) {
      if e.id < |x| {
        assert y[e.id] == x[e.id] || (y[e.id] == NegInf && Below(x[e.id], t));
        assert y[e.id] == x[e.id] || y[e.id] != e.score || t == NegInf;
      }
    }
  }

  lemma KthAboveThresholds(x0: seq<Score>, x1: seq<Score>, v0: seq<Score>, i0: seq<nat>, v1: seq<Score>, i1: seq<nat>, k: nat)
    requires IsTopK(x0, K, v0, i0) && IsTopK(x1, K, v1, i1) && 1 <= k <= K
    ensures !Below(KthScore(SortedScores(x0 + x1), k), v0[K - 1])
    ensures !Below(KthScore(SortedScores(x0 + x1), k), v1[K - 1])
  {
    var x := x0 + x1;
    assert x[0..|x0|] == x0 && x[|x0|..|x0| + |x1|] == x1;
    ShardReaches(x, 0, x0, v0, i0);
    ShardReaches(x, |x0|, x1, v1, i1);
    KthReaches(x, k, v0[K - 1]);
    KthReaches(x, k, v1[K - 1]);
  }

  lemma SameKthLargest(x: seq<Score>, y: seq<Score>, k: nat)
    requires 1 <= k <= |x| && k <= |y| && KthScore(SortedScores(y), k) == KthScore(SortedScores(x), k)
    ensures forall t :: IsKth(y, k, t) <==> IsKth(x, k, t)
  {
    forall t ensures IsKth(y, k, t) <==> IsKth(x, k, t) {
      KthIs(x, k, t);
      KthIs(y, k, t);
    }
  }

  lemma SameKthOnTop(x0: seq<Score>, x1: seq<Score>, y: seq<Score>, k: nat) returns (t: Score)
    requires Transported(x0, x1, y) && 1 <= k <= K
    ensures |y| == |x0 + x1| >= K && SameTop(SortedScores(y), SortedScores(x0 + x1), t)
    ensures KthScore(SortedScores(y), k) == KthScore(SortedScores(x0 + x1), k) == t
  {
    var v0, i0, v1, i1 :| IsTopK(x0, K, v0, i0) && IsTopK(x1, K, v1, i1)
                          && y == AtLeastKth(x0, v0[K - 1]) + AtLeastKth(x1, v1[K - 1]);
    t := KthScore(SortedScores(x0 + x1), k);
    KthAboveThresholds(x0, x1, v0, i0, v1, i1, k);
    TransportKeepsTop(x0, x1, v0[K - 1], v1[K - 1], t);
    SameKthBack(SortedScores(y), SortedScores(x0 + x1), k, t);
  }

  /** For every `k` up to `K`, the k-th largest score is unchanged, and unless it is NaN so is the
      result of the sampler's filter, for every softmax and cumulative sum. */
  lemma TransportIsLossless(x0: seq<Score>, x1: seq<Score>, y: seq<Score>, k: nat, drops: seq<Score> -> seq<bool>)
    requires Transported(x0, x1, y) && 1 <= k <= K && KeepsLength(drops)
    ensures |y| == |x0 + x1| >= K
    ensures KthScore(SortedScores(y), k) == KthScore(SortedScores(x0 + x1), k)
    ensures forall t :: IsKth(y, k, t) <==> IsKth(x0 + x1, k, t)
    ensures !IsKth(x0 + x1, k, NaN) ==> FullFilter(y, k, drops) == FullFilter(x0 + x1, k, drops)
  {
    var t := SameKthOnTop(x0, x1, y, k);
    SameKthLargest(x0 + x1, y, k);
    KthIs(x0 + x1, k, NaN);
    if !t.NaN? {
      SameTopFilters(|x0 + x1|, SortedScores(y), SortedScores(x0 + x1), k, t, drops);
    }
  }

  lemma ShardArrives(x: seq<Score>, values: seq<Score>, indices: seq<nat>)
    requires IsTopK(x, K, values, indices)
    ensures IsTop(x, 20, AtLeastKth(x, values[K - 1]))
  {
    forall q | 0 <= q < |x| ensures Below(x[q], values[K - 1]) <==> |Higher(x, x[q])| >= K {
      BeatenIff(x, values, indices, x[q]);
    }
  }

  /** What arrives of a shard are the scores with fewer than 20 higher ones in it. */
  lemma ArrivesAsTop(x0: seq<Score>, x1: seq<Score>, y: seq<Score>)
    requires Transported(x0, x1, y)
    ensures |y| == |x0| + |x1| && IsTop(x0, 20, y[..|x0|]) && IsTop(x1, 20, y[|x0|..])
  {
    var v0, i0, v1, i1 :| IsTopK(x0, K, v0, i0) && IsTopK(x1, K, v1, i1)
                          && y == AtLeastKth(x0, v0[K - 1]) + AtLeastKth(x1, v1[K - 1]);
    ShardArrives(x0, v0, i0);
    ShardArrives(x1, v1, i1);
    assert y[..|x0|] == AtLeastKth(x0, v0[K - 1]) && y[|x0|..] == AtLeastKth(x1, v1[K - 1]);
  }

  ghost predicate SameFilter(x: seq<Score>, y: seq<Score>, k: nat, drops: seq<Score> -> seq<bool>)
    requires 1 <= k <= |x| == |y|
  {
    KeepsLength(drops) ==> FullFilter(y, k, drops) == FullFilter(x, k, drops)
  }

  /** No score above negative infinity is beaten by `K` others of its shard. */
  ghost predicate NoneBeaten(x: seq<Score>) {
    forall i :: 0 <= i < |x| && x[i] != NegInf ==> |Higher(x, x[i])| < K
  }

  lemma BeatenIff(x: seq<Score>, values: seq<Score>, indices: seq<nat>, s: Score)
    requires IsTopK(x, K, values, indices)
    ensures Below(s, values[K - 1]) <==> |Higher(x, s)| >= K
  {
    if Below(s, values[K - 1]) {
      DistinctSize(indices);
      forall j | 0 <= j < K ensures indices[j] in Higher(x, s) {
        assert j < K - 1 ==> !Below(values[j], values[K - 1]);
      }
      SubsetSize(Members(indices), Higher(x, s));
    } else {
      forall q | q in Higher(x, s) ensures q in indices[..K - 1] {
        assert q in indices;
        var j :| 0 <= j < K && indices[j] == q;
        assert j < K - 1 && indices[..K - 1][j] == q;
      }
      DistinctSize(indices[..K - 1]);
      SubsetSize(Higher(x, s), Members(indices[..K - 1]));
    }
  }

  lemma ShardUnchangedIff(x: seq<Score>, values: seq<Score>, indices: seq<nat>)
    requires IsTopK(x, K, values, indices)
    ensures AtLeastKth(x, values[K - 1]) == x <==> NoneBeaten(x)
  {
    var y := AtLeastKth(x, values[K - 1]);
    forall i | 0 <= i < |x| ensures y[i] == x[i] <==> x[i] == NegInf || |Higher(x, x[i])| < K {
      BeatenIff(x, values, indices, x[i]);
    }
    if y == x {
      assert forall i :: 0 <= i < |x| ==> y[i] == x[i];
    }
  }

  /** What arrives is what was sent exactly when no score is beaten by `K` others of its shard. */
  lemma UnchangedIff(x0: seq<Score>, x1: seq<Score>, y: seq<Score>)
    requires Transported(x0, x1, y)
    ensures y == x0 + x1 <==> NoneBeaten(x0) && NoneBeaten(x1)
  {
    var v0, i0, v1, i1 :| IsTopK(x0, K, v0, i0) && IsTopK(x1, K, v1, i1)
                          && y == AtLeastKth(x0, v0[K - 1]) + AtLeastKth(x1, v1[K - 1]);
    ShardUnchangedIff(x0, v0, i0);
    ShardUnchangedIff(x1, v1, i1);
    if y == x0 + x1 {
      assert y[..|x0|] == x0 && y[|x0|..] == x1;
    }
  }

  /** With `k` NaN scores the filter masks nothing, so it sees the transport exactly when some score
      above negative infinity is beaten by `K` others of its shard. */
  lemma LosslessIff(x0: seq<Score>, x1: seq<Score>, y: seq<Score>, k: nat)
    requires Transported(x0, x1, y) && 1 <= k <= K && |y| == |x0 + x1| >= K
    ensures (forall drops: seq<Score> -> seq<bool> :: SameFilter(x0 + x1, y, k, drops))
            <==> (!IsKth(x0 + x1, k, NaN) || (NoneBeaten(x0) && NoneBeaten(x1)))
  {
    UnchangedIff(x0, x1, y);
    if !IsKth(x0 + x1, k, NaN) {
      forall drops: seq<Score> -> seq<bool> ensures SameFilter(x0 + x1, y, k, drops) {
        if KeepsLength(drops) {
          TransportIsLossless(x0, x1, y, k, drops);
        }
      }
    } else if y != x0 + x1 {
      LossByNaN(x0, x1, y, k);
    }
  }

  lemma LossByNaN(x0: seq<Score>, x1: seq<Score>, y: seq<Score>, k: nat)
    requires Transported(x0, x1, y) && 1 <= k <= K && |y| == |x0 + x1| >= K && IsKth(x0 + x1, k, NaN) && y != x0 + x1
    ensures !SameFilter(x0 + x1, y, k, KeepAll())
  {
    KthIs(x0 + x1, k, NaN);
    TransportIsLossless(x0, x1, y, k, KeepAll());
    LossShows(x0 + x1, y, k);
  }

  function ManyNaNs(): (x: seq<Score>)
    ensures |x| == K + 1 && x[K] == Fin(0.0) && forall i :: 0 <= i < K ==> x[i] == NaN
  {
    seq(K + 1, i => if i < K then NaN else Fin(0.0))
  }

  lemma TopOfNaNs() returns (values: seq<Score>, indices: seq<nat>)
    ensures IsTopK(ManyNaNs(), K, values, indices) && values[K - 1] == NaN
  {
    values, indices := seq(K, _ => NaN), seq(K, i requires 0 <= i < K => i);
  }

  lemma NaNsDecide(x0: seq<Score>, x1: seq<Score>, v0: seq<Score>, i0: seq<nat>, k: nat)
    requires IsTopK(x0, K, v0, i0) && v0[K - 1] == NaN && 1 <= k <= K
    ensures KthScore(SortedScores(x0 + x1), k).NaN?
  {
    assert (x0 + x1)[0..|x0|] == x0;
    ShardReaches(x0 + x1, 0, x0, v0, i0);
    KthReaches(x0 + x1, k, NaN);
  }

  lemma ZeroIsLost(x1: seq<Score>, rest: seq<Score>)
    ensures AtLeastKth(ManyNaNs(), NaN) + rest != ManyNaNs() + x1
  {
    assert (AtLeastKth(ManyNaNs(), NaN) + rest)[K] == NegInf && (ManyNaNs() + x1)[K] == Fin(0.0);
  }

  /** A failing input: a shard of `K` NaN scores and a zero, next to any shard; the zero is lost. */
  lemma NaNsHideALoss(x1: seq<Score>, v1: seq<Score>, i1: seq<nat>, k: nat) returns (y: seq<Score>)
    requires IsTopK(x1, K, v1, i1) && 1 <= k <= K
    ensures Transported(ManyNaNs(), x1, y) && |y| == |ManyNaNs() + x1|
    ensures !SameFilter(ManyNaNs() + x1, y, k, KeepAll())
  {
    var x0 := ManyNaNs();
    var v0, i0 := TopOfNaNs();
    y := AtLeastKth(x0, v0[K - 1]) + AtLeastKth(x1, v1[K - 1]);
    NaNsDecide(x0, x1, v0, i0, k);
    TransportIsLossless(x0, x1, y, k, KeepAll());
    ZeroIsLost(x1, AtLeastKth(x1, v1[K - 1]));
    LossShows(x0 + x1, y, k);
  }

  lemma LossShows(x: seq<Score>, y: seq<Score>, k: nat)
    requires 1 <= k <= |x| == |y| && x != y
    requires KthScore(SortedScores(x), k).NaN? && KthScore(SortedScores(y), k).NaN?
    ensures !SameFilter(x, y, k, KeepAll())
  {
    NothingMasked(x, k);
    NothingMasked(y, k);
  }

  ghost function KeepAll(): (drops: seq<Score> -> seq<bool>)
    ensures KeepsLength(drops) && forall v :: drops(v) == seq(|v|, _ => false)
  {
    v => seq(|v|, _ => false)
  }

  lemma NothingDropped(n: nat, m: seq<Score>)
    requires |m| == n
    ensures Kept(n, m, KeepAll()) == m
  {
    assert Blank(0) + m == m;
  }

  lemma {:induction false} ScatteredBack(x: seq<Score>, e: seq<Entry>, m: seq<Score>)
    requires |e| == |m| == |x| && IdsDistinct(e) && (forall i :: 0 <= i < |e| ==> e[i].id < |x|)
    requires forall q: nat :: q < |x| ==> Entry(x[q], q) in e
    requires forall i :: 0 <= i < |e| ==> m[i] == e[i].score
    ensures Scatter(|x|, e, m) == x
  {
    ScatterAt(|x|, e, m);
    forall q: nat | q < |x| ensures Scatter(|x|, e, m)[q] == x[q] {
      assert Entry(x[q], q) in e;
      var i :| 0 <= i < |e| && e[i] == Entry(x[q], q);
    }
  }

  lemma NothingMasked(x: seq<Score>, k: nat)
    requires 1 <= k <= |x| && KthScore(SortedScores(x), k).NaN?
    ensures FullFilter(x, k, KeepAll()) == x
  {
    var e := SortedScores(x);
    var m := Masked(e, KthScore(e, k));
    NothingDropped(|x|, m);
    ScatteredBack(x, e, m);
  }
}
