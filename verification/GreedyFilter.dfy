/** Greedy verification from one pair per shard: its first maximum and that maximum's id. */
module GreedyFilter {
  import opened Options
  import opened Scores
  import opened CompactFilter

  /** The first position of the highest score. */
  ghost predicate IsFirstMax(x: seq<Score>, m: nat) {
    && m < |x|
    && (forall i :: 0 <= i < |x| ==> !Below(x[m], x[i]))
    && (forall i :: 0 <= i < m ==> x[i] != x[m])
  }

  /** A shard's message: the maximum, and its id as a floating-point number. */
  datatype Pair = Pair(value: Score, id: Score)

  method PackGreedy(x: seq<Score>, offset: nat) returns (p: Pair)
    requires x != []
    ensures SentMax(x, offset, p)
  {
    var m: nat := 0;
    for i := 1 to |x|
      invariant m < i && (forall j :: 0 <= j < i ==> !Below(x[m], x[j])) && (forall j :: 0 <= j < m ==> x[j] != x[m])
    {
      if Below(x[m], x[i]) {
        m := i;
      }
    }
    assert IsFirstMax(x, m);
    p := Pair(x[m], Fin((m + offset) as real));
  }

  ghost predicate SentMax(x: seq<Score>, offset: nat, p: Pair) {
    exists m: nat :: IsFirstMax(x, m) && p == Pair(x[m], Fin((m + offset) as real))
  }

  ghost predicate AllSentMax(shards: seq<seq<Score>>, pairs: seq<Pair>) {
    && |pairs| == |shards| && shards != []
    && forall s :: 0 <= s < |shards| ==> SentMax(shards[s], Offset(shards, s), pairs[s])
  }

  /** Only the winner keeps a score, namely zero. */
  function OneHot(vocab: nat, winner: nat): (r: seq<Score>)
    requires winner < vocab
    ensures |r| == vocab
  {
    Blank(vocab)[winner := Fin(0.0)]
  }

  /** The smallest id among the pairs that carry the maximum. */
  ghost predicate IsWinner(pairs: seq<Pair>, winner: nat) {
    && (exists s :: 0 <= s < |pairs| && Long(pairs[s].id) == winner && IsMaximum(pairs, pairs[s].value))
    && (forall s :: 0 <= s < |pairs| && IsMaximum(pairs, pairs[s].value) ==> winner <= Long(pairs[s].id))
  }

  ghost predicate IsMaximum(pairs: seq<Pair>, v: Score) {
    forall s :: 0 <= s < |pairs| ==> !Below(v, pairs[s].value)
  }

  method Winner(pairs: seq<Pair>, vocab: nat) returns (winner: nat)
    requires pairs != [] && forall s :: 0 <= s < |pairs| ==> Long(pairs[s].id) < vocab
    ensures IsWinner(pairs, winner) && winner < vocab
  {
    var maximum := pairs[0].value;
    ghost var at: nat := 0;
    for s := 1 to |pairs|
      invariant at < s && maximum == pairs[at].value
      invariant forall j :: 0 <= j < s ==> !Below(maximum, pairs[j].value)
    {
      if Below(maximum, pairs[s].value) {
        maximum, at := pairs[s].value, s;
      }
    }
    assert IsMaximum(pairs, pairs[at].value);
    winner := vocab;
    ghost var holder: nat := 0;
    for s := 0 to |pairs|
      invariant winner <= vocab && (at < s ==> winner < vocab)
      invariant winner < vocab ==> holder < s && Long(pairs[holder].id) == winner && pairs[holder].value == maximum
      invariant forall j :: 0 <= j < s && pairs[j].value == maximum ==> winner <= Long(pairs[j].id)
    {
      if pairs[s].value == maximum && Long(pairs[s].id) < winner {
        winner, holder := Long(pairs[s].id), s;
      }
    }
  }

  /** `greedy_filter` for one row; NaN is rejected. */
  method Filter(pairs: seq<Pair>, vocab: nat) returns (output: Option<array<Score>>, ghost winner: nat)
    requires pairs != [] && forall s :: 0 <= s < |pairs| ==> Long(pairs[s].id) < vocab
    ensures output.None? <==> exists s :: 0 <= s < |pairs| && pairs[s].value.NaN?
    ensures output.Some? ==> fresh(output.value) && IsWinner(pairs, winner) && winner < vocab
    ensures output.Some? ==> output.value[..] == OneHot(vocab, winner)
    ensures output.Some? ==> output.value.Length == vocab
    ensures output.Some? ==> forall i :: 0 <= i < vocab ==> output.value[i] == if i == winner then Fin(0.0) else NegInf
  {
    winner := 0;
    for s := 0 to |pairs|
      invariant forall j :: 0 <= j < s ==> !pairs[j].value.NaN?
    {
      if pairs[s].value.NaN? {
        return None, 0;
      }
    }
    var w := Winner(pairs, vocab);
    winner := w;
    var scores := new Score[vocab](_ => NegInf);
    scores[w] := Fin(0.0);
    assert scores[..] == OneHot(vocab, w);
    output := Some(scores);
  }

  // ---- the winner is the argmax of the whole vocabulary ----

  lemma Total(a: Score, b: Score)
    ensures a == b || Below(a, b) || Below(b, a)
  {}

  lemma DropLastPair(shards: seq<seq<Score>>, pairs: seq<Pair>)
    requires AllSentMax(shards, pairs) && 1 < |shards|
    ensures AllSentMax(shards[..|shards| - 1], pairs[..|pairs| - 1])
  {
    var rest := shards[..|shards| - 1];
    forall s | 0 <= s < |rest| ensures SentMax(rest[s], Offset(rest, s), pairs[..|pairs| - 1][s]) {
      assert rest[..s] == shards[..s];
      assert SentMax(shards[s], Offset(shards, s), pairs[s]);
    }
  }

  /** The pair that names position `m`, the first maximum of everything so far. */
  ghost predicate Names(pairs: seq<Pair>, s: nat, full: seq<Score>, m: nat) {
    s < |pairs| && IsFirstMax(full, m) && pairs[s] == Pair(full[m], Fin(m as real))
  }

  lemma JoinMax(x: seq<Score>, y: seq<Score>, a: nat, b: nat)
    requires IsFirstMax(x, a) && IsFirstMax(y, b)
    ensures IsFirstMax(x + y, if Below(x[a], y[b]) then |x| + b else a)
  {
    var m := if Below(x[a], y[b]) then |x| + b else a;
    Total(x[a], y[b]);
    forall i | 0 <= i < |x + y| ensures !Below((x + y)[m], (x + y)[i]) && (i < m ==> (x + y)[i] != (x + y)[m]) {
      if i < |x| {
        assert !Below(x[a], x[i]);
      } else {
        assert !Below(y[b], y[i - |x|]);
      }
    }
  }

  ghost predicate PairOf(full: seq<Score>, p: Pair) {
    Long(p.id) < |full| && full[Long(p.id)] == p.value
  }

  lemma SentPair(x: seq<Score>, before: seq<Score>, p: Pair) returns (b: nat)
    requires SentMax(x, |before|, p)
    ensures IsFirstMax(x, b) && p == Pair(x[b], Fin((b + |before|) as real)) && PairOf(before + x, p)
  {
    b :| IsFirstMax(x, b) && p == Pair(x[b], Fin((b + |before|) as real));
    LongOfId(b + |before|);
  }

  lemma {:induction false} PairsOfVocabulary(shards: seq<seq<Score>>, pairs: seq<Pair>, j: nat)
    requires AllSentMax(shards, pairs) && j < |pairs|
    ensures PairOf(Concat(shards), pairs[j])
  {
    var n := |shards| - 1;
    assert SentMax(shards[n], Offset(shards, n), pairs[n]);
    if j == n {
      var _ := SentPair(shards[n], Concat(shards[..n]), pairs[n]);
    } else {
      DropLastPair(shards, pairs);
      PairsOfVocabulary(shards[..n], pairs[..n], j);
    }
  }

  /** One of the pairs names the first maximum of the vocabulary. */
  lemma {:induction false} SomePairNames(shards: seq<seq<Score>>, pairs: seq<Pair>) returns (s: nat, m: nat)
    requires AllSentMax(shards, pairs)
    ensures Names(pairs, s, Concat(shards), m)
  {
    var n := |shards| - 1;
    var x, y := Concat(shards[..n]), shards[n];
    assert SentMax(y, Offset(shards, n), pairs[n]);
    var b := SentPair(y, x, pairs[n]);
    assert Concat(shards) == x + y;
    if n == 0 {
      s, m := 0, b;
      assert x + y == y;
    } else {
      DropLastPair(shards, pairs);
      s, m := SomePairNames(shards[..n], pairs[..n]);
      s, m := JoinNames(x, y, pairs, s, m, b);
    }
  }

  lemma JoinNames(x: seq<Score>, y: seq<Score>, pairs: seq<Pair>, s: nat, m: nat, b: nat) returns (s': nat, m': nat)
    requires pairs != [] && Names(pairs[..|pairs| - 1], s, x, m)
    requires IsFirstMax(y, b) && pairs[|pairs| - 1] == Pair(y[b], Fin((b + |x|) as real))
    ensures Names(pairs, s', x + y, m')
  {
    JoinMax(x, y, m, b);
    if Below(x[m], y[b]) {
      s', m' := |pairs| - 1, |x| + b;
    } else {
      s', m' := s, m;
    }
  }

  /** The winner is the first position of the highest score of the whole vocabulary, also for
      infinite scores and fully masked shards. */
  lemma GreedyIsArgmax(shards: seq<seq<Score>>, pairs: seq<Pair>, winner: nat)
    requires AllSentMax(shards, pairs) && IsWinner(pairs, winner)
    ensures IsFirstMax(Concat(shards), winner)
  {
    var full := Concat(shards);
    var s, m := SomePairNames(shards, pairs);
    LongOfId(m);
    assert IsMaximum(pairs, pairs[s].value) by {
      forall j | 0 <= j < |pairs| ensures !Below(pairs[s].value, pairs[j].value) {
        PairsOfVocabulary(shards, pairs, j);
      }
    }
    var w: nat :| w < |pairs| && Long(pairs[w].id) == winner && IsMaximum(pairs, pairs[w].value);
    assert !Below(pairs[w].value, pairs[s].value) && !Below(pairs[s].value, pairs[w].value);
    Total(pairs[w].value, pairs[s].value);
    PairsOfVocabulary(shards, pairs, w);
    assert winner <= m && full[winner] == full[m];
  }

  ghost predicate HasNaN(x: seq<Score>) {
    exists q :: 0 <= q < |x| && x[q].NaN?
  }

  /** NaN is rejected exactly when the vocabulary holds one. */
  lemma NaNIsSeen(shards: seq<seq<Score>>, pairs: seq<Pair>)
    requires AllSentMax(shards, pairs)
    ensures (exists s :: 0 <= s < |pairs| && pairs[s].value.NaN?) <==> HasNaN(Concat(shards))
  {
    var full := Concat(shards);
    if HasNaN(full) {
      var q :| 0 <= q < |full| && full[q].NaN?;
      var s, m := SomePairNames(shards, pairs);
      assert !Below(full[m], full[q]);
      assert pairs[s].value.NaN?;
    }
    forall j: nat | j < |pairs| && pairs[j].value.NaN? ensures HasNaN(full) {
      PairsOfVocabulary(shards, pairs, j);
      assert full[Long(pairs[j].id)].NaN?;
    }
  }
}
