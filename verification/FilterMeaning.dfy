/** What the sampler's filter keeps, told by counting scores instead of sorting them. */
module FilterMeaning {
  import opened Scores

  /** The positions with a higher score; NaN is higher than all others. */
  ghost function Higher(x: seq<Score>, v: Score): set<nat> {
    set i: nat | i < |x| && Below(v, x[i])
  }

  /** The positions that come before `q` in ascending order, equal scores in order of position. */
  ghost function Lower(x: seq<Score>, q: nat): set<nat>
    requires q < |x|
  {
    set r: nat | r < |x| && (Below(x[r], x[q]) || (x[r] == x[q] && r < q))
  }

  /** The place of `q` in that order. */
  ghost function Place(x: seq<Score>, q: nat): nat
    requires q < |x|
  {
    |Lower(x, q)|
  }

  /** The k-th largest score: fewer than `k` scores are higher, and `k` or more reach it. */
  ghost predicate IsKth(x: seq<Score>, k: nat, t: Score) {
    t in x && |Higher(x, t)| < k <= |Reaching(x, t)|
  }

  /** The scores with fewer than `k` higher ones, everything else blanked. */
  ghost predicate IsTop(x: seq<Score>, k: nat, m: seq<Score>) {
    |m| == |x| && forall q :: 0 <= q < |x| ==> m[q] == if |Higher(x, x[q])| < k then x[q] else NegInf
  }

  /** The vector `m` in the ascending order of the scores `x`. */
  ghost predicate InOrder(x: seq<Score>, m: seq<Score>, d: seq<Score>)
    requires |m| == |x|
  {
    |d| == |x| && forall q :: 0 <= q < |x| ==> Place(x, q) < |d| && d[Place(x, q)] == m[q]
  }

  /** The top `k` scores without those whose place in the ascending vector is marked; the highest
      place is never taken out. */
  ghost predicate IsFiltered(x: seq<Score>, k: nat, drops: seq<Score> -> seq<bool>, out: seq<Score>)
    requires KeepsLength(drops)
  {
    |out| == |x| && exists m, d :: IsTop(x, k, m) && InOrder(x, m, d) && TakesOut(x, m, d, drops(d), out)
  }

  ghost predicate TakesOut(x: seq<Score>, m: seq<Score>, d: seq<Score>, marked: seq<bool>, out: seq<Score>)
    requires |m| == |x| == |out| && InOrder(x, m, d)
  {
    |marked| == |d| && forall q :: 0 <= q < |x| ==>
      out[q] == if marked[Place(x, q)] && Place(x, q) != |x| - 1 then NegInf else m[q]
  }

  // ---- sorting and counting ----

  function IdsOf(e: seq<Entry>): (ids: seq<nat>)
    ensures |ids| == |e| && forall i :: 0 <= i < |e| ==> ids[i] == e[i].id
  {
    seq(|e|, i requires 0 <= i < |e| => e[i].id)
  }

  /** The sorted entries of the scores `x`, each once. */
  ghost predicate IsSorted(x: seq<Score>, e: seq<Entry>) {
    && Ordered(e) && IdsDistinct(e) && |e| == |x|
    && (forall i :: 0 <= i < |e| ==> e[i].id < |x| && x[e[i].id] == e[i].score)
    && (forall q :: 0 <= q < |x| ==> Entry(x[q], q) in e)
  }

  lemma SortIsSorted(x: seq<Score>)
    ensures IsSorted(x, StableSort(false, Entries(x, 0)))
  {
    var e := StableSort(false, Entries(x, 0));
    SortedIds(x);
    forall i, j | 0 <= i < j < |e| ensures e[i].id != e[j].id {
      assert Before(e[i], e[j]);
    }
  }

  /** Sorted entries from index `i` on, or before it, are counted by their ids. */
  lemma CountIds(e: seq<Entry>, ids: set<nat>)
    requires IdsDistinct(e) && forall q: nat :: q in ids <==> q in IdsOf(e)
    ensures |ids| == |e|
  {
    DistinctSize(IdsOf(e));
    assert ids == Members(IdsOf(e));
  }

  lemma HigherIsTail(x: seq<Score>, e: seq<Entry>, from: nat, v: Score)
    requires IsSorted(x, e) && from <= |e|
    requires forall i :: 0 <= i < |e| ==> (Below(v, e[i].score) <==> from <= i)
    ensures |Higher(x, v)| == |e| - from
  {
    var tail := e[from..];
    forall q: nat ensures q in Higher(x, v) <==> q in IdsOf(tail) {
      if q in Higher(x, v) {
        var i :| 0 <= i < |e| && e[i] == Entry(x[q], q);
        assert IdsOf(tail)[i - from] == q;
      }
      if q in IdsOf(tail) {
        var j :| 0 <= j < |tail| && IdsOf(tail)[j] == q;
        assert e[from + j].id == q;
      }
    }
    CountIds(tail, Higher(x, v));
  }

  lemma ReachingIsTail(x: seq<Score>, e: seq<Entry>, from: nat, v: Score)
    requires IsSorted(x, e) && from <= |e|
    requires forall i :: 0 <= i < |e| ==> (!Below(e[i].score, v) <==> from <= i)
    ensures |Reaching(x, v)| == |e| - from
  {
    var tail := e[from..];
    forall q: nat ensures q in Reaching(x, v) <==> q in IdsOf(tail) {
      if q in Reaching(x, v) {
        var i :| 0 <= i < |e| && e[i] == Entry(x[q], q);
        assert IdsOf(tail)[i - from] == q;
      }
      if q in IdsOf(tail) {
        var j :| 0 <= j < |tail| && IdsOf(tail)[j] == q;
        assert e[from + j].id == q;
      }
    }
    CountIds(tail, Reaching(x, v));
  }

  /** An entry's index in the sorted list is its place. */
  lemma IndexIsPlace(x: seq<Score>, e: seq<Entry>, i: nat)
    requires IsSorted(x, e) && i < |e|
    ensures Place(x, e[i].id) == i
  {
    var front, q := e[..i], e[i].id;
    forall r: nat ensures r in Lower(x, q) <==> r in IdsOf(front) {
      if r in Lower(x, q) {
        var j :| 0 <= j < |e| && e[j] == Entry(x[r], r);
        assert Before(e[j], e[i]);
        assert j < i ==> IdsOf(front)[j] == r;
      }
      if r in IdsOf(front) {
        var j :| 0 <= j < |front| && IdsOf(front)[j] == r;
        assert e[j].id == r && Before(e[j], e[i]);
      }
    }
    CountIds(front, Lower(x, q));
  }

  /** The first index whose score beats, or reaches, `v`. */
  lemma {:induction false} FirstHigher(e: seq<Entry>, v: Score) returns (from: nat)
    requires Ordered(e)
    ensures from <= |e| && forall i :: 0 <= i < |e| ==> (Below(v, e[i].score) <==> from <= i)
  {
    from := |e|;
    while from > 0 && Below(v, e[from - 1].score)
      invariant from <= |e| && forall i :: from <= i < |e| ==> Below(v, e[i].score)
    {
      from := from - 1;
    }
    if from > 0 {
      forall i | 0 <= i < from ensures !Below(v, e[i].score) {
        assert i < from - 1 ==> Before(e[i], e[from - 1]);
      }
    }
  }

  lemma {:induction false} FirstReaching(e: seq<Entry>, v: Score) returns (from: nat)
    requires Ordered(e)
    ensures from <= |e| && forall i :: 0 <= i < |e| ==> (!Below(e[i].score, v) <==> from <= i)
  {
    from := |e|;
    while from > 0 && !Below(e[from - 1].score, v)
      invariant from <= |e| && forall i :: from <= i < |e| ==> !Below(e[i].score, v)
    {
      from := from - 1;
    }
    if from > 0 {
      forall i | 0 <= i < from ensures Below(e[i].score, v) {
        assert i < from - 1 ==> Before(e[i], e[from - 1]);
      }
    }
  }

  /** A score has fewer than `k` higher ones exactly when it reaches the entry `k` from the end. */
  lemma FewHigherIff(x: seq<Score>, e: seq<Entry>, k: nat, v: Score)
    requires IsSorted(x, e) && 1 <= k <= |e|
    ensures |Higher(x, v)| < k <==> !Below(v, e[|e| - k].score)
  {
    var from := FirstHigher(e, v);
    HigherIsTail(x, e, from, v);
  }

  lemma ManyReachIff(x: seq<Score>, e: seq<Entry>, k: nat, v: Score)
    requires IsSorted(x, e) && 1 <= k <= |e|
    ensures k <= |Reaching(x, v)| <==> !Below(e[|e| - k].score, v)
  {
    var from := FirstReaching(e, v);
    ReachingIsTail(x, e, from, v);
  }

  /** The score at distance `k` from the end of the sorted scores is the k-th largest, and no other
      score is. */
  lemma KthIs(x: seq<Score>, k: nat, t: Score)
    requires 1 <= k <= |x|
    ensures IsKth(x, k, t) <==> t == KthScore(StableSort(false, Entries(x, 0)), k)
  {
    var e := StableSort(false, Entries(x, 0));
    SortIsSorted(x);
    FewHigherIff(x, e, k, t);
    ManyReachIff(x, e, k, t);
    assert e[|e| - k].score == x[e[|e| - k].id];
  }

  // ---- the filter ----

  /** The masked scores in vocabulary order. */
  ghost function TopOf(x: seq<Score>, k: nat): (m: seq<Score>)
    ensures IsTop(x, k, m)
  {
    seq(|x|, q requires 0 <= q < |x| => if |Higher(x, x[q])| < k then x[q] else NegInf)
  }

  lemma MaskedIsTop(x: seq<Score>, e: seq<Entry>, k: nat, i: nat)
    requires IsSorted(x, e) && 1 <= k <= |e| && i < |e| && !KthScore(e, k).NaN?
    ensures Masked(e, KthScore(e, k))[i] == TopOf(x, k)[e[i].id]
  {
    FewHigherIff(x, e, k, e[i].score);
  }

  lemma MaskedInOrder(x: seq<Score>, e: seq<Entry>, k: nat)
    requires IsSorted(x, e) && 1 <= k <= |e| && !KthScore(e, k).NaN?
    ensures InOrder(x, TopOf(x, k), Masked(e, KthScore(e, k)))
  {
    forall q: nat | q < |x|
      ensures Place(x, q) < |e| && Masked(e, KthScore(e, k))[Place(x, q)] == TopOf(x, k)[q]
    {
      var i :| 0 <= i < |e| && e[i] == Entry(x[q], q);
      IndexIsPlace(x, e, i);
      MaskedIsTop(x, e, k, i);
    }
  }

  lemma WholeKept(n: nat, m: seq<Score>, drops: seq<Score> -> seq<bool>)
    requires |m| == n && KeepsLength(drops)
    ensures Kept(n, m, drops) == Dropped(m, drops(m))
  {
    assert Blank(0) + m == m && drops(m)[0..] == drops(m);
  }

  lemma ScatteredOut(x: seq<Score>, e: seq<Entry>, m: seq<Score>, d: seq<Score>, marked: seq<bool>, out: seq<Score>)
    requires IsSorted(x, e) && |m| == |x| == |out| == |marked| && InOrder(x, m, d)
    requires out == Scatter(|x|, e, Dropped(d, marked))
    ensures TakesOut(x, m, d, marked, out)
  {
    ScatterAt(|x|, e, Dropped(d, marked));
    forall q: nat | q < |x|
      ensures out[q] == if marked[Place(x, q)] && Place(x, q) != |x| - 1 then NegInf else m[q]
    {
      var i :| 0 <= i < |e| && e[i] == Entry(x[q], q);
      IndexIsPlace(x, e, i);
    }
  }

  /** The filter on the whole vocabulary keeps what it should, as long as the k-th score is one. */
  lemma FullFilterIs(x: seq<Score>, k: nat, drops: seq<Score> -> seq<bool>)
    requires 1 <= k <= |x| && KeepsLength(drops) && !IsKth(x, k, NaN)
    ensures IsFiltered(x, k, drops, FullFilter(x, k, drops))
  {
    var e := StableSort(false, Entries(x, 0));
    SortIsSorted(x);
    KthIs(x, k, NaN);
    var m, d := TopOf(x, k), Masked(e, KthScore(e, k));
    MaskedInOrder(x, e, k);
    WholeKept(|x|, d, drops);
    ScatteredOut(x, e, m, d, drops(d), FullFilter(x, k, drops));
  }

  /** Where nothing is marked, exactly the scores with fewer than `k` higher ones are kept. */
  lemma NothingMarked(x: seq<Score>, k: nat, drops: seq<Score> -> seq<bool>, out: seq<Score>)
    requires KeepsLength(drops) && IsFiltered(x, k, drops, out)
    requires forall v, i :: 0 <= i < |v| ==> !drops(v)[i]
    ensures forall q :: 0 <= q < |x| ==> out[q] == if |Higher(x, x[q])| < k then x[q] else NegInf
  {
    var m, d :| IsTop(x, k, m) && InOrder(x, m, d) && TakesOut(x, m, d, drops(d), out);
  }

  /** Places are the indices of the vector, each taken once. */
  lemma PlacesAreIndices(x: seq<Score>, p: nat)
    requires p < |x|
    ensures exists q: nat :: q < |x| && Place(x, q) == p
    ensures forall q: nat, r: nat :: q < r < |x| ==> Place(x, q) != Place(x, r)
    ensures forall q: nat :: q < |x| ==> Place(x, q) < |x|
  {
    var e := StableSort(false, Entries(x, 0));
    SortIsSorted(x);
    IndexIsPlace(x, e, p);
    forall q: nat | q < |x| ensures Place(x, q) < |x| && e[Place(x, q)].id == q {
      var i :| 0 <= i < |e| && e[i] == Entry(x[q], q);
      IndexIsPlace(x, e, i);
    }
  }
}
