/** Vocabulary scores, their stable sort, and the filter the sampler applies to them.

    A score is an abstract floating-point value. Signed zeros are not told apart, softmax and
    cumulative sums are unknown functions. */
module Scores {

  datatype Score = NegInf | Fin(value: real) | PosInf | NaN

  /** Strictly lower in sorting order, where NaN is the highest. */
  predicate Below(a: Score, b: Score) {
    && a != b
    && (a.NegInf? || b.NaN? || (a.Fin? && (b.PosInf? || (b.Fin? && a.value < b.value))))
  }

  /** Negative infinity is below and NaN above everything else, and finite scores compare by value. */
  lemma BelowIs(a: Score, b: Score)
    ensures a.Fin? && b.Fin? ==> (Below(a, b) <==> a.value < b.value)
    ensures Below(NegInf, b) <==> b != NegInf
    ensures Below(a, NaN) <==> a != NaN
    ensures Below(PosInf, b) <==> b.NaN?
    ensures !Below(a, NegInf) && !Below(NaN, b) && (a.Fin? && b.PosInf? ==> Below(a, b))
  {}

  /** The floating-point comparison, false on NaN. */
  predicate Less(a: Score, b: Score) {
    !a.NaN? && !b.NaN? && Below(a, b)
  }

  /** A score with its vocabulary id. */
  datatype Entry = Entry(score: Score, id: nat)

  predicate Before(a: Entry, b: Entry) {
    Below(a.score, b.score) || (a.score == b.score && a.id < b.id)
  }

  predicate Ordered(e: seq<Entry>) {
    forall i, j :: 0 <= i < j < |e| ==> Before(e[i], e[j])
  }

  predicate IdsIncrease(e: seq<Entry>) {
    forall i, j :: 0 <= i < j < |e| ==> e[i].id < e[j].id
  }

  predicate IdsDistinct(e: seq<Entry>) {
    forall i, j :: 0 <= i < j < |e| ==> e[i].id != e[j].id
  }

  function Entries(x: seq<Score>, offset: nat): (e: seq<Entry>)
    ensures |e| == |x| && IdsIncrease(e)
    ensures forall i :: 0 <= i < |x| ==> e[i] == Entry(x[i], offset + i)
  {
    seq(|x|, i requires 0 <= i < |x| => Entry(x[i], offset + i))
  }

  /** What `topk(k, sorted=True)` may return; which of several equal scores it picks is open. */
  ghost predicate IsTopK(x: seq<Score>, k: nat, values: seq<Score>, indices: seq<nat>) {
    && 1 <= k <= |x| && |values| == |indices| == k
    && (forall j :: 0 <= j < k ==> indices[j] < |x| && values[j] == x[indices[j]])
    && (forall i, j :: 0 <= i < j < k ==> indices[i] != indices[j] && !Below(values[i], values[j]))
    && (forall i: nat :: i < |x| && i !in indices ==> !Below(values[k - 1], x[i]))
  }

  /** The positions whose score reaches the threshold. */
  ghost function Reaching(x: seq<Score>, threshold: Score): set<nat> {
    set i: nat | i < |x| && !Below(x[i], threshold)
  }

  ghost function Members(s: seq<nat>): set<nat> {
    set i: nat | i in s
  }

  lemma {:induction false} DistinctSize(s: seq<nat>)
    requires forall i, j :: 0 <= i < j < |s| ==> s[i] != s[j]
    ensures |Members(s)| == |s|
  {
    if s != [] {
      var rest, last := s[..|s| - 1], s[|s| - 1];
      DistinctSize(rest);
      assert Members(s) == Members(rest) + {last};
    }
  }

  lemma SubsetSize(a: set<nat>, b: set<nat>)
    requires a <= b
    ensures |a| <= |b|
  {
    assert b == a + (b - a);
  }

  /** At least `k` scores reach the k-th largest. */
  lemma TopKReaches(x: seq<Score>, k: nat, values: seq<Score>, indices: seq<nat>, t: Score)
    requires IsTopK(x, k, values, indices) && !Below(values[k - 1], t)
    ensures |Reaching(x, t)| >= k
  {
    DistinctSize(indices);
    forall j | 0 <= j < k ensures !Below(values[j], t) {
      assert j < k - 1 ==> !Below(values[j], values[k - 1]);
    }
    SubsetSize(Members(indices), Reaching(x, t));
  }

  /** A score that beats the k-th largest is among the first `k - 1`, of which there are few. */
  lemma TopKCovers(x: seq<Score>, k: nat, values: seq<Score>, indices: seq<nat>, t: Score)
    requires IsTopK(x, k, values, indices) && Below(values[k - 1], t)
    ensures forall i: nat :: i < |x| && !Below(x[i], t) ==> i in indices[..k - 1]
    ensures |Reaching(x, t)| < k
  {
    forall i: nat | i < |x| && !Below(x[i], t) ensures i in indices[..k - 1] {
      assert i in indices;
      var j :| 0 <= j < k && indices[j] == i;
      assert j < k - 1 && indices[..k - 1][j] == i;
    }
    DistinctSize(indices[..k - 1]);
    SubsetSize(Reaching(x, t), Members(indices[..k - 1]));
  }

  // ---- stable sorting ----

  predicate Exceeds(byId: bool, a: Entry, b: Entry) {
    if byId then a.id > b.id else Below(b.score, a.score)
  }

  /** Puts `e` after everything it does not precede. */
  function Insert(byId: bool, sorted: seq<Entry>, e: Entry): (r: seq<Entry>)
    ensures multiset(r) == multiset(sorted) + multiset{e}
  {
    if sorted == [] || !Exceeds(byId, sorted[|sorted| - 1], e) then sorted + [e]
    else
      assert sorted == sorted[..|sorted| - 1] + [sorted[|sorted| - 1]];
      Insert(byId, sorted[..|sorted| - 1], e) + [sorted[|sorted| - 1]]
  }

  /** The stable ascending sort by id or by score. */
  function StableSort(byId: bool, entries: seq<Entry>): (r: seq<Entry>)
    ensures multiset(r) == multiset(entries) && |r| == |entries|
  {
    if entries == [] then []
    else
      assert entries == entries[..|entries| - 1] + [entries[|entries| - 1]];
      var r := Insert(byId, StableSort(byId, entries[..|entries| - 1]), entries[|entries| - 1]);
      assert |multiset(r)| == |multiset(entries)|;
      r
  }

  predicate KeysAscend(byId: bool, e: seq<Entry>) {
    forall i, j :: 0 <= i < j < |e| ==> !Exceeds(byId, e[i], e[j])
  }

  predicate SameKey(byId: bool, a: Entry, b: Entry) {
    if byId then a.id == b.id else a.score == b.score
  }

  function WithKey(byId: bool, key: Entry, e: seq<Entry>): seq<Entry> {
    if e == [] then []
    else WithKey(byId, key, e[..|e| - 1]) + (if SameKey(byId, key, e[|e| - 1]) then [e[|e| - 1]] else [])
  }

  lemma {:induction false} InsertMembers(byId: bool, sorted: seq<Entry>, e: Entry)
    ensures forall a :: a in Insert(byId, sorted, e) <==> a in sorted || a == e
  {
    forall a ensures a in Insert(byId, sorted, e) <==> a in sorted || a == e {
      assert a in Insert(byId, sorted, e) <==> a in multiset(Insert(byId, sorted, e));
      assert a in sorted <==> a in multiset(sorted);
    }
  }

  lemma {:induction false} InsertAscends(byId: bool, sorted: seq<Entry>, e: Entry)
    requires KeysAscend(byId, sorted)
    ensures KeysAscend(byId, Insert(byId, sorted, e))
  {
    if sorted != [] && Exceeds(byId, sorted[|sorted| - 1], e) {
      var rest, last := sorted[..|sorted| - 1], sorted[|sorted| - 1];
      InsertAscends(byId, rest, e);
      InsertMembers(byId, rest, e);
      var r := Insert(byId, rest, e);
      forall i | 0 <= i < |r| ensures !Exceeds(byId, r[i], last) {
        assert r[i] in r;
      }
    }
  }

  lemma WithKeyAppend(byId: bool, key: Entry, s: seq<Entry>, e: Entry)
    ensures WithKey(byId, key, s + [e]) == WithKey(byId, key, s) + (if SameKey(byId, key, e) then [e] else [])
  {
    assert (s + [e])[..|s + [e]| - 1] == s;
  }

  lemma {:induction false} InsertStable(byId: bool, key: Entry, sorted: seq<Entry>, e: Entry)
    ensures WithKey(byId, key, Insert(byId, sorted, e))
            == WithKey(byId, key, sorted) + (if SameKey(byId, key, e) then [e] else [])
  {
    if sorted == [] || !Exceeds(byId, sorted[|sorted| - 1], e) {
      WithKeyAppend(byId, key, sorted, e);
    } else {
      var rest, last := sorted[..|sorted| - 1], sorted[|sorted| - 1];
      InsertStable(byId, key, rest, e);
      WithKeyAppend(byId, key, Insert(byId, rest, e), last);
      var w := WithKey(byId, key, rest);
      assert w + [] == w;
      if SameKey(byId, key, last) {
        assert !SameKey(byId, key, e);
        assert (w + [last]) + [] == w + [last];
      } else if SameKey(byId, key, e) {
        assert (w + [e]) + [] == w + [e];
      }
    }
  }

  /** `StableSort` sorts, and entries with equal keys keep their order. */
  lemma {:induction false} StableSortIsStable(byId: bool, key: Entry, entries: seq<Entry>)
    ensures KeysAscend(byId, StableSort(byId, entries))
    ensures WithKey(byId, key, StableSort(byId, entries)) == WithKey(byId, key, entries)
  {
    if entries != [] {
      var rest := entries[..|entries| - 1];
      StableSortIsStable(byId, key, rest);
      InsertAscends(byId, StableSort(byId, rest), entries[|entries| - 1]);
      InsertStable(byId, key, StableSort(byId, rest), entries[|entries| - 1]);
    }
  }

  lemma SortMembers(byId: bool, entries: seq<Entry>)
    ensures forall a :: a in StableSort(byId, entries) <==> a in entries
  {
    forall a ensures a in StableSort(byId, entries) <==> a in entries {
      assert a in StableSort(byId, entries) <==> a in multiset(StableSort(byId, entries));
      assert a in entries <==> a in multiset(entries);
    }
  }

  lemma {:induction false} InsertOrders(sorted: seq<Entry>, e: Entry)
    requires Ordered(sorted) && forall a :: a in sorted ==> a.id < e.id
    ensures Ordered(Insert(false, sorted, e))
  {
    if sorted != [] && Exceeds(false, sorted[|sorted| - 1], e) {
      var rest, last := sorted[..|sorted| - 1], sorted[|sorted| - 1];
      InsertOrders(rest, e);
      InsertMembers(false, rest, e);
      var r := Insert(false, rest, e);
      forall i | 0 <= i < |r| ensures Before(r[i], last) {
        assert r[i] in r;
      }
    } else {
      forall i | 0 <= i < |sorted| ensures Before(sorted[i], e) {
        assert sorted[i] in sorted;
      }
    }
  }

  /** Sorting id-ordered entries by score orders them by score and then by id. */
  lemma {:induction false} ScoreSortOrders(entries: seq<Entry>)
    requires IdsIncrease(entries)
    ensures Ordered(StableSort(false, entries))
  {
    if entries != [] {
      var rest := entries[..|entries| - 1];
      ScoreSortOrders(rest);
      SortMembers(false, rest);
      InsertOrders(StableSort(false, rest), entries[|entries| - 1]);
    }
  }

  lemma {:induction false} InsertIncreases(sorted: seq<Entry>, e: Entry)
    requires IdsIncrease(sorted) && forall a :: a in sorted ==> a.id != e.id
    ensures IdsIncrease(Insert(true, sorted, e))
  {
    if sorted != [] && Exceeds(true, sorted[|sorted| - 1], e) {
      var rest, last := sorted[..|sorted| - 1], sorted[|sorted| - 1];
      InsertIncreases(rest, e);
      InsertMembers(true, rest, e);
      var r := Insert(true, rest, e);
      forall i | 0 <= i < |r| ensures r[i].id < last.id {
        assert r[i] in r;
      }
    } else if sorted != [] {
      assert sorted[|sorted| - 1] in sorted;
    }
  }

  lemma {:induction false} IdSortIncreases(entries: seq<Entry>)
    requires IdsDistinct(entries)
    ensures IdsIncrease(StableSort(true, entries))
  {
    if entries != [] {
      var rest := entries[..|entries| - 1];
      IdSortIncreases(rest);
      SortMembers(true, rest);
      InsertIncreases(StableSort(true, rest), entries[|entries| - 1]);
    }
  }

  // ---- the filter ----

  /** The score at distance `k` from the end of a sorted list. */
  function KthScore(e: seq<Entry>, k: nat): Score
    requires 1 <= k <= |e|
  {
    e[|e| - k].score
  }

  /** Scores below the threshold become negative infinity. */
  function Masked(e: seq<Entry>, threshold: Score): (m: seq<Score>)
    ensures |m| == |e|
    ensures forall i :: 0 <= i < |e| ==> m[i] == if Less(e[i].score, threshold) then NegInf else e[i].score
  {
    seq(|e|, i requires 0 <= i < |e| => if Less(e[i].score, threshold) then NegInf else e[i].score)
  }

  /** The highest score is never dropped. */
  function Dropped(vals: seq<Score>, drop: seq<bool>): (r: seq<Score>)
    requires |vals| == |drop|
    ensures |r| == |vals|
    ensures forall i :: 0 <= i < |vals| ==> r[i] == if drop[i] && i != |vals| - 1 then NegInf else vals[i]
  {
    seq(|vals|, i requires 0 <= i < |vals| => if drop[i] && i != |vals| - 1 then NegInf else vals[i])
  }

  function Blank(n: nat): (r: seq<Score>)
    ensures |r| == n && forall i :: 0 <= i < n ==> r[i] == NegInf
  {
    seq(n, _ => NegInf)
  }

  /** Writes each value at its entry's id, over negative infinity. */
  function Scatter(n: nat, e: seq<Entry>, vals: seq<Score>): (r: seq<Score>)
    requires |e| == |vals| && forall i :: 0 <= i < |e| ==> e[i].id < n
    ensures |r| == n
  {
    if e == [] then Blank(n)
    else Scatter(n, e[..|e| - 1], vals[..|e| - 1])[e[|e| - 1].id := vals[|e| - 1]]
  }

  lemma {:induction false} ScatterAt(n: nat, e: seq<Entry>, vals: seq<Score>)
    requires |e| == |vals| && IdsDistinct(e) && forall i :: 0 <= i < |e| ==> e[i].id < n
    ensures forall i :: 0 <= i < |e| ==> Scatter(n, e, vals)[e[i].id] == vals[i]
    ensures forall q :: 0 <= q < n && (forall i :: 0 <= i < |e| ==> e[i].id != q) ==> Scatter(n, e, vals)[q] == NegInf
  {
    if e != [] {
      ScatterAt(n, e[..|e| - 1], vals[..|e| - 1]);
    }
  }

  /** Softmax, cumulative sum and the top-p comparison, of which only this is known. */
  ghost predicate KeepsLength(drops: seq<Score> -> seq<bool>) {
    forall v: seq<Score> :: |drops(v)| == |v|
  }

  /** Top-p on the vector padded to `n` scores. */
  ghost function Kept(n: nat, m: seq<Score>, drops: seq<Score> -> seq<bool>): (r: seq<Score>)
    requires |m| <= n && KeepsLength(drops)
    ensures |r| == |m|
  {
    Dropped(m, drops(Blank(n - |m|) + m)[n - |m|..])
  }

  /** What the sampler makes of `n` scores of which it has the sorted entries `e`, the others
      being negative infinity: top-k by threshold, top-p by an unknown function of the padded
      vector, and the result scattered back to vocabulary order. */
  ghost function Filtered(n: nat, e: seq<Entry>, k: nat, drops: seq<Score> -> seq<bool>): (r: seq<Score>)
    requires 1 <= k <= |e| <= n && KeepsLength(drops)
    requires forall i :: 0 <= i < |e| ==> e[i].id < n
    ensures |r| == n
  {
    Scatter(n, e, Kept(n, Masked(e, KthScore(e, k)), drops))
  }

  /** The sampler's filter on the scores of the whole vocabulary. */
  ghost function FullFilter(x: seq<Score>, k: nat, drops: seq<Score> -> seq<bool>): (r: seq<Score>)
    requires 1 <= k <= |x| && KeepsLength(drops)
    ensures |r| == |x|
  {
    SortedIds(x);
    Filtered(|x|, StableSort(false, Entries(x, 0)), k, drops)
  }

  lemma SortedIds(x: seq<Score>)
    ensures var e := StableSort(false, Entries(x, 0));
            && Ordered(e) && (forall i :: 0 <= i < |e| ==> e[i].id < |x| && x[e[i].id] == e[i].score)
            && (forall q :: 0 <= q < |x| ==> Entry(x[q], q) in e)
  {
    var e := StableSort(false, Entries(x, 0));
    ScoreSortOrders(Entries(x, 0));
    SortMembers(false, Entries(x, 0));
    forall i | 0 <= i < |e| ensures e[i].id < |x| && x[e[i].id] == e[i].score {
      assert e[i] in e;
    }
    forall q | 0 <= q < |x| ensures Entry(x[q], q) in e {
      assert Entries(x, 0)[q] in Entries(x, 0);
    }
  }

  // ---- two sorted lists with the same top ----

  /** Both lists hold the same entries at or above the threshold. */
  ghost predicate SameTop(a: seq<Entry>, b: seq<Entry>, threshold: Score) {
    forall e: Entry :: !Below(e.score, threshold) ==> (e in a <==> e in b)
  }

  lemma OrderedSplit(a: seq<Entry>, e: Entry)
    requires Ordered(a) && a != []
    ensures e in a <==> e in a[..|a| - 1] || e == a[|a| - 1]
    ensures a[|a| - 1] !in a[..|a| - 1]
    ensures e in a ==> e == a[|a| - 1] || Before(e, a[|a| - 1])
  {}

  predicate Aligned(x: Entry, y: Entry, threshold: Score) {
    x == y || (Below(x.score, threshold) && Below(y.score, threshold))
  }

  /** The `i`-th entry of `a` and the one right-aligned with it in `b`. */
  predicate AlignedAt(a: seq<Entry>, b: seq<Entry>, pad: nat, i: nat, threshold: Score)
    requires |b| == pad + |a| && i < |a|
  {
    Aligned(a[i], b[pad + i], threshold)
  }

  ghost predicate AllAligned(a: seq<Entry>, b: seq<Entry>, pad: nat, threshold: Score)
    requires |b| == pad + |a|
  {
    forall i: nat {:trigger AlignedAt(a, b, pad, i, threshold)} :: i < |a| ==> AlignedAt(a, b, pad, i, threshold)
  }

  ghost predicate AllBelow(b: seq<Entry>, n: nat, threshold: Score)
    requires n <= |b|
  {
    forall i :: 0 <= i < n ==> Below(b[i].score, threshold)
  }

  /** Right-aligned, ordered lists with the same top agree wherever either is in the top. */
  lemma {:induction false} TopsCoincide(a: seq<Entry>, b: seq<Entry>, pad: nat, threshold: Score)
    requires Ordered(a) && Ordered(b) && |b| == pad + |a| && SameTop(a, b, threshold)
    ensures AllBelow(b, pad, threshold) && AllAligned(a, b, pad, threshold)
  {
    if a == [] {
      EmptyTop(b, threshold);
    } else if Below(a[|a| - 1].score, threshold) {
      NothingOnTop(a, b, threshold);
    } else {
      TopSplits(a, b, threshold);
      TopsCoincide(a[..|a| - 1], b[..|b| - 1], pad, threshold);
      LastAligned(a, b, pad, threshold);
    }
  }

  lemma EmptyTop(b: seq<Entry>, threshold: Score)
    requires SameTop([], b, threshold)
    ensures AllBelow(b, |b|, threshold)
  {
    forall i | 0 <= i < |b| ensures Below(b[i].score, threshold) {
      assert b[i] in b;
    }
  }

  lemma LastAligned(a: seq<Entry>, b: seq<Entry>, pad: nat, threshold: Score)
    requires a != [] && |b| == pad + |a| && a[|a| - 1] == b[|b| - 1]
    requires AllBelow(b[..|b| - 1], pad, threshold) && AllAligned(a[..|a| - 1], b[..|b| - 1], pad, threshold)
    ensures AllBelow(b, pad, threshold) && AllAligned(a, b, pad, threshold)
  {
    forall i: nat | i < |a| ensures AlignedAt(a, b, pad, i, threshold) {
      if i < |a| - 1 {
        assert AlignedAt(a[..|a| - 1], b[..|b| - 1], pad, i, threshold);
      }
    }
  }

  lemma TopSplits(a: seq<Entry>, b: seq<Entry>, threshold: Score)
    requires Ordered(a) && Ordered(b) && a != [] && b != [] && SameTop(a, b, threshold)
    requires !Below(a[|a| - 1].score, threshold)
    ensures a[|a| - 1] == b[|b| - 1] && SameTop(a[..|a| - 1], b[..|b| - 1], threshold)
  {
    var x, y := a[|a| - 1], b[|b| - 1];
    assert x in a && y in b;
    OrderedSplit(b, x);
    OrderedSplit(a, y);
    forall e: Entry | !Below(e.score, threshold) ensures e in a[..|a| - 1] <==> e in b[..|b| - 1] {
      OrderedSplit(a, e);
      OrderedSplit(b, e);
    }
  }

  lemma NothingOnTop(a: seq<Entry>, b: seq<Entry>, threshold: Score)
    requires Ordered(a) && SameTop(a, b, threshold)
    requires a != [] && Below(a[|a| - 1].score, threshold)
    ensures AllBelow(a, |a|, threshold) && AllBelow(b, |b|, threshold)
  {
    forall i | 0 <= i < |a| ensures Below(a[i].score, threshold) {
      assert i < |a| - 1 ==> Before(a[i], a[|a| - 1]);
    }
    forall i | 0 <= i < |b| ensures Below(b[i].score, threshold) {
      assert b[i] in b;
    }
  }

  lemma SameKthBack(a: seq<Entry>, b: seq<Entry>, k: nat, t: Score)
    requires Ordered(a) && Ordered(b) && 1 <= k <= |a| <= |b| && SameTop(a, b, t) && KthScore(b, k) == t
    ensures KthScore(a, k) == t
  {
    TopsCoincide(a, b, |b| - |a|, t);
    assert AlignedAt(a, b, |b| - |a|, |a| - k, t);
  }

  lemma SameKth(a: seq<Entry>, b: seq<Entry>, k: nat, t: Score)
    requires Ordered(a) && Ordered(b) && 1 <= k <= |a| <= |b| && SameTop(a, b, t) && KthScore(a, k) == t
    ensures KthScore(b, k) == t
  {
    TopsCoincide(a, b, |b| - |a|, t);
    assert AlignedAt(a, b, |b| - |a|, |a| - k, t);
  }

  /** What the filters keep of right-aligned lists: the same values at the same ids. */
  predicate KeptAt(a: seq<Entry>, b: seq<Entry>, da: seq<Score>, db: seq<Score>, pad: nat, i: nat)
    requires |a| == |da| && |b| == |db| == pad + |a| && i < |a|
  {
    da[i] == db[pad + i] && (da[i] != NegInf ==> a[i].id == b[pad + i].id)
  }

  ghost predicate KeptAligned(a: seq<Entry>, b: seq<Entry>, da: seq<Score>, db: seq<Score>, pad: nat)
    requires |a| == |da| && |b| == |db| == pad + |a|
  {
    && (forall i: nat {:trigger KeptAt(a, b, da, db, pad, i)} :: i < |a| ==> KeptAt(a, b, da, db, pad, i))
    && (forall i :: 0 <= i < pad ==> db[i] == NegInf)
  }

  lemma MasksAlign(a: seq<Entry>, b: seq<Entry>, pad: nat, t: Score)
    requires |b| == pad + |a| && AllBelow(b, pad, t) && AllAligned(a, b, pad, t) && !t.NaN?
    ensures Masked(b, t) == Blank(pad) + Masked(a, t)
  {
    var ma, mb := Masked(a, t), Masked(b, t);
    forall i | 0 <= i < |b| ensures mb[i] == (Blank(pad) + ma)[i] {
      if i >= pad {
        assert AlignedAt(a, b, pad, i - pad, t);
      }
    }
  }

  lemma KeptOfPadded(n: nat, m: seq<Score>, pad: nat, drops: seq<Score> -> seq<bool>)
    requires n == pad + |m| && KeepsLength(drops)
    ensures Kept(n, Blank(pad) + m, drops) == Blank(pad) + Kept(n, m, drops)
  {
    var padded := Blank(pad) + m;
    assert Blank(0) + padded == padded;
    var drop := drops(padded);
    assert drop[0..] == drop;
    forall i | 0 <= i < n ensures Dropped(padded, drop)[i] == (Blank(pad) + Dropped(m, drop[pad..]))[i] {
      assert i >= pad ==> drop[pad..][i - pad] == drop[i];
    }
  }

  lemma KeptIsMaskedOrBlank(n: nat, a: seq<Entry>, t: Score, drops: seq<Score> -> seq<bool>, i: nat)
    requires |a| <= n && KeepsLength(drops) && i < |a| && !t.NaN? && Below(a[i].score, t)
    ensures Kept(n, Masked(a, t), drops)[i] == NegInf
  {}

  lemma KeptAligns(n: nat, a: seq<Entry>, b: seq<Entry>, pad: nat, t: Score, drops: seq<Score> -> seq<bool>)
    requires |b| == n == pad + |a| && AllBelow(b, pad, t) && AllAligned(a, b, pad, t) && !t.NaN? && KeepsLength(drops)
    ensures KeptAligned(a, b, Kept(n, Masked(a, t), drops), Kept(n, Masked(b, t), drops), pad)
  {
    MasksAlign(a, b, pad, t);
    KeptOfPadded(n, Masked(a, t), pad, drops);
    var da, db := Kept(n, Masked(a, t), drops), Kept(n, Masked(b, t), drops);
    forall i: nat | i < |a| ensures KeptAt(a, b, da, db, pad, i) {
      assert AlignedAt(a, b, pad, i, t);
      if Below(a[i].score, t) {
        KeptIsMaskedOrBlank(n, a, t, drops, i);
      }
    }
  }

  lemma FilteredAt(n: nat, e: seq<Entry>, k: nat, t: Score, drops: seq<Score> -> seq<bool>)
    requires 1 <= k <= |e| <= n && KeepsLength(drops) && KthScore(e, k) == t
    requires forall i :: 0 <= i < |e| ==> e[i].id < n
    ensures Filtered(n, e, k, drops) == Scatter(n, e, Kept(n, Masked(e, t), drops))
  {}

  /** The filter depends only on the entries at or above the k-th score. */
  lemma SameTopFilters(n: nat, a: seq<Entry>, b: seq<Entry>, k: nat, t: Score, drops: seq<Score> -> seq<bool>)
    requires Ordered(a) && Ordered(b) && 1 <= k <= |a| <= |b| == n && KeepsLength(drops)
    requires forall i :: 0 <= i < |a| ==> a[i].id < n
    requires forall i :: 0 <= i < |b| ==> b[i].id < n
    requires IdsDistinct(a) && IdsDistinct(b)
    requires SameTop(a, b, t) && KthScore(a, k) == t && !t.NaN?
    ensures Filtered(n, a, k, drops) == Filtered(n, b, k, drops)
  {
    SameKth(a, b, k, t);
    FilteredAt(n, a, k, t, drops);
    FilteredAt(n, b, k, t, drops);
    TopsCoincide(a, b, n - |a|, t);
    KeptAligns(n, a, b, n - |a|, t, drops);
    SameScatter(n, a, b, Kept(n, Masked(a, t), drops), Kept(n, Masked(b, t), drops), n - |a|);
  }

  lemma SameScatter(n: nat, a: seq<Entry>, b: seq<Entry>, da: seq<Score>, db: seq<Score>, pad: nat)
    requires |a| == |da| && |b| == |db| == n == pad + |a| && IdsDistinct(a) && IdsDistinct(b)
    requires forall i :: 0 <= i < |a| ==> a[i].id < n
    requires forall i :: 0 <= i < |b| ==> b[i].id < n
    requires KeptAligned(a, b, da, db, pad)
    ensures Scatter(n, a, da) == Scatter(n, b, db)
  {
    ScatterAt(n, a, da);
    ScatterAt(n, b, db);
    forall q: nat | q < n ensures Scatter(n, a, da)[q] == Scatter(n, b, db)[q] {
      if i: nat :| i < |a| && a[i].id == q && da[i] != NegInf {
        assert KeptAt(a, b, da, db, pad, i);
      } else {
        BlankUnderAlignment(a, b, da, db, pad, q);
      }
    }
  }

  lemma BlankUnderAlignment(a: seq<Entry>, b: seq<Entry>, da: seq<Score>, db: seq<Score>, pad: nat, q: nat)
    requires |a| == |da| && |b| == |db| == pad + |a| && KeptAligned(a, b, da, db, pad)
    requires forall i: nat :: i < |a| && a[i].id == q ==> da[i] == NegInf
    ensures forall j :: 0 <= j < |b| && b[j].id == q ==> db[j] == NegInf
  {
    forall j | 0 <= j < |b| && b[j].id == q ensures db[j] == NegInf {
      if j >= pad {
        assert KeptAt(a, b, da, db, pad, j - pad);
      }
    }
  }
}
