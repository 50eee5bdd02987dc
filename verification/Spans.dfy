/** Sorted pages and the spans they merge into, in page units.

    Both planners sort the pages of a request, drop duplicates and join neighbouring pages;
    the native one also bridges small gaps and stops at a maximum length. */
module Spans {
  import opened Pages

  /** The pages `first..last`, both included. */
  datatype Span = Span(first: nat, last: nat)

  // ---- sorting and removing duplicates ----

  function InsertPage(p: nat, s: seq<nat>): (r: seq<nat>)
    requires Increasing(s)
    ensures Increasing(r)
    ensures forall q :: q in r <==> q == p || q in s
    ensures |r| <= |s| + 1
  {
    if s == [] then [p]
    else if p < s[0] then [p] + s
    else if p == s[0] then s
    else
      var rest := InsertPage(p, s[1..]);
      assert forall q :: q in s <==> q == s[0] || q in s[1..];
      assert forall i :: 0 <= i < |rest| ==> rest[i] in rest;
      [s[0]] + rest
  }

  /** `std::sort`, `std::unique`, `erase`: the same pages, each once, in increasing order. */
  function SortedUnique(pages: seq<nat>): (r: seq<nat>)
    ensures Increasing(r)
    ensures forall q :: q in r <==> q in pages
    ensures |r| <= |pages|
  {
    if pages == [] then []
    else
      assert forall q :: q in pages <==> q == pages[0] || q in pages[1..];
      InsertPage(pages[0], SortedUnique(pages[1..]))
  }

  lemma TailMembers(s: seq<nat>)
    requires Increasing(s) && s != []
    ensures Increasing(s[1..]) && forall q :: q in s[1..] <==> q in s && q != s[0]
    ensures forall q :: q in s ==> s[0] <= q
  {
    assert forall q :: q in s <==> q == s[0] || q in s[1..];
  }

  lemma {:induction false} IncreasingSetIsUnique(s: seq<nat>, t: seq<nat>)
    requires Increasing(s) && Increasing(t) && (forall q :: q in s <==> q in t)
    ensures s == t
  {
    assert t != [] ==> t[0] in t;
    if s != [] {
      assert s[0] in s && s[0] in t;
      TailMembers(s);
      TailMembers(t);
      assert t[0] in t;
      IncreasingSetIsUnique(s[1..], t[1..]);
      assert s == [s[0]] + s[1..] && t == [t[0]] + t[1..];
    }
  }

  lemma Ascending(s: seq<nat>, i: nat, j: nat)
    requires Increasing(s) && i <= j < |s|
    ensures s[i] <= s[j] && (i < j ==> s[i] < s[j])
  {}

  // ---- merging ----

  predicate InSpan(s: Span, page: nat) { s.first <= page <= s.last }

  /** May a span starting at `start` grow from page `a` to the next planned page `b`? */
  predicate MayExtend(start: nat, a: nat, b: nat, maxGap: nat, maxPages: nat) {
    b - a - 1 <= maxGap && b - start + 1 <= maxPages
  }

  ghost predicate Held(spans: seq<Span>, page: nat) {
    exists i :: 0 <= i < |spans| && InSpan(spans[i], page)
  }

  /** The span holding page `a` also holds the next planned page `b` exactly when it may. */
  ghost predicate JoinedWhenAllowed(spans: seq<Span>, a: nat, b: nat, maxGap: nat, maxPages: nat) {
    forall i :: 0 <= i < |spans| && InSpan(spans[i], a) ==>
      (InSpan(spans[i], b) <==> MayExtend(spans[i].first, a, b, maxGap, maxPages))
  }

  ghost predicate JoinedAt(spans: seq<Span>, pages: seq<nat>, k: nat, maxGap: nat, maxPages: nat)
    requires k + 1 < |pages|
  {
    JoinedWhenAllowed(spans, pages[k], pages[k + 1], maxGap, maxPages)
  }

  ghost predicate Separate(spans: seq<Span>) {
    && (forall i :: 0 <= i < |spans| ==> spans[i].first <= spans[i].last)
    && (forall i, j :: 0 <= i < j < |spans| ==> spans[i].last < spans[j].first)
  }

  ghost predicate WithinLimit(spans: seq<Span>, maxPages: nat) {
    forall i :: 0 <= i < |spans| ==> spans[i].last - spans[i].first + 1 <= maxPages
  }

  ghost predicate EndsPlanned(spans: seq<Span>, pages: seq<nat>) {
    forall i :: 0 <= i < |spans| ==> spans[i].first in pages && spans[i].last in pages
  }

  ghost predicate AllHeld(spans: seq<Span>, pages: seq<nat>) {
    forall k {:trigger Held(spans, pages[k])} :: 0 <= k < |pages| ==> Held(spans, pages[k])
  }

  ghost predicate JoinedThroughout(spans: seq<Span>, pages: seq<nat>, maxGap: nat, maxPages: nat) {
    forall k :: 0 <= k < |pages| - 1 ==> JoinedAt(spans, pages, k, maxGap, maxPages)
  }

  /** What merging produces, completely: spans in page order, ends on planned pages, every
      planned page held, and neighbours joined exactly when the limits allow it. */
  ghost predicate Merged(spans: seq<Span>, pages: seq<nat>, maxGap: nat, maxPages: nat) {
    && Separate(spans)
    && WithinLimit(spans, maxPages)
    && EndsPlanned(spans, pages)
    && AllHeld(spans, pages)
    && JoinedThroughout(spans, pages, maxGap, maxPages)
  }

  ghost predicate EndsAt(spans: seq<Span>, done: seq<nat>) {
    && (spans == []) == (done == [])
    && (spans != [] ==> spans[|spans| - 1].last == done[|done| - 1])
  }

  lemma OnlyLastSpanHolds(spans: seq<Span>, i: nat, page: nat)
    requires Separate(spans) && i < |spans| && InSpan(spans[i], page) && spans[|spans| - 1].last <= page
    ensures i == |spans| - 1
  {}

  lemma EarlierSpansStop(spans: seq<Span>, i: nat, page: nat)
    requires Separate(spans) && i < |spans| - 1 && spans[|spans| - 1].first <= page
    ensures spans[i].last < page
  {}

  /** Growing the last span over the next page keeps everything. */
  lemma GrowJoinsPage(spans: seq<Span>, done: seq<nat>, page: nat, maxGap: nat, maxPages: nat)
    requires Increasing(done + [page]) && spans != []
    requires Merged(spans, done, maxGap, maxPages) && EndsAt(spans, done)
    requires MayExtend(spans[|spans| - 1].first, done[|done| - 1], page, maxGap, maxPages)
    ensures JoinedAt(spans[|spans| - 1 := spans[|spans| - 1].(last := page)], done + [page], |done| - 1, maxGap, maxPages)
  {
    var n, last := |spans|, done[|done| - 1];
    var after := spans[n - 1 := spans[n - 1].(last := page)];
    Ascending(done + [page], |done| - 1, |done|);
    forall i | 0 <= i < n && InSpan(after[i], last)
      ensures InSpan(after[i], page) <==> MayExtend(after[i].first, last, page, maxGap, maxPages)
    {
      OnlyLastSpanHolds(spans, i, last);
    }
  }

  lemma GrowLast(spans: seq<Span>, done: seq<nat>, page: nat, maxGap: nat, maxPages: nat)
    requires Increasing(done + [page]) && spans != []
    requires Merged(spans, done, maxGap, maxPages) && EndsAt(spans, done)
    requires MayExtend(spans[|spans| - 1].first, done[|done| - 1], page, maxGap, maxPages)
    ensures var after := spans[|spans| - 1 := spans[|spans| - 1].(last := page)];
            Merged(after, done + [page], maxGap, maxPages) && EndsAt(after, done + [page])
  {
    var n := |spans|;
    var pages := done + [page];
    var after := spans[n - 1 := spans[n - 1].(last := page)];
    Ascending(pages, |done| - 1, |done|);
    assert Separate(after);
    GrowKeepsEnds(spans, done, page);
    GrowKeepsHeld(spans, done, page);
    forall k | 0 <= k < |pages| - 1 ensures JoinedAt(after, pages, k, maxGap, maxPages) {
      if k == |done| - 1 {
        GrowJoinsPage(spans, done, page, maxGap, maxPages);
      } else {
        GrowKeepsJoin(spans, done, page, k, maxGap, maxPages);
      }
    }
  }

  lemma GrowKeepsEnds(spans: seq<Span>, done: seq<nat>, page: nat)
    requires spans != [] && EndsPlanned(spans, done)
    ensures EndsPlanned(spans[|spans| - 1 := spans[|spans| - 1].(last := page)], done + [page])
  {
    assert (done + [page])[|done|] == page;
    forall q | q in done ensures q in done + [page] {}
  }

  lemma GrowKeepsHeld(spans: seq<Span>, done: seq<nat>, page: nat)
    requires Increasing(done + [page]) && spans != [] && Separate(spans)
    requires AllHeld(spans, done) && EndsAt(spans, done)
    ensures AllHeld(spans[|spans| - 1 := spans[|spans| - 1].(last := page)], done + [page])
  {
    var n := |spans|;
    var pages := done + [page];
    var after := spans[n - 1 := spans[n - 1].(last := page)];
    Ascending(pages, |done| - 1, |done|);
    forall k | 0 <= k < |pages| ensures Held(after, pages[k]) {
      if k == |done| {
        assert InSpan(after[n - 1], page);
      } else {
        assert pages[k] == done[k] && Held(spans, done[k]);
        Ascending(pages, k, |done|);
        var i :| 0 <= i < n && InSpan(spans[i], done[k]);
        assert InSpan(after[i], pages[k]);
      }
    }
  }

  lemma GrowKeepsJoin(spans: seq<Span>, done: seq<nat>, page: nat, k: nat, maxGap: nat, maxPages: nat)
    requires Increasing(done + [page]) && spans != [] && Separate(spans) && EndsAt(spans, done)
    requires k < |done| - 1 && JoinedAt(spans, done, k, maxGap, maxPages)
    ensures JoinedAt(spans[|spans| - 1 := spans[|spans| - 1].(last := page)], done + [page], k, maxGap, maxPages)
  {
    var pages := done + [page];
    var after := spans[|spans| - 1 := spans[|spans| - 1].(last := page)];
    var a, b := pages[k], pages[k + 1];
    assert a == done[k] && b == done[k + 1];
    Ascending(pages, k, |done| - 1);
    Ascending(pages, k + 1, |done| - 1);
    Ascending(pages, |done| - 1, |done|);
    assert pages[|done| - 1] == done[|done| - 1] == spans[|spans| - 1].last;
    forall i | 0 <= i < |after| && InSpan(after[i], a)
      ensures InSpan(after[i], b) <==> MayExtend(after[i].first, a, b, maxGap, maxPages)
    {
      assert InSpan(spans[i], a);
    }
  }

  /** Starting a span for a page the last one may not reach keeps everything. */
  lemma StartNew(spans: seq<Span>, done: seq<nat>, page: nat, maxGap: nat, maxPages: nat)
    requires Increasing(done + [page]) && 1 <= maxPages
    requires Merged(spans, done, maxGap, maxPages) && EndsAt(spans, done)
    requires spans != [] ==> !MayExtend(spans[|spans| - 1].first, done[|done| - 1], page, maxGap, maxPages)
    ensures Merged(spans + [Span(page, page)], done + [page], maxGap, maxPages)
    ensures EndsAt(spans + [Span(page, page)], done + [page])
  {
    var n := |spans|;
    var pages := done + [page];
    var after := spans + [Span(page, page)];
    if done != [] {
      Ascending(pages, |done| - 1, |done|);
    }
    forall i | 0 <= i < n ensures spans[i].last < page {
      if i < n - 1 {
        EarlierSpansStop(spans, i, page);
      }
    }
    assert Separate(after);
    StartKeepsEnds(spans, done, page);
    StartKeepsHeld(spans, done, page);
    forall k | 0 <= k < |pages| - 1 ensures JoinedAt(after, pages, k, maxGap, maxPages) {
      Ascending(pages, k, |done|);
      forall i | 0 <= i < |after| && InSpan(after[i], pages[k])
        ensures InSpan(after[i], pages[k + 1])
                <==> MayExtend(after[i].first, pages[k], pages[k + 1], maxGap, maxPages)
      {
        assert i < n && pages[k] == done[k];
        if k == |done| - 1 {
          OnlyLastSpanHolds(spans, i, pages[k]);
        } else {
          assert JoinedAt(spans, done, k, maxGap, maxPages) && pages[k + 1] == done[k + 1];
        }
      }
    }
  }

  lemma StartKeepsEnds(spans: seq<Span>, done: seq<nat>, page: nat)
    requires EndsPlanned(spans, done)
    ensures EndsPlanned(spans + [Span(page, page)], done + [page])
  {
    assert (done + [page])[|done|] == page;
    forall q | q in done ensures q in done + [page] {}
  }

  lemma StartKeepsHeld(spans: seq<Span>, done: seq<nat>, page: nat)
    requires AllHeld(spans, done)
    ensures AllHeld(spans + [Span(page, page)], done + [page])
  {
    var pages := done + [page];
    var after := spans + [Span(page, page)];
    forall k | 0 <= k < |pages| ensures Held(after, pages[k]) {
      if k == |done| {
        assert InSpan(after[|spans|], page);
      } else {
        assert Held(spans, done[k]);
        var i :| 0 <= i < |spans| && InSpan(spans[i], done[k]);
        assert InSpan(after[i], pages[k]);
      }
    }
  }
}
