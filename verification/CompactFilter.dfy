/** The compact vocabulary exchange: every shard sends its largest scores, and the filter built
    from them must equal the filter of the full vocabulary. */
module CompactFilter {
  import opened Options
  import opened Scores
  import opened FilterMeaning

  /** Scores sent per shard; one more is sent as the largest score left out. */
  const CAP: nat := 128

  // ---- packing ----

  /** One row of a packet: scores, ids stored as floating point, the largest score left out. */
  type Packet = p: seq<Score> | |p| == 2 * CAP + 1 witness seq(2 * CAP + 1, _ => NegInf)

  function Pack(values: seq<Score>, indices: seq<nat>, offset: nat): Packet
    requires |values| == |indices| == CAP + 1
  {
    values[..CAP] + seq(CAP, j requires 0 <= j < CAP => Fin((indices[j] + offset) as real)) + values[CAP..]
  }

  /** The largest score the shard did not send. */
  function LeftOut(p: Packet): Score { p[2 * CAP] }

  /** The integer read back from a floating-point id. */
  function Long(s: Score): nat {
    if s.Fin? && s.value >= 0.0 then s.value.Floor else 0
  }

  function Unpack(p: Packet): (e: seq<Entry>)
    ensures |e| == CAP
    ensures forall j :: 0 <= j < CAP ==> e[j] == Entry(p[j], Long(p[CAP + j]))
  {
    seq(CAP, j requires 0 <= j < CAP => Entry(p[j], Long(p[CAP + j])))
  }

  function AllEntries(packs: seq<Packet>): seq<Entry> {
    if packs == [] then [] else AllEntries(packs[..|packs| - 1]) + Unpack(packs[|packs| - 1])
  }

  /** The candidates of all shards, sorted by id and then stably by score. */
  function Candidates(packs: seq<Packet>): (e: seq<Entry>)
    ensures |e| == |AllEntries(packs)|
  {
    StableSort(false, StableSort(true, AllEntries(packs)))
  }

  /** The largest omitted score; NaN wins. */
  function Omitted(packs: seq<Packet>): (o: Score)
    requires packs != []
    ensures exists s :: 0 <= s < |packs| && o == LeftOut(packs[s])
    ensures forall s :: 0 <= s < |packs| ==> !Below(o, LeftOut(packs[s]))
  {
    if |packs| == 1 then LeftOut(packs[0])
    else
      var rest := Omitted(packs[..|packs| - 1]);
      var last := LeftOut(packs[|packs| - 1]);
      if Below(rest, last) then
        assert forall s :: 0 <= s < |packs| - 1 ==> packs[s] == packs[..|packs| - 1][s];
        last
      else
        assert forall s :: 0 <= s < |packs| - 1 ==> packs[s] == packs[..|packs| - 1][s];
        rest
  }

  /** When the row cannot be decided from the candidates. */
  predicate Unsafe(packs: seq<Packet>, k: nat)
    requires packs != [] && 1 <= k <= |Candidates(packs)|
  {
    var e := Candidates(packs);
    var kth := KthScore(e, k);
    || (!Omitted(packs).NaN? && !kth.NaN? && !Below(Omitted(packs), kth))
    || !kth.Fin?
    || (exists i :: 0 <= i < |e| && (e[i].score.NaN? || e[i].score.PosInf?))
  }

  // ---- the filter as the source runs it ----

  method MaskBelow(vals: array<Score>, kth: Score)
    modifies vals
    ensures forall i :: 0 <= i < vals.Length ==>
              vals[i] == if Less(old(vals[i]), kth) then NegInf else old(vals[i])
  {
    for i := 0 to vals.Length
      invariant forall j :: 0 <= j < i ==> vals[j] == if Less(old(vals[j]), kth) then NegInf else old(vals[j])
      invariant forall j :: i <= j < vals.Length ==> vals[j] == old(vals[j])
    {
      if Less(vals[i], kth) {
        vals[i] := NegInf;
      }
    }
  }

  /** A vector of `n` scores whose last positions are `vals` and whose others are negative infinity. */
  method RightAligned(n: nat, vals: array<Score>) returns (dense: array<Score>)
    requires vals.Length <= n
    ensures fresh(dense) && dense[..] == Blank(n - vals.Length) + vals[..]
  {
    dense := new Score[n](_ => NegInf);
    for i := 0 to vals.Length
      invariant forall j :: 0 <= j < n - vals.Length ==> dense[j] == NegInf
      invariant forall j :: 0 <= j < i ==> dense[n - vals.Length + j] == vals[j]
    {
      dense[n - vals.Length + i] := vals[i];
    }
    assert dense[n - vals.Length..] == vals[..];
  }

  method DropMasked(vals: array<Score>, drop: seq<bool>)
    requires |drop| == vals.Length
    modifies vals
    ensures vals[..] == Dropped(old(vals[..]), drop)
  {
    for i := 0 to vals.Length
      invariant forall j :: 0 <= j < i ==> vals[j] == Dropped(old(vals[..]), drop)[j]
      invariant forall j :: i <= j < vals.Length ==> vals[j] == old(vals[j])
    {
      if drop[i] && i != vals.Length - 1 {
        vals[i] := NegInf;
      }
    }
  }

  method ScatterInto(n: nat, e: seq<Entry>, vals: array<Score>) returns (output: array<Score>)
    requires |e| == vals.Length && forall i :: 0 <= i < |e| ==> e[i].id < n
    ensures fresh(output) && output[..] == Scatter(n, e, vals[..])
  {
    output := new Score[n](_ => NegInf);
    assert output[..] == Blank(n);
    for i := 0 to |e|
      invariant output[..] == Scatter(n, e[..i], vals[..i])
    {
      output[e[i].id] := vals[i];
      assert e[..i + 1][..i] == e[..i] && vals[..i + 1][..i] == vals[..i];
    }
    assert e[..|e|] == e && vals[..|e|] == vals[..];
  }

  method FilterSorted(e: seq<Entry>, vocab: nat, k: nat, drops: seq<Score> -> seq<bool>) returns (output: array<Score>)
    requires 1 <= k <= |e| <= vocab && KeepsLength(drops)
    requires forall i :: 0 <= i < |e| ==> e[i].id < vocab
    ensures fresh(output) && output[..] == Filtered(vocab, e, k, drops)
  {
    var kth := KthScore(e, k);
    var vals := new Score[|e|](i requires 0 <= i < |e| => e[i].score);
    MaskBelow(vals, kth);
    assert vals[..] == Masked(e, kth);
    var dense := RightAligned(vocab, vals);
    var drop := drops(dense[..])[vocab - |e|..];
    DropMasked(vals, drop);
    output := ScatterInto(vocab, e, vals);
  }

  /** One row of `compact_filter`; `drops` is softmax, cumulative sum and the top-p comparison. */
  method FilterRow(packs: seq<Packet>, vocab: nat, k: nat, drops: seq<Score> -> seq<bool>)
      returns (output: Option<array<Score>>)
    requires packs != [] && 1 <= k <= |Candidates(packs)| <= vocab && KeepsLength(drops)
    requires forall i :: 0 <= i < |Candidates(packs)| ==> Candidates(packs)[i].id < vocab
    ensures output.None? <==> Unsafe(packs, k)
    ensures output.Some? ==> fresh(output.value)
    ensures output.Some? ==> output.value[..] == Filtered(vocab, Candidates(packs), k, drops)
    ensures forall shards :: AllSent(shards, packs) && |Concat(shards)| == vocab ==>
              && (output.Some? <==> Decidable(shards, k))
              && (output.Some? ==> IsFiltered(Concat(shards), k, drops, output.value[..]))
  {
    forall shards | AllSent(shards, packs) && |Concat(shards)| == vocab ensures Unsafe(packs, k) <==> !Decidable(shards, k) {
      GivesUpIff(shards, packs, k);
    }
    if Unsafe(packs, k) {
      return None;
    }
    var filtered := FilterSorted(Candidates(packs), vocab, k, drops);
    output := Some(filtered);
    forall shards | AllSent(shards, packs) && |Concat(shards)| == vocab
      ensures IsFiltered(Concat(shards), k, drops, filtered[..])
    {
      CompactKeepsTop(shards, packs, k, drops);
    }
  }

  // ---- exactness ----

  /** The whole vocabulary, shard after shard. */
  function Concat(shards: seq<seq<Score>>): seq<Score> {
    if shards == [] then [] else Concat(shards[..|shards| - 1]) + shards[|shards| - 1]
  }

  function Offset(shards: seq<seq<Score>>, s: nat): nat
    requires s <= |shards|
  {
    |Concat(shards[..s])|
  }

  /** What one shard computed and sent. */
  ghost predicate SentBy(x: seq<Score>, offset: nat, p: Packet) {
    exists values, indices :: IsTopK(x, CAP + 1, values, indices) && p == Pack(values, indices, offset)
  }

  ghost predicate AllSent(shards: seq<seq<Score>>, packs: seq<Packet>) {
    && |packs| == |shards| && shards != []
    && forall s :: 0 <= s < |shards| ==> SentBy(shards[s], Offset(shards, s), packs[s])
  }

  lemma LongOfId(n: nat)
    ensures Long(Fin(n as real)) == n
  {}

  /** The entries sent for the best `CAP` positions. */
  ghost predicate EntriesAt(x: seq<Score>, offset: nat, indices: seq<nat>, entries: seq<Entry>) {
    && |indices| == CAP + 1 && |entries| == CAP
    && forall j :: 0 <= j < CAP ==> indices[j] < |x| && entries[j] == Entry(x[indices[j]], offset + indices[j])
  }

  /** A packet holds distinct entries of its shard. */
  lemma PacketEntries(x: seq<Score>, offset: nat, p: Packet) returns (values: seq<Score>, indices: seq<nat>)
    requires SentBy(x, offset, p)
    ensures IsTopK(x, CAP + 1, values, indices) && p == Pack(values, indices, offset)
    ensures LeftOut(p) == values[CAP]
    ensures EntriesAt(x, offset, indices, Unpack(p)) && IdsDistinct(Unpack(p))
  {
    values, indices :| IsTopK(x, CAP + 1, values, indices) && p == Pack(values, indices, offset);
    forall j | 0 <= j < CAP ensures Unpack(p)[j] == Entry(x[indices[j]], offset + indices[j]) {
      LongOfId(indices[j] + offset);
    }
  }

  /** The entry of the full vocabulary at position `q`. */
  ghost predicate IsEntryOf(full: seq<Score>, e: Entry) {
    e.id < |full| && full[e.id] == e.score
  }

  ghost predicate Complete(full: seq<Score>, e: seq<Entry>, t: Score) {
    forall q: nat :: q < |full| && !Below(full[q], t) ==> Entry(full[q], q) in e
  }

  ghost predicate FewReach(shards: seq<seq<Score>>, t: Score) {
    forall s :: 0 <= s < |shards| ==> |Reaching(shards[s], t)| <= CAP
  }

  ghost predicate OmittedBelow(packs: seq<Packet>, t: Score) {
    forall s :: 0 <= s < |packs| ==> Below(LeftOut(packs[s]), t)
  }

  /** Few scores of every shard reach the threshold exactly when all omitted scores are below it. */
  lemma OmittedIffFew(shards: seq<seq<Score>>, packs: seq<Packet>, t: Score)
    requires AllSent(shards, packs)
    ensures OmittedBelow(packs, t) <==> FewReach(shards, t)
  {
    forall s | 0 <= s < |shards| ensures Below(LeftOut(packs[s]), t) <==> |Reaching(shards[s], t)| <= CAP {
      var values, indices := PacketEntries(shards[s], Offset(shards, s), packs[s]);
      if Below(values[CAP], t) {
        TopKCovers(shards[s], CAP + 1, values, indices, t);
      } else {
        TopKReaches(shards[s], CAP + 1, values, indices, t);
      }
    }
  }

  lemma DropLastShard(shards: seq<seq<Score>>, packs: seq<Packet>)
    requires AllSent(shards, packs) && 1 < |shards|
    ensures AllSent(shards[..|shards| - 1], packs[..|packs| - 1])
  {
    var rest := shards[..|shards| - 1];
    forall s | 0 <= s < |rest| ensures SentBy(rest[s], Offset(rest, s), packs[..|packs| - 1][s]) {
      assert rest[..s] == shards[..s];
      assert SentBy(shards[s], Offset(shards, s), packs[s]);
    }
  }

  /** Entries of one more shard, whose ids continue those of the vocabulary so far. */
  ghost predicate ShardEntries(x: seq<Score>, offset: nat, b: seq<Entry>) {
    forall j :: 0 <= j < |b| ==> offset <= b[j].id < offset + |x| && b[j].score == x[b[j].id - offset]
  }

  lemma JoinEntries(x: seq<Score>, y: seq<Score>, a: seq<Entry>, b: seq<Entry>)
    requires (forall j :: 0 <= j < |a| ==> IsEntryOf(x, a[j])) && ShardEntries(y, |x|, b)
    requires IdsDistinct(a) && IdsDistinct(b)
    ensures forall j :: 0 <= j < |a + b| ==> IsEntryOf(x + y, (a + b)[j])
    ensures IdsDistinct(a + b)
  {
    forall i, j | 0 <= i < j < |a + b| ensures (a + b)[i].id != (a + b)[j].id {
      if i < |a| <= j {
        assert IsEntryOf(x, a[i]) && b[j - |a|].id >= |x|;
      }
    }
    forall j | 0 <= j < |a + b| ensures IsEntryOf(x + y, (a + b)[j]) {
      if j < |a| {
        assert IsEntryOf(x, a[j]);
      } else {
        assert b[j - |a|].score == y[b[j - |a|].id - |x|];
      }
    }
  }

  ghost predicate ShardComplete(x: seq<Score>, offset: nat, b: seq<Entry>, t: Score) {
    forall i: nat :: i < |x| && !Below(x[i], t) ==> Entry(x[i], offset + i) in b
  }

  lemma JoinComplete(x: seq<Score>, y: seq<Score>, a: seq<Entry>, b: seq<Entry>, t: Score)
    requires Complete(x, a, t)
    requires ShardComplete(y, |x|, b, t)
    ensures Complete(x + y, a + b, t)
  {
    forall q: nat | q < |x + y| && !Below((x + y)[q], t) ensures Entry((x + y)[q], q) in a + b {
      if q < |x| {
        assert Entry(x[q], q) in a;
      } else {
        assert Entry(y[q - |x|], |x| + (q - |x|)) in b;
      }
    }
  }

  lemma PacketJoins(x: seq<Score>, offset: nat, p: Packet)
    requires SentBy(x, offset, p)
    ensures ShardEntries(x, offset, Unpack(p)) && IdsDistinct(Unpack(p)) && CAP < |x|
  {
    var values, indices := PacketEntries(x, offset, p);
    EntriesJoin(x, offset, indices, Unpack(p));
  }

  lemma EntriesJoin(x: seq<Score>, offset: nat, indices: seq<nat>, entries: seq<Entry>)
    requires EntriesAt(x, offset, indices, entries)
    ensures ShardEntries(x, offset, entries)
  {}

  lemma SentEntry(x: seq<Score>, offset: nat, indices: seq<nat>, entries: seq<Entry>, i: nat)
    requires EntriesAt(x, offset, indices, entries) && i < |x| && i in indices[..CAP]
    ensures Entry(x[i], offset + i) in entries
  {
    var j :| 0 <= j < CAP && indices[..CAP][j] == i;
    assert entries[j] == Entry(x[i], offset + i);
  }

  /** It holds every entry that reaches a threshold above what it leaves out. */
  lemma PacketComplete(x: seq<Score>, offset: nat, p: Packet, t: Score)
    requires SentBy(x, offset, p) && Below(LeftOut(p), t)
    ensures ShardComplete(x, offset, Unpack(p), t)
  {
    var values, indices := PacketEntries(x, offset, p);
    TopKCovers(x, CAP + 1, values, indices, t);
    forall i: nat | i < |x| && !Below(x[i], t) ensures Entry(x[i], offset + i) in Unpack(p) {
      SentEntry(x, offset, indices, Unpack(p), i);
    }
  }

  /** All packets together hold distinct entries of the vocabulary. */
  lemma {:induction false} AllEntriesAre(shards: seq<seq<Score>>, packs: seq<Packet>)
    requires AllSent(shards, packs)
    ensures forall j :: 0 <= j < |AllEntries(packs)| ==> IsEntryOf(Concat(shards), AllEntries(packs)[j])
    ensures IdsDistinct(AllEntries(packs)) && |AllEntries(packs)| <= |Concat(shards)|
  {
    var n := |shards| - 1;
    PacketJoins(shards[n], Offset(shards, n), packs[n]);
    if n > 0 {
      DropLastShard(shards, packs);
      AllEntriesAre(shards[..n], packs[..n]);
    }
    JoinEntries(Concat(shards[..n]), shards[n], AllEntries(packs[..n]), Unpack(packs[n]));
  }

  lemma LastJoins(shards: seq<seq<Score>>, packs: seq<Packet>)
    requires shards != [] && |shards| == |packs|
    ensures Concat(shards) == Concat(shards[..|shards| - 1]) + shards[|shards| - 1]
    ensures AllEntries(packs) == AllEntries(packs[..|shards| - 1]) + Unpack(packs[|shards| - 1])
  {}

  /** They hold every entry reaching `t` when all omitted scores are below it. */
  lemma {:induction false} AllEntriesComplete(shards: seq<seq<Score>>, packs: seq<Packet>, t: Score)
    requires AllSent(shards, packs) && OmittedBelow(packs, t)
    ensures Complete(Concat(shards), AllEntries(packs), t)
  {
    var n := |shards| - 1;
    PacketComplete(shards[n], Offset(shards, n), packs[n], t);
    if n > 0 {
      DropLastShard(shards, packs);
      AllEntriesComplete(shards[..n], packs[..n], t);
    }
    LastJoins(shards, packs);
    JoinComplete(Concat(shards[..n]), shards[n], AllEntries(packs[..n]), Unpack(packs[n]), t);
  }

  lemma CandidatesAre(shards: seq<seq<Score>>, packs: seq<Packet>)
    requires AllSent(shards, packs)
    ensures Ordered(Candidates(packs)) && IdsDistinct(Candidates(packs)) && |Candidates(packs)| <= |Concat(shards)|
    ensures forall e :: e in Candidates(packs) <==> e in AllEntries(packs)
    ensures forall e :: e in Candidates(packs) ==> IsEntryOf(Concat(shards), e)
  {
    var all := AllEntries(packs);
    AllEntriesAre(shards, packs);
    IdSortIncreases(all);
    ScoreSortOrders(StableSort(true, all));
    SortMembers(true, all);
    SortMembers(false, StableSort(true, all));
    OrderedIdsDistinct(Concat(shards), Candidates(packs));
  }

  lemma OrderedIdsDistinct(full: seq<Score>, e: seq<Entry>)
    requires Ordered(e) && forall x :: x in e ==> IsEntryOf(full, x)
    ensures IdsDistinct(e)
  {
    forall i, j | 0 <= i < j < |e| ensures e[i].id != e[j].id {
      assert e[i] in e && e[j] in e;
      assert Before(e[i], e[j]);
    }
  }

  ghost function FullOrder(full: seq<Score>): (e: seq<Entry>)
    ensures |e| == |full|
  {
    StableSort(false, Entries(full, 0))
  }

  /** With all omitted scores below the threshold, the candidates have the vocabulary's top. */
  lemma CandidatesHoldTop(shards: seq<seq<Score>>, packs: seq<Packet>, t: Score)
    requires AllSent(shards, packs) && OmittedBelow(packs, t)
    ensures SameTop(Candidates(packs), FullOrder(Concat(shards)), t)
  {
    var full := Concat(shards);
    CandidatesAre(shards, packs);
    AllEntriesComplete(shards, packs, t);
    SortedIds(full);
    var b := FullOrder(full);
    forall e: Entry | !Below(e.score, t) ensures e in Candidates(packs) <==> e in b {
      if e in b {
        var i :| 0 <= i < |b| && b[i] == e;
        assert Entry(full[e.id], e.id) in AllEntries(packs);
      }
      if e in Candidates(packs) {
        assert IsEntryOf(full, e);
        assert Entry(full[e.id], e.id) in b;
      }
    }
  }

  /** Whenever the compact filter gives a result, it is the filter of the full vocabulary, for
      every softmax and cumulative sum and with any number of equal scores. */
  lemma CompactIsExact(shards: seq<seq<Score>>, packs: seq<Packet>, k: nat, drops: seq<Score> -> seq<bool>)
    requires AllSent(shards, packs) && 1 <= k <= |Candidates(packs)| && KeepsLength(drops) && !Unsafe(packs, k)
    ensures |Candidates(packs)| <= |Concat(shards)|
    ensures forall i :: 0 <= i < |Candidates(packs)| ==> Candidates(packs)[i].id < |Concat(shards)|
    ensures Filtered(|Concat(shards)|, Candidates(packs), k, drops) == FullFilter(Concat(shards), k, drops)
  {
    var full := Concat(shards);
    var a, b := Candidates(packs), FullOrder(full);
    CandidatesAre(shards, packs);
    SortedIds(full);
    var t := KthScore(a, k);
    SafeMeansOmittedBelow(shards, packs, k);
    CandidatesHoldTop(shards, packs, t);
    forall i | 0 <= i < |a| ensures a[i].id < |full| {
      assert a[i] in a;
    }
    forall x | x in b ensures IsEntryOf(full, x) {
      var i :| 0 <= i < |b| && b[i] == x;
    }
    OrderedIdsDistinct(full, b);
    SameTopFilters(|full|, a, b, k, t, drops);
  }

  lemma {:induction false} UnpackedAmongAll(packs: seq<Packet>, s: nat, j: nat)
    requires s < |packs| && j < CAP
    ensures Unpack(packs[s])[j] in AllEntries(packs)
  {
    var n := |packs| - 1;
    if s == n {
      assert AllEntries(packs)[|AllEntries(packs[..n])| + j] == Unpack(packs[s])[j];
    } else {
      UnpackedAmongAll(packs[..n], s, j);
    }
  }

  /** A NaN among the omitted scores means the shard sent NaN only. */
  lemma OmittedNaNIsSent(shards: seq<seq<Score>>, packs: seq<Packet>, s: nat)
    requires AllSent(shards, packs) && s < |packs| && LeftOut(packs[s]).NaN?
    ensures exists i :: 0 <= i < |Candidates(packs)| && Candidates(packs)[i].score.NaN?
  {
    var values, indices := PacketEntries(shards[s], Offset(shards, s), packs[s]);
    assert !Below(values[0], values[CAP]);
    UnpackedAmongAll(packs, s, 0);
    CandidatesAre(shards, packs);
    assert Unpack(packs[s])[0] in Candidates(packs);
  }

  lemma SafeMeansOmittedBelow(shards: seq<seq<Score>>, packs: seq<Packet>, k: nat)
    requires AllSent(shards, packs) && 1 <= k <= |Candidates(packs)| && !Unsafe(packs, k)
    ensures OmittedBelow(packs, KthScore(Candidates(packs), k))
  {
    var kth := KthScore(Candidates(packs), k);
    var o := Omitted(packs);
    var m: nat :| m < |packs| && o == LeftOut(packs[m]);
    if o.NaN? {
      OmittedNaNIsSent(shards, packs, m);
      assert false;
    }
    forall s | 0 <= s < |packs| ensures Below(LeftOut(packs[s]), kth) {
      assert !Below(o, LeftOut(packs[s]));
    }
  }

  /** Told without sorting: the result keeps the scores with fewer than `k` higher ones in the whole
      vocabulary, and of these takes out what is marked in the ascending vector. */
  lemma CompactKeepsTop(shards: seq<seq<Score>>, packs: seq<Packet>, k: nat, drops: seq<Score> -> seq<bool>)
    requires AllSent(shards, packs) && 1 <= k <= |Candidates(packs)| && KeepsLength(drops) && !Unsafe(packs, k)
    ensures |Candidates(packs)| <= |Concat(shards)|
    ensures forall i :: 0 <= i < |Candidates(packs)| ==> Candidates(packs)[i].id < |Concat(shards)|
    ensures IsFiltered(Concat(shards), k, drops, Filtered(|Concat(shards)|, Candidates(packs), k, drops))
  {
    var full := Concat(shards);
    var t := KthWhenSafe(packs, k);
    CandidatesAre(shards, packs);
    SafeMeansOmittedBelow(shards, packs, k);
    CompactIsExact(shards, packs, k, drops);
    KthOfVocabulary(shards, packs, k, t);
    KthIs(full, k, NaN);
    FullFilterIs(full, k, drops);
  }

  // ---- when a result is given ----

  /** No NaN, no positive infinity, a finite k-th largest score, and no shard with more than 128
      scores at or above it. */
  ghost predicate Decidable(shards: seq<seq<Score>>, k: nat) {
    var full := Concat(shards);
    && (forall q :: 0 <= q < |full| ==> !full[q].NaN? && !full[q].PosInf?)
    && exists t :: IsKth(full, k, t) && t.Fin? && forall s :: 0 <= s < |shards| ==> |Reaching(shards[s], t)| <= 128
  }

  lemma SafeWhen(packs: seq<Packet>, k: nat, t: Score)
    requires packs != [] && 1 <= k <= |Candidates(packs)| && KthScore(Candidates(packs), k) == t
    requires t.Fin? && OmittedBelow(packs, t)
    requires forall e :: e in Candidates(packs) ==> !e.score.NaN? && !e.score.PosInf?
    ensures !Unsafe(packs, k)
  {
    var s: nat :| s < |packs| && Omitted(packs) == LeftOut(packs[s]);
    assert Below(LeftOut(packs[s]), t);
    forall i | 0 <= i < |Candidates(packs)| ensures !Candidates(packs)[i].score.NaN? && !Candidates(packs)[i].score.PosInf? {
      assert Candidates(packs)[i] in Candidates(packs);
    }
  }

  /** The candidates and the vocabulary in order, with the same top. */
  lemma OrderedTops(shards: seq<seq<Score>>, packs: seq<Packet>, t: Score) returns (a: seq<Entry>, b: seq<Entry>)
    requires AllSent(shards, packs) && OmittedBelow(packs, t)
    ensures a == Candidates(packs) && b == FullOrder(Concat(shards)) && |b| == |Concat(shards)|
    ensures Ordered(a) && Ordered(b) && |a| <= |b| && SameTop(a, b, t)
  {
    a, b := Candidates(packs), FullOrder(Concat(shards));
    CandidatesAre(shards, packs);
    SortedIds(Concat(shards));
    CandidatesHoldTop(shards, packs, t);
  }

  lemma KthAmongCandidates(shards: seq<seq<Score>>, packs: seq<Packet>, k: nat, t: Score)
    requires AllSent(shards, packs) && 1 <= k <= |Candidates(packs)| <= |Concat(shards)| && OmittedBelow(packs, t)
    requires KthScore(FullOrder(Concat(shards)), k) == t
    ensures KthScore(Candidates(packs), k) == t
  {
    var a, b := OrderedTops(shards, packs, t);
    SameKthBack(a, b, k, t);
  }

  lemma KthOfVocabulary(shards: seq<seq<Score>>, packs: seq<Packet>, k: nat, t: Score)
    requires AllSent(shards, packs) && 1 <= k <= |Candidates(packs)| <= |Concat(shards)| && OmittedBelow(packs, t)
    requires KthScore(Candidates(packs), k) == t
    ensures KthScore(FullOrder(Concat(shards)), k) == t
  {
    var a, b := OrderedTops(shards, packs, t);
    SameKth(a, b, k, t);
  }

  lemma DecidableIsSafe(shards: seq<seq<Score>>, packs: seq<Packet>, k: nat)
    requires AllSent(shards, packs) && 1 <= k <= |Candidates(packs)| <= |Concat(shards)| && Decidable(shards, k)
    ensures !Unsafe(packs, k)
  {
    var t :| IsKth(Concat(shards), k, t) && t.Fin? && forall s :: 0 <= s < |shards| ==> |Reaching(shards[s], t)| <= 128;
    KthIs(Concat(shards), k, t);
    OmittedIffFew(shards, packs, t);
    KthAmongCandidates(shards, packs, k, t);
    CandidatesAre(shards, packs);
    forall e | e in Candidates(packs) ensures !e.score.NaN? && !e.score.PosInf? {
      assert IsEntryOf(Concat(shards), e);
    }
    SafeWhen(packs, k, t);
  }

  lemma CleanWhenSafe(shards: seq<seq<Score>>, packs: seq<Packet>, k: nat, t: Score)
    requires AllSent(shards, packs) && 1 <= k <= |Candidates(packs)| && !Unsafe(packs, k) && OmittedBelow(packs, t) && t.Fin?
    ensures forall q :: 0 <= q < |Concat(shards)| ==> !Concat(shards)[q].NaN? && !Concat(shards)[q].PosInf?
  {
    var full := Concat(shards);
    CandidatesAre(shards, packs);
    AllEntriesComplete(shards, packs, t);
    forall q: nat | q < |full| ensures !full[q].NaN? && !full[q].PosInf? {
      assert !Below(full[q], t) ==> Entry(full[q], q) in Candidates(packs);
    }
  }

  lemma KthWhenSafe(packs: seq<Packet>, k: nat) returns (t: Score)
    requires packs != [] && 1 <= k <= |Candidates(packs)| && !Unsafe(packs, k)
    ensures t == KthScore(Candidates(packs), k) && t.Fin?
  {
    t := KthScore(Candidates(packs), k);
  }

  lemma SafeIsDecidable(shards: seq<seq<Score>>, packs: seq<Packet>, k: nat)
    requires AllSent(shards, packs) && 1 <= k <= |Candidates(packs)| <= |Concat(shards)| && !Unsafe(packs, k)
    ensures Decidable(shards, k)
  {
    var t := KthWhenSafe(packs, k);
    SafeMeansOmittedBelow(shards, packs, k);
    OmittedIffFew(shards, packs, t);
    KthOfVocabulary(shards, packs, k, t);
    KthIs(Concat(shards), k, t);
    CleanWhenSafe(shards, packs, k, t);
  }

  /** The compact filter gives up exactly on rows that are not decidable. */
  lemma GivesUpIff(shards: seq<seq<Score>>, packs: seq<Packet>, k: nat)
    requires AllSent(shards, packs) && 1 <= k <= |Candidates(packs)| <= |Concat(shards)|
    ensures Unsafe(packs, k) <==> !Decidable(shards, k)
  {
    if Decidable(shards, k) {
      DecidableIsSafe(shards, packs, k);
    }
    if !Unsafe(packs, k) {
      SafeIsDecidable(shards, packs, k);
    }
  }
}
