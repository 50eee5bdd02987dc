/** The pipeline handler of a rank that is not the last: sampled tokens received at step `T` are
    used at step `T + ppSize`, first on the GPU and, through a ring of pinned slots, on the CPU.

    Speculative decoding is on: the handler itself polls the ring, one slot per step. */
module PipelineFifo {
  import opened Options

  // ---- which rows need their sample ----

  datatype Row = Row(index: nat, computed: nat, scheduled: nat, prefill: nat, maxSeqLen: nat)

  /** Sampled in this step, and not known to be finished by it. */
  predicate NeedsSample(r: Row) {
    r.computed + r.scheduled >= r.prefill && (if r.computed > r.prefill then r.computed else r.prefill) + 1 < r.maxSeqLen
  }

  function Mask(batch: seq<Row>): (m: seq<bool>)
    ensures |m| == |batch| && forall i :: 0 <= i < |m| ==> m[i] == NeedsSample(batch[i])
  {
    seq(|batch|, i requires 0 <= i < |batch| => NeedsSample(batch[i]))
  }

  predicate AnyNeeded(batch: seq<Row>) { exists i :: 0 <= i < |batch| && NeedsSample(batch[i]) }

  /** A sample some later step can use, told by where the row stands: a decode row that one more
      token leaves below its maximum, or a row that finishes its prefill and has room behind it. */
  ghost predicate Wanted(r: Row) {
    if r.prefill <= r.computed then r.computed + 1 < r.maxSeqLen
    else if r.prefill <= r.computed + r.scheduled then r.prefill + 1 < r.maxSeqLen
    else false
  }

  ghost predicate SomeWanted(batch: seq<Row>) { exists i :: 0 <= i < |batch| && Wanted(batch[i]) }

  lemma NeededMeansWanted(batch: seq<Row>)
    ensures AnyNeeded(batch) == SomeWanted(batch)
    ensures forall i :: 0 <= i < |batch| ==> Mask(batch)[i] == Wanted(batch[i])
  {
    forall i | 0 <= i < |batch| ensures NeedsSample(batch[i]) == Wanted(batch[i]) {}
  }

  // ---- both ends post the same collectives ----

  datatype Collective = Tokens(rows: nat, width: nat) | Counts(rows: nat) | Drafts(rows: nat, width: nat)

  function Posted(batch: seq<Row>, maxSampleLen: nat): seq<Collective> {
    if !AnyNeeded(batch) then []
    else [Tokens(|batch|, maxSampleLen), Counts(|batch|)]
         + (if maxSampleLen > 1 then [Drafts(|batch|, maxSampleLen - 1)] else [])
  }

  /** What one step posts: nothing, or the padded samples, then the counts, then the drafts if the
      model has any, for all rows of the batch. */
  lemma PostedIs(batch: seq<Row>, maxSampleLen: nat)
    requires 0 < maxSampleLen
    ensures !SomeWanted(batch) ==> Posted(batch, maxSampleLen) == []
    ensures SomeWanted(batch) && maxSampleLen == 1 ==> Posted(batch, 1) == [Tokens(|batch|, 1), Counts(|batch|)]
    ensures SomeWanted(batch) && maxSampleLen > 1 ==>
              Posted(batch, maxSampleLen)
              == [Tokens(|batch|, maxSampleLen), Counts(|batch|), Drafts(|batch|, maxSampleLen - 1)]
  {
    NeededMeansWanted(batch);
  }

  /** `broadcast`: nothing when no row needs its sample; a narrow sample is padded, a wider one
      fails an assertion (`None`). */
  function Broadcast(batch: seq<Row>, width: nat, maxSampleLen: nat): Option<seq<Collective>> {
    if !AnyNeeded(batch) then Some([])
    else if width > maxSampleLen then None
    else Some([Tokens(|batch|, if width != maxSampleLen then maxSampleLen else width), Counts(|batch|)])
  }

  function BroadcastDraft(batch: seq<Row>, draftWidth: nat, maxSampleLen: nat): seq<Collective> {
    if maxSampleLen <= 1 || !AnyNeeded(batch) then [] else [Drafts(|batch|, draftWidth)]
  }

  /** One step of the last rank, whose sampler and drafter have these widths. */
  function Sent(batch: seq<Row>, width: nat, draftWidth: nat, maxSampleLen: nat): Option<seq<Collective>> {
    match Broadcast(batch, width, maxSampleLen)
    case None => None
    case Some(s) => Some(s + BroadcastDraft(batch, draftWidth, maxSampleLen))
  }

  /** What the two ends must agree on: whether any row needs its sample and, if so, the number of
      rows and of drafts, with a sample no wider than the receiver expects. */
  predicate Agrees(sent: seq<Row>, received: seq<Row>, width: nat, draftWidth: nat, maxSampleLen: nat) {
    && AnyNeeded(sent) == AnyNeeded(received)
    && (AnyNeeded(sent) ==>
          |sent| == |received| && width <= maxSampleLen && (maxSampleLen > 1 ==> draftWidth == maxSampleLen - 1))
  }

  /** A step posts the same collectives on both ends, in the same order and shapes, if and only if
      they agree. */
  lemma StepMatchesIff(sent: seq<Row>, received: seq<Row>, width: nat, draftWidth: nat, maxSampleLen: nat)
    requires 0 < maxSampleLen
    ensures Sent(sent, width, draftWidth, maxSampleLen) == Some(Posted(received, maxSampleLen))
            <==> Agrees(sent, received, width, draftWidth, maxSampleLen)
  {
    match Sent(sent, width, draftWidth, maxSampleLen) {
      case None =>
      case Some(s) =>
        var r := Posted(received, maxSampleLen);
        if s == r && AnyNeeded(sent) && AnyNeeded(received) {
          assert s[0] == Tokens(|sent|, maxSampleLen) && r[0] == Tokens(|received|, maxSampleLen);
          assert maxSampleLen > 1 ==> s[2] == Drafts(|sent|, draftWidth) && r[2] == Drafts(|received|, maxSampleLen - 1);
        }
    }
  }

  function AllPosted(batches: seq<seq<Row>>, maxSampleLen: nat): seq<Collective> {
    if batches == [] then [] else Posted(batches[0], maxSampleLen) + AllPosted(batches[1..], maxSampleLen)
  }

  /** The last rank's side of a run, unless an assertion fails in it. */
  function AllSent(batches: seq<seq<Row>>, widths: seq<nat>, draftWidths: seq<nat>, maxSampleLen: nat): Option<seq<Collective>>
    requires |widths| == |draftWidths| == |batches|
  {
    if batches == [] then Some([])
    else
      match (Sent(batches[0], widths[0], draftWidths[0], maxSampleLen),
             AllSent(batches[1..], widths[1..], draftWidths[1..], maxSampleLen))
      case (Some(s), Some(rest)) => Some(s + rest)
      case _ => None
  }

  /** The sub-communicator never mismatches while the two ends agree at every step. */
  lemma {:induction false} CollectivesMatch(sent: seq<seq<Row>>, received: seq<seq<Row>>, widths: seq<nat>,
                                            draftWidths: seq<nat>, maxSampleLen: nat)
    requires |widths| == |draftWidths| == |sent| == |received| && 0 < maxSampleLen
    requires forall i :: 0 <= i < |sent| ==> Agrees(sent[i], received[i], widths[i], draftWidths[i], maxSampleLen)
    ensures AllSent(sent, widths, draftWidths, maxSampleLen) == Some(AllPosted(received, maxSampleLen))
  {
    if sent != [] {
      StepMatchesIff(sent[0], received[0], widths[0], draftWidths[0], maxSampleLen);
      CollectivesMatch(sent[1..], received[1..], widths[1..], draftWidths[1..], maxSampleLen);
    }
  }

  // ---- state ----

  /** What one `receive` leaves: `step` names its tensors, `gens` the generations it saw. */
  datatype Pending = Pending(step: nat, rows: seq<nat>, need: seq<bool>, gens: seq<nat>, slot: Option<nat>)

  datatype State = State(queue: seq<Option<Pending>>, gens: seq<nat>,
                         next: nat, inUse: seq<bool>, held: seq<nat>, shadow: seq<Pending>)

  datatype Fault = Late | Diverged | AlreadyConsumed | Overrun

  /** Indices to update on the GPU, `-1` for rows to skip, with the tensors they refer to. */
  datatype Outputs = Outputs(step: nat, indices: seq<int>)

  datatype Metadata = Metadata(step: nat, keep: seq<bool>)

  datatype Got = Got(state: State, outputs: Option<Outputs>, metadata: Option<Metadata>)

  datatype Result<+T> = Ok(value: T) | Failed(fault: Fault)

  /** The generation array holds 32-bit integers. */
  function Stored(generation: nat): nat { generation % 0x1_0000_0000 }

  predicate Freed(gens: seq<nat>, p: Pending, i: nat)
    requires i < |p.rows| && i < |p.gens| && p.rows[i] < |gens|
  {
    Stored(gens[p.rows[i]]) != Stored(p.gens[i])
  }

  predicate WellFormed(gens: seq<nat>, p: Pending) {
    |p.need| == |p.rows| == |p.gens| && forall i :: 0 <= i < |p.rows| ==> p.rows[i] < |gens|
  }

  function Keep(gens: seq<nat>, p: Pending): (m: seq<bool>)
    requires WellFormed(gens, p)
    ensures |m| == |p.rows| && forall i :: 0 <= i < |m| ==> m[i] == (p.need[i] && !Freed(gens, p, i))
  {
    seq(|p.rows|, i requires 0 <= i < |p.rows| => p.need[i] && !Freed(gens, p, i))
  }

  function OutputsOf(gens: seq<nat>, p: Pending): Option<Outputs>
    requires WellFormed(gens, p)
  {
    var keep := Keep(gens, p);
    if |keep| > 0 && true !in keep then None
    else Some(Outputs(p.step, seq(|keep|, i requires 0 <= i < |keep| => if keep[i] then p.rows[i] as int else -1)))
  }

  /** `get_prev_sampled_outputs` under its hook; `ready`: the slot's copy event has completed. */
  function Get(s: State, ready: bool): Result<Got>
    requires s.queue != [] && (s.queue[0].Some? ==> WellFormed(s.gens, s.queue[0].value)) && |s.held| == |s.inUse|
  {
    var after := s.(queue := s.queue[1..] + [None]);
    match s.queue[0]
    case None => Ok(Got(after, None, None))
    case Some(p) =>
      var outputs := OutputsOf(s.gens, p);
      if p.slot.None? then Ok(Got(after, outputs, None))
      else if s.shadow == [] || s.shadow[0] != p then Failed(Diverged)
      else if !ready then Failed(Late)
      else if p.slot.value >= |s.inUse| || !s.inUse[p.slot.value] then Failed(AlreadyConsumed)
      else
        var polled := after.(shadow := s.shadow[1..], inUse := s.inUse[p.slot.value := false]);
        Ok(Got(polled, outputs, Some(Metadata(s.held[p.slot.value], Keep(s.gens, p)))))
  }

  function Snapshot(gens: seq<nat>, batch: seq<Row>): (g: seq<nat>)
    requires forall i :: 0 <= i < |batch| ==> batch[i].index < |gens|
    ensures |g| == |batch| && forall i :: 0 <= i < |g| ==> g[i] == gens[batch[i].index]
  {
    seq(|batch|, i requires 0 <= i < |batch| => gens[batch[i].index])
  }

  function Indices(batch: seq<Row>): (r: seq<nat>)
    ensures |r| == |batch| && forall i :: 0 <= i < |r| ==> r[i] == batch[i].index
  {
    seq(|batch|, i requires 0 <= i < |batch| => batch[i].index)
  }

  /** `receive` under its hook: warm-up requests are not staged. */
  function ReceiveInto(s: State, step: nat, batch: seq<Row>, warmup: bool): Result<State>
    requires s.queue != [] && |s.held| == |s.inUse| && s.next < |s.inUse|
    requires forall i :: 0 <= i < |batch| ==> batch[i].index < |s.gens|
  {
    if !AnyNeeded(batch) then Ok(s)
    else
      var p := Pending(step, Indices(batch), Mask(batch), Snapshot(s.gens, batch), None);
      var last := |s.queue| - 1;
      if warmup then Ok(s.(queue := s.queue[last := Some(p)]))
      else if s.inUse[s.next] then Failed(Overrun)
      else
        var staged := p.(slot := Some(s.next));
        Ok(s.(queue := s.queue[last := Some(staged)], shadow := s.shadow + [staged],
              next := if s.next + 1 == |s.inUse| then 0 else s.next + 1,
              inUse := s.inUse[s.next := true], held := s.held[s.next := step]))
  }

  /** The entry of this step: none when no sample is wanted; otherwise the step's tensors, the rows
      with which of them are wanted, the generations seen, and the next ring slot. */
  ghost predicate LeavesEntry(s: State, t: State, step: nat, batch: seq<Row>, warmup: bool)
    requires s.queue != [] && t.queue != []
  {
    var last := t.queue[|t.queue| - 1];
    if !SomeWanted(batch) then t == s
    else
      && last.Some? && last.value.step == step && |last.value.rows| == |last.value.need| == |last.value.gens| == |batch|
      && (forall i :: 0 <= i < |batch| ==>
            && last.value.rows[i] == batch[i].index && (last.value.need[i] <==> Wanted(batch[i]))
            && batch[i].index < |s.gens| && last.value.gens[i] == s.gens[batch[i].index])
      && last.value.slot == (if warmup then None else Some(s.next))
      && |t.queue| == |s.queue| && t.queue[..|s.queue| - 1] == s.queue[..|s.queue| - 1]
  }

  lemma ReceiveLeavesEntry(s: State, step: nat, batch: seq<Row>, warmup: bool)
    requires s.queue != [] && |s.held| == |s.inUse| && s.next < |s.inUse|
    requires forall i :: 0 <= i < |batch| ==> batch[i].index < |s.gens|
    ensures var r := ReceiveInto(s, step, batch, warmup);
            r.Ok? ==> r.value.queue != [] && LeavesEntry(s, r.value, step, batch, warmup)
  {
    NeededMeansWanted(batch);
  }

  // ---- runs ----

  /** The handler, with what each step left behind and whether the current one may still receive. */
  datatype World = World(s: State, log: seq<Option<Pending>>, open: bool)

  datatype Event = GetPrev(ready: bool) | Recv(batch: seq<Row>, warmup: bool) | FreeIndex(index: nat)

  function Start(ppSize: nat, depth: nat, maxReqs: nat): World {
    World(State(seq(ppSize, _ => None), seq(maxReqs, _ => 0), 0, seq(depth, _ => false), seq(depth, _ => 0), []),
          [], false)
  }

  /** One get per step, then at most one receive; request indices exist. */
  predicate Allowed(w: World, e: Event) {
    match e
    case GetPrev(_) => true
    case Recv(batch, _) => w.open && forall i :: 0 <= i < |batch| ==> batch[i].index < |w.s.gens|
    case FreeIndex(index) => index < |w.s.gens|
  }

  predicate Usable(w: World) {
    && w.s.queue != [] && |w.s.held| == |w.s.inUse| && w.s.next < |w.s.inUse|
    && (w.s.queue[0].Some? ==> WellFormed(w.s.gens, w.s.queue[0].value))
    && (w.open ==> w.log != [])
  }

  function Step(w: World, e: Event): Result<World>
    requires Usable(w) && Allowed(w, e)
  {
    match e
    case GetPrev(ready) =>
      (match Get(w.s, ready)
       case Failed(f) => Failed(f)
       case Ok(got) => Ok(World(got.state, w.log + [None], true)))
    case Recv(batch, warmup) =>
      (match ReceiveInto(w.s, |w.log| - 1, batch, warmup)
       case Failed(f) => Failed(f)
       case Ok(t) => Ok(World(t, w.log[|w.log| - 1 := t.queue[|t.queue| - 1]], false)))
    case FreeIndex(index) =>
      Ok(w.(s := w.s.(gens := w.s.gens[index := w.s.gens[index] + 1])))
  }

  // ---- the invariant ----

  function Staged(queue: seq<Option<Pending>>): seq<Pending> {
    if queue == [] then []
    else (if queue[0].Some? && queue[0].value.slot.Some? then [queue[0].value] else []) + Staged(queue[1..])
  }

  lemma {:induction false} StagedConcat(a: seq<Option<Pending>>, b: seq<Option<Pending>>)
    ensures Staged(a + b) == Staged(a) + Staged(b)
  {
    if a == [] {
      assert a + b == b;
    } else {
      StagedConcat(a[1..], b);
      assert (a + b)[1..] == a[1..] + b && (a + b)[0] == a[0];
      var head := if a[0].Some? && a[0].value.slot.Some? then [a[0].value] else [];
      assert head + (Staged(a[1..]) + Staged(b)) == (head + Staged(a[1..])) + Staged(b);
    }
  }

  lemma {:induction false} StagedLength(q: seq<Option<Pending>>)
    ensures |Staged(q)| <= |q|
  {
    if q != [] {
      StagedLength(q[1..]);
    }
  }

  /** How many slots ago `j` was filled, in a ring about to fill `next`. */
  function Age(next: nat, depth: nat, j: nat): int { if j < next then next - j else next + depth - j }

  /** Slots in use are the youngest ones, and each holds the step of its entry. */
  ghost predicate RingOk(s: State) {
    && |s.held| == |s.inUse| && s.next < |s.inUse| && |s.shadow| <= |s.inUse|
    && (forall i :: 0 <= i < |s.shadow| ==> SlotOk(s, i))
    && (forall j :: 0 <= j < |s.inUse| ==> (s.inUse[j] <==> Age(s.next, |s.inUse|, j) <= |s.shadow|))
  }

  ghost predicate SlotOk(s: State, i: nat)
    requires i < |s.shadow| && |s.held| == |s.inUse|
  {
    var slot := s.shadow[i].slot;
    slot.Some? && slot.value < |s.inUse| && Age(s.next, |s.inUse|, slot.value) == |s.shadow| - i
    && s.held[slot.value] == s.shadow[i].step
  }

  /** The entry that step `t` left, or the seed before the first step. */
  function EntryOf(log: seq<Option<Pending>>, t: int): Option<Pending> {
    if 0 <= t < |log| then log[t] else None
  }

  ghost predicate QueueOk(w: World, ppSize: nat) {
    && |w.s.queue| == ppSize
    && (forall k :: 0 <= k < ppSize ==> w.s.queue[k] == EntryOf(w.log, |w.log| - ppSize + k))
  }

  ghost predicate LogOk(w: World) {
    forall t :: 0 <= t < |w.log| && w.log[t].Some? ==> w.log[t].value.step == t && WellFormed(w.s.gens, w.log[t].value)
  }

  ghost predicate Inv(w: World, ppSize: nat, depth: nat) {
    && 0 < ppSize <= depth == |w.s.inUse|
    && QueueOk(w, ppSize) && LogOk(w) && RingOk(w.s)
    && w.s.shadow == Staged(w.s.queue)
    && (w.open ==> w.log != [] && w.log[|w.log| - 1] == None)
  }

  lemma InvIsUsable(w: World, ppSize: nat, depth: nat)
    requires Inv(w, ppSize, depth)
    ensures Usable(w)
  {
    assert w.s.queue[0] == EntryOf(w.log, |w.log| - ppSize);
  }

  lemma {:induction false} StagedOfNones(q: seq<Option<Pending>>)
    requires forall k :: 0 <= k < |q| ==> q[k] == None
    ensures Staged(q) == []
  {
    if q != [] {
      StagedOfNones(q[1..]);
    }
  }

  lemma StartInv(ppSize: nat, depth: nat, maxReqs: nat)
    requires 0 < ppSize <= depth
    ensures Inv(Start(ppSize, depth, maxReqs), ppSize, depth)
  {
    StagedOfNones(Start(ppSize, depth, maxReqs).s.queue);
  }

  lemma QueueShifts(w: World, t: World, ppSize: nat)
    requires 0 < ppSize && QueueOk(w, ppSize) && LogOk(w)
    requires t.log == w.log + [None] && t.s.queue == w.s.queue[1..] + [None] && |t.s.gens| == |w.s.gens|
    ensures QueueOk(t, ppSize) && LogOk(t)
  {
    forall k | 0 <= k < ppSize ensures t.s.queue[k] == EntryOf(t.log, |t.log| - ppSize + k) {
      assert k < ppSize - 1 ==> w.s.queue[k + 1] == EntryOf(w.log, |w.log| - ppSize + (k + 1));
    }
    forall i | 0 <= i < |t.log| && t.log[i].Some? ensures t.log[i].value.step == i && WellFormed(t.s.gens, t.log[i].value) {
      assert i < |w.log| && w.log[i].Some?;
    }
  }

  /** A get finds what it looks for: the divergence check and the ring check cannot fire. */
  lemma GetKeeps(w: World, ppSize: nat, depth: nat, ready: bool)
    requires Inv(w, ppSize, depth) && Usable(w)
    ensures ready ==> Step(w, GetPrev(ready)).Ok?
    ensures Step(w, GetPrev(ready)).Failed? ==> Step(w, GetPrev(ready)) == Failed(Late)
    ensures Step(w, GetPrev(ready)).Ok? ==> Inv(Step(w, GetPrev(ready)).value, ppSize, depth)
  {
    var s := w.s;
    StagedConcat(s.queue[1..], [None]);
    assert Staged([None]) == [];
    if s.queue[0].Some? && s.queue[0].value.slot.Some? {
      assert s.shadow[0] == s.queue[0].value && SlotOk(s, 0);
      assert s.shadow[1..] == Staged(s.queue[1..]);
      var slot := s.shadow[0].slot.value;
      PollKeepsRing(s, slot);
      var polled := s.(shadow := s.shadow[1..], inUse := s.inUse[slot := false]);
      QueueOnly(polled, polled.(queue := s.queue[1..] + [None]));
    } else {
      QueueOnly(s, s.(queue := s.queue[1..] + [None]));
    }
    if Step(w, GetPrev(ready)).Ok? {
      QueueShifts(w, Step(w, GetPrev(ready)).value, ppSize);
    }
  }

  lemma QueueOnly(s: State, t: State)
    requires RingOk(s) && t.shadow == s.shadow && t.next == s.next && t.inUse == s.inUse && t.held == s.held
    ensures RingOk(t)
  {
    forall i | 0 <= i < |t.shadow| ensures SlotOk(t, i) {
      assert SlotOk(s, i);
    }
  }

  lemma PollKeepsRing(s: State, slot: nat)
    requires RingOk(s) && s.shadow != [] && s.shadow[0].slot == Some(slot)
    ensures slot < |s.inUse| && s.inUse[slot]
    ensures RingOk(s.(shadow := s.shadow[1..], inUse := s.inUse[slot := false]))
  {
    assert SlotOk(s, 0);
    var t := s.(shadow := s.shadow[1..], inUse := s.inUse[slot := false]);
    forall i | 0 <= i < |t.shadow| ensures SlotOk(t, i) {
      assert SlotOk(s, i + 1);
    }
  }

  lemma StageKeepsRing(s: State, p: Pending)
    requires RingOk(s) && |s.shadow| < |s.inUse| && p.slot == Some(s.next)
    ensures !s.inUse[s.next]
    ensures RingOk(s.(shadow := s.shadow + [p], next := if s.next + 1 == |s.inUse| then 0 else s.next + 1,
                      inUse := s.inUse[s.next := true], held := s.held[s.next := p.step]))
  {
    var t := s.(shadow := s.shadow + [p], next := if s.next + 1 == |s.inUse| then 0 else s.next + 1,
                inUse := s.inUse[s.next := true], held := s.held[s.next := p.step]);
    forall i | 0 <= i < |t.shadow| ensures SlotOk(t, i) {
      assert i < |s.shadow| ==> SlotOk(s, i);
    }
  }

  lemma QueueSets(w: World, t: World, ppSize: nat, e: Option<Pending>)
    requires 0 < ppSize && QueueOk(w, ppSize) && LogOk(w) && w.log != []
    requires t.log == w.log[|w.log| - 1 := e] && t.s.queue == w.s.queue[ppSize - 1 := e] && t.s.gens == w.s.gens
    requires e.Some? ==> e.value.step == |w.log| - 1 && WellFormed(w.s.gens, e.value)
    ensures QueueOk(t, ppSize) && LogOk(t)
  {
    forall k | 0 <= k < ppSize ensures t.s.queue[k] == EntryOf(t.log, |t.log| - ppSize + k) {
      assert w.s.queue[k] == EntryOf(w.log, |w.log| - ppSize + k);
    }
  }

  lemma LastStaged(queue: seq<Option<Pending>>, p: Pending)
    requires queue != [] && queue[|queue| - 1] == None
    ensures |Staged(queue)| < |queue|
    ensures Staged(queue[|queue| - 1 := Some(p)]) == Staged(queue) + if p.slot.Some? then [p] else []
  {
    var front, last := queue[..|queue| - 1], |queue| - 1;
    StagedConcat(front, [None]);
    StagedConcat(front, [Some(p)]);
    StagedLength(front);
    assert queue == front + [None] && queue[last := Some(p)] == front + [Some(p)];
    assert Staged([None]) == [] && Staged([Some(p)]) == if p.slot.Some? then [p] else [];
  }

  /** A receive finds a free slot: the ring never overruns. */
  lemma ReceiveKeeps(w: World, ppSize: nat, depth: nat, batch: seq<Row>, warmup: bool)
    requires Inv(w, ppSize, depth) && Usable(w) && Allowed(w, Recv(batch, warmup))
    ensures Step(w, Recv(batch, warmup)).Ok?
    ensures Inv(Step(w, Recv(batch, warmup)).value, ppSize, depth)
  {
    var s, last := w.s, ppSize - 1;
    assert s.queue[last] == EntryOf(w.log, |w.log| - 1) == None;
    var p := Pending(|w.log| - 1, Indices(batch), Mask(batch), Snapshot(s.gens, batch), if warmup then None else Some(s.next));
    LastStaged(s.queue, p);
    StageKeepsRing(s, p.(slot := Some(s.next)));
    var t := Step(w, Recv(batch, warmup)).value;
    if AnyNeeded(batch) {
      QueueSets(w, t, ppSize, Some(p));
      if warmup {
        QueueOnly(s, t.s);
      } else {
        var staged := s.(shadow := s.shadow + [p], next := if s.next + 1 == |s.inUse| then 0 else s.next + 1,
                         inUse := s.inUse[s.next := true], held := s.held[s.next := p.step]);
        QueueOnly(staged, t.s);
      }
    } else {
      QueueSets(w, t, ppSize, None);
    }
  }

  lemma FreeKeeps(w: World, ppSize: nat, depth: nat, index: nat)
    requires Inv(w, ppSize, depth) && Usable(w) && index < |w.s.gens|
    ensures Step(w, FreeIndex(index)).Ok? && Inv(Step(w, FreeIndex(index)).value, ppSize, depth)
  {
    var t := Step(w, FreeIndex(index)).value;
    forall i | 0 <= i < |t.s.shadow| ensures SlotOk(t.s, i) {
      assert SlotOk(w.s, i);
    }
  }

  lemma StepKeeps(w: World, ppSize: nat, depth: nat, e: Event)
    requires Inv(w, ppSize, depth) && Usable(w) && Allowed(w, e)
    ensures Step(w, e).Ok? ==> Inv(Step(w, e).value, ppSize, depth)
    ensures Step(w, e).Failed? ==> Step(w, e) == Failed(Late) && e == GetPrev(false)
  {
    match e
    case GetPrev(ready) => GetKeeps(w, ppSize, depth, ready);
    case Recv(batch, warmup) => ReceiveKeeps(w, ppSize, depth, batch, warmup);
    case FreeIndex(index) => FreeKeeps(w, ppSize, depth, index);
  }

  // ---- main results, over every run ----

  ghost predicate IsRun(ws: seq<World>, es: seq<Event>, ppSize: nat, depth: nat, maxReqs: nat) {
    && |ws| == |es| + 1 && ws[0] == Start(ppSize, depth, maxReqs)
    && forall i :: 0 <= i < |es| ==> Follows(ws[i], es[i], ws[i + 1])
  }

  predicate Follows(w: World, e: Event, t: World) { Usable(w) && Allowed(w, e) && Step(w, e) == Ok(t) }

  lemma {:induction false} RunInv(ws: seq<World>, es: seq<Event>, ppSize: nat, depth: nat, maxReqs: nat, i: nat)
    requires 0 < ppSize <= depth && IsRun(ws, es, ppSize, depth, maxReqs) && i <= |es|
    ensures Inv(ws[i], ppSize, depth) && Usable(ws[i])
    decreases i
  {
    if i == 0 {
      StartInv(ppSize, depth, maxReqs);
    } else {
      RunInv(ws, es, ppSize, depth, maxReqs, i - 1);
      assert Follows(ws[i - 1], es[i - 1], ws[i]);
      StepKeeps(ws[i - 1], ppSize, depth, es[i - 1]);
    }
    InvIsUsable(ws[i], ppSize, depth);
  }

  /** In every run of a ring at least as deep as the pipeline, nothing overruns, diverges or is
      consumed twice: a step can only fail because a copy is late. */
  lemma OnlyLatenessFails(ws: seq<World>, es: seq<Event>, ppSize: nat, depth: nat, maxReqs: nat, e: Event)
    requires 0 < ppSize <= depth && IsRun(ws, es, ppSize, depth, maxReqs)
    requires Usable(ws[|es|]) && Allowed(ws[|es|], e)
    ensures |ws[|es|].s.queue| == ppSize
    ensures Step(ws[|es|], e).Ok? || (Step(ws[|es|], e) == Failed(Late) && e == GetPrev(false))
  {
    RunInv(ws, es, ppSize, depth, maxReqs, |es|);
    StepKeeps(ws[|es|], ppSize, depth, e);
  }

  /** A get hands out what `receive` left `ppSize` steps earlier, on both sides alike. */
  lemma GetIsDelayed(w: World, ppSize: nat, depth: nat, ready: bool, got: Got)
    requires Inv(w, ppSize, depth) && Usable(w) && Get(w.s, ready) == Ok(got)
    ensures var entry := EntryOf(w.log, |w.log| - ppSize);
            && (entry.None? ==> got.outputs.None? && got.metadata.None?)
            && (entry.Some? ==> WellFormed(w.s.gens, entry.value) && got.outputs == OutputsOf(w.s.gens, entry.value))
            && (got.outputs.Some? ==> got.outputs.value.step == |w.log| - ppSize)
            && (entry.Some? && entry.value.slot.None? ==> got.metadata.None?)
            && (entry.Some? && entry.value.slot.Some? ==>
                  got.metadata == Some(Metadata(|w.log| - ppSize, Keep(w.s.gens, entry.value))))
  {
    assert w.s.queue[0] == EntryOf(w.log, |w.log| - ppSize);
    if w.s.queue[0].Some? && w.s.queue[0].value.slot.Some? {
      assert SlotOk(w.s, 0);
    }
  }

  function Frees(es: seq<Event>, index: nat): nat {
    if es == [] then 0 else Frees(es[..|es| - 1], index) + (if es[|es| - 1] == FreeIndex(index) then 1 else 0)
  }

  ghost predicate Chained(ws: seq<World>, es: seq<Event>) {
    |ws| == |es| + 1 && forall k :: 0 <= k < |es| ==> Follows(ws[k], es[k], ws[k + 1])
  }

  /** Generations count frees. */
  lemma {:induction false} GenerationsCountFrees(ws: seq<World>, es: seq<Event>, i: nat, j: nat, index: nat)
    requires Chained(ws, es) && i <= j <= |es| && index < |ws[i].s.gens|
    ensures |ws[j].s.gens| == |ws[i].s.gens|
    ensures ws[j].s.gens[index] == ws[i].s.gens[index] + Frees(es[i..j], index)
    decreases j - i
  {
    if i < j {
      GenerationsCountFrees(ws, es, i, j - 1, index);
      assert Follows(ws[j - 1], es[j - 1], ws[j]);
      StepGenerations(ws[j - 1], es[j - 1], ws[j], index);
      FreesStep(es, i, j, index);
    }
  }

  lemma StepGenerations(w: World, e: Event, t: World, index: nat)
    requires Follows(w, e, t) && index < |w.s.gens|
    ensures |t.s.gens| == |w.s.gens|
    ensures t.s.gens[index] == w.s.gens[index] + (if e == FreeIndex(index) then 1 else 0)
  {}

  lemma FreesStep(es: seq<Event>, i: nat, j: nat, index: nat)
    requires i < j <= |es|
    ensures Frees(es[i..j], index) == Frees(es[i..j - 1], index) + (if es[j - 1] == FreeIndex(index) then 1 else 0)
  {
    assert es[i..j][..j - i - 1] == es[i..j - 1];
  }

  /** What a step left is never overwritten. */
  lemma {:induction false} LogStays(ws: seq<World>, es: seq<Event>, i: nat, j: nat, t: nat)
    requires Chained(ws, es) && i <= j <= |es| && t < |ws[i].log| && (!ws[i].open || t + 1 < |ws[i].log|)
    ensures t < |ws[j].log| && (!ws[j].open || t + 1 < |ws[j].log|) && ws[j].log[t] == ws[i].log[t]
    decreases j - i
  {
    if i < j {
      LogStays(ws, es, i, j - 1, t);
      assert Follows(ws[j - 1], es[j - 1], ws[j]);
    }
  }

  lemma StoredDiffers(a: nat, b: nat)
    requires a <= b < a + 0x1_0000_0000
    ensures Stored(a) != Stored(b) <==> a != b
  {}

  /** What a get returns for row `k`: nothing at all, or the row's entry. */
  predicate Delivers(outputs: Option<Outputs>, step: int, rows: nat, k: nat, index: int) {
    if outputs.None? then index == -1
    else outputs.value.step == step && |outputs.value.indices| == rows && k < rows && outputs.value.indices[k] == index
  }

  /** From receive to use: row `k` received by event `i` comes out of the get `ppSize` steps
      later as its own index, or is skipped exactly when its sample was not needed or the
      request was freed in between (fewer than 2^32 times). */
  lemma DroppedIffFreed(ws: seq<World>, es: seq<Event>, ppSize: nat, depth: nat, maxReqs: nat,
                        i: nat, j: nat, batch: seq<Row>, warmup: bool, ready: bool, got: Got, k: nat)
    requires 0 < ppSize <= depth && IsRun(ws, es, ppSize, depth, maxReqs)
    requires i < j < |es| && es[i] == Recv(batch, warmup) && k < |batch| && SomeWanted(batch)
    requires es[j] == GetPrev(ready) && Usable(ws[j]) && |ws[j].log| == |ws[i].log| - 1 + ppSize
    requires Get(ws[j].s, ready) == Ok(got)
    requires Frees(es[i..j], batch[k].index) < 0x1_0000_0000
    ensures var kept := Wanted(batch[k]) && Frees(es[i..j], batch[k].index) == 0;
            && Delivers(got.outputs, |ws[i].log| - 1, |batch|, k, if kept then batch[k].index else -1)
            && (!warmup ==> got.metadata.Some? && got.metadata.value.step == |ws[i].log| - 1
                            && |got.metadata.value.keep| == |batch| && got.metadata.value.keep[k] == kept)
            && (warmup ==> got.metadata.None?)
  {
    NeededMeansWanted(batch);
    RunInv(ws, es, ppSize, depth, maxReqs, i);
    RunInv(ws, es, ppSize, depth, maxReqs, j);
    assert Follows(ws[i], es[i], ws[i + 1]);
    ReceivedEntry(ws[i], ws[i + 1], batch, warmup);
    var t := |ws[i].log| - 1;
    LogStays(ws, es, i + 1, j, t);
    GetIsDelayed(ws[j], ppSize, depth, ready, got);
    var p := ws[j].log[t].value;
    GenerationsCountFrees(ws, es, i, j, batch[k].index);
    StoredDiffers(p.gens[k], ws[j].s.gens[batch[k].index]);
    assert Keep(ws[j].s.gens, p)[k] == (p.need[k] && !Freed(ws[j].s.gens, p, k));
  }

  ghost predicate KeptAt(batch: seq<Row>, between: seq<Event>, k: nat)
    requires k < |batch|
  {
    Wanted(batch[k]) && Frees(between, batch[k].index) == 0
  }

  /** A get returns nothing at all exactly when every row is skipped. */
  lemma NothingIffAllDropped(ws: seq<World>, es: seq<Event>, ppSize: nat, depth: nat, maxReqs: nat,
                             i: nat, j: nat, batch: seq<Row>, warmup: bool, ready: bool, got: Got)
    requires 0 < ppSize <= depth && IsRun(ws, es, ppSize, depth, maxReqs)
    requires i < j < |es| && es[i] == Recv(batch, warmup) && SomeWanted(batch)
    requires es[j] == GetPrev(ready) && Usable(ws[j]) && |ws[j].log| == |ws[i].log| - 1 + ppSize
    requires Get(ws[j].s, ready) == Ok(got)
    requires forall k :: 0 <= k < |batch| ==> Frees(es[i..j], batch[k].index) < 0x1_0000_0000
    ensures got.outputs.None? <==> forall k :: 0 <= k < |batch| ==> !KeptAt(batch, es[i..j], k)
  {
    forall k: nat | k < |batch| ensures got.outputs.None? ==> !KeptAt(batch, es[i..j], k) {
      DroppedIffFreed(ws, es, ppSize, depth, maxReqs, i, j, batch, warmup, ready, got, k);
    }
    forall k: nat | k < |batch| && got.outputs.Some?
      ensures |got.outputs.value.indices| == |batch|
      ensures got.outputs.value.indices[k] == if KeptAt(batch, es[i..j], k) then batch[k].index else -1
    {
      DroppedIffFreed(ws, es, ppSize, depth, maxReqs, i, j, batch, warmup, ready, got, k);
    }
    if got.outputs.Some? {
      var m :| 0 <= m < |batch| && Wanted(batch[m]);
      GetHasOutput(ws[j].s, ready, got);
      var k :| 0 <= k < |got.outputs.value.indices| && got.outputs.value.indices[k] >= 0;
      assert KeptAt(batch, es[i..j], k);
    }
  }

  /** Outputs that are returned update some row, if they have any. */
  lemma GetHasOutput(s: State, ready: bool, got: Got)
    requires s.queue != [] && (s.queue[0].Some? ==> WellFormed(s.gens, s.queue[0].value)) && |s.held| == |s.inUse|
    requires Get(s, ready) == Ok(got) && got.outputs.Some? && got.outputs.value.indices != []
    ensures exists k :: 0 <= k < |got.outputs.value.indices| && got.outputs.value.indices[k] >= 0
  {
    var p := s.queue[0].value;
    var keep := Keep(s.gens, p);
    assert true in keep;
    var k :| 0 <= k < |keep| && keep[k];
    assert got.outputs.value.indices[k] == p.rows[k];
  }

  lemma ReceivedEntry(w: World, t: World, batch: seq<Row>, warmup: bool)
    requires Usable(w) && Allowed(w, Recv(batch, warmup)) && Step(w, Recv(batch, warmup)) == Ok(t) && AnyNeeded(batch)
    ensures |t.log| == |w.log| && !t.open && t.log[|w.log| - 1].Some?
    ensures var p := t.log[|w.log| - 1].value;
            && p.step == |w.log| - 1 && p.rows == Indices(batch) && p.need == Mask(batch) && p.gens == Snapshot(w.s.gens, batch)
            && (p.slot.Some? <==> !warmup)
  {}

  // ---- a shallower ring does overrun ----

  /** A row that always needs its sample. */
  function Busy(): (r: Row)
    ensures NeedsSample(r) && r.index == 0
  {
    Row(0, 0, 1, 1, 3)
  }

  /** `k` steps have filled the first `k` slots and nothing has been polled. */
  ghost predicate Filling(w: World, ppSize: nat, depth: nat, k: nat) {
    && k <= depth < ppSize && 0 < depth && |w.s.gens| > 0 && |w.log| == k && !w.open
    && |w.s.queue| == ppSize && (forall q :: 0 <= q < ppSize - k ==> w.s.queue[q] == None)
    && (forall q :: 0 <= q < ppSize && w.s.queue[q].Some? ==> WellFormed(w.s.gens, w.s.queue[q].value))
    && |w.s.inUse| == |w.s.held| == depth && w.s.next == (if k == depth then 0 else k)
    && (forall j :: 0 <= j < depth ==> (w.s.inUse[j] <==> j < k))
  }

  lemma FillOne(w: World, ppSize: nat, depth: nat, k: nat) returns (a: World, b: World)
    requires Filling(w, ppSize, depth, k) && k < depth
    ensures Follows(w, GetPrev(true), a) && Follows(a, Recv([Busy()], false), b) && Filling(b, ppSize, depth, k + 1)
  {
    a := World(w.s.(queue := w.s.queue[1..] + [None]), w.log + [None], true);
    assert Step(w, GetPrev(true)) == Ok(a);
    assert NeedsSample([Busy()][0]) && a.s.queue[0] == None;
    b := Step(a, Recv([Busy()], false)).value;
  }

  lemma {:induction false} FillUp(ppSize: nat, depth: nat, maxReqs: nat, k: nat) returns (ws: seq<World>, es: seq<Event>)
    requires k <= depth < ppSize && 0 < depth && 0 < maxReqs
    ensures IsRun(ws, es, ppSize, depth, maxReqs) && Filling(ws[|es|], ppSize, depth, k)
  {
    if k == 0 {
      ws, es := [Start(ppSize, depth, maxReqs)], [];
    } else {
      ws, es := FillUp(ppSize, depth, maxReqs, k - 1);
      var a, b := FillOne(ws[|es|], ppSize, depth, k - 1);
      ws, es := ws + [a, b], es + [GetPrev(true), Recv([Busy()], false)];
    }
  }

  /** The depth is needed: with fewer slots than pipeline stages a full pipeline overruns. */
  lemma ShallowRingOverruns(ppSize: nat, depth: nat, maxReqs: nat) returns (ws: seq<World>, es: seq<Event>)
    requires 0 < depth < ppSize && 0 < maxReqs
    ensures IsRun(ws, es, ppSize, depth, maxReqs) && Usable(ws[|es|]) && Allowed(ws[|es|], Recv([Busy()], false))
    ensures Step(ws[|es|], Recv([Busy()], false)) == Failed(Overrun)
  {
    ws, es := FillUp(ppSize, depth, maxReqs, depth);
    var w := ws[|es|];
    var a := World(w.s.(queue := w.s.queue[1..] + [None]), w.log + [None], true);
    assert Follows(w, GetPrev(true), a);
    assert NeedsSample([Busy()][0]);
    ws, es := ws + [a], es + [GetPrev(true)];
  }

  // ---- the handler itself ----

  class PpHandler {
    var queue: seq<Option<Pending>>
    var gens: seq<nat>
    var next: nat
    var inUse: seq<bool>
    var held: seq<nat>
    var shadow: seq<Pending>

    ghost function Contents(): State
      reads this
    {
      State(queue, gens, next, inUse, held, shadow)
    }

    constructor (ppSize: nat, depth: nat, maxReqs: nat)
      ensures Contents() == Start(ppSize, depth, maxReqs).s
    {
      queue, gens := seq(ppSize, _ => None), seq(maxReqs, _ => 0);
      next, inUse, held, shadow := 0, seq(depth, _ => false), seq(depth, _ => 0), [];
    }

    method OnRequestFreed(index: nat)
      requires index < |gens|
      modifies `gens
      ensures Contents() == old(Contents()).(gens := old(gens)[index := old(gens)[index] + 1])
    {
      gens := gens[index := gens[index] + 1];
    }

    /** The mask of rows to keep. */
    method KeepMask(p: Pending) returns (keep: seq<bool>)
      requires WellFormed(gens, p)
      ensures keep == Keep(gens, p)
    {
      keep := [];
      for i := 0 to |p.rows|
        invariant keep == Keep(gens, p)[..i]
      {
        var freed := Stored(gens[p.rows[i]]) != Stored(p.gens[i]);
        keep := keep + [p.need[i] && !freed];
      }
    }

    method Filtered(p: Pending) returns (outputs: Option<Outputs>)
      requires WellFormed(gens, p)
      ensures outputs == OutputsOf(gens, p)
    {
      var keep := KeepMask(p);
      if |keep| > 0 && true !in keep {
        return None;
      }
      var indices: seq<int> := [];
      for i := 0 to |keep|
        invariant |indices| == i && forall k :: 0 <= k < i ==> indices[k] == if keep[k] then p.rows[k] as int else -1
      {
        indices := indices + [if keep[i] then p.rows[i] else -1];
      }
      assert indices == seq(|keep|, i requires 0 <= i < |keep| => if keep[i] then p.rows[i] as int else -1);
      return Some(Outputs(p.step, indices));
    }

    method GetPrevSampledOutputs(ready: bool) returns (r: Result<(Option<Outputs>, Option<Metadata>)>)
      requires queue != [] && (queue[0].Some? ==> WellFormed(gens, queue[0].value)) && |held| == |inUse|
      modifies this
      ensures match Get(old(Contents()), ready)
              case Failed(f) => r == Failed(f)
              case Ok(got) => r == Ok((got.outputs, got.metadata)) && Contents() == got.state
    {
      var entry := queue[0];
      queue := queue[1..] + [None];
      match entry {
        case None => return Ok((None, None));
        case Some(p) => {
          var outputs := Filtered(p);
          match p.slot {
            case None => return Ok((outputs, None));
            case Some(slot) => {
              if |shadow| == 0 || shadow[0] != p {
                return Failed(Diverged);
              }
              if !ready {
                return Failed(Late);
              }
              if slot >= |inUse| || !inUse[slot] {
                return Failed(AlreadyConsumed);
              }
              shadow := shadow[1..];
              inUse := inUse[slot := false];
              var keep := KeepMask(p);
              return Ok((outputs, Some(Metadata(held[slot], keep))));
            }
          }
        }
      }
    }

    /** `all`: the samples of all rows are wanted. */
    method Receive(step: nat, batch: seq<Row>, warmup: bool) returns (fault: Option<Fault>, all: bool)
      requires queue != [] && |held| == |inUse| && next < |inUse|
      requires forall i :: 0 <= i < |batch| ==> batch[i].index < |gens|
      modifies this
      ensures match ReceiveInto(old(Contents()), step, batch, warmup)
              case Failed(f) => fault == Some(f)
              case Ok(t) => fault == None && Contents() == t
      ensures fault.None? ==> queue != [] && LeavesEntry(old(Contents()), Contents(), step, batch, warmup)
      ensures fault.None? ==> (all <==> batch != [] && forall i :: 0 <= i < |batch| ==> Wanted(batch[i]))
    {
      ReceiveLeavesEntry(Contents(), step, batch, warmup);
      NeededMeansWanted(batch);
      if !AnyNeeded(batch) {
        assert batch != [] ==> !Wanted(batch[0]);
        return None, false;
      }
      all := false !in Mask(batch);
      assert all <==> forall i :: 0 <= i < |batch| ==> Mask(batch)[i];
      var pending := Pending(step, Indices(batch), Mask(batch), Snapshot(gens, batch), None);
      queue := queue[|queue| - 1 := Some(pending)];
      if warmup {
        return None, all;
      }
      var slot := next;
      next := if next + 1 == |inUse| then 0 else next + 1;
      if inUse[slot] {
        return Some(Overrun), false;
      }
      held := held[slot := step];
      inUse := inUse[slot := true];
      pending := pending.(slot := Some(slot));
      queue := queue[|queue| - 1 := Some(pending)];
      shadow := shadow + [pending];
      return None, all;
    }
  }
}
