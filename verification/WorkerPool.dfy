/** The generation-numbered worker pool behind `sync_mt_read` and `worker_loop`.

    A request publishes its ranges under the work mutex and bumps the generation; every worker
    scans the ranges, reads those of its own lane, adds its counts and reports; the caller
    waits until nobody is pending. Steps of the caller and of the workers interleave freely. */
module WorkerPool {
  import opened Options
  import opened Pages
  import opened LanePacking
  import opened GatherPlan

  /** Fixed: the file, the number of workers (one per lane) and the lane capacity. */
  datatype Pool = Pool(file: seq<Byte>, workers: nat, laneCapacity: nat)

  datatype Phase =
    | Waiting
    | Scanning(next: nat, bytes: nat, ios: nat)
    | AddingBytes(bytes: nat, ios: nat)
    | AddingIos(ios: nat)
    | Reporting

  datatype Worker = Worker(observed: nat, handled: nat, phase: Phase)

  datatype Outcome = Nothing | Returned(bytes: nat) | Failed | IoCountMismatch

  datatype State = State(
    generation: nat, pending: nat, active: Option<seq<Range>>,
    workBytes: nat, workIos: nat, failed: bool,
    workers: seq<Worker>, staging: seq<Byte>,
    timesRead: seq<nat>,          // how often each range of the request was read in full
    outcome: Outcome)

  datatype Step =
    | Post(ranges: seq<Range>, staging: seq<Byte>)
    | Wake(w: nat)
    | Skip(w: nat)
    | ReadOk(w: nat)
    | ReadFails(w: nat)
    | SeeFailure(w: nat)
    | EndOfScan(w: nat)
    | AddBytes(w: nat)
    | AddIos(w: nat)
    | Report(w: nat)
    | Collect

  /** A request the planner may hand over: placed inside the lanes, apart from each other. */
  ghost predicate GoodRequest(p: Pool, ranges: seq<Range>, staging: seq<Byte>) {
    && 0 < p.laneCapacity
    && StagingDisjoint(ranges)
    && (forall j :: 0 <= j < |ranges| ==>
          && LaneOf(ranges[j], p.laneCapacity) < p.workers
          && ranges[j].stagingOffset + ranges[j].size <= |staging|)
  }

  predicate Mine(p: Pool, r: Range, w: nat)
    requires 0 < p.laneCapacity
  {
    LaneOf(r, p.laneCapacity) == w
  }

  ghost predicate AtRange(p: Pool, s: State, w: nat) {
    && w < |s.workers| && s.workers[w].phase.Scanning? && s.active.Some?
    && s.workers[w].phase.next < |s.active.value| && 0 < p.laneCapacity
  }

  ghost predicate Enabled(p: Pool, s: State, step: Step) {
    match step
    case Post(ranges, staging) => s.active.None? && GoodRequest(p, ranges, staging)
    case Wake(w) => w < |s.workers| && s.workers[w].phase.Waiting? && s.workers[w].observed != s.generation
    case Skip(w) => AtRange(p, s, w) && !s.failed && !Mine(p, s.active.value[s.workers[w].phase.next], w)
    case ReadOk(w) => AtRange(p, s, w) && !s.failed && Mine(p, s.active.value[s.workers[w].phase.next], w)
                      && s.active.value[s.workers[w].phase.next].fileOffset + s.active.value[s.workers[w].phase.next].size <= |p.file|
                      && s.active.value[s.workers[w].phase.next].stagingOffset + s.active.value[s.workers[w].phase.next].size <= |s.staging|
                      && s.workers[w].phase.next < |s.timesRead|
    case ReadFails(w) => AtRange(p, s, w) && !s.failed && Mine(p, s.active.value[s.workers[w].phase.next], w)
    case SeeFailure(w) => AtRange(p, s, w) && s.failed
    case EndOfScan(w) => w < |s.workers| && s.workers[w].phase.Scanning? && s.active.Some?
                         && s.workers[w].phase.next == |s.active.value|
    case AddBytes(w) => w < |s.workers| && s.workers[w].phase.AddingBytes?
    case AddIos(w) => w < |s.workers| && s.workers[w].phase.AddingIos?
    case Report(w) => w < |s.workers| && s.workers[w].phase.Reporting? && 0 < s.pending
    case Collect => s.active.Some? && s.pending == 0
  }

  function SetPhase(s: State, w: nat, phase: Phase): State
    requires w < |s.workers|
  {
    s.(workers := s.workers[w := s.workers[w].(phase := phase)])
  }

  /** The staging slot after range `r` has been read into it. */
  function Filled(file: seq<Byte>, staging: seq<Byte>, r: Range): (after: seq<Byte>)
    requires r.fileOffset + r.size <= |file| && r.stagingOffset + r.size <= |staging|
    ensures |after| == |staging| && Delivered(file, after, r)
    ensures forall q :: 0 <= q < |after| && !(r.stagingOffset <= q < r.stagingOffset + r.size) ==> after[q] == staging[q]
  {
    var after := staging[..r.stagingOffset] + file[r.fileOffset..r.fileOffset + r.size]
                 + staging[r.stagingOffset + r.size..];
    assert after[r.stagingOffset..r.stagingOffset + r.size] == file[r.fileOffset..r.fileOffset + r.size];
    after
  }

  ghost function Apply(p: Pool, s: State, step: Step): State
    requires Enabled(p, s, step)
  {
    match step
    case Post(ranges, staging) =>
      s.(active := Some(ranges), workBytes := 0, workIos := 0, failed := false, pending := |s.workers|,
         generation := s.generation + 1, staging := staging, timesRead := seq(|ranges|, _ => 0), outcome := Nothing)
    case Wake(w) =>
      s.(workers := s.workers[w := s.workers[w].(observed := s.generation, phase := Scanning(0, 0, 0))])
    case Skip(w) =>
      var ph := s.workers[w].phase;
      SetPhase(s, w, Scanning(ph.next + 1, ph.bytes, ph.ios))
    case ReadOk(w) =>
      var ph := s.workers[w].phase;
      var r := s.active.value[ph.next];
      SetPhase(s.(staging := Filled(p.file, s.staging, r), timesRead := s.timesRead[ph.next := s.timesRead[ph.next] + 1]),
               w, Scanning(ph.next + 1, ph.bytes + r.size, ph.ios + 1))
    case ReadFails(w) =>
      var ph := s.workers[w].phase;
      SetPhase(s.(failed := true), w, AddingBytes(ph.bytes, ph.ios))
    case SeeFailure(w) =>
      var ph := s.workers[w].phase;
      SetPhase(s, w, AddingBytes(ph.bytes, ph.ios))
    case EndOfScan(w) =>
      var ph := s.workers[w].phase;
      SetPhase(s, w, AddingBytes(ph.bytes, ph.ios))
    case AddBytes(w) =>
      var ph := s.workers[w].phase;
      SetPhase(s.(workBytes := s.workBytes + ph.bytes), w, AddingIos(ph.ios))
    case AddIos(w) =>
      var ph := s.workers[w].phase;
      SetPhase(s.(workIos := s.workIos + ph.ios), w, Reporting)
    case Report(w) =>
      s.(pending := s.pending - 1,
         workers := s.workers[w := s.workers[w].(phase := Waiting, handled := s.workers[w].handled + 1)])
    case Collect =>
      s.(active := None,
         outcome := if s.failed then Failed
                    else if s.workIos != |s.active.value| then IoCountMismatch
                    else Returned(s.workBytes))
  }

  ghost predicate Init(p: Pool, s: State) {
    && s.generation == 0 && s.pending == 0 && s.active.None? && s.outcome.Nothing?
    && |s.workers| == p.workers
    && (forall w :: 0 <= w < p.workers ==> s.workers[w] == Worker(0, 0, Waiting))
  }

  // ---- sums over workers ----

  function SumWhere(flags: seq<bool>, values: seq<nat>): nat
    requires |flags| == |values|
  {
    if flags == [] then 0 else (if flags[0] then values[0] else 0) + SumWhere(flags[1..], values[1..])
  }

  lemma {:induction false} SumWhereFlip(flags: seq<bool>, values: seq<nat>, i: nat, on: bool)
    requires |flags| == |values| && i < |flags| && flags[i] != on
    ensures on ==> SumWhere(flags[i := on], values) == SumWhere(flags, values) + values[i]
    ensures !on ==> SumWhere(flags[i := on], values) + values[i] == SumWhere(flags, values)
  {
    if i == 0 {
      assert flags[0 := on][1..] == flags[1..];
    } else {
      assert flags[i := on][1..] == flags[1..][i - 1 := on];
      SumWhereFlip(flags[1..], values[1..], i - 1, on);
    }
  }

  function LaneBytes(ranges: seq<Range>, w: nat, capacity: nat): nat
    requires 0 < capacity
  {
    if ranges == [] then 0
    else LaneBytes(ranges[..|ranges| - 1], w, capacity)
         + (if LaneOf(ranges[|ranges| - 1], capacity) == w then ranges[|ranges| - 1].size else 0)
  }

  function LaneCount(ranges: seq<Range>, w: nat, capacity: nat): nat
    requires 0 < capacity
  {
    if ranges == [] then 0
    else LaneCount(ranges[..|ranges| - 1], w, capacity)
         + (if LaneOf(ranges[|ranges| - 1], capacity) == w then 1 else 0)
  }

  function BytesPerLane(ranges: seq<Range>, lanes: nat, capacity: nat): (v: seq<nat>)
    requires 0 < capacity
    ensures |v| == lanes && forall w :: 0 <= w < lanes ==> v[w] == LaneBytes(ranges, w, capacity)
  {
    seq(lanes, w requires 0 <= w => LaneBytes(ranges, w, capacity))
  }

  function CountPerLane(ranges: seq<Range>, lanes: nat, capacity: nat): (v: seq<nat>)
    requires 0 < capacity
    ensures |v| == lanes && forall w :: 0 <= w < lanes ==> v[w] == LaneCount(ranges, w, capacity)
  {
    seq(lanes, w requires 0 <= w => LaneCount(ranges, w, capacity))
  }

  function AllTrue(n: nat): (f: seq<bool>)
    ensures |f| == n && forall i :: 0 <= i < n ==> f[i]
  {
    seq(n, _ => true)
  }

  lemma {:induction false} SumWhereZero(flags: seq<bool>, values: seq<nat>)
    requires |flags| == |values|
    requires forall i :: 0 <= i < |flags| ==> !flags[i] || values[i] == 0
    ensures SumWhere(flags, values) == 0
  {
    if flags != [] {
      SumWhereZero(flags[1..], values[1..]);
    }
  }

  lemma {:induction false} SumWhereBump(flags: seq<bool>, a: seq<nat>, b: seq<nat>, i: nat, d: nat)
    requires |flags| == |a| == |b| && i < |flags| && flags[i]
    requires b == a[i := a[i] + d]
    ensures SumWhere(flags, b) == SumWhere(flags, a) + d
  {
    if i == 0 {
      assert b[1..] == a[1..];
    } else {
      assert b[1..] == a[1..][i - 1 := a[1..][i - 1] + d];
      SumWhereBump(flags[1..], a[1..], b[1..], i - 1, d);
    }
  }

  /** Summing the lanes gives the whole request back. */
  lemma {:induction false} LanesPartition(ranges: seq<Range>, lanes: nat, capacity: nat)
    requires 0 < capacity && forall j :: 0 <= j < |ranges| ==> LaneOf(ranges[j], capacity) < lanes
    ensures SumWhere(AllTrue(lanes), BytesPerLane(ranges, lanes, capacity)) == TotalSize(ranges)
    ensures SumWhere(AllTrue(lanes), CountPerLane(ranges, lanes, capacity)) == |ranges|
  {
    if ranges == [] {
      SumWhereZero(AllTrue(lanes), BytesPerLane(ranges, lanes, capacity));
      SumWhereZero(AllTrue(lanes), CountPerLane(ranges, lanes, capacity));
    } else {
      var rest, r := ranges[..|ranges| - 1], ranges[|ranges| - 1];
      var w := LaneOf(r, capacity);
      LanesPartition(rest, lanes, capacity);
      var bytes, count := BytesPerLane(rest, lanes, capacity), CountPerLane(rest, lanes, capacity);
      assert BytesPerLane(ranges, lanes, capacity) == bytes[w := bytes[w] + r.size];
      assert CountPerLane(ranges, lanes, capacity) == count[w := count[w] + 1];
      SumWhereBump(AllTrue(lanes), bytes, BytesPerLane(ranges, lanes, capacity), w, r.size);
      SumWhereBump(AllTrue(lanes), count, CountPerLane(ranges, lanes, capacity), w, 1);
    }
  }

  // ---- the invariant ----

  predicate Finished(worker: Worker, generation: nat) {
    worker.phase.Waiting? && worker.observed == generation
  }

  ghost function Unfinished(s: State): (f: seq<bool>)
    ensures |f| == |s.workers|
    ensures forall w :: 0 <= w < |f| ==> f[w] == !Finished(s.workers[w], s.generation)
  {
    seq(|s.workers|, w requires 0 <= w < |s.workers| => !Finished(s.workers[w], s.generation))
  }

  predicate BytesIn(worker: Worker, generation: nat) {
    Finished(worker, generation) || worker.phase.AddingIos? || worker.phase.Reporting?
  }

  predicate IosIn(worker: Worker, generation: nat) {
    Finished(worker, generation) || worker.phase.Reporting?
  }

  ghost function BytesFlags(s: State): (f: seq<bool>)
    ensures |f| == |s.workers|
    ensures forall w :: 0 <= w < |f| ==> f[w] == BytesIn(s.workers[w], s.generation)
  {
    seq(|s.workers|, w requires 0 <= w < |s.workers| => BytesIn(s.workers[w], s.generation))
  }

  ghost function IosFlags(s: State): (f: seq<bool>)
    ensures |f| == |s.workers|
    ensures forall w :: 0 <= w < |f| ==> f[w] == IosIn(s.workers[w], s.generation)
  {
    seq(|s.workers|, w requires 0 <= w < |s.workers| => IosIn(s.workers[w], s.generation))
  }

  function Ones(n: nat): (v: seq<nat>)
    ensures |v| == n && forall i :: 0 <= i < n ==> v[i] == 1
  {
    seq(n, _ => 1)
  }

  /** Each worker is one generation behind and asleep, or on the current one. */
  ghost predicate WorkerOk(s: State, w: nat)
    requires w < |s.workers|
  {
    var k := s.workers[w];
    && (k.observed == s.generation || (k.observed + 1 == s.generation && k.phase.Waiting?))
    && k.handled + (if k.phase.Waiting? then 0 else 1) == k.observed
    && (s.active.None? ==> Finished(k, s.generation))
  }

  ghost predicate BarrierInv(p: Pool, s: State) {
    && |s.workers| == p.workers
    && (forall w :: 0 <= w < |s.workers| ==> WorkerOk(s, w))
    && s.pending == SumWhere(Unfinished(s), Ones(|s.workers|))
  }

  /** How far worker `w` has come through the ranges, as long as nothing has failed. */
  ghost function Progress(s: State, w: nat): nat
    requires w < |s.workers| && s.active.Some?
  {
    var k := s.workers[w];
    if k.observed != s.generation then 0
    else if k.phase.Scanning? then k.phase.next
    else |s.active.value|
  }

  ghost predicate WorkDone(p: Pool, s: State, w: nat)
    requires w < |s.workers| && s.active.Some? && 0 < p.laneCapacity
  {
    var ranges, k := s.active.value, s.workers[w];
    && Progress(s, w) <= |ranges|
    && (k.phase.Scanning? ==>
          && k.phase.next <= |ranges|
          && k.phase.bytes == LaneBytes(ranges[..k.phase.next], w, p.laneCapacity)
          && k.phase.ios == LaneCount(ranges[..k.phase.next], w, p.laneCapacity))
    && (k.phase.AddingBytes? ==> k.phase.bytes == LaneBytes(ranges, w, p.laneCapacity))
    && (k.phase.AddingBytes? ==> k.phase.ios == LaneCount(ranges, w, p.laneCapacity))
    && (k.phase.AddingIos? ==> k.phase.ios == LaneCount(ranges, w, p.laneCapacity))
  }

  /** A range is in staging, and was read once, exactly when its worker is past it. */
  ghost predicate RangeOk(p: Pool, s: State, j: nat)
    requires s.active.Some? && 0 < p.laneCapacity && j < |s.active.value| && |s.timesRead| == |s.active.value|
  {
    var r := s.active.value[j];
    var w := LaneOf(r, p.laneCapacity);
    w < |s.workers| &&
    if j < Progress(s, w) then Delivered(p.file, s.staging, r) && s.timesRead[j] == 1 else s.timesRead[j] == 0
  }

  ghost predicate RequestOk(p: Pool, s: State) {
    s.active.Some? ==>
      && GoodRequest(p, s.active.value, s.staging)
      && |s.timesRead| == |s.active.value|
  }

  ghost predicate DataInv(p: Pool, s: State) {
    s.active.Some? && !s.failed ==>
      && 0 < p.laneCapacity && |s.timesRead| == |s.active.value| && |s.workers| == p.workers
      && (forall w :: 0 <= w < |s.workers| ==> WorkDone(p, s, w))
      && (forall j :: 0 <= j < |s.active.value| ==> RangeOk(p, s, j))
      && s.workBytes == SumWhere(BytesFlags(s), BytesPerLane(s.active.value, |s.workers|, p.laneCapacity))
      && s.workIos == SumWhere(IosFlags(s), CountPerLane(s.active.value, |s.workers|, p.laneCapacity))
  }

  ghost predicate Inv(p: Pool, s: State) {
    BarrierInv(p, s) && RequestOk(p, s) && DataInv(p, s)
  }

  // ---- the invariant holds initially and is kept by every step ----

  lemma InitInv(p: Pool, s: State)
    requires Init(p, s)
    ensures Inv(p, s)
  {
    SumWhereZero(Unfinished(s), Ones(|s.workers|));
  }

  ghost predicate TouchesOnly(s: State, t: State, w: nat) {
    && w < |s.workers| && |t.workers| == |s.workers|
    && t.workers == s.workers[w := t.workers[w]]
    && t.generation == s.generation && t.active == s.active
  }

  lemma BarrierOneWorker(p: Pool, s: State, t: State, w: nat)
    requires BarrierInv(p, s) && TouchesOnly(s, t, w) && WorkerOk(t, w) && s.active.Some?
    requires !Finished(s.workers[w], s.generation)
    requires t.pending == (if Finished(t.workers[w], t.generation) then s.pending - 1 else s.pending)
    ensures BarrierInv(p, t)
  {
    forall v | 0 <= v < |t.workers| ensures WorkerOk(t, v) {
      assert WorkerOk(s, v);
    }
    if Finished(t.workers[w], t.generation) {
      assert Unfinished(t) == Unfinished(s)[w := false];
      SumWhereFlip(Unfinished(s), Ones(|s.workers|), w, false);
    } else {
      assert Unfinished(t) == Unfinished(s);
    }
  }

  lemma PendingPositive(p: Pool, s: State, w: nat)
    requires BarrierInv(p, s) && w < |s.workers| && !Finished(s.workers[w], s.generation)
    ensures 0 < s.pending
  {
    SumWhereFlip(Unfinished(s), Ones(|s.workers|), w, false);
  }

  lemma WorkerBusy(p: Pool, s: State, w: nat)
    requires BarrierInv(p, s) && w < |s.workers| && !Finished(s.workers[w], s.generation)
    ensures s.active.Some? && WorkerOk(s, w)
  {
    assert WorkerOk(s, w);
  }

  lemma NextBarrier(p: Pool, s: State, step: Step)
    requires BarrierInv(p, s) && Enabled(p, s, step)
    ensures BarrierInv(p, Apply(p, s, step))
  {
    var t := Apply(p, s, step);
    match step
    case Post(_, _) =>
      forall w | 0 <= w < |t.workers| ensures WorkerOk(t, w) && Unfinished(t)[w] {
        assert WorkerOk(s, w);
      }
      assert Unfinished(t) == AllTrue(|t.workers|);
      SumOfOnes(|t.workers|);
    case Collect =>
      forall w | 0 <= w < |t.workers| ensures WorkerOk(t, w) {
        assert WorkerOk(s, w);
        if !Finished(s.workers[w], s.generation) {
          PendingPositive(p, s, w);
          assert false;
        }
      }
      assert Unfinished(t) == Unfinished(s);
    case Wake(w) => WorkerBusy(p, s, w); BarrierOneWorker(p, s, t, w);
    case Skip(w) => WorkerBusy(p, s, w); BarrierOneWorker(p, s, t, w);
    case ReadOk(w) => WorkerBusy(p, s, w); BarrierOneWorker(p, s, t, w);
    case ReadFails(w) => WorkerBusy(p, s, w); BarrierOneWorker(p, s, t, w);
    case SeeFailure(w) => WorkerBusy(p, s, w); BarrierOneWorker(p, s, t, w);
    case EndOfScan(w) => WorkerBusy(p, s, w); BarrierOneWorker(p, s, t, w);
    case AddBytes(w) => WorkerBusy(p, s, w); BarrierOneWorker(p, s, t, w);
    case AddIos(w) => WorkerBusy(p, s, w); BarrierOneWorker(p, s, t, w);
    case Report(w) => WorkerBusy(p, s, w); BarrierOneWorker(p, s, t, w);
  }

  lemma {:induction false} SumOfOnes(n: nat)
    ensures SumWhere(AllTrue(n), Ones(n)) == n
  {
    if n > 0 {
      assert AllTrue(n)[1..] == AllTrue(n - 1) && Ones(n)[1..] == Ones(n - 1);
      SumOfOnes(n - 1);
    }
  }

  lemma NextRequest(p: Pool, s: State, step: Step)
    requires RequestOk(p, s) && Enabled(p, s, step)
    ensures RequestOk(p, Apply(p, s, step))
  {}

  // ---- data ----

  /** Ranges other than the one just read keep their bytes and their count. */
  lemma OtherRangesKept(p: Pool, s: State, t: State, w: nat)
    requires DataInv(p, s) && s.active.Some? && !s.failed && TouchesOnly(s, t, w) && !t.failed
    requires t.timesRead == s.timesRead && t.staging == s.staging
    requires forall j :: 0 <= j < |s.active.value| && Mine(p, s.active.value[j], w) ==>
               (j < Progress(s, w) <==> j < Progress(t, w))
    ensures forall j :: 0 <= j < |t.active.value| ==> RangeOk(p, t, j)
  {
    forall j | 0 <= j < |t.active.value| ensures RangeOk(p, t, j) {
      assert RangeOk(p, s, j);
    }
  }

  lemma OtherWorkersKept(p: Pool, s: State, t: State, w: nat)
    requires DataInv(p, s) && s.active.Some? && !s.failed && TouchesOnly(s, t, w)
    requires WorkDone(p, t, w)
    ensures forall v :: 0 <= v < |t.workers| ==> WorkDone(p, t, v)
  {
    forall v | 0 <= v < |t.workers| ensures WorkDone(p, t, v) {
      assert WorkDone(p, s, v);
    }
  }

  lemma SumsKept(p: Pool, s: State, t: State, w: nat)
    requires DataInv(p, s) && s.active.Some? && !s.failed && TouchesOnly(s, t, w)
    requires BytesIn(s.workers[w], s.generation) == BytesIn(t.workers[w], t.generation)
    requires IosIn(s.workers[w], s.generation) == IosIn(t.workers[w], t.generation)
    requires t.workBytes == s.workBytes && t.workIos == s.workIos
    ensures t.workBytes == SumWhere(BytesFlags(t), BytesPerLane(t.active.value, |t.workers|, p.laneCapacity))
    ensures t.workIos == SumWhere(IosFlags(t), CountPerLane(t.active.value, |t.workers|, p.laneCapacity))
  {
    assert BytesFlags(t) == BytesFlags(s);
    assert IosFlags(t) == IosFlags(s);
  }

  lemma ScanStep(ranges: seq<Range>, k: nat, w: nat, capacity: nat)
    requires 0 < capacity && k < |ranges|
    ensures LaneBytes(ranges[..k + 1], w, capacity)
            == LaneBytes(ranges[..k], w, capacity) + (if LaneOf(ranges[k], capacity) == w then ranges[k].size else 0)
    ensures LaneCount(ranges[..k + 1], w, capacity)
            == LaneCount(ranges[..k], w, capacity) + (if LaneOf(ranges[k], capacity) == w then 1 else 0)
  {
    assert ranges[..k + 1][..k] == ranges[..k];
  }

  lemma DataAfterPost(p: Pool, s: State, ranges: seq<Range>, staging: seq<Byte>)
    requires BarrierInv(p, s) && Enabled(p, s, Post(ranges, staging))
    ensures DataInv(p, Apply(p, s, Post(ranges, staging)))
  {
    var t := Apply(p, s, Post(ranges, staging));
    forall w | 0 <= w < |t.workers| ensures WorkDone(p, t, w) && Progress(t, w) == 0
                                            && !BytesFlags(t)[w] && !IosFlags(t)[w] {
      assert WorkerOk(s, w);
    }
    forall j | 0 <= j < |ranges| ensures RangeOk(p, t, j) {
      assert LaneOf(ranges[j], p.laneCapacity) < p.workers;
    }
    SumWhereZero(BytesFlags(t), BytesPerLane(ranges, |t.workers|, p.laneCapacity));
    SumWhereZero(IosFlags(t), CountPerLane(ranges, |t.workers|, p.laneCapacity));
  }

  /** Steps that move one worker without touching staging, read counts or the shared sums. */
  lemma DataQuiet(p: Pool, s: State, t: State, w: nat)
    requires Inv(p, s) && s.active.Some? && !s.failed && TouchesOnly(s, t, w) && !t.failed
    requires t.timesRead == s.timesRead && t.staging == s.staging && t.workBytes == s.workBytes && t.workIos == s.workIos
    requires WorkDone(p, t, w)
    requires BytesIn(s.workers[w], s.generation) == BytesIn(t.workers[w], t.generation)
    requires IosIn(s.workers[w], s.generation) == IosIn(t.workers[w], t.generation)
    requires forall j :: 0 <= j < |s.active.value| && Mine(p, s.active.value[j], w) ==>
               (j < Progress(s, w) <==> j < Progress(t, w))
    ensures DataInv(p, t)
  {
    OtherRangesKept(p, s, t, w);
    OtherWorkersKept(p, s, t, w);
    SumsKept(p, s, t, w);
  }

  lemma DataAfterRead(p: Pool, s: State, w: nat)
    requires Inv(p, s) && Enabled(p, s, ReadOk(w))
    ensures DataInv(p, Apply(p, s, ReadOk(w)))
  {
    var t := Apply(p, s, ReadOk(w));
    var ranges, k := s.active.value, s.workers[w].phase.next;
    assert WorkerOk(s, w) && WorkDone(p, s, w);
    ScanStep(ranges, k, w, p.laneCapacity);
    OtherWorkersKept(p, s, t, w);
    SumsKept(p, s, t, w);
    forall j | 0 <= j < |ranges| ensures RangeOk(p, t, j) {
      assert RangeOk(p, s, j);
      if j != k {
        if j < k { assert Apart(ranges[j], ranges[k]); } else { assert Apart(ranges[k], ranges[j]); }
        if j < Progress(s, LaneOf(ranges[j], p.laneCapacity)) {
          DeliveredElsewhere(p.file, s.staging, t.staging, ranges[j], ranges[k]);
        }
      }
    }
  }

  lemma DeliveredElsewhere(file: seq<Byte>, before: seq<Byte>, after: seq<Byte>, r: Range, other: Range)
    requires Delivered(file, before, r) && |before| == |after| && (Apart(r, other) || Apart(other, r))
    requires forall q :: 0 <= q < |after| && !(other.stagingOffset <= q < other.stagingOffset + other.size)
               ==> after[q] == before[q]
    ensures Delivered(file, after, r)
  {
    assert after[r.stagingOffset..r.stagingOffset + r.size] == before[r.stagingOffset..r.stagingOffset + r.size];
  }

  lemma DataAfterAddBytes(p: Pool, s: State, w: nat)
    requires Inv(p, s) && Enabled(p, s, AddBytes(w)) && !s.failed
    ensures DataInv(p, Apply(p, s, AddBytes(w)))
  {
    var t := Apply(p, s, AddBytes(w));
    WorkerBusy(p, s, w);
    assert WorkDone(p, s, w);
    OtherRangesKept(p, s, t, w);
    OtherWorkersKept(p, s, t, w);
    assert BytesFlags(t) == BytesFlags(s)[w := true] && IosFlags(t) == IosFlags(s);
    SumWhereFlip(BytesFlags(s), BytesPerLane(s.active.value, |s.workers|, p.laneCapacity), w, true);
  }

  lemma DataAfterAddIos(p: Pool, s: State, w: nat)
    requires Inv(p, s) && Enabled(p, s, AddIos(w)) && !s.failed
    ensures DataInv(p, Apply(p, s, AddIos(w)))
  {
    var t := Apply(p, s, AddIos(w));
    WorkerBusy(p, s, w);
    assert WorkDone(p, s, w);
    OtherRangesKept(p, s, t, w);
    OtherWorkersKept(p, s, t, w);
    assert BytesFlags(t) == BytesFlags(s) && IosFlags(t) == IosFlags(s)[w := true];
    SumWhereFlip(IosFlags(s), CountPerLane(s.active.value, |s.workers|, p.laneCapacity), w, true);
  }

  lemma NextData(p: Pool, s: State, step: Step)
    requires Inv(p, s) && Enabled(p, s, step)
    ensures DataInv(p, Apply(p, s, step))
  {
    var t := Apply(p, s, step);
    match step
    case Post(ranges, staging) => DataAfterPost(p, s, ranges, staging);
    case ReadOk(w) => DataAfterRead(p, s, w);
    case AddBytes(w) => if !s.failed { DataAfterAddBytes(p, s, w); }
    case AddIos(w) => if !s.failed { DataAfterAddIos(p, s, w); }
    case Wake(w) => if !s.failed { WorkerBusy(p, s, w); DataQuiet(p, s, t, w); }
    case Skip(w) =>
      assert WorkerOk(s, w) && WorkDone(p, s, w);
      ScanStep(s.active.value, s.workers[w].phase.next, w, p.laneCapacity);
      DataQuiet(p, s, t, w);
    case ReadFails(w) =>
    case SeeFailure(w) =>
    case EndOfScan(w) =>
      if !s.failed {
        assert WorkerOk(s, w) && WorkDone(p, s, w);
        assert s.active.value[..s.workers[w].phase.next] == s.active.value;
        DataQuiet(p, s, t, w);
      }
    case Report(w) => if !s.failed { WorkerBusy(p, s, w); assert WorkDone(p, s, w); DataQuiet(p, s, t, w); }
    case Collect =>
  }

  lemma NextInv(p: Pool, s: State, step: Step)
    requires Inv(p, s) && Enabled(p, s, step)
    ensures Inv(p, Apply(p, s, step))
  {
    NextBarrier(p, s, step);
    NextRequest(p, s, step);
    NextData(p, s, step);
  }

  // ---- runs ----

  ghost predicate Run(p: Pool, states: seq<State>, steps: seq<Step>) {
    && |states| == |steps| + 1 && Init(p, states[0])
    && forall i :: 0 <= i < |steps| ==> Enabled(p, states[i], steps[i]) && states[i + 1] == Apply(p, states[i], steps[i])
  }

  /** Over any number of requests, whatever the interleaving: the pending counter counts the
      workers that have not finished the current generation, and every worker has handled
      every generation exactly once (up to the current one, which it may still owe). */
  lemma {:induction false} EveryRunIsOrderly(p: Pool, states: seq<State>, steps: seq<Step>, i: nat)
    requires Run(p, states, steps) && i < |states|
    ensures Inv(p, states[i])
    ensures states[i].pending == SumWhere(Unfinished(states[i]), Ones(p.workers))
    ensures forall w :: 0 <= w < p.workers ==>
              states[i].workers[w].handled ==
              (if Finished(states[i].workers[w], states[i].generation) then states[i].generation else states[i].generation - 1)
  {
    if i == 0 {
      InitInv(p, states[0]);
    } else {
      EveryRunIsOrderly(p, states, steps, i - 1);
      assert states[i - 1 + 1] == Apply(p, states[i - 1], steps[i - 1]);
      NextInv(p, states[i - 1], steps[i - 1]);
    }
    forall w | 0 <= w < p.workers
      ensures states[i].workers[w].handled ==
              (if Finished(states[i].workers[w], states[i].generation) then states[i].generation else states[i].generation - 1)
    {
      assert WorkerOk(states[i], w);
    }
  }

  /** A worker that is anywhere in its scan finds the ranges still published. */
  lemma NoUseAfterClear(p: Pool, states: seq<State>, steps: seq<Step>, i: nat, w: nat)
    requires Run(p, states, steps) && i < |states| && w < |states[i].workers|
    requires !states[i].workers[w].phase.Waiting?
    ensures states[i].active.Some? && 0 < states[i].pending
  {
    EveryRunIsOrderly(p, states, steps, i);
    WorkerBusy(p, states[i], w);
    PendingPositive(p, states[i], w);
  }

  /** What a return means: without a reported failure every range was read in full exactly
      once, the byte total is the size of the request, and the I/O count check passes. */
  lemma NormalReturn(p: Pool, states: seq<State>, steps: seq<Step>, i: nat)
    requires Run(p, states, steps) && i < |steps| && steps[i].Collect?
    ensures states[i + 1].outcome.Failed? <==> states[i].failed
    ensures !states[i + 1].outcome.IoCountMismatch?
    ensures states[i + 1].outcome.Returned? ==>
              var ranges := states[i].active.value;
              && states[i + 1].outcome.bytes == TotalSize(ranges)
              && AllDelivered(p.file, states[i + 1].staging, ranges)
              && |states[i].timesRead| == |ranges|
              && forall j :: 0 <= j < |ranges| ==> states[i].timesRead[j] == 1
  {
    var s := states[i];
    EveryRunIsOrderly(p, states, steps, i);
    assert states[i + 1] == Apply(p, s, steps[i]);
    if !s.failed {
      forall w | 0 <= w < |s.workers| ensures Finished(s.workers[w], s.generation) {
        if !Finished(s.workers[w], s.generation) {
          PendingPositive(p, s, w);
          assert false;
        }
      }
      assert BytesFlags(s) == AllTrue(|s.workers|) && IosFlags(s) == AllTrue(|s.workers|);
      LanesPartition(s.active.value, |s.workers|, p.laneCapacity);
      forall j | 0 <= j < |s.active.value|
        ensures Delivered(p.file, s.staging, s.active.value[j]) && s.timesRead[j] == 1
      {
        assert RangeOk(p, s, j);
      }
    }
  }
}
