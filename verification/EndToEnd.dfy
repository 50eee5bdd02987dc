/** The whole native read: a planned request, carried out by the worker pool under any
    interleaving and gathered row by row, against the naive lookup of the same rows. */
module EndToEnd {
  import opened Options
  import opened Pages
  import opened Spans
  import opened PagePlan
  import opened LanePacking
  import opened GatherPlan
  import opened NativeRead
  import opened WorkerPool
  import Artifact

  /** The rows of `ids`, one after the other. */
  function Lookup(file: seq<Byte>, g: Geometry, ids: seq<int>): (rows: seq<Byte>)
    requires 0 < g.blockRows
    requires forall i :: 0 <= i < |ids| ==> 0 <= ids[i] && RowOffset(g, ids[i]) + g.rowBytes <= |file|
  {
    if ids == [] then []
    else Lookup(file, g, ids[..|ids| - 1]) + NaiveRow(file, g, ids[|ids| - 1])
  }

  ghost predicate RowsReadable(file: seq<Byte>, g: Geometry, ids: seq<int>) {
    0 < g.blockRows && forall i :: 0 <= i < |ids| ==> 0 <= ids[i] && RowOffset(g, ids[i]) + g.rowBytes <= |file|
  }

  ghost predicate RowAt(output: seq<Byte>, at: nat, file: seq<Byte>, g: Geometry, ids: seq<int>, i: nat)
    requires i < |ids| && 0 < g.blockRows
  {
    0 <= ids[i] && RowReceived(output, at + i * g.rowBytes, file, g, ids[i])
  }

  ghost predicate AllReceived(output: seq<Byte>, at: nat, file: seq<Byte>, g: Geometry, ids: seq<int>) {
    0 < g.blockRows && forall i: nat {:trigger RowAt(output, at, file, g, ids, i)} :: i < |ids| ==>
      RowAt(output, at, file, g, ids, i)
  }

  ghost predicate IsLookup(output: seq<Byte>, at: nat, file: seq<Byte>, g: Geometry, ids: seq<int>) {
    && RowsReadable(file, g, ids) && at + |ids| * g.rowBytes <= |output|
    && output[at..at + |ids| * g.rowBytes] == Lookup(file, g, ids)
  }

  /** Rows received one by one are the lookup as a whole. */
  lemma {:induction false} ReceivedIsLookup(output: seq<Byte>, at: nat, file: seq<Byte>, g: Geometry, ids: seq<int>)
    requires AllReceived(output, at, file, g, ids) && at <= |output|
    ensures IsLookup(output, at, file, g, ids)
  {
    if ids != [] {
      var n := |ids| - 1;
      forall i: nat | i < n ensures RowAt(output, at, file, g, ids[..n], i) {
        assert RowAt(output, at, file, g, ids, i);
      }
      ReceivedIsLookup(output, at, file, g, ids[..n]);
      assert RowAt(output, at, file, g, ids, n);
      OneMoreRow(output, at, file, g, ids);
    }
  }

  lemma OneMoreRow(output: seq<Byte>, at: nat, file: seq<Byte>, g: Geometry, ids: seq<int>)
    requires ids != [] && 0 < g.blockRows && IsLookup(output, at, file, g, ids[..|ids| - 1])
    requires RowAt(output, at, file, g, ids, |ids| - 1)
    ensures IsLookup(output, at, file, g, ids)
  {
    AppendRow(output, at, |ids| - 1, g.rowBytes);
    forall i | 0 <= i < |ids| ensures 0 <= ids[i] && RowOffset(g, ids[i]) + g.rowBytes <= |file| {
      assert i < |ids| - 1 ==> ids[..|ids| - 1][i] == ids[i];
    }
  }

  lemma AppendRow(output: seq<Byte>, at: nat, n: nat, rowBytes: nat)
    requires at + n * rowBytes + rowBytes <= |output|
    ensures (n + 1) * rowBytes == n * rowBytes + rowBytes
    ensures output[at..at + (n + 1) * rowBytes]
            == output[at..at + n * rowBytes] + output[at + n * rowBytes..at + n * rowBytes + rowBytes]
  {
    assert (n + 1) * rowBytes == n * rowBytes + rowBytes;
  }

  // ---- the plan fits the pool ----

  /** A pool with one worker per lane of the configuration. */
  predicate PoolFor(p: Pool, c: Config) {
    p.workers == c.lanes && p.laneCapacity == c.laneCapacity
  }

  lemma PlanIsGoodRequest(p: Pool, plan: Plan, q: Request, c: Config, staging: seq<Byte>)
    requires GoodPlan(plan, q, c) && PoolFor(p, c) && |staging| == c.stagingCapacity
    ensures GoodRequest(p, plan.ranges, staging)
  {
    PlanPassesReadChecks(plan, q, c);
    LanesFitStaging(c);
  }

  // ---- the refinement ----

  /** The gather kernel has copied every row of the plan. */
  ghost predicate Gathered(staging: seq<Byte>, output: seq<Byte>, plan: Plan, q: Request) {
    forall i :: 0 <= i < |plan.gather| ==>
      GatheredRow(staging, output, plan.gather, q.outputOffset, q.g.rowBytes, i)
  }

  /** A request of the pool that returned normally, for the planned ranges. */
  ghost predicate ReturnedFor(p: Pool, states: seq<State>, steps: seq<Step>, i: nat, plan: Plan) {
    && Run(p, states, steps) && i < |steps| && steps[i].Collect?
    && states[i].active == Some(plan.ranges) && states[i + 1].outcome.Returned?
  }

  /** Every row whose pages are staged together arrives, whichever way the workers interleaved. */
  lemma ThreadedRowsReceived(p: Pool, states: seq<State>, steps: seq<Step>, i: nat,
                             plan: Plan, q: Request, c: Config, output: seq<Byte>)
    requires GoodPlan(plan, q, c) && q.g.rowBytes <= 4096
    requires ReturnedFor(p, states, steps, i, plan)
    requires Gathered(states[i + 1].staging, output, plan, q)
    ensures states[i + 1].outcome.bytes == TotalSize(plan.ranges)
    ensures ContiguousRowsReceived(output, p.file, plan, q)
  {
    NormalReturn(p, states, steps, i);
    GoodPlanIsReadable(plan, q, c);
    RowsReceived(p.file, states[i + 1].staging, output, plan, q, c);
  }

  /** The native read refines the naive lookup: when no row crosses a page, or no run of planned
      pages is longer than a range may be, the output is the lookup, byte for byte. */
  lemma ThreadedReadIsLookup(p: Pool, states: seq<State>, steps: seq<Step>, i: nat,
                             plan: Plan, q: Request, c: Config, output: seq<Byte>)
    requires GoodPlan(plan, q, c) && q.g.rowBytes <= 4096
    requires ReturnedFor(p, states, steps, i, plan)
    requires Gathered(states[i + 1].staging, output, plan, q) && q.outputOffset <= |output|
    requires NoRowCrosses(q) || RunsFit(plan.pages, q, c)
    ensures IsLookup(output, q.outputOffset, p.file, q.g, q.ids)
  {
    ThreadedRowsReceived(p, states, steps, i, plan, q, c, output);
    AllRowsContiguous(plan, q, c);
    RowsAllReceived(output, p.file, plan, q);
    ReceivedIsLookup(output, q.outputOffset, p.file, q.g, q.ids);
  }

  lemma RowsAllReceived(output: seq<Byte>, file: seq<Byte>, plan: Plan, q: Request)
    requires 0 < q.g.blockRows && |plan.gather| == |q.ids| && ContiguousRowsReceived(output, file, plan, q)
    requires forall i :: 0 <= i < |q.ids| ==> 0 <= q.ids[i] && RowContiguous(plan, q, i)
    ensures AllReceived(output, q.outputOffset, file, q.g, q.ids)
  {
    forall r: nat | r < |q.ids| ensures RowAt(output, q.outputOffset, file, q.g, q.ids, r) {
      assert RowContiguous(plan, q, r);
    }
  }

  // ---- from the source table to the output ----

  /** The file the pool reads is an artifact of `rows`, and the request addresses component `k`. */
  ghost predicate ReadsComponent(file: seq<Byte>, m: Artifact.Metadata, rows: seq<Artifact.RowSource>,
                                 globals: seq<Artifact.GlobalSource>, k: nat, q: Request) {
    && Artifact.MetadataOk(m) && Artifact.LaidOut(m, rows, globals)
    && Artifact.StoredUpTo(file, m, rows, globals, |rows|, |globals|)
    && k < |rows| && Artifact.ValidRows(rows[k], m.rowCount)
    && q.g == m.components[k].g && q.rowCount == m.rowCount
  }

  /** Conversion and threaded read together: output row `r` is row `ids[r]` of the source table. */
  lemma SourceToOutput(p: Pool, states: seq<State>, steps: seq<Step>, i: nat, plan: Plan, q: Request, c: Config,
                       output: seq<Byte>, m: Artifact.Metadata, rows: seq<Artifact.RowSource>,
                       globals: seq<Artifact.GlobalSource>, k: nat, r: nat)
    requires GoodPlan(plan, q, c) && q.g.rowBytes <= 4096 && ReadsComponent(p.file, m, rows, globals, k, q)
    requires ReturnedFor(p, states, steps, i, plan)
    requires Gathered(states[i + 1].staging, output, plan, q)
    requires r < |q.ids| && RowContiguous(plan, q, r)
    ensures 0 <= q.ids[r] < m.rowCount
    ensures var at := q.outputOffset + r * q.g.rowBytes;
            && at + q.g.rowBytes <= |output|
            && output[at..at + q.g.rowBytes] == Artifact.SourceRow(rows[k], m.rowCount, q.ids[r])
  {
    ThreadedRowsReceived(p, states, steps, i, plan, q, c, output);
    assert ValidIds(q.ids, q.rowCount, q.g);
    Artifact.StoredRowIsSourceRow(p.file, m, rows, globals, k, q.ids[r]);
  }

  // ---- exactly which rows of a request arrive ----

  /** In terms of the request and its plan: row `i` is delivered right for every file and every
      stale staging content exactly when its second page, if it has one, was staged right behind
      the first. */
  lemma RowDeliveredIff(q: Request, c: Config, plan: Plan, i: nat, fileSize: nat)
    requires ValidConfig(c) && ValidRequest(q) && PlanOf(q, c) == Ok(plan)
    requires 0 < q.g.blockRows && 0 < q.g.rowBytes <= 4096 && i < |q.ids| && 0 <= q.ids[i] && i < |plan.gather|
    requires Inside(plan.ranges, fileSize, c.stagingCapacity)
    ensures RowContiguous(plan, q, i) <==>
            forall file: seq<Byte>, staging: seq<Byte> ::
              |file| == fileSize && |staging| == c.stagingCapacity && AllDelivered(file, staging, plan.ranges)
              ==> RowIntact(file, staging, RowOffset(q.g, q.ids[i]), plan.gather[i], q.g.rowBytes)
  {
    PlanOfMeaning(q, c);
    PlanPassesReadChecks(plan, q, c);
    RowIntactIffContiguous(plan.ranges, fileSize, c.stagingCapacity, RowOffset(q.g, q.ids[i]), plan.gather[i], q.g.rowBytes);
  }
}
