/** Progress of the worker pool: a posted request cannot get stuck and ends after boundedly many
    steps in every schedule, and one that finds its file long enough can return normally. */
module PoolProgress {
  import opened Options
  import opened Pages
  import opened LanePacking
  import opened GatherPlan
  import opened NativeRead
  import opened WorkerPool
  import EndToEnd

  // ---- how many steps are left ----

  /** The steps a worker has at most left in this generation of `n` ranges. */
  function Left(k: Worker, generation: nat, n: nat): nat {
    match k.phase
    case Waiting => if k.observed == generation then 0 else n + 5
    case Scanning(next, _, _) => if next <= n then n - next + 4 else 4
    case AddingBytes(_, _) => 3
    case AddingIos(_) => 2
    case Reporting => 1
  }

  function AllLeft(workers: seq<Worker>, generation: nat, n: nat): nat {
    if workers == [] then 0 else Left(workers[0], generation, n) + AllLeft(workers[1..], generation, n)
  }

  function StepsLeft(s: State): nat {
    match s.active
    case None => 0
    case Some(ranges) => 1 + AllLeft(s.workers, s.generation, |ranges|)
  }

  lemma {:induction false} AllLeftUpdate(workers: seq<Worker>, w: nat, k: Worker, generation: nat, n: nat)
    requires w < |workers|
    ensures AllLeft(workers[w := k], generation, n) + Left(workers[w], generation, n)
            == AllLeft(workers, generation, n) + Left(k, generation, n)
  {
    if w == 0 {
      assert workers[w := k][1..] == workers[1..];
    } else {
      assert workers[w := k][1..] == workers[1..][w - 1 := k];
      AllLeftUpdate(workers[1..], w - 1, k, generation, n);
    }
  }

  lemma {:induction false} AllLeftBound(workers: seq<Worker>, generation: nat, n: nat)
    ensures AllLeft(workers, generation, n) <= |workers| * (n + 5)
  {
    if workers != [] {
      AllLeftBound(workers[1..], generation, n);
      assert |workers| * (n + 5) == |workers[1..]| * (n + 5) + (n + 5);
    }
  }

  lemma OneWorkerShrinks(s: State, t: State, w: nat)
    requires s.active.Some? && TouchesOnly(s, t, w)
    requires Left(t.workers[w], s.generation, |s.active.value|) < Left(s.workers[w], s.generation, |s.active.value|)
    ensures StepsLeft(t) < StepsLeft(s)
  {
    AllLeftUpdate(s.workers, w, t.workers[w], s.generation, |s.active.value|);
  }

  /** Every step but a new request takes the pool closer to the end of the one it has. */
  lemma StepShrinks(p: Pool, s: State, step: Step)
    requires Inv(p, s) && Enabled(p, s, step) && !step.Post?
    ensures StepsLeft(Apply(p, s, step)) < StepsLeft(s)
  {
    var t := Apply(p, s, step);
    match step
    case Collect =>
    case Wake(w) => WorkerBusy(p, s, w); OneWorkerShrinks(s, t, w);
    case Skip(w) => OneWorkerShrinks(s, t, w);
    case ReadOk(w) => OneWorkerShrinks(s, t, w);
    case ReadFails(w) => OneWorkerShrinks(s, t, w);
    case SeeFailure(w) => OneWorkerShrinks(s, t, w);
    case EndOfScan(w) => OneWorkerShrinks(s, t, w);
    case AddBytes(w) => WorkerBusy(p, s, w); OneWorkerShrinks(s, t, w);
    case AddIos(w) => WorkerBusy(p, s, w); OneWorkerShrinks(s, t, w);
    case Report(w) => WorkerBusy(p, s, w); OneWorkerShrinks(s, t, w);
  }

  lemma {:induction false} RunsDown(p: Pool, states: seq<State>, steps: seq<Step>, i: nat, j: nat)
    requires Run(p, states, steps) && i <= j <= |steps|
    requires forall k :: i <= k < j ==> !steps[k].Post?
    ensures StepsLeft(states[j]) + (j - i) <= StepsLeft(states[i])
    decreases j
  {
    if i < j {
      RunsDown(p, states, steps, i, j - 1);
      EveryRunIsOrderly(p, states, steps, j - 1);
      assert states[j - 1 + 1] == Apply(p, states[j - 1], steps[j - 1]);
      StepShrinks(p, states[j - 1], steps[j - 1]);
    }
  }

  /** However the workers interleave and whatever fails, a request of `n` ranges takes no more than
      `n + 5` steps of each worker and one of the caller. */
  lemma EveryRequestEnds(p: Pool, states: seq<State>, steps: seq<Step>, i: nat, j: nat)
    requires Run(p, states, steps) && i <= j <= |steps| && states[i].active.Some?
    requires forall k :: i <= k < j ==> !steps[k].Post?
    ensures j - i <= p.workers * (|states[i].active.value| + 5) + 1
  {
    RunsDown(p, states, steps, i, j);
    EveryRunIsOrderly(p, states, steps, i);
    AllLeftBound(states[i].workers, states[i].generation, |states[i].active.value|);
  }

  // ---- somebody can always move ----

  ghost predicate ScansInside(s: State) {
    forall w :: 0 <= w < |s.workers| && s.workers[w].phase.Scanning? ==>
      s.active.Some? && s.workers[w].phase.next <= |s.active.value|
  }

  lemma StaysInside(p: Pool, s: State, step: Step)
    requires Inv(p, s) && Enabled(p, s, step) && ScansInside(s)
    ensures ScansInside(Apply(p, s, step))
  {
    match step
    case Post(_, _) => NoneScanning(p, s);
    case Collect => NoneUnfinished(p, s);
    case Wake(w) => WorkerBusy(p, s, w);
    case _ =>
  }

  lemma NoneScanning(p: Pool, s: State)
    requires BarrierInv(p, s) && s.active.None?
    ensures forall w :: 0 <= w < |s.workers| ==> s.workers[w].phase.Waiting?
  {
    forall w | 0 <= w < |s.workers| ensures s.workers[w].phase.Waiting? {
      assert WorkerOk(s, w);
    }
  }

  lemma NoneUnfinished(p: Pool, s: State)
    requires BarrierInv(p, s) && s.pending == 0
    ensures forall w :: 0 <= w < |s.workers| ==> Finished(s.workers[w], s.generation)
  {
    forall w | 0 <= w < |s.workers| ensures Finished(s.workers[w], s.generation) {
      if !Finished(s.workers[w], s.generation) {
        PendingPositive(p, s, w);
        assert false;
      }
    }
  }

  lemma {:induction false} RunStaysInside(p: Pool, states: seq<State>, steps: seq<Step>, i: nat)
    requires Run(p, states, steps) && i < |states|
    ensures ScansInside(states[i])
  {
    if i > 0 {
      RunStaysInside(p, states, steps, i - 1);
      EveryRunIsOrderly(p, states, steps, i - 1);
      assert states[i - 1 + 1] == Apply(p, states[i - 1], steps[i - 1]);
      StaysInside(p, states[i - 1], steps[i - 1]);
    }
  }

  predicate FitsFile(p: Pool, r: Range) { r.fileOffset + r.size <= |p.file| }

  /** What worker `w` does next; a read fails only where the file ends too soon. */
  ghost function NextOf(p: Pool, s: State, w: nat): Step
    requires w < |s.workers| && s.active.Some? && 0 < p.laneCapacity
  {
    var ranges := s.active.value;
    match s.workers[w].phase
    case Waiting => Wake(w)
    case Scanning(next, _, _) =>
      if next >= |ranges| then EndOfScan(w)
      else if s.failed then SeeFailure(w)
      else if !Mine(p, ranges[next], w) then Skip(w)
      else if FitsFile(p, ranges[next]) then ReadOk(w)
      else ReadFails(w)
    case AddingBytes(_, _) => AddBytes(w)
    case AddingIos(_) => AddIos(w)
    case Reporting => Report(w)
  }

  lemma NextIsEnabled(p: Pool, s: State, w: nat)
    requires Inv(p, s) && ScansInside(s) && s.active.Some?
    requires w < |s.workers| && !Finished(s.workers[w], s.generation)
    ensures 0 < p.laneCapacity && Enabled(p, s, NextOf(p, s, w)) && !NextOf(p, s, w).Post?
    ensures FileHolds(s.active.value, |p.file|) ==> !NextOf(p, s, w).ReadFails?
  {
    PendingPositive(p, s, w);
  }

  /** A step that some thread can take, none of them a failure unless the file is too short. */
  lemma SomeStep(p: Pool, s: State) returns (step: Step)
    requires Inv(p, s) && ScansInside(s) && s.active.Some?
    ensures Enabled(p, s, step) && !step.Post?
    ensures FileHolds(s.active.value, |p.file|) ==> !step.ReadFails?
  {
    if w :| 0 <= w < |s.workers| && !Finished(s.workers[w], s.generation) {
      NextIsEnabled(p, s, w);
      step := NextOf(p, s, w);
    } else {
      SumWhereZero(Unfinished(s), Ones(|s.workers|));
      step := Collect;
    }
  }

  /** A request never gets stuck. */
  lemma NeverStuck(p: Pool, states: seq<State>, steps: seq<Step>, i: nat)
    requires Run(p, states, steps) && i < |states| && states[i].active.Some?
    ensures exists step: Step :: Enabled(p, states[i], step) && !step.Post?
  {
    EveryRunIsOrderly(p, states, steps, i);
    RunStaysInside(p, states, steps, i);
    var step := SomeStep(p, states[i]);
  }

  // ---- a run that returns ----

  lemma OneMoreStep(p: Pool, states: seq<State>, steps: seq<Step>, step: Step)
    requires Run(p, states, steps) && Enabled(p, states[|steps|], step)
    ensures Run(p, states + [Apply(p, states[|steps|], step)], steps + [step])
  {
    var more, all := states + [Apply(p, states[|steps|], step)], steps + [step];
    forall i | 0 <= i < |all| ensures Enabled(p, more[i], all[i]) && more[i + 1] == Apply(p, more[i], all[i]) {
      if i < |steps| {
        assert states[i + 1] == Apply(p, states[i], steps[i]);
      }
    }
  }

  /** `more` and `all` continue the run up to a normal return of the request `ranges`. */
  ghost predicate Returns(p: Pool, states: seq<State>, steps: seq<Step>, ranges: seq<Range>, more: seq<State>, all: seq<Step>) {
    && Run(p, more, all) && states <= more && steps <= all && |steps| < |all| && all[|all| - 1].Collect?
    && more[|all| - 1].active == Some(ranges) && more[|all|].outcome.Returned?
  }

  lemma CollectReturns(p: Pool, states: seq<State>, steps: seq<Step>)
    requires Run(p, states, steps) && Enabled(p, states[|steps|], Collect) && !states[|steps|].failed
    ensures Returns(p, states, steps, states[|steps|].active.value,
                    states + [Apply(p, states[|steps|], Collect)], steps + [Collect])
  {
    var more, all := states + [Apply(p, states[|steps|], Collect)], steps + [Collect];
    OneMoreStep(p, states, steps, Collect);
    NormalReturn(p, more, all, |steps|);
  }

  /** From any point at which nothing has failed, a request whose file is long enough can return. */
  lemma {:induction false} CanReturn(p: Pool, states: seq<State>, steps: seq<Step>)
    returns (more: seq<State>, all: seq<Step>)
    requires Run(p, states, steps) && states[|steps|].active.Some? && !states[|steps|].failed
    requires FileHolds(states[|steps|].active.value, |p.file|)
    ensures Returns(p, states, steps, states[|steps|].active.value, more, all)
    decreases StepsLeft(states[|steps|])
  {
    var s := states[|steps|];
    EveryRunIsOrderly(p, states, steps, |steps|);
    RunStaysInside(p, states, steps, |steps|);
    var step := SomeStep(p, s);
    if step.Collect? {
      CollectReturns(p, states, steps);
      more, all := states + [Apply(p, s, Collect)], steps + [Collect];
    } else {
      OneMoreStep(p, states, steps, step);
      StepShrinks(p, s, step);
      more, all := CanReturn(p, states + [Apply(p, s, step)], steps + [step]);
    }
  }

  /** Between requests, any good request whose file is long enough can be posted and return. */
  lemma PostedCanReturn(p: Pool, states: seq<State>, steps: seq<Step>, ranges: seq<Range>, staging: seq<Byte>)
    returns (more: seq<State>, all: seq<Step>)
    requires Run(p, states, steps) && states[|steps|].active.None?
    requires GoodRequest(p, ranges, staging) && FileHolds(ranges, |p.file|)
    ensures Returns(p, states, steps, ranges, more, all)
  {
    OneMoreStep(p, states, steps, Post(ranges, staging));
    more, all := CanReturn(p, states + [Apply(p, states[|steps|], Post(ranges, staging))], steps + [Post(ranges, staging)]);
  }

  /** What the planner returns, the pool built for its configuration can be asked for between any
      two requests, and it can come back with every range read: the premises of
      `EndToEnd.ThreadedReadIsLookup` are met by a continuation of every such run. */
  lemma PlannedReadReturns(p: Pool, states: seq<State>, steps: seq<Step>, plan: Plan, q: Request, c: Config,
                           staging: seq<Byte>)
    returns (more: seq<State>, all: seq<Step>)
    requires Run(p, states, steps) && states[|steps|].active.None?
    requires ValidConfig(c) && ValidRequest(q) && PlanOf(q, c) == Ok(plan)
    requires EndToEnd.PoolFor(p, c) && |staging| == c.stagingCapacity && FileHolds(plan.ranges, |p.file|)
    ensures states <= more && steps <= all && 0 < |all|
    ensures EndToEnd.ReturnedFor(p, more, all, |all| - 1, plan)
  {
    PlanOfMeaning(q, c);
    EndToEnd.PlanIsGoodRequest(p, plan, q, c, staging);
    more, all := PostedCanReturn(p, states, steps, plan.ranges, staging);
  }
}
