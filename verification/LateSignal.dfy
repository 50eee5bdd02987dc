/** What a late `submission_ready.set()` does to the ring of module `TicketRing`: the exact condition
    under which the model's stream can copy a slot that has not been produced, and a run of one
    slot in which every safety property of the ring fails. */
module LateSignal {
  import opened Options
  import opened TicketRing

  // ---- what holds in every run, orderly or not ----

  /** A mark can only ever wait for a producing stream, and for work that stream already holds. */
  predicate MarkOk(g: Gpu, m: Mark) {
    m.position == 0 || (!m.stream.MainStream? && m.position <= |StreamOf(g, m.stream).log|)
  }

  predicate OnlyWrites(log: seq<Op>) {
    forall k :: 0 <= k < |log| ==> log[k].Write?
  }

  ghost predicate FlowOk(r: Ring) {
    && OnlyWrites(r.gpu.producer.log) && OnlyWrites(r.gpu.control.log)
    && (forall w: nat, m :: WaitAt(r.gpu, w, m) ==> MarkOk(r.gpu, m))
    && (forall i :: 0 <= i < |r.slots| ==> MarkOk(r.gpu, r.slots[i].producerDone))
  }

  lemma InitFlows(r: Ring)
    requires Init(r)
    ensures FlowOk(r)
  {}

  lemma WithReadFlows(r: Ring, i: nat, m: Mark, g: Gpu)
    requires FlowOk(r) && MarkOk(r.gpu, m) && g == WithRead(r.gpu, i, m)
    ensures g.producer == r.gpu.producer && g.control == r.gpu.control && (forall n :: MarkOk(r.gpu, n) ==> MarkOk(g, n))
    ensures forall w: nat, n :: WaitAt(g, w, n) ==> MarkOk(g, n)
  {
    forall w: nat, n | WaitAt(g, w, n) ensures MarkOk(g, n) {
      if w < |r.gpu.main.log| {
        assert WaitAt(r.gpu, w, n);
      }
    }
  }

  lemma ProducedFlows(r: Ring, i: nat, id: StreamId, t: Ring)
    requires FlowOk(r) && i < |r.slots| && id != MainStream && t == Produced(r, i, id)
    ensures FlowOk(t)
  {
    forall w: nat, m | WaitAt(t.gpu, w, m) ensures MarkOk(t.gpu, m) {
      assert WaitAt(r.gpu, w, m);
    }
  }

  lemma ExecuteFlows(r: Ring, id: StreamId, t: Ring)
    requires FlowOk(r) && Enabled(r, Execute(id)) && t == Apply(r, Execute(id))
    ensures FlowOk(t)
  {
    forall w: nat, m | WaitAt(t.gpu, w, m) ensures MarkOk(t.gpu, m) {
      assert WaitAt(r.gpu, w, m);
    }
  }

  lemma StepFlows(r: Ring, step: Step, t: Ring)
    requires FlowOk(r) && Enabled(r, step) && t == Apply(r, step)
    ensures FlowOk(t)
  {
    match step
    case ClaimTicket(i) => WithReadFlows(r, i, r.slots[i].producerDone, t.gpu);
    case EnqueueRead => WithReadFlows(r, r.active.value, r.slots[r.active.value].producerDone, t.gpu);
    case IssueTicket => ProducedFlows(r, r.producer.slot, ProducerStream, t);
    case IssueJob => ProducedFlows(r, r.control.slot, ControlStream, t);
    case Execute(id) => ExecuteFlows(r, id, t);
    case _ =>
  }

  // ---- continuations ----

  /** `steps` lead from `r` to `t`, and reserve no slot that is being signalled on. */
  ghost predicate Path(r: Ring, steps: seq<Step>, t: Ring)
    decreases |steps|
  {
    if steps == [] then r == t
    else Enabled(r, steps[0]) && !Rebooks(r, steps[0]) && Path(Apply(r, steps[0]), steps[1..], t)
  }

  lemma {:induction false} PathKeeps(r: Ring, steps: seq<Step>, t: Ring)
    requires Path(r, steps, t) && Inv(r)
    ensures Inv(t)
    decreases |steps|
  {
    if steps != [] {
      StepKeeps(r, steps[0], Apply(r, steps[0]));
      PathKeeps(Apply(r, steps[0]), steps[1..], t);
    }
  }

  lemma {:induction false} PathStep(r: Ring, steps: seq<Step>, m: Ring, step: Step, t: Ring) returns (all: seq<Step>)
    requires Path(r, steps, m) && Enabled(m, step) && !Rebooks(m, step) && t == Apply(m, step)
    ensures all == steps + [step] && Path(r, all, t)
    decreases |steps|
  {
    all := steps + [step];
    if steps == [] {
      assert all[1..] == [];
    } else {
      var rest := PathStep(Apply(r, steps[0]), steps[1..], m, step, t);
      assert all[1..] == rest;
    }
  }

  /** The model's stream is about to copy a slot whose identity has not been produced. */
  ghost predicate CopiesUnproduced(r: Ring) {
    && Enabled(r, Execute(MainStream))
    && exists i: nat :: i < |r.slots| && r.gpu.main.log[r.gpu.main.done] == Read(i) && !r.slots[i].issued
  }

  lemma CopiesProduced(r: Ring)
    requires Inv(r)
    ensures !CopiesUnproduced(r)
  {
    forall i: nat | i < |r.slots| && Enabled(r, Execute(MainStream)) && r.gpu.main.log[r.gpu.main.done] == Read(i)
      ensures r.slots[i].issued
    {
      assert SlotOk(r.slots[i], r.gpu, r.active, r.waiting, i);
      assert Pending(r.gpu, MainStream, r.gpu.main.done, Read(i));
    }
  }

  // ---- letting the streams run ----

  /** A producing stream, all of whose operations are writes, can always run to its end. */
  lemma {:induction false} RunProducing(r: Ring, steps: seq<Step>, m: Ring, id: StreamId)
    returns (all: seq<Step>, t: Ring)
    requires Path(r, steps, m) && id != MainStream && OnlyWrites(StreamOf(m.gpu, id).log)
    requires StreamOf(m.gpu, id).done <= |StreamOf(m.gpu, id).log|
    ensures Path(r, all, t) && t == m.(gpu := t.gpu) && StreamOf(t.gpu, id).log == StreamOf(m.gpu, id).log
    ensures t.gpu == SetStream(m.gpu, id, Stream(StreamOf(m.gpu, id).log, |StreamOf(m.gpu, id).log|))
    decreases |StreamOf(m.gpu, id).log| - StreamOf(m.gpu, id).done
  {
    if StreamOf(m.gpu, id).done == |StreamOf(m.gpu, id).log| {
      all, t := steps, m;
    } else {
      assert Enabled(m, Execute(id));
      var more := PathStep(r, steps, m, Execute(id), Apply(m, Execute(id)));
      all, t := RunProducing(r, more, Apply(m, Execute(id)), id);
    }
  }

  /** With the producing streams at their ends, so can the main stream run up to any operation. */
  lemma {:induction false} RunMain(r: Ring, steps: seq<Step>, m: Ring, stop: nat) returns (all: seq<Step>, t: Ring)
    requires Path(r, steps, m) && m.gpu.main.done <= stop <= |m.gpu.main.log|
    requires forall w: nat, n :: WaitAt(m.gpu, w, n) ==> Complete(m.gpu, n)
    ensures Path(r, all, t) && t == m.(gpu := m.gpu.(main := Stream(m.gpu.main.log, stop)))
    decreases stop - m.gpu.main.done
  {
    if m.gpu.main.done == stop {
      all, t := steps, m;
    } else {
      var op := m.gpu.main.log[m.gpu.main.done];
      assert op.Wait? ==> WaitAt(m.gpu, m.gpu.main.done, op.mark);
      var next := Apply(m, Execute(MainStream));
      var more := PathStep(r, steps, m, Execute(MainStream), next);
      forall w: nat, n | WaitAt(next.gpu, w, n) ensures Complete(next.gpu, n) {
        assert WaitAt(m.gpu, w, n);
      }
      all, t := RunMain(r, more, next, stop);
    }
  }

  /** The last thing enqueued for the model is a copy of slot `i`, which has not been produced. */
  ghost predicate CopyEnqueued(m: Ring, i: nat) {
    && i < |m.slots| && !m.slots[i].issued && GpuOk(m.gpu) && FlowOk(m)
    && m.gpu.main.done < |m.gpu.main.log| && m.gpu.main.log[|m.gpu.main.log| - 1] == Read(i)
  }

  lemma WaitsComplete(m: Ring, n: Ring)
    requires FlowOk(m) && n.gpu.main == m.gpu.main
    requires n.gpu.producer == Stream(m.gpu.producer.log, |m.gpu.producer.log|)
    requires n.gpu.control == Stream(m.gpu.control.log, |m.gpu.control.log|)
    ensures forall w: nat, e :: WaitAt(n.gpu, w, e) ==> Complete(n.gpu, e)
  {
    forall w: nat, e | WaitAt(n.gpu, w, e) ensures Complete(n.gpu, e) {
      assert WaitAt(m.gpu, w, e);
      assert MarkOk(m.gpu, e);
    }
  }

  lemma LetProducersRun(r: Ring, steps: seq<Step>, m: Ring) returns (all: seq<Step>, n: Ring)
    requires Path(r, steps, m) && GpuOk(m.gpu) && FlowOk(m)
    ensures Path(r, all, n) && n == m.(gpu := n.gpu) && n.gpu.main == m.gpu.main
    ensures n.gpu.producer == Stream(m.gpu.producer.log, |m.gpu.producer.log|)
    ensures n.gpu.control == Stream(m.gpu.control.log, |m.gpu.control.log|)
  {
    assert StreamOf(m.gpu, ProducerStream).done <= |m.gpu.producer.log|;
    assert StreamOf(m.gpu, ControlStream).done <= |m.gpu.control.log|;
    var steps1, m1 := RunProducing(r, steps, m, ProducerStream);
    all, n := RunProducing(r, steps1, m1, ControlStream);
  }

  lemma LetMainRun(r: Ring, steps: seq<Step>, n: Ring, i: nat) returns (all: seq<Step>, t: Ring)
    requires Path(r, steps, n) && i < |n.slots| && !n.slots[i].issued && n.gpu.main.done < |n.gpu.main.log|
    requires n.gpu.main.log[|n.gpu.main.log| - 1] == Read(i)
    requires forall w: nat, e :: WaitAt(n.gpu, w, e) ==> Complete(n.gpu, e)
    ensures Path(r, all, t) && CopiesUnproduced(t)
  {
    all, t := RunMain(r, steps, n, |n.gpu.main.log| - 1);
    ReadIsNext(t, i);
  }

  lemma LetRun(r: Ring, steps: seq<Step>, m: Ring, i: nat) returns (all: seq<Step>, t: Ring)
    requires Path(r, steps, m) && CopyEnqueued(m, i)
    ensures Path(r, all, t) && CopiesUnproduced(t)
  {
    var steps2, n := LetProducersRun(r, steps, m);
    WaitsComplete(m, n);
    all, t := LetMainRun(r, steps2, n, i);
  }

  lemma ReadIsNext(t: Ring, i: nat)
    requires i < |t.slots| && !t.slots[i].issued && t.gpu.main.done < |t.gpu.main.log|
    requires t.gpu.main.log[t.gpu.main.done] == Read(i)
    ensures CopiesUnproduced(t)
  {}

  /** The slot has just been reserved, the model thread is free, and the flag is about to be set. */
  ghost predicate JustReserved(m: Ring, i: nat) {
    && i < |m.slots| && m.slots[i].state.Queued? && m.slots[i].prefetch.Some? && !m.slots[i].discard && !m.slots[i].issued
    && !m.waiting && m.control == Signalling(i) && GpuOk(m.gpu) && FlowOk(m)
    && (m.active.Some? ==> m.active.value < |m.slots| && m.slots[m.active.value].state.Consuming?)
  }

  lemma RebookedState(r: Ring, i: nat)
    requires Inv(r) && FlowOk(r) && Enabled(r, Reserve(i)) && r.control == Signalling(i)
    ensures JustReserved(Apply(r, Reserve(i)), i)
  {
    var m := Reap(r);
    ReapKeeps(r);
    StepFlows(r, Reserve(i), Apply(r, Reserve(i)));
    assert SlotOk(m.slots[i], m.gpu, m.active, m.waiting, i);
    if m.active.Some? {
      assert SlotOk(m.slots[m.active.value], m.gpu, m.active, m.waiting, m.active.value);
    }
  }

  /** The slot waits to be claimed: its flag is set and the model thread holds nothing. */
  ghost predicate Claimable(m: Ring, i: nat) {
    && i < |m.slots| && m.slots[i].state.Queued? && m.slots[i].prefetch.Some? && !m.slots[i].discard && !m.slots[i].issued
    && m.slots[i].submissionReady && !m.waiting && m.active.None? && GpuOk(m.gpu) && FlowOk(m)
  }

  /** The flag is set and the model thread gives back what it still holds. */
  lemma SetAndRelease(r: Ring, i: nat) returns (steps: seq<Step>, m: Ring)
    requires JustReserved(r, i)
    ensures Path(r, steps, m) && Claimable(m, i)
  {
    m := Apply(r, SetReady);
    assert Path(r, [], r);
    steps := PathStep(r, [], r, SetReady, m);
    StepFlows(r, SetReady, m);
    if m.active.Some? {
      var b := Apply(m, Release);
      steps := PathStep(r, steps, m, Release, b);
      StepFlows(m, Release, b);
      m := b;
    }
  }

  /** Then it claims the slot. */
  lemma ClaimUnproduced(r: Ring, i: nat) returns (steps: seq<Step>, m: Ring)
    requires JustReserved(r, i)
    ensures Path(r, steps, m) && CopyEnqueued(m, i)
  {
    var b;
    steps, b := SetAndRelease(r, i);
    var d := Apply(b, ClaimPrefetch(i));
    steps := PathStep(r, steps, b, ClaimPrefetch(i), d);
    StepFlows(b, ClaimPrefetch(i), d);
    m := Apply(d, EnqueueRead);
    steps := PathStep(r, steps, d, EnqueueRead, m);
    StepFlows(d, EnqueueRead, m);
    WithReadGpu(d.gpu, i, d.slots[i].producerDone, m.gpu);
  }

  /** Some continuation without a further late signal copies a slot that has not been produced. */
  ghost predicate MayCopyUnproduced(r: Ring) {
    exists steps, t :: Path(r, steps, t) && CopiesUnproduced(t)
  }

  /** A reservation can be followed, without any other late signal, by a copy of a slot that has
      not been produced if and only if the control thread is signalling on the very slot. */
  lemma ReserveBreaksIff(r: Ring, i: nat)
    requires Inv(r) && FlowOk(r) && Enabled(r, Reserve(i))
    ensures r.control == Signalling(i) <==> MayCopyUnproduced(Apply(r, Reserve(i)))
  {
    var m := Apply(r, Reserve(i));
    if r.control == Signalling(i) {
      RebookedState(r, i);
      var steps, n := ClaimUnproduced(m, i);
      var all, t := LetRun(m, steps, n, i);
      assert MayCopyUnproduced(m);
    } else {
      StepKeeps(r, Reserve(i), m);
      forall steps, t | Path(m, steps, t) ensures !CopiesUnproduced(t) {
        PathKeeps(m, steps, t);
        CopiesProduced(t);
      }
    }
  }

  /** The premises of `ReserveBreaksIff` hold in every orderly run. */
  lemma {:induction false} OrderlyRunsFlow(states: seq<Ring>, steps: seq<Step>, k: nat)
    requires Run(states, steps) && k < |states|
    ensures FlowOk(states[k]) && (Orderly(states, steps) ==> Inv(states[k]))
  {
    if Orderly(states, steps) {
      RunInv(states, steps, k);
    }
    if k == 0 {
      InitFlows(states[0]);
    } else {
      OrderlyRunsFlow(states, steps, k - 1);
      assert states[k - 1 + 1] == Apply(states[k - 1], steps[k - 1]);
      StepFlows(states[k - 1], steps[k - 1], states[k]);
    }
  }

  // ---- a failing run ----

  /** A ring of one slot. */
  function One(s: Slot, control: Stream, main: Stream, jobs: seq<Job>, worker: Worker, active: Option<nat>, waiting: bool,
               next: nat): Ring
  {
    Ring([s], Gpu(Stream([], 0), control, main), [], jobs, Idle, worker, active, waiting, -1, -1, next, [])
  }

  function Prefetch(state: SlotState, prefetch: Option<nat>, ready: bool, issued: bool, producerDone: Mark, consumerDone: Mark):
    Slot
  {
    Slot(state, None, prefetch, false, ready, issued, producerDone, consumerDone)
  }

  function BadSteps(): seq<Step> {
    [Reserve(0), TakeJob, IssueJob, Execute(ControlStream), FinishJob, DiscardAll({0}),
     Reserve(0), SetReady, ClaimPrefetch(0), EnqueueRead, Execute(MainStream), TakeJob,
     IssueJob, FinishJob, SetReady, Execute(MainStream), Release, ReapAll]
  }

  function BadState(k: nat): Ring {
    var none, first, second := Mark(MainStream, 0), Mark(ControlStream, 1), Mark(ControlStream, 2);
    match k
    case 0 => One(Prefetch(Free, None, false, false, none, none), Stream([], 0), Stream([], 0),
                  [], Idle, None, false, 0)
    case 1 => One(Prefetch(Queued, Some(0), false, false, none, none), Stream([], 0), Stream([], 0),
                  [Job(0, 0)], Idle, None, false, 1)
    case 2 => One(Prefetch(Producing, Some(0), false, false, none, none), Stream([], 0), Stream([], 0),
                  [], Busy(0), None, false, 1)
    case 3 => One(Prefetch(Producing, Some(0), false, true, first, none), Stream([Write(0)], 0), Stream([], 0),
                  [], Busy(0), None, false, 1)
    case 4 => One(Prefetch(Producing, Some(0), false, true, first, none), Stream([Write(0)], 1), Stream([], 0),
                  [], Busy(0), None, false, 1)
    case 5 => One(Prefetch(Ready, Some(0), false, true, first, none), Stream([Write(0)], 1), Stream([], 0),
                  [], Signalling(0), None, false, 1)
    case 6 => One(Prefetch(Free, None, false, false, first, none), Stream([Write(0)], 1), Stream([], 0),
                  [], Signalling(0), None, false, 1)
    case 7 => One(Prefetch(Queued, Some(1), false, false, first, none), Stream([Write(0)], 1), Stream([], 0),
                  [Job(1, 0)], Signalling(0), None, false, 2)
    case 8 => One(Prefetch(Queued, Some(1), true, false, first, none), Stream([Write(0)], 1), Stream([], 0),
                  [Job(1, 0)], Idle, None, false, 2)
    case 9 => One(Prefetch(Consuming, Some(1), true, false, first, none), Stream([Write(0)], 1), Stream([], 0),
                  [Job(1, 0)], Idle, Some(0), true, 2)
    case 10 => One(Prefetch(Consuming, Some(1), true, false, first, none), Stream([Write(0)], 1), Stream([Wait(first), Read(0)], 0),
                  [Job(1, 0)], Idle, Some(0), false, 2)
    case 11 => One(Prefetch(Consuming, Some(1), true, false, first, none), Stream([Write(0)], 1), Stream([Wait(first), Read(0)], 1),
                  [Job(1, 0)], Idle, Some(0), false, 2)
    case 12 => One(Prefetch(Consuming, Some(1), true, false, first, none), Stream([Write(0)], 1), Stream([Wait(first), Read(0)], 1),
                  [], Busy(0), Some(0), false, 2)
    case 13 => One(Prefetch(Consuming, Some(1), true, true, second, none), Stream([Write(0), Write(0)], 1), Stream([Wait(first), Read(0)], 1),
                  [], Busy(0), Some(0), false, 2)
    case 14 => One(Prefetch(Consuming, Some(1), true, true, second, none), Stream([Write(0), Write(0)], 1), Stream([Wait(first), Read(0)], 1),
                  [], Signalling(0), Some(0), false, 2)
    case 15 => One(Prefetch(Consuming, Some(1), true, true, second, none), Stream([Write(0), Write(0)], 1), Stream([Wait(first), Read(0)], 1),
                  [], Idle, Some(0), false, 2)
    case 16 => One(Prefetch(Consuming, Some(1), true, true, second, none), Stream([Write(0), Write(0)], 1), Stream([Wait(first), Read(0)], 2),
                  [], Idle, Some(0), false, 2)
    case 17 => One(Prefetch(Releasing, Some(1), true, true, second, Mark(MainStream, 2)), Stream([Write(0), Write(0)], 1), Stream([Wait(first), Read(0)], 2),
                  [], Idle, None, false, 2)
    case _ => One(Prefetch(Free, None, false, false, second, Mark(MainStream, 2)), Stream([Write(0), Write(0)], 1), Stream([Wait(first), Read(0)], 2),
                  [], Idle, None, false, 2)
  }

  ghost predicate GoodStep(k: nat)
    requires k < |BadSteps()|
  {
    Enabled(BadState(k), BadSteps()[k]) && Apply(BadState(k), BadSteps()[k]) == BadState(k + 1)
  }

  lemma Step0()
    ensures GoodStep(0)
  {}

  lemma Step1()
    ensures GoodStep(1)
  {}

  lemma Step2()
    ensures GoodStep(2)
  {}

  lemma Step3()
    ensures GoodStep(3)
  {}

  lemma Step4()
    ensures GoodStep(4)
  {}

  lemma Step5()
    ensures GoodStep(5)
  {}

  lemma Step6()
    ensures GoodStep(6)
  {}

  lemma Step7()
    ensures GoodStep(7)
  {}

  lemma Step8()
    ensures GoodStep(8)
  {}

  lemma Step9()
    ensures GoodStep(9)
  {}

  lemma Step10()
    ensures GoodStep(10)
  {}

  lemma Step11()
    ensures GoodStep(11)
  {}

  lemma Step12()
    ensures GoodStep(12)
  {}

  lemma Step13()
    ensures GoodStep(13)
  {}

  lemma Step14()
    ensures GoodStep(14)
  {}

  lemma Step15()
    ensures GoodStep(15)
  {}

  lemma Step16()
    ensures GoodStep(16)
  {}

  lemma Step17()
    ensures GoodStep(17)
  {}

  lemma EarlySteps(k: nat)
    requires k < 8
    ensures GoodStep(k)
  {
    Step0();
    Step1();
    Step2();
    Step3();
    Step4();
    Step5();
    Step6();
    Step7();
  }

  lemma LateSteps(k: nat)
    requires 8 <= k < 18
    ensures GoodStep(k)
  {
    Step8();
    Step9();
    Step10();
    Step11();
    Step12();
    Step13();
    Step14();
    Step15();
    Step16();
    Step17();
  }

  function BadStates(): seq<Ring> { seq(19, k requires 0 <= k < 19 => BadState(k)) }

  lemma BadRun()
    ensures Run(BadStates(), BadSteps())
  {
    var states, steps := BadStates(), BadSteps();
    forall k | 0 <= k < |steps| ensures Enabled(states[k], steps[k]) && states[k + 1] == Apply(states[k], steps[k]) {
      if k < 8 {
        EarlySteps(k);
      } else {
        LateSteps(k);
      }
    }
  }

  lemma StaleCopy(r: Ring)
    requires r == BadState(11)
    ensures CopiesUnproduced(r)
  {
    ReadIsNext(r, 0);
  }

  lemma CopyOutstanding(r: Ring)
    requires r == BadState(12)
    ensures r.control.slot == 0 && !Quiet(r.gpu, 0)
  {
    assert Pending(r.gpu, MainStream, 1, Read(0));
  }

  /** One slot is enough. Prefetch 0 is produced, discarded and its slot reserved for prefetch 1,
      all before the control thread sets the flag, which then lets the model thread take prefetch 1
      unproduced; the stale copy is still outstanding when the read of prefetch 1 is enqueued. */
  lemma LateSignalCopies()
    ensures var states, steps := BadStates(), BadSteps();
            && Run(states, steps) && Rebooks(states[6], steps[6]) && CopiesUnproduced(states[11])
            && steps[12] == IssueJob && states[12].control == Busy(0) && !Quiet(states[12].gpu, 0)
  {
    BadRun();
    StaleCopy(BadState(11));
    CopyOutstanding(BadState(12));
  }

  lemma WriteOutstanding(r: Ring, k: nat)
    requires (k == 15 || k == 17 || k == 18) && r == BadState(k)
    ensures !NoWrites(r.gpu, 0)
  {
    assert Pending(r.gpu, ControlStream, 1, Write(0));
  }

  /** In the same run the copy executes while the read of prefetch 1 is outstanding, and the slot is
      given up, and free, before that read has executed. */
  lemma LateSignalFrees()
    ensures var states, steps := BadStates(), BadSteps();
            && steps[15] == Execute(MainStream) && !NoWrites(states[15].gpu, 0)
            && states[15].gpu.main == Stream([Wait(Mark(ControlStream, 1)), Read(0)], 1)
            && HoldsPrefetch(states[17], 0, 1) && !Quiet(states[17].gpu, 0)
            && IsFree(states[18], 0) && !Quiet(states[18].gpu, 0)
  {
    WriteOutstanding(BadState(15), 15);
    WriteOutstanding(BadState(17), 17);
    WriteOutstanding(BadState(18), 18);
  }
}
