/** Slots come back: once the threads of the ring have nothing left to do and the streams have run,
    every discarded or released slot is free for the next call. */
module RingProgress {
  import opened Options
  import opened TicketRing

  /** A queued slot is in the queue or has a job, a producing one a thread at work on it. */
  ghost predicate Attended(r: Ring, i: nat)
    requires i < |r.slots|
  {
    var s := r.slots[i];
    && (s.state.Queued? && s.ticket.Some? ==> i in r.queue)
    && (s.state.Queued? && s.prefetch.Some? ==> HasJob(r.jobs, i))
    && (s.state.Producing? ==> r.producer == Busy(i) || r.control == Busy(i))
  }

  ghost predicate HasJob(jobs: seq<Job>, i: nat) { exists a :: 0 <= a < |jobs| && jobs[a].slot == i }

  predicate Recorded(g: Gpu, m: Mark) { m.position <= |StreamOf(g, m.stream).log| }

  ghost predicate MarksRecorded(g: Gpu, s: Slot) { Recorded(g, s.producerDone) && Recorded(g, s.consumerDone) }

  ghost predicate LogsGrow(g: Gpu, h: Gpu) {
    forall id :: |StreamOf(g, id).log| <= |StreamOf(h, id).log|
  }

  ghost predicate AllMarksRecorded(r: Ring) {
    forall i :: 0 <= i < |r.slots| ==> MarksRecorded(r.gpu, r.slots[i])
  }

  ghost predicate AllAttended(r: Ring) {
    forall i: nat :: i < |r.slots| ==> Attended(r, i)
  }

  lemma LogsGrowInStep(r: Ring, step: Step, t: Ring)
    requires Enabled(r, step) && t == Apply(r, step)
    ensures LogsGrow(r.gpu, t.gpu) && |t.slots| == |r.slots|
  {}

  predicate NewMark(s: Slot, t: Slot, h: Gpu) {
    && (t.producerDone == s.producerDone || Recorded(h, t.producerDone))
    && (t.consumerDone == s.consumerDone || Recorded(h, t.consumerDone))
  }

  lemma NewMarksRecorded(r: Ring, step: Step, t: Ring, i: nat)
    requires Enabled(r, step) && t == Apply(r, step) && i < |r.slots| == |t.slots|
    ensures NewMark(r.slots[i], t.slots[i], t.gpu)
  {}

  lemma StepRecords(r: Ring, step: Step, t: Ring)
    requires AllMarksRecorded(r) && Enabled(r, step) && t == Apply(r, step)
    ensures AllMarksRecorded(t)
  {
    LogsGrowInStep(r, step, t);
    forall i | 0 <= i < |t.slots| ensures MarksRecorded(t.gpu, t.slots[i]) {
      NewMarksRecorded(r, step, t, i);
      assert MarksRecorded(r.gpu, r.slots[i]);
    }
  }

  /** Neither the queues nor the threads change, and no slot becomes queued or producing. */
  lemma QuietStep(r: Ring, t: Ring)
    requires AllAttended(r) && |t.slots| == |r.slots|
    requires t.queue == r.queue && t.jobs == r.jobs && t.producer == r.producer
    requires t.control == r.control || !r.control.Busy?
    requires forall i :: 0 <= i < |r.slots| && (t.slots[i].state.Queued? || t.slots[i].state.Producing?) ==>
               t.slots[i].state == r.slots[i].state && SameIdentity(r.slots[i], t.slots[i])
    ensures AllAttended(t)
  {
    forall i: nat | i < |t.slots| ensures Attended(t, i) {
      assert Attended(r, i);
    }
  }

  lemma SubmitAttends(r: Ring, step: Step, t: Ring)
    requires Inv(r) && AllAttended(r) && (step.Submit? || step.Reserve?) && Enabled(r, step) && t == Apply(r, step)
    ensures AllAttended(t)
  {
    forall i: nat | i < |t.slots| ensures Attended(t, i) {
      assert Attended(r, i) && SlotOk(r.slots[i], r.gpu, r.active, r.waiting, i);
      if step.Reserve? {
        assert t.jobs[|r.jobs|].slot == step.slot;
        assert forall a :: 0 <= a < |r.jobs| ==> t.jobs[a] == r.jobs[a];
      } else {
        assert t.queue[|r.queue|] == step.slot;
        assert forall a :: 0 <= a < |r.queue| ==> t.queue[a] == r.queue[a];
      }
    }
  }

  lemma TicketAttends(r: Ring, step: Step, t: Ring)
    requires Inv(r) && AllAttended(r) && (step.TakeTicket? || step.FinishTicket?) && Enabled(r, step) && t == Apply(r, step)
    ensures AllAttended(t)
  {
    forall i: nat | i < |t.slots| ensures Attended(t, i) {
      assert Attended(r, i) && SlotOk(r.slots[i], r.gpu, r.active, r.waiting, i);
      if step.TakeTicket? && i in r.queue && i != r.queue[0] {
        var a :| 0 <= a < |r.queue| && r.queue[a] == i;
        assert t.queue[a - 1] == i;
      }
    }
  }

  lemma JobAttends(r: Ring, step: Step, t: Ring)
    requires Inv(r) && AllAttended(r) && (step.TakeJob? || step.CancelJob? || step.FinishJob?)
    requires Enabled(r, step) && t == Apply(r, step)
    ensures AllAttended(t)
  {
    forall i: nat | i < |t.slots| ensures Attended(t, i) {
      assert Attended(r, i) && SlotOk(r.slots[i], r.gpu, r.active, r.waiting, i);
      if !step.FinishJob? && HasJob(r.jobs, i) && i != r.jobs[0].slot {
        var a :| 0 <= a < |r.jobs| && r.jobs[a].slot == i;
        assert t.jobs[a - 1].slot == i;
      }
    }
  }

  lemma ThreadAttends(r: Ring, step: Step, t: Ring)
    requires AllAttended(r) && (step.IssueTicket? || step.IssueJob? || step.SetReady? || step.Execute?)
    requires Enabled(r, step) && t == Apply(r, step)
    ensures AllAttended(t)
  {
    QuietStep(r, t);
  }

  lemma ModelAttends(r: Ring, step: Step, t: Ring)
    requires AllAttended(r) && Enabled(r, step) && t == Apply(r, step)
    requires step.DiscardAll? || step.ReapAll? || step.ClaimTicket? || step.ClaimPrefetch? || step.EnqueueRead? || step.Release?
    ensures AllAttended(t)
  {
    QuietStep(r, t);
  }

  lemma StepAttends(r: Ring, step: Step, t: Ring)
    requires Inv(r) && AllAttended(r) && Enabled(r, step) && t == Apply(r, step)
    ensures AllAttended(t)
  {
    match step
    case Submit(_, _) => SubmitAttends(r, step, t);
    case Reserve(_) => SubmitAttends(r, step, t);
    case TakeTicket => TicketAttends(r, step, t);
    case FinishTicket => TicketAttends(r, step, t);
    case TakeJob => JobAttends(r, step, t);
    case CancelJob => JobAttends(r, step, t);
    case FinishJob => JobAttends(r, step, t);
    case IssueTicket => ThreadAttends(r, step, t);
    case IssueJob => ThreadAttends(r, step, t);
    case SetReady => ThreadAttends(r, step, t);
    case Execute(_) => ThreadAttends(r, step, t);
    case _ => ModelAttends(r, step, t);
  }

  lemma {:induction false} RunAttends(states: seq<Ring>, steps: seq<Step>, k: nat)
    requires Run(states, steps) && Orderly(states, steps) && k < |states|
    ensures Inv(states[k]) && AllAttended(states[k]) && AllMarksRecorded(states[k])
  {
    RunInv(states, steps, k);
    if k > 0 {
      RunAttends(states, steps, k - 1);
      assert states[k - 1 + 1] == Apply(states[k - 1], steps[k - 1]);
      StepAttends(states[k - 1], steps[k - 1], states[k]);
      StepRecords(states[k - 1], steps[k - 1], states[k]);
    }
  }

  /** The threads wait for work and have none, nothing is being consumed, and the streams have
      executed everything. */
  ghost predicate Settled(r: Ring) {
    && r.queue == [] && r.jobs == [] && r.producer.Idle? && r.control.Idle? && r.active.None?
    && forall id :: StreamOf(r.gpu, id).done == |StreamOf(r.gpu, id).log|
  }

  /** A call of the model thread that looks at all slots first. */
  predicate LooksAtSlots(step: Step) { step.Submit? || step.Reserve? || step.DiscardAll? || step.ReapAll? }

  predicate Takes(step: Step, i: nat) {
    (step.Submit? && step.slot == i) || (step.Reserve? && step.slot == i)
  }

  lemma SettledSlot(r: Ring, i: nat)
    requires Inv(r) && AllAttended(r) && AllMarksRecorded(r) && Settled(r) && i < |r.slots|
    ensures r.slots[i].state.Free? || r.slots[i].state.Ready? || r.slots[i].state.Releasing?
    ensures InUse(r.gpu, r.slots[i]) <==> r.slots[i].state.Ready? && !r.slots[i].discard
  {
    assert Attended(r, i) && SlotOk(r.slots[i], r.gpu, r.active, r.waiting, i) && MarksRecorded(r.gpu, r.slots[i]);
    assert StreamOf(r.gpu, r.slots[i].producerDone.stream).done >= r.slots[i].producerDone.position;
    assert StreamOf(r.gpu, r.slots[i].consumerDone.stream).done >= r.slots[i].consumerDone.position;
  }

  /** In every orderly run, once the ring has settled, a slot is in use only if it holds a result
      that can still be consumed; every discarded or releasing slot is free after the next call,
      unless that call has taken it. */
  lemma SettledRingGivesBack(states: seq<Ring>, steps: seq<Step>, k: nat, step: Step)
    requires Run(states, steps) && Orderly(states, steps) && k < |states| && Settled(states[k])
    requires Enabled(states[k], step) && LooksAtSlots(step)
    ensures forall i :: 0 <= i < |states[k].slots| && !Takes(step, i)
                        && (states[k].slots[i].discard || states[k].slots[i].state.Releasing?) ==>
              Apply(states[k], step).slots[i].state.Free?
    ensures forall i :: 0 <= i < |states[k].slots| ==>
              (InUse(states[k].gpu, states[k].slots[i]) <==> states[k].slots[i].state.Ready? && !states[k].slots[i].discard)
  {
    var r := states[k];
    RunAttends(states, steps, k);
    ReapGivesBack(r);
    forall i: nat | i < |r.slots|
      ensures InUse(r.gpu, r.slots[i]) <==> r.slots[i].state.Ready? && !r.slots[i].discard
    {
      SettledSlot(r, i);
    }
  }
}
