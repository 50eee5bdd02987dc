/** The slot ring of `GdsPleRunnerConnector` in in-process mode: the model thread submits,
    consumes, discards and releases; a producer thread and a control thread enqueue GPU writes;
    streams execute later. Steps are the sections the source runs under its lock, the one thing a
    thread does to a slot outside it, and the streams' own progress; they interleave freely. */
module TicketRing {
  import opened Options

  // ---- streams and events ----

  datatype StreamId = ProducerStream | ControlStream | MainStream

  /** An event record: everything enqueued on `stream` before `position`. */
  datatype Mark = Mark(stream: StreamId, position: nat)

  datatype Op = Write(slot: nat) | Read(slot: nat) | Wait(mark: Mark)

  /** What was enqueued, and how much of it has executed. */
  datatype Stream = Stream(log: seq<Op>, done: nat)

  datatype Gpu = Gpu(producer: Stream, control: Stream, main: Stream)

  function StreamOf(g: Gpu, id: StreamId): Stream {
    match id case ProducerStream => g.producer case ControlStream => g.control case MainStream => g.main
  }

  function SetStream(g: Gpu, id: StreamId, s: Stream): Gpu {
    match id
    case ProducerStream => g.(producer := s)
    case ControlStream => g.(control := s)
    case MainStream => g.(main := s)
  }

  function Issue(g: Gpu, id: StreamId, op: Op): Gpu {
    SetStream(g, id, StreamOf(g, id).(log := StreamOf(g, id).log + [op]))
  }

  /** The event query: true when the marked work has executed. */
  predicate Complete(g: Gpu, m: Mark) {
    StreamOf(g, m.stream).done >= m.position
  }

  /** Operation `k` of a stream is enqueued, not executed, and equal to `op`. */
  predicate Pending(g: Gpu, id: StreamId, k: nat, op: Op) {
    StreamOf(g, id).done <= k < |StreamOf(g, id).log| && StreamOf(g, id).log[k] == op
  }

  ghost predicate NoWrites(g: Gpu, i: nat) {
    forall id, k: nat :: !Pending(g, id, k, Write(i))
  }

  ghost predicate NoReads(g: Gpu, i: nat) {
    forall id, k: nat :: !Pending(g, id, k, Read(i))
  }

  /** No enqueued operation still has to touch slot `i`. */
  ghost predicate Quiet(g: Gpu, i: nat) {
    NoWrites(g, i) && NoReads(g, i)
  }

  ghost predicate WritesBefore(g: Gpu, i: nat, m: Mark) {
    forall id, k: nat :: Pending(g, id, k, Write(i)) ==> id == m.stream && k < m.position
  }

  ghost predicate ReadsBefore(g: Gpu, i: nat, m: Mark) {
    forall id, k: nat :: Pending(g, id, k, Read(i)) ==> id == m.stream && k < m.position
  }

  predicate WaitAt(g: Gpu, w: nat, m: Mark) {
    w < |g.main.log| && g.main.log[w] == Wait(m)
  }

  /** The main stream waits for `m` before its operation `p`. */
  ghost predicate Waited(g: Gpu, m: Mark, p: nat) {
    exists w: nat :: w < p && WaitAt(g, w, m)
  }

  /** Reads of slot `i` are on the main stream, behind a wait for `m`. */
  ghost predicate ReadsWait(g: Gpu, i: nat, m: Mark) {
    forall id, k: nat :: Pending(g, id, k, Read(i)) ==> id == MainStream && Waited(g, m, k)
  }

  /** Streams execute what they hold, and an executed wait has been satisfied. */
  ghost predicate GpuOk(g: Gpu) {
    && (forall id :: StreamOf(g, id).done <= |StreamOf(g, id).log|)
    && (forall w: nat, m :: w < g.main.done && WaitAt(g, w, m) ==> Complete(g, m))
  }

  // ---- slots ----

  datatype SlotState = Free | Queued | Producing | Ready | Consuming | Releasing

  /** Which batch a ticket is for: its step, and everything else its identity records. */
  datatype Identity = Identity(step: nat, batch: nat)

  /** `issued` tells whether the read for the present identity has been enqueued. */
  datatype Slot = Slot(
    state: SlotState, ticket: Option<Identity>, prefetch: Option<nat>, discard: bool,
    submissionReady: bool, issued: bool, producerDone: Mark, consumerDone: Mark)

  /** `_reset_slot_locked`. */
  function Reset(s: Slot): Slot {
    s.(state := Free, ticket := None, prefetch := None, discard := false, submissionReady := false, issued := false)
  }

  /** What `_reap_locked` does to one slot. */
  function Reaped(g: Gpu, s: Slot): Slot {
    if s.state.Releasing? && Complete(g, s.consumerDone) then Reset(s)
    else if s.discard && s.state.Ready? && Complete(g, s.producerDone) then Reset(s)
    else s
  }

  /** What `discard_prefetches` does to one slot. */
  function Discarded(g: Gpu, s: Slot, ids: set<nat>): Slot {
    if s.prefetch.None? || s.prefetch.value !in ids || s.state.Free? || s.discard then s
    else if s.state.Ready? && Complete(g, s.producerDone) then Reset(s)
    else s.(discard := true)
  }

  datatype Job = Job(sequence: nat, slot: nat)

  /** A thread between two slots, at work on one, or past the lock and about to set the event
      `submission_ready` of one. */
  datatype Worker = Idle | Busy(slot: nat) | Signalling(slot: nat)

  datatype Ring = Ring(
    slots: seq<Slot>, gpu: Gpu,
    queue: seq<nat>, jobs: seq<Job>,          // submitted tickets, reserved prefetches
    producer: Worker, control: Worker,        // the two producing threads
    active: Option<nat>, waiting: bool,       // the slot being consumed; the model thread is blocked on it
    lastSubmitted: int, lastConsumed: int, nextSequence: nat,
    consumed: seq<nat>)                       // step ids handed to the model, in order

  function Reap(r: Ring): (t: Ring)
    ensures |t.slots| == |r.slots| && forall i :: 0 <= i < |r.slots| ==> t.slots[i] == Reaped(r.gpu, r.slots[i])
    ensures t == r.(slots := t.slots)
  {
    r.(slots := seq(|r.slots|, i requires 0 <= i < |r.slots| => Reaped(r.gpu, r.slots[i])))
  }

  function Discard(r: Ring, ids: set<nat>): (t: Ring)
    ensures |t.slots| == |r.slots| && forall i :: 0 <= i < |r.slots| ==> t.slots[i] == Discarded(r.gpu, r.slots[i], ids)
    ensures t == r.(slots := t.slots)
  {
    r.(slots := seq(|r.slots|, i requires 0 <= i < |r.slots| => Discarded(r.gpu, r.slots[i], ids)))
  }

  datatype Step =
    // the model thread
    | Submit(ticket: Identity, slot: nat) | Reserve(slot: nat) | DiscardAll(ids: set<nat>) | ReapAll
    | ClaimTicket(slot: nat) | ClaimPrefetch(slot: nat) | EnqueueRead | Release
    // the producer thread
    | TakeTicket | IssueTicket | FinishTicket
    // the control thread
    | TakeJob | CancelJob | IssueJob | FinishJob | SetReady
    // a stream executes its next operation
    | Execute(id: StreamId)

  predicate IsFree(r: Ring, i: nat) {
    i < |r.slots| && r.slots[i].state.Free?
  }

  /** The model thread is not blocked inside a consume. */
  predicate Running(r: Ring) { !r.waiting }

  predicate Enabled(r: Ring, step: Step) {
    match step
    case Submit(id, i) => Running(r) && id.step > r.lastSubmitted && IsFree(Reap(r), i)
    case Reserve(i) => Running(r) && IsFree(Reap(r), i)
    case DiscardAll(ids) => Running(r)
    case ReapAll => true
    case ClaimTicket(i) =>
      Running(r) && r.active.None? && i < |r.slots| && r.slots[i].ticket.Some? && r.slots[i].state.Ready?
      && r.slots[i].ticket.value.step > r.lastConsumed
    case ClaimPrefetch(i) =>
      Running(r) && r.active.None? && i < |r.slots| && r.slots[i].prefetch.Some? && !r.slots[i].discard
      && (r.slots[i].state.Queued? || r.slots[i].state.Producing? || r.slots[i].state.Ready?)
    case EnqueueRead => r.waiting && r.active.Some? && r.active.value < |r.slots| && r.slots[r.active.value].submissionReady
    case Release => Running(r) && r.active.Some? && r.active.value < |r.slots| && r.slots[r.active.value].state.Consuming?
    case TakeTicket =>
      r.producer.Idle? && r.queue != [] && r.queue[0] < |r.slots| && r.slots[r.queue[0]].state.Queued?
      && r.slots[r.queue[0]].ticket.Some?
    case IssueTicket => r.producer.Busy? && r.producer.slot < |r.slots| && !r.slots[r.producer.slot].issued
    case FinishTicket => r.producer.Busy? && r.producer.slot < |r.slots| && r.slots[r.producer.slot].issued
    case TakeJob =>
      r.control.Idle? && r.jobs != [] && r.jobs[0].slot < |r.slots|
      && r.slots[r.jobs[0].slot].prefetch == Some(r.jobs[0].sequence)
      && (r.slots[r.jobs[0].slot].state.Queued? || r.slots[r.jobs[0].slot].state.Consuming?)
    case CancelJob =>
      r.control.Idle? && r.jobs != [] && r.jobs[0].slot < |r.slots|
      && r.slots[r.jobs[0].slot].prefetch == Some(r.jobs[0].sequence) && !r.slots[r.jobs[0].slot].state.Consuming?
    case IssueJob => r.control.Busy? && r.control.slot < |r.slots| && !r.slots[r.control.slot].issued
    case FinishJob => r.control.Busy? && r.control.slot < |r.slots| && r.slots[r.control.slot].issued
    case SetReady => r.control.Signalling? && r.control.slot < |r.slots|
    case Execute(id) =>
      StreamOf(r.gpu, id).done < |StreamOf(r.gpu, id).log|
      && var op := StreamOf(r.gpu, id).log[StreamOf(r.gpu, id).done]; op.Wait? ==> Complete(r.gpu, op.mark)
  }

  /** The read is enqueued on a thread's stream and the producer event recorded behind it. */
  function Produced(r: Ring, i: nat, id: StreamId): Ring
    requires i < |r.slots|
  {
    var g := Issue(r.gpu, id, Write(i));
    r.(gpu := g, slots := r.slots[i := r.slots[i].(issued := true, producerDone := Mark(id, |StreamOf(g, id).log|))])
  }

  /** The consumer's stream waits for the producer event and copies the slot. */
  function WithRead(g: Gpu, i: nat, m: Mark): Gpu {
    Issue(Issue(g, MainStream, Wait(m)), MainStream, Read(i))
  }

  function Apply(r: Ring, step: Step): Ring
    requires Enabled(r, step)
  {
    match step
    case Submit(id, i) =>
      var t := Reap(r);
      t.(slots := t.slots[i := t.slots[i].(state := Queued, ticket := Some(id))], queue := r.queue + [i], lastSubmitted := id.step)
    case Reserve(i) =>
      var t := Reap(r);
      t.(slots := t.slots[i := t.slots[i].(state := Queued, prefetch := Some(r.nextSequence), discard := false,
                                          submissionReady := false)],
         jobs := r.jobs + [Job(r.nextSequence, i)], nextSequence := r.nextSequence + 1)
    case DiscardAll(ids) => Discard(Reap(r), ids)
    case ReapAll => Reap(r)
    case ClaimTicket(i) =>
      var s := r.slots[i];
      r.(slots := r.slots[i := s.(state := Consuming)], active := Some(i), lastConsumed := s.ticket.value.step,
         consumed := r.consumed + [s.ticket.value.step], gpu := WithRead(r.gpu, i, s.producerDone))
    case ClaimPrefetch(i) =>
      r.(slots := r.slots[i := r.slots[i].(state := Consuming)], active := Some(i), waiting := true)
    case EnqueueRead =>
      r.(waiting := false, gpu := WithRead(r.gpu, r.active.value, r.slots[r.active.value].producerDone))
    case Release =>
      var i := r.active.value;
      r.(slots := r.slots[i := r.slots[i].(state := Releasing, consumerDone := Mark(MainStream, |r.gpu.main.log|))],
         active := None)
    case TakeTicket =>
      var i := r.queue[0];
      r.(queue := r.queue[1..], producer := Busy(i), slots := r.slots[i := r.slots[i].(state := Producing)])
    case IssueTicket => Produced(r, r.producer.slot, ProducerStream)
    case FinishTicket =>
      var i := r.producer.slot;
      r.(producer := Idle, slots := r.slots[i := r.slots[i].(state := Ready)])
    case TakeJob =>
      var i := r.jobs[0].slot;
      r.(jobs := r.jobs[1..], control := Busy(i),
         slots := r.slots[i := r.slots[i].(state := if r.slots[i].state.Queued? then Producing else Consuming)])
    case CancelJob =>
      var i := r.jobs[0].slot;
      r.(jobs := r.jobs[1..], slots := r.slots[i := Reset(r.slots[i])])
    case IssueJob => Produced(r, r.control.slot, ControlStream)
    case FinishJob =>
      var i := r.control.slot;
      var s := r.slots[i];
      r.(control := Signalling(i),
         slots := r.slots[i :=
           if s.discard then s.(state := Releasing, consumerDone := Mark(ControlStream, |r.gpu.control.log|))
           else if s.state.Producing? then s.(state := Ready)
           else s])
    case SetReady =>
      // Outside the lock: the slot may have a new owner by now.
      var i := r.control.slot;
      r.(control := Idle, slots := r.slots[i := r.slots[i].(submissionReady := true)])
    case Execute(id) =>
      r.(gpu := SetStream(r.gpu, id, StreamOf(r.gpu, id).(done := StreamOf(r.gpu, id).done + 1)))
  }

  ghost predicate Init(r: Ring) {
    && (forall i :: 0 <= i < |r.slots| ==> r.slots[i] == Slot(Free, None, None, false, false, false, Mark(MainStream, 0), Mark(MainStream, 0)))
    && r.gpu == Gpu(Stream([], 0), Stream([], 0), Stream([], 0))
    && r.queue == [] && r.jobs == [] && r.producer.Idle? && r.control.Idle? && r.active.None? && !r.waiting
    && r.lastSubmitted == -1 && r.lastConsumed == -1 && r.nextSequence == 0 && r.consumed == []
  }

  // ---- the invariant ----

  predicate OneIdentity(s: Slot) {
    s.ticket.Some? != s.prefetch.Some?
  }

  /** The read of the present identity, if enqueued, ends at the producer event. */
  ghost predicate ProductionOk(s: Slot, g: Gpu, i: nat) {
    NoReads(g, i) && (if s.issued then WritesBefore(g, i, s.producerDone) else NoWrites(g, i))
  }

  /** When the consumer event is complete, so is the producer event. */
  ghost predicate Covered(s: Slot, g: Gpu) {
    if s.consumerDone.stream.MainStream? then Waited(g, s.producerDone, s.consumerDone.position)
    else s.consumerDone.stream == s.producerDone.stream && s.producerDone.position <= s.consumerDone.position
  }

  ghost predicate SlotOk(s: Slot, g: Gpu, active: Option<nat>, waiting: bool, i: nat) {
    && (s.submissionReady && s.prefetch.Some? ==> s.issued)
    && (s.state.Free? ==> s.ticket.None? && s.prefetch.None? && !s.discard)
    && (!s.state.Free? ==> OneIdentity(s))
    && (s.state.Consuming? <==> active == Some(i))
    && match s.state
       case Free => !s.issued && Quiet(g, i)
       case Queued => !s.issued && Quiet(g, i)
       case Producing => ProductionOk(s, g, i)
       case Ready => s.issued && ProductionOk(s, g, i)
       case Consuming =>
         if waiting then s.prefetch.Some? && !s.discard && ProductionOk(s, g, i)
         else s.issued && WritesBefore(g, i, s.producerDone) && ReadsWait(g, i, s.producerDone)
              && Waited(g, s.producerDone, |g.main.log|)
       case Releasing =>
         s.issued && WritesBefore(g, i, s.producerDone) && ReadsBefore(g, i, s.consumerDone)
         && ReadsWait(g, i, s.producerDone) && Covered(s, g)
  }

  ghost predicate SlotsOk(r: Ring) {
    && (forall i: nat :: i < |r.slots| ==> SlotOk(r.slots[i], r.gpu, r.active, r.waiting, i))
    && (r.active.Some? ==> r.active.value < |r.slots|)
    && (r.waiting ==> r.active.Some?)
  }

  predicate HoldsTicket(r: Ring, i: nat) {
    i < |r.slots| && r.slots[i].ticket.Some?
  }

  predicate HoldsPrefetch(r: Ring, i: nat, sequence: nat) {
    i < |r.slots| && r.slots[i].prefetch == Some(sequence)
  }

  ghost predicate QueueOk(r: Ring) {
    && (forall a: nat :: a < |r.queue| ==> HoldsTicket(r, r.queue[a]) && r.slots[r.queue[a]].state.Queued?)
    && (forall a, b :: 0 <= a < b < |r.queue| ==> r.queue[a] != r.queue[b])
    && (r.producer.Busy? ==> HoldsTicket(r, r.producer.slot) && r.slots[r.producer.slot].state.Producing?)
  }

  /** A prefetch not yet produced is queued, or already claimed by the blocked model thread. */
  predicate AwaitsJob(r: Ring, i: nat)
    requires i < |r.slots|
  {
    !r.slots[i].submissionReady && !r.slots[i].issued
    && (r.slots[i].state.Queued? || (r.slots[i].state.Consuming? && r.waiting))
  }

  ghost predicate JobsOk(r: Ring) {
    && (forall a: nat :: a < |r.jobs| ==> HoldsPrefetch(r, r.jobs[a].slot, r.jobs[a].sequence) && AwaitsJob(r, r.jobs[a].slot))
    && (forall a, b :: 0 <= a < b < |r.jobs| ==> r.jobs[a].slot != r.jobs[b].slot)
    && (r.control.Busy? ==>
          && r.control.slot < |r.slots| && r.slots[r.control.slot].prefetch.Some?
          && !r.slots[r.control.slot].submissionReady
          && (r.slots[r.control.slot].state.Producing? || (r.slots[r.control.slot].state.Consuming? && r.waiting))
          && (r.slots[r.control.slot].issued ==>
                r.slots[r.control.slot].producerDone.stream.ControlStream?
                && r.slots[r.control.slot].producerDone.position <= |r.gpu.control.log|)
          && forall a: nat :: a < |r.jobs| ==> r.jobs[a].slot != r.control.slot)
  }

  /** The slot the control thread is signalling on has not been reserved again. */
  ghost predicate SignalOk(r: Ring) {
    r.control.Signalling? ==>
      r.control.slot < |r.slots| && (r.slots[r.control.slot].prefetch.Some? ==> r.slots[r.control.slot].issued)
  }

  /** A slot is reserved again while the control thread is still signalling on it. */
  predicate Rebooks(r: Ring, step: Step) {
    step.Reserve? && r.control == Signalling(step.slot)
  }

  ghost predicate Increasing(s: seq<nat>) {
    forall a, b :: 0 <= a < b < |s| ==> s[a] < s[b]
  }

  ghost predicate HistoryOk(r: Ring) {
    && Increasing(r.consumed)
    && (forall a :: 0 <= a < |r.consumed| ==> r.consumed[a] <= r.lastConsumed)
    && (r.consumed != [] ==> r.consumed[|r.consumed| - 1] == r.lastConsumed)
  }

  ghost predicate Inv(r: Ring) {
    GpuOk(r.gpu) && SlotsOk(r) && QueueOk(r) && JobsOk(r) && SignalOk(r) && HistoryOk(r)
  }

  lemma InitInv(r: Ring)
    requires Init(r)
    ensures Inv(r)
  {}

  // ---- the streams ----

  /** `h` continues `g` without a new operation on slot `i`. */
  ghost predicate Untouched(g: Gpu, h: Gpu, i: nat) {
    && (forall id, k: nat :: Pending(h, id, k, Write(i)) ==> Pending(g, id, k, Write(i)))
    && (forall id, k: nat :: Pending(h, id, k, Read(i)) ==> Pending(g, id, k, Read(i)))
    && (forall w: nat, m :: WaitAt(g, w, m) ==> WaitAt(h, w, m))
    && |g.main.log| <= |h.main.log|
  }

  lemma IssueUntouched(g: Gpu, id: StreamId, op: Op, i: nat)
    requires op != Write(i) && op != Read(i)
    ensures Untouched(g, Issue(g, id, op), i)
  {}

  lemma UntouchedTwice(g: Gpu, h: Gpu, k: Gpu, i: nat)
    requires Untouched(g, h, i) && Untouched(h, k, i)
    ensures Untouched(g, k, i)
  {}

  lemma IssueKeepsGpu(g: Gpu, id: StreamId, op: Op)
    requires GpuOk(g)
    ensures GpuOk(Issue(g, id, op))
  {
    var h := Issue(g, id, op);
    forall w: nat, m | w < h.main.done && WaitAt(h, w, m) ensures Complete(h, m) {
      assert WaitAt(g, w, m);
    }
    forall s ensures StreamOf(h, s).done <= |StreamOf(h, s).log| {
      assert StreamOf(g, s).done <= |StreamOf(g, s).log|;
    }
  }

  lemma SlotUntouched(s: Slot, g: Gpu, h: Gpu, active: Option<nat>, waiting: bool, i: nat)
    requires SlotOk(s, g, active, waiting, i) && Untouched(g, h, i)
    ensures SlotOk(s, h, active, waiting, i)
  {
    WaitedUntouched(g, h, s.producerDone, s.consumerDone.position, i);
    WaitedUntouched(g, h, s.producerDone, |g.main.log|, i);
    if s.state.Consuming? || s.state.Releasing? {
      if ReadsWait(g, i, s.producerDone) {
        ReadsWaitUntouched(g, h, i, s.producerDone);
      }
    }
  }

  lemma WaitedUntouched(g: Gpu, h: Gpu, m: Mark, p: nat, i: nat)
    requires Untouched(g, h, i)
    ensures Waited(g, m, p) ==> Waited(h, m, p)
    ensures Waited(g, m, p) && p <= |h.main.log| ==> Waited(h, m, |h.main.log|)
  {
    if Waited(g, m, p) {
      var w: nat :| w < p && WaitAt(g, w, m);
      assert WaitAt(h, w, m);
    }
  }

  lemma ReadsWaitUntouched(g: Gpu, h: Gpu, i: nat, m: Mark)
    requires Untouched(g, h, i) && ReadsWait(g, i, m)
    ensures ReadsWait(h, i, m)
  {
    forall id, k: nat | Pending(h, id, k, Read(i)) ensures id == MainStream && Waited(h, m, k) {
      assert Pending(g, id, k, Read(i));
      WaitedUntouched(g, h, m, k, i);
    }
  }

  /** Complete producer work leaves no write, a complete consumer event no operation at all. */
  lemma CompleteMeansQuiet(s: Slot, g: Gpu, active: Option<nat>, waiting: bool, i: nat)
    requires GpuOk(g) && SlotOk(s, g, active, waiting, i)
    ensures s.issued && Complete(g, s.producerDone) && !s.state.Free? && !s.state.Queued? ==> NoWrites(g, i)
    ensures s.state.Releasing? && Complete(g, s.consumerDone) ==> Complete(g, s.producerDone) && Quiet(g, i)
    ensures s.state.Ready? && Complete(g, s.producerDone) ==> Quiet(g, i)
  {
    if s.state.Releasing? && Complete(g, s.consumerDone) {
      if s.consumerDone.stream.MainStream? {
        var w: nat :| w < s.consumerDone.position && WaitAt(g, w, s.producerDone);
        assert Complete(g, s.producerDone);
      }
      assert NoReads(g, i);
    }
  }

  // ---- every step keeps the invariant ----

  lemma ReapSlot(s: Slot, g: Gpu, active: Option<nat>, waiting: bool, i: nat)
    requires GpuOk(g) && SlotOk(s, g, active, waiting, i)
    ensures SlotOk(Reaped(g, s), g, active, waiting, i)
  {
    CompleteMeansQuiet(s, g, active, waiting, i);
  }

  lemma ReapKeeps(r: Ring)
    requires Inv(r)
    ensures Inv(Reap(r))
  {
    var t := Reap(r);
    forall i: nat | i < |t.slots| ensures SlotOk(t.slots[i], t.gpu, t.active, t.waiting, i) {
      ReapSlot(r.slots[i], r.gpu, r.active, r.waiting, i);
    }
  }

  lemma DiscardSlot(s: Slot, g: Gpu, active: Option<nat>, i: nat, ids: set<nat>)
    requires GpuOk(g) && SlotOk(s, g, active, false, i)
    ensures SlotOk(Discarded(g, s, ids), g, active, false, i)
  {
    CompleteMeansQuiet(s, g, active, false, i);
  }

  lemma DiscardKeeps(r: Ring, ids: set<nat>)
    requires Inv(r) && !r.waiting
    ensures Inv(Discard(r, ids))
  {
    var t := Discard(r, ids);
    forall i: nat | i < |t.slots| ensures SlotOk(t.slots[i], t.gpu, t.active, t.waiting, i) {
      DiscardSlot(r.slots[i], r.gpu, r.active, i, ids);
    }
  }

  /** One slot changed, the others are as before. */
  ghost predicate OthersKept(r: Ring, t: Ring, i: nat) {
    && i < |r.slots| == |t.slots| && (forall j :: 0 <= j < |r.slots| && j != i ==> t.slots[j] == r.slots[j])
    && (forall j: nat :: j < |r.slots| && j != i ==> Untouched(r.gpu, t.gpu, j))
    && (forall j: nat :: j < |r.slots| && j != i ==> (t.active == Some(j) <==> r.active == Some(j)))
    && (forall j: nat :: j < |r.slots| && j != i && r.active == Some(j) ==> t.waiting == r.waiting)
    && (t.active.Some? ==> t.active.value < |t.slots|) && (t.waiting ==> t.active.Some?)
  }

  lemma OneSlotStep(r: Ring, t: Ring, i: nat)
    requires SlotsOk(r) && OthersKept(r, t, i) && SlotOk(t.slots[i], t.gpu, t.active, t.waiting, i)
    ensures SlotsOk(t)
  {
    forall j: nat | j < |t.slots| ensures SlotOk(t.slots[j], t.gpu, t.active, t.waiting, j) {
      if j != i {
        SlotUntouched(r.slots[j], r.gpu, t.gpu, r.active, r.waiting, j);
      }
    }
  }

  lemma SubmitKeepsQueue(m: Ring, id: Identity, i: nat, t: Ring)
    requires JobsOk(m) && QueueOk(m) && IsFree(m, i) && m.slots[i].prefetch.None? && m.slots[i].ticket.None?
    requires t == m.(slots := m.slots[i := m.slots[i].(state := Queued, ticket := Some(id))], queue := m.queue + [i],
                     lastSubmitted := id.step)
    ensures JobsOk(t) && QueueOk(t)
  {}

  lemma SubmitKeeps(r: Ring, id: Identity, i: nat, t: Ring)
    requires Inv(r) && Enabled(r, Submit(id, i)) && t == Apply(r, Submit(id, i))
    ensures Inv(t)
  {
    var m := Reap(r);
    ReapKeeps(r);
    assert SlotOk(m.slots[i], m.gpu, m.active, m.waiting, i);
    SubmitKeepsQueue(m, id, i, t);
    OneSlotStep(m, t, i);
  }

  lemma ReserveKeepsJobs(m: Ring, i: nat, t: Ring)
    requires JobsOk(m) && QueueOk(m) && IsFree(m, i) && !m.slots[i].issued
    requires m.slots[i].prefetch.None? && m.slots[i].ticket.None?
    requires t == m.(slots := m.slots[i := m.slots[i].(state := Queued, prefetch := Some(m.nextSequence), discard := false,
                                                       submissionReady := false)],
                     jobs := m.jobs + [Job(m.nextSequence, i)], nextSequence := m.nextSequence + 1)
    ensures JobsOk(t) && QueueOk(t)
  {}

  lemma ReserveKeeps(r: Ring, i: nat, t: Ring)
    requires Inv(r) && Enabled(r, Reserve(i)) && t == Apply(r, Reserve(i)) && r.control != Signalling(i)
    ensures Inv(t)
  {
    var m := Reap(r);
    ReapKeeps(r);
    assert SlotOk(m.slots[i], m.gpu, m.active, m.waiting, i);
    OneSlotStep(m, t, i);
    ReserveKeepsJobs(m, i, t);
  }

  lemma WithReadGpu(g: Gpu, i: nat, m: Mark, h: Gpu)
    requires GpuOk(g) && h == WithRead(g, i, m)
    ensures GpuOk(h) && (forall j: nat :: j != i ==> Untouched(g, h, j))
    ensures Waited(h, m, |h.main.log|)
    ensures forall id, k: nat :: Pending(h, id, k, Write(i)) ==> Pending(g, id, k, Write(i))
    ensures NoReads(g, i) ==> ReadsWait(h, i, m)
  {
    var n := Issue(g, MainStream, Wait(m));
    IssueKeepsGpu(g, MainStream, Wait(m));
    IssueKeepsGpu(n, MainStream, Read(i));
    forall j: nat | j != i ensures Untouched(g, h, j) {
      IssueUntouched(g, MainStream, Wait(m), j);
      IssueUntouched(n, MainStream, Read(i), j);
      UntouchedTwice(g, n, h, j);
    }
    assert WaitAt(h, |g.main.log|, m);
    if NoReads(g, i) {
      forall id, k: nat | Pending(h, id, k, Read(i)) ensures id == MainStream && Waited(h, m, k) {
        assert !Pending(g, id, k, Read(i));
        assert k == |g.main.log| + 1;
      }
    }
  }

  lemma ClaimTicketKeeps(r: Ring, i: nat, t: Ring)
    requires Inv(r) && Enabled(r, ClaimTicket(i)) && t == Apply(r, ClaimTicket(i))
    ensures Inv(t)
  {
    assert SlotOk(r.slots[i], r.gpu, r.active, r.waiting, i);
    WithReadGpu(r.gpu, i, r.slots[i].producerDone, t.gpu);
    OneSlotStep(r, t, i);
  }

  lemma ClaimPrefetchKeeps(r: Ring, i: nat, t: Ring)
    requires Inv(r) && Enabled(r, ClaimPrefetch(i)) && t == Apply(r, ClaimPrefetch(i))
    ensures Inv(t)
  {
    assert SlotOk(r.slots[i], r.gpu, r.active, r.waiting, i);
    OneSlotStep(r, t, i);
  }

  lemma EnqueueReadKeeps(r: Ring, t: Ring)
    requires Inv(r) && Enabled(r, EnqueueRead) && t == Apply(r, EnqueueRead)
    ensures Inv(t)
  {
    var i := r.active.value;
    assert SlotOk(r.slots[i], r.gpu, r.active, r.waiting, i);
    WithReadGpu(r.gpu, i, r.slots[i].producerDone, t.gpu);
    OneSlotStep(r, t, i);
  }

  lemma ReleaseSlot(r: Ring, t: Ring, i: nat)
    requires Inv(r) && Enabled(r, Release) && t == Apply(r, Release) && i == r.active.value
    ensures SlotOk(t.slots[i], t.gpu, t.active, t.waiting, i) && OthersKept(r, t, i)
  {
    assert SlotOk(r.slots[i], r.gpu, r.active, r.waiting, i);
  }

  lemma ReleaseKeeps(r: Ring, t: Ring)
    requires Inv(r) && Enabled(r, Release) && t == Apply(r, Release)
    ensures Inv(t)
  {
    var i := r.active.value;
    ReleaseSlot(r, t, i);
    OneSlotStep(r, t, i);
  }

  lemma TakeTicketKeeps(r: Ring, t: Ring)
    requires Inv(r) && Enabled(r, TakeTicket) && t == Apply(r, TakeTicket)
    ensures Inv(t)
  {
    var i := r.queue[0];
    assert SlotOk(r.slots[i], r.gpu, r.active, r.waiting, i);
    OneSlotStep(r, t, i);
  }

  lemma ProducedSlot(r: Ring, i: nat, id: StreamId, t: Ring)
    requires GpuOk(r.gpu) && SlotsOk(r) && i < |r.slots| && t == Produced(r, i, id) && id != MainStream
    requires !r.slots[i].issued && (r.slots[i].state.Producing? || (r.slots[i].state.Consuming? && r.waiting))
    ensures GpuOk(t.gpu) && SlotsOk(t)
  {
    assert SlotOk(r.slots[i], r.gpu, r.active, r.waiting, i);
    IssueKeepsGpu(r.gpu, id, Write(i));
    forall j: nat | j != i ensures Untouched(r.gpu, t.gpu, j) {
      IssueUntouched(r.gpu, id, Write(i), j);
    }
    forall s, k: nat | Pending(t.gpu, s, k, Write(i)) ensures s == id && k < t.slots[i].producerDone.position {
      assert !Pending(r.gpu, s, k, Write(i));
    }
    forall s, k: nat ensures !Pending(t.gpu, s, k, Read(i)) {
      assert !Pending(r.gpu, s, k, Read(i));
    }
    OneSlotStep(r, t, i);
  }

  lemma IssueTicketKeeps(r: Ring, t: Ring)
    requires Inv(r) && Enabled(r, IssueTicket) && t == Apply(r, IssueTicket)
    ensures Inv(t)
  {
    assert SlotOk(r.slots[r.producer.slot], r.gpu, r.active, r.waiting, r.producer.slot);
    ProducedSlot(r, r.producer.slot, ProducerStream, t);
  }

  lemma FinishTicketKeeps(r: Ring, t: Ring)
    requires Inv(r) && Enabled(r, FinishTicket) && t == Apply(r, FinishTicket)
    ensures Inv(t)
  {
    var i := r.producer.slot;
    assert SlotOk(r.slots[i], r.gpu, r.active, r.waiting, i);
    OneSlotStep(r, t, i);
  }

  lemma TakeJobKeeps(r: Ring, t: Ring)
    requires Inv(r) && Enabled(r, TakeJob) && t == Apply(r, TakeJob)
    ensures Inv(t)
  {
    var i := r.jobs[0].slot;
    assert SlotOk(r.slots[i], r.gpu, r.active, r.waiting, i);
    OneSlotStep(r, t, i);
  }

  lemma CancelJobKeeps(r: Ring, t: Ring)
    requires Inv(r) && Enabled(r, CancelJob) && t == Apply(r, CancelJob)
    ensures Inv(t)
  {
    var i := r.jobs[0].slot;
    assert SlotOk(r.slots[i], r.gpu, r.active, r.waiting, i);
    OneSlotStep(r, t, i);
  }

  lemma IssueJobKeeps(r: Ring, t: Ring)
    requires Inv(r) && Enabled(r, IssueJob) && t == Apply(r, IssueJob)
    ensures Inv(t)
  {
    assert SlotOk(r.slots[r.control.slot], r.gpu, r.active, r.waiting, r.control.slot);
    ProducedSlot(r, r.control.slot, ControlStream, t);
  }

  lemma FinishJobKeeps(r: Ring, t: Ring)
    requires Inv(r) && Enabled(r, FinishJob) && t == Apply(r, FinishJob)
    ensures Inv(t)
  {
    var i := r.control.slot;
    assert SlotOk(r.slots[i], r.gpu, r.active, r.waiting, i);
    OneSlotStep(r, t, i);
  }

  lemma SetReadySlot(r: Ring, t: Ring, i: nat)
    requires Inv(r) && Enabled(r, SetReady) && t == Apply(r, SetReady) && i == r.control.slot
    ensures SlotOk(t.slots[i], t.gpu, t.active, t.waiting, i) && OthersKept(r, t, i)
  {
    assert SlotOk(r.slots[i], r.gpu, r.active, r.waiting, i);
  }

  lemma SetReadyKeeps(r: Ring, t: Ring)
    requires Inv(r) && Enabled(r, SetReady) && t == Apply(r, SetReady)
    ensures Inv(t)
  {
    var i := r.control.slot;
    SetReadySlot(r, t, i);
    OneSlotStep(r, t, i);
  }

  lemma ExecuteUntouched(g: Gpu, id: StreamId, h: Gpu, i: nat)
    requires h == SetStream(g, id, StreamOf(g, id).(done := StreamOf(g, id).done + 1))
    ensures Untouched(g, h, i)
  {}

  lemma ExecuteGpu(g: Gpu, id: StreamId, h: Gpu)
    requires GpuOk(g) && StreamOf(g, id).done < |StreamOf(g, id).log|
    requires h == SetStream(g, id, StreamOf(g, id).(done := StreamOf(g, id).done + 1))
    requires var op := StreamOf(g, id).log[StreamOf(g, id).done]; op.Wait? ==> Complete(g, op.mark)
    ensures GpuOk(h)
  {
    forall s ensures StreamOf(h, s).done <= |StreamOf(h, s).log| {
      assert StreamOf(g, s).done <= |StreamOf(g, s).log|;
    }
    forall w: nat, m | w < h.main.done && WaitAt(h, w, m) ensures Complete(h, m) {
      assert WaitAt(g, w, m);
      assert Complete(g, m);
    }
  }

  lemma ExecuteKeeps(r: Ring, id: StreamId, t: Ring)
    requires Inv(r) && Enabled(r, Execute(id)) && t == Apply(r, Execute(id))
    ensures Inv(t)
  {
    ExecuteGpu(r.gpu, id, t.gpu);
    forall i: nat | i < |t.slots| ensures SlotOk(t.slots[i], t.gpu, t.active, t.waiting, i) {
      ExecuteUntouched(r.gpu, id, t.gpu, i);
      SlotUntouched(r.slots[i], r.gpu, t.gpu, r.active, r.waiting, i);
    }
  }

  lemma ModelThreadKeeps(r: Ring, step: Step, t: Ring)
    requires Inv(r) && Enabled(r, step) && !Rebooks(r, step) && t == Apply(r, step)
    requires step.Submit? || step.Reserve? || step.DiscardAll? || step.ReapAll? || step.ClaimTicket? || step.ClaimPrefetch?
             || step.EnqueueRead? || step.Release?
    ensures Inv(t)
  {
    match step
    case Submit(id, i) => SubmitKeeps(r, id, i, t);
    case Reserve(i) => ReserveKeeps(r, i, t);
    case DiscardAll(ids) => ReapKeeps(r); DiscardKeeps(Reap(r), ids);
    case ReapAll => ReapKeeps(r);
    case ClaimTicket(i) => ClaimTicketKeeps(r, i, t);
    case ClaimPrefetch(i) => ClaimPrefetchKeeps(r, i, t);
    case EnqueueRead => EnqueueReadKeeps(r, t);
    case Release => ReleaseKeeps(r, t);
  }

  lemma StepKeeps(r: Ring, step: Step, t: Ring)
    requires Inv(r) && Enabled(r, step) && !Rebooks(r, step) && t == Apply(r, step)
    ensures Inv(t)
  {
    match step
    case TakeTicket => TakeTicketKeeps(r, t);
    case IssueTicket => IssueTicketKeeps(r, t);
    case FinishTicket => FinishTicketKeeps(r, t);
    case TakeJob => TakeJobKeeps(r, t);
    case CancelJob => CancelJobKeeps(r, t);
    case IssueJob => IssueJobKeeps(r, t);
    case FinishJob => FinishJobKeeps(r, t);
    case SetReady => SetReadyKeeps(r, t);
    case Execute(id) => ExecuteKeeps(r, id, t);
    case _ => ModelThreadKeeps(r, step, t);
  }

  // ---- runs ----

  ghost predicate Run(states: seq<Ring>, steps: seq<Step>) {
    && |states| == |steps| + 1 && Init(states[0])
    && forall k :: 0 <= k < |steps| ==> Enabled(states[k], steps[k]) && states[k + 1] == Apply(states[k], steps[k])
  }

  /** No slot is reserved again while the control thread is signalling on it. */
  ghost predicate Orderly(states: seq<Ring>, steps: seq<Step>) {
    |states| == |steps| + 1 && forall k :: 0 <= k < |steps| ==> !Rebooks(states[k], steps[k])
  }

  lemma {:induction false} RunInv(states: seq<Ring>, steps: seq<Step>, k: nat)
    requires Run(states, steps) && Orderly(states, steps) && k < |states|
    ensures Inv(states[k])
  {
    if k == 0 {
      InitInv(states[0]);
    } else {
      RunInv(states, steps, k - 1);
      assert states[k - 1 + 1] == Apply(states[k - 1], steps[k - 1]);
      StepKeeps(states[k - 1], steps[k - 1], states[k]);
    }
  }

  /** In every reachable state a free slot carries no identity and every other slot exactly one;
      a free or queued slot has no GPU work outstanding. */
  lemma SlotsInEveryRun(states: seq<Ring>, steps: seq<Step>, k: nat, i: nat)
    requires Run(states, steps) && Orderly(states, steps) && k < |states| && i < |states[k].slots|
    ensures var s := states[k].slots[i];
            && (s.state.Free? ==> s.ticket.None? && s.prefetch.None?)
            && (!s.state.Free? ==> OneIdentity(s))
            && (s.state.Free? || s.state.Queued? ==> Quiet(states[k].gpu, i))
  {
    RunInv(states, steps, k);
    assert SlotOk(states[k].slots[i], states[k].gpu, states[k].active, states[k].waiting, i);
  }

  predicate SameIdentity(s: Slot, t: Slot) {
    s.ticket == t.ticket && s.prefetch == t.prefetch
  }

  /** A slot gives up its identity only when the recorded producer and consumer work on it is
      complete and nothing enqueued still touches it. */
  lemma GivenUpInStep(r: Ring, step: Step, t: Ring, i: nat)
    requires Inv(r) && Enabled(r, step) && t == Apply(r, step)
    requires i < |r.slots| && i < |t.slots| && !r.slots[i].state.Free? && !SameIdentity(r.slots[i], t.slots[i])
    ensures Quiet(r.gpu, i)
    ensures r.slots[i].issued ==> Complete(r.gpu, r.slots[i].producerDone)
    ensures r.slots[i].state.Releasing? ==> Complete(r.gpu, r.slots[i].consumerDone)
  {
    assert SlotOk(r.slots[i], r.gpu, r.active, r.waiting, i);
    CompleteMeansQuiet(r.slots[i], r.gpu, r.active, r.waiting, i);
  }

  lemma GivenUpOnlyWhenDone(states: seq<Ring>, steps: seq<Step>, k: nat, i: nat)
    requires Run(states, steps) && Orderly(states, steps)
    requires k < |steps| && i < |states[k].slots| && i < |states[k + 1].slots|
    requires !states[k].slots[i].state.Free? && !SameIdentity(states[k].slots[i], states[k + 1].slots[i])
    ensures Quiet(states[k].gpu, i)
    ensures states[k].slots[i].issued ==> Complete(states[k].gpu, states[k].slots[i].producerDone)
    ensures states[k].slots[i].state.Releasing? ==> Complete(states[k].gpu, states[k].slots[i].consumerDone)
  {
    RunInv(states, steps, k);
    GivenUpInStep(states[k], steps[k], states[k + 1], i);
  }

  /** A new read is enqueued only into a slot that nothing else still touches. */
  lemma ProductionStartsQuiet(states: seq<Ring>, steps: seq<Step>, k: nat)
    requires Run(states, steps) && Orderly(states, steps) && k < |steps| && (steps[k].IssueTicket? || steps[k].IssueJob?)
    ensures var i := if steps[k].IssueTicket? then states[k].producer.slot else states[k].control.slot;
            Quiet(states[k].gpu, i)
  {
    var r := states[k];
    RunInv(states, steps, k);
    assert Enabled(r, steps[k]);
    var i := if steps[k].IssueTicket? then r.producer.slot else r.control.slot;
    assert SlotOk(r.slots[i], r.gpu, r.active, r.waiting, i);
  }

  /** When the model's stream copies a slot, the slot's own production has finished. */
  lemma CopySeesProduction(states: seq<Ring>, steps: seq<Step>, k: nat, i: nat)
    requires Run(states, steps) && Orderly(states, steps) && k < |steps| && steps[k] == Execute(MainStream) && i < |states[k].slots|
    requires states[k].gpu.main.log[states[k].gpu.main.done] == Read(i)
    ensures NoWrites(states[k].gpu, i) && states[k].slots[i].issued
    ensures Complete(states[k].gpu, states[k].slots[i].producerDone)
  {
    var r, s := states[k], states[k].slots[i];
    RunInv(states, steps, k);
    assert SlotOk(s, r.gpu, r.active, r.waiting, i);
    assert Enabled(r, steps[k]);
    assert Pending(r.gpu, MainStream, r.gpu.main.done, Read(i));
    var w: nat :| w < r.gpu.main.done && WaitAt(r.gpu, w, s.producerDone);
    CompleteMeansQuiet(s, r.gpu, r.active, r.waiting, i);
  }

  /** Step ids reach the model in strictly increasing order, so each at most once. */
  lemma {:induction false} ConsumedInOrder(states: seq<Ring>, steps: seq<Step>, k: nat)
    requires Run(states, steps) && k < |states|
    ensures HistoryOk(states[k])
  {
    if k > 0 {
      ConsumedInOrder(states, steps, k - 1);
      assert states[k - 1 + 1] == Apply(states[k - 1], steps[k - 1]);
    }
  }

  // ---- the calls of the model thread, as the source runs them ----

  ghost predicate Took(r: Ring, step: Step, t: Ring) {
    Enabled(r, step) && t == Apply(r, step)
  }

  predicate HoldsStep(s: Slot, step: nat) { s.ticket.Some? && s.ticket.value.step == step }

  /** The first slot with a ticket for the step, or the number of slots. */
  function TicketSlot(slots: seq<Slot>, step: nat): (i: nat)
    ensures i <= |slots| && (i < |slots| ==> HoldsStep(slots[i], step))
    ensures forall j :: 0 <= j < i ==> !HoldsStep(slots[j], step)
  {
    if slots == [] || HoldsStep(slots[0], step) then 0 else TicketSlot(slots[1..], step) + 1
  }

  /** No slot before `i` has a ticket for the step, and slot `i` has one unless it is past the end. */
  ghost predicate FirstFor(slots: seq<Slot>, i: nat, step: nat)
    requires i <= |slots|
  {
    && (forall j :: 0 <= j < i ==> slots[j].ticket.None? || slots[j].ticket.value.step != step)
    && (i < |slots| ==> slots[i].ticket.Some? && slots[i].ticket.value.step == step)
  }

  datatype Consumed = Taken | Stale | NoTicket | Mismatch | NotReady

  function ConsumeAnswer(r: Ring, expected: Identity): Consumed {
    var i := TicketSlot(r.slots, expected.step);
    if expected.step <= r.lastConsumed then Stale
    else if i == |r.slots| then NoTicket
    else if r.slots[i].ticket != Some(expected) then Mismatch
    else if r.slots[i].state.Ready? then Taken else NotReady
  }

  /** When a consumption gets each answer, `i` being the slot it finds. */
  lemma ConsumeAnswerIs(r: Ring, expected: Identity, i: nat)
    requires i == TicketSlot(r.slots, expected.step)
    ensures FirstFor(r.slots, i, expected.step)
    ensures var answer, newer := ConsumeAnswer(r, expected), expected.step > r.lastConsumed;
            && (answer.Stale? <==> !newer)
            && (answer.NoTicket? <==> newer && i == |r.slots|)
            && (answer.Mismatch? <==> newer && i < |r.slots| && r.slots[i].ticket != Some(expected))
            && (answer.Taken? <==> newer && i < |r.slots| && r.slots[i].ticket == Some(expected) && r.slots[i].state.Ready?)
  {}

  /** What a taken slot leaves: it alone has changed, and the copy waits for its production. */
  lemma ClaimTakes(r: Ring, i: nat, id: Identity)
    requires i < |r.slots| && r.slots[i].ticket == Some(id) && Enabled(r, ClaimTicket(i))
    ensures var t := Apply(r, ClaimTicket(i));
            && t.slots == r.slots[i := r.slots[i].(state := Consuming)]
            && t.active == Some(i) && t.lastConsumed == id.step && t.consumed == r.consumed + [id.step]
            && t.gpu.main.log == r.gpu.main.log + [Wait(r.slots[i].producerDone), Read(i)]
            && t.gpu == r.gpu.(main := Stream(t.gpu.main.log, r.gpu.main.done))
  {}

  // ---- which slots a call finds in use ----

  /** The marked work has not executed. */
  ghost predicate Outstanding(g: Gpu, m: Mark) { StreamOf(g, m.stream).done < m.position }

  /** Queued, being produced or consumed, ready to be consumed, or with recorded work outstanding. */
  ghost predicate InUse(g: Gpu, s: Slot) {
    match s.state
    case Free => false
    case Ready => !s.discard || Outstanding(g, s.producerDone)
    case Releasing => Outstanding(g, s.consumerDone)
    case _ => true
  }

  ghost predicate IsBlank(s: Slot) {
    s.state.Free? && s.ticket.None? && s.prefetch.None? && !s.discard && !s.submissionReady
  }

  /** What every call leaves of slot `s` before it does its own work. */
  ghost predicate GivenBack(g: Gpu, s: Slot, t: Slot) {
    if InUse(g, s) || s.state.Free? then t == s else IsBlank(t)
  }

  /** What a discard leaves of it: its prefetch is marked, or freed if it is ready and produced. */
  ghost predicate DiscardLeaves(g: Gpu, s: Slot, ids: set<nat>, t: Slot) {
    if InUse(g, s) && Retired(s, ids) then
      if s.state.Ready? && !Outstanding(g, s.producerDone) then IsBlank(t) else t == s.(discard := true)
    else GivenBack(g, s, t)
  }

  /** A prefetch of one of these requests, not marked before. */
  ghost predicate Retired(s: Slot, ids: set<nat>) { s.prefetch.Some? && s.prefetch.value in ids && !s.discard }

  lemma ReapGivesBack(r: Ring)
    ensures forall i :: 0 <= i < |r.slots| ==> GivenBack(r.gpu, r.slots[i], Reap(r).slots[i])
    ensures forall i :: 0 <= i < |r.slots| ==> (Reap(r).slots[i].state.Free? <==> !InUse(r.gpu, r.slots[i]))
  {}

  lemma DiscardMarks(r: Ring, ids: set<nat>)
    ensures var t := Discard(Reap(r), ids);
            forall i :: 0 <= i < |r.slots| ==> DiscardLeaves(r.gpu, r.slots[i], ids, t.slots[i])
  {}

  /** Slots, among the first `n`, whose prefetch a discard newly marks. */
  ghost function NewlyMarked(g: Gpu, slots: seq<Slot>, ids: set<nat>, n: nat): set<nat>
    requires n <= |slots|
  {
    set i: nat | i < n && InUse(g, slots[i]) && Retired(slots[i], ids)
  }

  lemma MarkOneMore(g: Gpu, slots: seq<Slot>, ids: set<nat>, n: nat)
    requires n < |slots|
    ensures |NewlyMarked(g, slots, ids, n + 1)|
            == |NewlyMarked(g, slots, ids, n)| + (if InUse(g, slots[n]) && Retired(slots[n], ids) then 1 else 0)
  {
    if InUse(g, slots[n]) && Retired(slots[n], ids) {
      assert NewlyMarked(g, slots, ids, n + 1) == NewlyMarked(g, slots, ids, n) + {n};
    } else {
      assert NewlyMarked(g, slots, ids, n + 1) == NewlyMarked(g, slots, ids, n);
    }
  }

  /** The first slot not in use is taken; the others are as the call found them, or given back. */
  ghost predicate TakesFirst(r: Ring, t: Ring, slot: nat) {
    && |t.slots| == |r.slots| && slot < |r.slots| && !InUse(r.gpu, r.slots[slot])
    && (forall j :: 0 <= j < slot ==> InUse(r.gpu, r.slots[j]))
    && (forall j :: 0 <= j < |r.slots| && j != slot ==> GivenBack(r.gpu, r.slots[j], t.slots[j]))
  }

  ghost predicate AllInUse(r: Ring) { forall i :: 0 <= i < |r.slots| ==> InUse(r.gpu, r.slots[i]) }

  class Connector {
    var slots: array<Slot>
    var gpu: Gpu
    var queue: seq<nat>
    var jobs: seq<Job>
    var producer: Worker
    var control: Worker
    var active: Option<nat>
    var waiting: bool
    var lastSubmitted: int
    var lastConsumed: int
    var nextSequence: nat
    var consumed: seq<nat>

    constructor (capacity: nat)
      ensures Init(Contents()) && |Contents().slots| == capacity && fresh(slots)
    {
      slots := new Slot[capacity](_ => Slot(Free, None, None, false, false, false, Mark(MainStream, 0), Mark(MainStream, 0)));
      gpu := Gpu(Stream([], 0), Stream([], 0), Stream([], 0));
      queue, jobs, producer, control, active, waiting := [], [], Idle, Idle, None, false;
      lastSubmitted, lastConsumed, nextSequence, consumed := -1, -1, 0, [];
    }

    function Contents(): Ring
      reads this, slots
    {
      Ring(slots[..], gpu, queue, jobs, producer, control, active, waiting, lastSubmitted, lastConsumed, nextSequence, consumed)
    }

    method ReapLocked()
      modifies slots
      ensures Contents() == Reap(old(Contents()))
    {
      for i := 0 to slots.Length
        invariant forall j :: 0 <= j < i ==> slots[j] == Reaped(gpu, old(slots[j]))
        invariant forall j :: i <= j < slots.Length ==> slots[j] == old(slots[j])
      {
        var s := slots[i];
        if s.state.Releasing? && Complete(gpu, s.consumerDone) {
          slots[i] := Reset(s);
        } else if s.discard && s.state.Ready? && Complete(gpu, s.producerDone) {
          slots[i] := Reset(s);
        }
      }
      assert slots[..] == Reap(old(Contents())).slots;
    }

    /** The first free slot, or `slots.Length`. */
    method FirstFree() returns (i: nat)
      ensures i <= slots.Length && (i < slots.Length ==> slots[i].state.Free?)
      ensures forall j :: 0 <= j < i ==> !slots[j].state.Free?
    {
      i := 0;
      while i < slots.Length && !slots[i].state.Free?
        invariant i <= slots.Length && forall j :: 0 <= j < i ==> !slots[j].state.Free?
      {
        i := i + 1;
      }
    }

    /** Refused for a stale step id, or when every slot is in use after reaping. */
    method Submit(ticket: Identity) returns (accepted: bool, slot: nat)
      requires !waiting
      modifies this, slots
      ensures slots == old(slots)
      ensures accepted ==> Took(old(Contents()), Step.Submit(ticket, slot), Contents())
      ensures accepted ==> forall j :: 0 <= j < slot ==> !Reap(old(Contents())).slots[j].state.Free?
      ensures !accepted && ticket.step <= old(lastSubmitted) ==> Contents() == old(Contents())
      ensures !accepted && ticket.step > old(lastSubmitted) ==>
                Contents() == Reap(old(Contents())) && forall i :: 0 <= i < slots.Length ==> !slots[i].state.Free?
      ensures accepted <==> ticket.step > old(lastSubmitted) && !AllInUse(old(Contents()))
      ensures accepted ==> TakesFirst(old(Contents()), Contents(), slot) && queue == old(queue) + [slot]
                           && Contents().slots[slot].state.Queued? && Contents().slots[slot].ticket == Some(ticket)
    {
      ReapGivesBack(Contents());
      slot := 0;
      if ticket.step <= lastSubmitted {
        return false, 0;
      }
      ReapLocked();
      slot := FirstFree();
      if slot == slots.Length {
        return false, slot;
      }
      slots[slot] := slots[slot].(state := Queued, ticket := Some(ticket));
      queue := queue + [slot];
      lastSubmitted := ticket.step;
      accepted := true;
    }

    method ReservePrefetch() returns (accepted: bool, slot: nat)
      requires !waiting
      modifies this, slots
      ensures slots == old(slots)
      ensures accepted ==> Took(old(Contents()), Reserve(slot), Contents())
      ensures accepted ==> forall j :: 0 <= j < slot ==> !Reap(old(Contents())).slots[j].state.Free?
      ensures !accepted ==>
                Contents() == Reap(old(Contents())) && forall i :: 0 <= i < slots.Length ==> !slots[i].state.Free?
      ensures accepted <==> !AllInUse(old(Contents()))
      ensures accepted ==> TakesFirst(old(Contents()), Contents(), slot) && jobs == old(jobs) + [Job(old(nextSequence), slot)]
                           && Contents().slots[slot].state.Queued? && Contents().slots[slot].prefetch == Some(old(nextSequence))
                           && !Contents().slots[slot].submissionReady && !Contents().slots[slot].discard
    {
      ReapGivesBack(Contents());
      ReapLocked();
      slot := FirstFree();
      if slot == slots.Length {
        return false, slot;
      }
      slots[slot] := slots[slot].(state := Queued, prefetch := Some(nextSequence), discard := false, submissionReady := false);
      jobs := jobs + [Job(nextSequence, slot)];
      nextSequence := nextSequence + 1;
      accepted := true;
    }

    method FindTicket(step: nat) returns (slot: nat)
      ensures slot == TicketSlot(slots[..], step)
    {
      slot := 0;
      while slot < slots.Length && !HoldsStep(slots[slot], step)
        invariant slot <= slots.Length && forall j :: 0 <= j < slot ==> !HoldsStep(slots[j], step)
      {
        slot := slot + 1;
      }
    }

    /** Takes the slot of a ticket, once it is ready. A step already consumed, one without a ticket
        and a ticket for another batch are refused; a slot not ready is waited for. */
    method Consume(expected: Identity) returns (r: Consumed, slot: nat)
      requires !waiting && active.None?
      modifies this, slots
      ensures slots == old(slots)
      ensures r == ConsumeAnswer(old(Contents()), expected) && slot == TicketSlot(old(slots[..]), expected.step)
      ensures r.Taken? ==> Took(old(Contents()), ClaimTicket(slot), Contents())
      ensures !r.Taken? ==> Contents() == old(Contents())
    {
      slot := FindTicket(expected.step);
      if expected.step <= lastConsumed {
        return Stale, slot;
      }
      if slot == slots.Length {
        return NoTicket, slot;
      }
      if slots[slot].ticket != Some(expected) {
        return Mismatch, slot;
      }
      if !slots[slot].state.Ready? {
        return NotReady, slot;
      }
      var m := slots[slot].producerDone;
      slots[slot] := slots[slot].(state := Consuming);
      active, lastConsumed, consumed := Some(slot), expected.step, consumed + [expected.step];
      gpu := WithRead(gpu, slot, m);
      return Taken, slot;
    }

    method ReleaseOutput() returns (accepted: bool)
      requires !waiting && (active.Some? ==> active.value < slots.Length)
      modifies this, slots
      ensures slots == old(slots)
      ensures accepted == Enabled(old(Contents()), Release)
      ensures Contents() == if accepted then Apply(old(Contents()), Release) else old(Contents())
    {
      if active.None? || !slots[active.value].state.Consuming? {
        return false;
      }
      var slot := active.value;
      slots[slot] := slots[slot].(state := Releasing, consumerDone := Mark(MainStream, |gpu.main.log|));
      active := None;
      accepted := true;
    }

    /** Retires the prefetches of a finished request; counts those newly marked. */
    method DiscardPrefetches(ids: set<nat>) returns (discarded: nat)
      requires !waiting
      modifies slots
      ensures Contents() == Apply(old(Contents()), DiscardAll(ids))
      ensures forall i :: 0 <= i < slots.Length ==> DiscardLeaves(gpu, old(Contents()).slots[i], ids, Contents().slots[i])
      ensures discarded == |NewlyMarked(gpu, old(slots[..]), ids, slots.Length)|
    {
      ReapGivesBack(Contents());
      DiscardMarks(Contents(), ids);
      ReapLocked();
      ghost var reaped := slots[..];
      discarded := 0;
      for i := 0 to slots.Length
        invariant discarded == |NewlyMarked(gpu, old(slots[..]), ids, i)|
        invariant forall j :: 0 <= j < i ==> slots[j] == Discarded(gpu, reaped[j], ids)
        invariant forall j :: i <= j < slots.Length ==> slots[j] == reaped[j]
      {
        var s := slots[i];
        MarkOneMore(gpu, old(slots[..]), ids, i);
        if !(s.prefetch.None? || s.prefetch.value !in ids || s.state.Free? || s.discard) {
          slots[i] := s.(discard := true);
          discarded := discarded + 1;
          if s.state.Ready? && Complete(gpu, s.producerDone) {
            slots[i] := Reset(slots[i]);
          }
        }
      }
      assert slots[..] == Discard(Reap(old(Contents())), ids).slots;
    }
  }
}
