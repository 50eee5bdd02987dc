/** Results of the producer process, as `GdsPleRunnerConnector` receives them: which messages a
    slot accepts, and when a slot may be reused.

    Nothing is assumed about the other process: any message may arrive at any moment. */
module IpcResults {
  import opened Options

  datatype SlotState = Free | Queued | Producing | Ready | Consuming | Releasing | Error

  /** `dispatched`: the read for the present done value has been handed to the other process.
      `consumerPending`: the consumer event has been recorded and its work has not completed. */
  datatype Slot = Slot(
    state: SlotState, ticket: Option<nat>, prefetch: Option<nat>, discard: bool,
    submissionReady: bool, dispatched: bool, producerCompleted: bool, doneValue: nat, consumerPending: bool)

  datatype Kind = Submitted | Completed | Failed

  /** A message as it comes from the pipe. */
  datatype Message = Message(kind: Kind, slot: int, value: int)

  /** `_reset_slot_locked`; the done value stays. */
  function Reset(s: Slot): Slot {
    s.(state := Free, ticket := None, prefetch := None, discard := false, submissionReady := false,
       dispatched := false, producerCompleted := false)
  }

  /** `_reap_locked` with a producer process. */
  function Reaped(s: Slot): Slot {
    if s.state.Releasing? && !s.consumerPending && s.producerCompleted then Reset(s)
    else if s.discard && (s.state.Ready? || s.state.Error?) && s.producerCompleted then Reset(s)
    else s
  }

  predicate HasIdentity(s: Slot) { s.ticket.Some? != s.prefetch.Some? }

  // ---- the message handler ----

  predicate AcceptsSubmitted(s: Slot) {
    && HasIdentity(s) && !s.submissionReady
    && (s.state.Queued? || s.state.Producing? || (s.state.Consuming? && s.prefetch.Some?))
  }

  predicate AcceptsCompleted(s: Slot) {
    && s.ticket.Some? != s.prefetch.Some? && s.submissionReady && !s.producerCompleted
    && (s.state.Ready? || s.state.Consuming? || s.state.Releasing?)
  }

  predicate Accepts(slots: seq<Slot>, m: Message) {
    && 0 <= m.slot < |slots| && slots[m.slot].doneValue == m.value
    && match m.kind
       case Submitted => AcceptsSubmitted(slots[m.slot])
       case Completed => AcceptsCompleted(slots[m.slot])
       case Failed => true
  }

  function AfterSubmitted(s: Slot): Slot {
    s.(state := if s.state.Consuming? then Consuming else Ready, submissionReady := true)
  }

  function AfterCompleted(s: Slot): Slot {
    var t := s.(producerCompleted := true);
    if s.discard && (s.state.Ready? || s.state.Releasing?) then Reset(t) else t
  }

  function AfterMessage(s: Slot, k: Kind): Slot {
    match k
    case Submitted => AfterSubmitted(s)
    case Completed => AfterCompleted(s)
    case Failed => s.(state := Error, submissionReady := true)
  }

  function Handle(slots: seq<Slot>, m: Message): seq<Slot> {
    if !Accepts(slots, m) then slots
    else
      var s := slots[m.slot];
      slots[m.slot := AfterMessage(s, m.kind)]
  }

  // ---- everything that can happen to the slots ----

  datatype Step =
    | Submit(slot: nat, step: nat) | Reserve(slot: nat, sequence: nat) | Cancel(slot: nat) | Begin(slot: nat) | Dispatch(slot: nat)
    | Claim(slot: nat) | Release(slot: nat) | ConsumerDone(slot: nat) | Discard(slot: nat) | Reap | Receive(m: Message)

  /** Slots, the next done value, and what has been accepted so far. */
  datatype World = World(slots: seq<Slot>, next: nat, accepted: seq<(nat, Kind)>)

  function ReapAll(slots: seq<Slot>): (t: seq<Slot>)
    ensures |t| == |slots| && forall i :: 0 <= i < |t| ==> t[i] == Reaped(slots[i])
  {
    seq(|slots|, i requires 0 <= i < |slots| => Reaped(slots[i]))
  }

  predicate Enabled(w: World, e: Step) {
    match e
    case Submit(i, _) => i < |w.slots| && Reaped(w.slots[i]).state.Free?
    case Reserve(i, _) => i < |w.slots| && Reaped(w.slots[i]).state.Free?
    case Cancel(i) => i < |w.slots| && w.slots[i].prefetch.Some? && !w.slots[i].state.Consuming?
    case Begin(i) => i < |w.slots| && w.slots[i].state.Queued?
    case Dispatch(i) =>
      i < |w.slots| && !w.slots[i].dispatched
      && (w.slots[i].state.Producing? || (w.slots[i].state.Consuming? && w.slots[i].prefetch.Some?))
    case Claim(i) =>
      i < |w.slots| && (w.slots[i].state.Ready? || (w.slots[i].prefetch.Some? && (w.slots[i].state.Queued? || w.slots[i].state.Producing?)))
    // A consumer waits for the submission before it uses, and later releases, the slot.
    case Release(i) => i < |w.slots| && w.slots[i].state.Consuming? && w.slots[i].submissionReady
    case ConsumerDone(i) => i < |w.slots|
    case Discard(i) => i < |w.slots| && w.slots[i].prefetch.Some? && !w.slots[i].state.Free? && !w.slots[i].discard
    case Reap => true
    case Receive(_) => true
  }

  function Reserved(w: World, i: nat, s: Slot): World
    requires i < |w.slots|
  {
    World(ReapAll(w.slots)[i := s.(state := Queued, dispatched := false, producerCompleted := false, doneValue := w.next)],
          w.next + 1, w.accepted)
  }

  function Apply(w: World, e: Step): World
    requires Enabled(w, e)
  {
    match e
    case Submit(i, step) => Reserved(w, i, Reaped(w.slots[i]).(ticket := Some(step)))
    case Reserve(i, q) =>
      Reserved(w, i, Reaped(w.slots[i]).(prefetch := Some(q), discard := false, submissionReady := false))
    case Cancel(i) => w.(slots := w.slots[i := Reset(w.slots[i])])
    case Begin(i) => w.(slots := w.slots[i := w.slots[i].(state := Producing)])
    case Dispatch(i) => w.(slots := w.slots[i := w.slots[i].(dispatched := true)])
    case Claim(i) => w.(slots := w.slots[i := w.slots[i].(state := Consuming)])
    case Release(i) => w.(slots := w.slots[i := w.slots[i].(state := Releasing, consumerPending := true)])
    case ConsumerDone(i) => w.(slots := w.slots[i := w.slots[i].(consumerPending := false)])
    // The in-process producer event is never recorded in this mode, so its query always succeeds.
    case Discard(i) =>
      w.(slots := w.slots[i := if w.slots[i].state.Ready? || w.slots[i].state.Error? then Reset(w.slots[i])
                               else w.slots[i].(discard := true)])
    case Reap => w.(slots := ReapAll(w.slots))
    case Receive(m) =>
      if Accepts(w.slots, m) then
        w.(slots := Handle(w.slots, m), accepted := w.accepted + [(w.slots[m.slot].doneValue, m.kind)])
      else w
  }

  predicate Init(w: World) {
    && w.next == 1 && w.accepted == []
    && forall i :: 0 <= i < |w.slots| ==> w.slots[i] == Slot(Free, None, None, false, false, false, false, 0, false)
  }

  ghost predicate IsRun(ws: seq<World>, es: seq<Step>) {
    && |ws| == |es| + 1 && Init(ws[0])
    && forall i :: 0 <= i < |es| ==> Enabled(ws[i], es[i]) && ws[i + 1] == Apply(ws[i], es[i])
  }

  // ---- what was accepted for one done value ----

  /** The progress messages accepted for `value`, in order. */
  function Progress(log: seq<(nat, Kind)>, value: nat): seq<Kind> {
    if log == [] then []
    else
      var e := log[|log| - 1];
      Progress(log[..|log| - 1], value) + (if e.0 == value && !e.1.Failed? then [e.1] else [])
  }

  lemma ProgressGrows(log: seq<(nat, Kind)>, v: nat, k: Kind, value: nat)
    ensures Progress(log + [(v, k)], value) == Progress(log, value) + (if v == value && !k.Failed? then [k] else [])
  {
    assert (log + [(v, k)])[..|log|] == log;
  }

  predicate IsPrefix(s: seq<Kind>) { s == [] || s == [Submitted] || s == [Submitted, Completed] }

  // ---- the invariant ----

  /** The automaton of one slot: its flags say how far its present done value has come. */
  predicate SlotOk(s: Slot, next: nat, progress: seq<Kind>) {
    && (s.state.Free? ==> s.ticket.None? && s.prefetch.None? && !s.submissionReady && !s.producerCompleted && !s.discard)
    && (HasIdentity(s) ==>
          && 0 < s.doneValue < next
          && (!s.submissionReady ==> progress == [])
          && (s.submissionReady && !s.producerCompleted && !s.state.Error? ==> progress == [Submitted])
          && (s.producerCompleted ==> progress == [Submitted, Completed])
          && (!s.producerCompleted ==> progress != [Submitted, Completed]))
    && (!(s.state.Free? || s.state.Error?) ==> HasIdentity(s))
    && (s.ticket.None? || s.prefetch.None?) && (s.dispatched ==> HasIdentity(s))
    && (s.producerCompleted ==> s.submissionReady)
    && (s.state.Ready? || s.state.Releasing? ==> s.submissionReady)
    && (s.state.Queued? || s.state.Producing? ==> !s.submissionReady)
    && (s.state.Consuming? && !s.submissionReady ==> s.prefetch.Some?)
    && s.doneValue < next
  }

  ghost predicate SlotsOk(w: World) {
    forall i :: 0 <= i < |w.slots| ==> SlotOk(w.slots[i], w.next, Progress(w.accepted, w.slots[i].doneValue))
  }

  /** No two slots that hold something share a done value. */
  ghost predicate ValuesDiffer(w: World) {
    forall i, j :: 0 <= i < j < |w.slots| && HasIdentity(w.slots[i]) && HasIdentity(w.slots[j]) ==>
      w.slots[i].doneValue != w.slots[j].doneValue
  }

  ghost predicate LogOk(w: World) {
    && (forall v: nat :: IsPrefix(Progress(w.accepted, v)))
    && (forall v: nat :: v >= w.next || v == 0 ==> Progress(w.accepted, v) == [])
  }

  ghost predicate Inv(w: World) { 0 < w.next && SlotsOk(w) && ValuesDiffer(w) && LogOk(w) }

  /** One slot, one message: the flags move as the accepted messages do. */
  lemma SlotKeeps(s: Slot, next: nat, progress: seq<Kind>, k: Kind)
    requires SlotOk(s, next, progress) && (k.Submitted? ==> AcceptsSubmitted(s)) && (k.Completed? ==> AcceptsCompleted(s))
    ensures SlotOk(AfterMessage(s, k), next, if k.Failed? then progress else progress + [k])
    ensures !k.Failed? ==> IsPrefix(progress + [k]) && HasIdentity(s)
    ensures HasIdentity(AfterMessage(s, k)) ==> HasIdentity(s) && AfterMessage(s, k).doneValue == s.doneValue
  {}

  /** The log after one more accepted message. */
  predicate LoggedBy(w: World, t: World, v: nat, k: Kind) {
    t.next == w.next && t.accepted == w.accepted + [(v, k)]
  }

  lemma LogKeeps(w: World, t: World, v: nat, k: Kind)
    requires LogOk(w) && LoggedBy(w, t, v, k) && 0 < v < w.next
    requires !k.Failed? ==> IsPrefix(Progress(w.accepted, v) + [k])
    ensures LogOk(t)
  {
    forall u: nat ensures IsPrefix(Progress(t.accepted, u)) && (u >= t.next || u == 0 ==> Progress(t.accepted, u) == []) {
      ProgressGrows(w.accepted, v, k, u);
    }
  }

  lemma LogKeepsFailed(w: World, t: World, v: nat)
    requires LogOk(w) && LoggedBy(w, t, v, Failed)
    ensures LogOk(t)
  {
    forall u: nat ensures Progress(t.accepted, u) == Progress(w.accepted, u) {
      ProgressGrows(w.accepted, v, Failed, u);
    }
  }

  lemma OtherSlotKeeps(w: World, t: World, i: nat, slot: nat, v: nat, k: Kind)
    requires i < |w.slots| && slot < |w.slots| && i != slot && SlotOk(w.slots[i], w.next, Progress(w.accepted, w.slots[i].doneValue))
    requires LoggedBy(w, t, v, k)
    requires !k.Failed? && HasIdentity(w.slots[i]) ==> w.slots[i].doneValue != v
    ensures SlotOk(w.slots[i], t.next, Progress(t.accepted, w.slots[i].doneValue))
  {
    ProgressGrows(w.accepted, v, k, w.slots[i].doneValue);
  }

  lemma SlotsKeep(w: World, t: World, slot: nat, v: nat, k: Kind, after: Slot)
    requires SlotsOk(w) && ValuesDiffer(w) && slot < |w.slots| && LoggedBy(w, t, v, k)
    requires t.slots == w.slots[slot := after] && v == w.slots[slot].doneValue
    requires !k.Failed? ==> HasIdentity(w.slots[slot])
    requires SlotOk(after, t.next, Progress(t.accepted, after.doneValue))
    ensures SlotsOk(t)
  {
    forall i: nat | i < |t.slots| ensures SlotOk(t.slots[i], t.next, Progress(t.accepted, t.slots[i].doneValue)) {
      if i != slot {
        OtherSlotKeeps(w, t, i, slot, v, k);
      }
    }
  }

  lemma DifferKeeps(w: World, t: World, slot: nat, after: Slot)
    requires ValuesDiffer(w) && slot < |w.slots| && t.slots == w.slots[slot := after]
    requires HasIdentity(after) ==> HasIdentity(w.slots[slot]) && after.doneValue == w.slots[slot].doneValue
    ensures ValuesDiffer(t)
  {}

  lemma AfterMessageValue(s: Slot, k: Kind)
    ensures AfterMessage(s, k).doneValue == s.doneValue
  {}

  lemma ReceiveKeeps(w: World, m: Message)
    requires Inv(w)
    ensures Inv(Apply(w, Receive(m)))
  {
    if Accepts(w.slots, m) {
      var slot: nat := m.slot;
      var s := w.slots[slot];
      var v, after, t := s.doneValue, AfterMessage(s, m.kind), Apply(w, Receive(m));
      SlotKeeps(s, w.next, Progress(w.accepted, v), m.kind);
      AfterMessageValue(s, m.kind);
      ProgressGrows(w.accepted, v, m.kind, v);
      SlotsKeep(w, t, slot, v, m.kind, after);
      DifferKeeps(w, t, slot, after);
      if m.kind.Failed? {
        LogKeepsFailed(w, t, v);
      } else {
        LogKeeps(w, t, v, m.kind);
      }
    }
  }

  lemma ReapedKeeps(s: Slot, next: nat, progress: seq<Kind>)
    requires SlotOk(s, next, progress)
    ensures SlotOk(Reaped(s), next, progress) && SlotOk(Reaped(s), next + 1, progress)
    ensures HasIdentity(Reaped(s)) ==> Reaped(s) == s
  {}

  lemma ReapKeeps(w: World)
    requires Inv(w)
    ensures Inv(w.(slots := ReapAll(w.slots)))
  {
    forall i | 0 <= i < |w.slots|
      ensures SlotOk(Reaped(w.slots[i]), w.next, Progress(w.accepted, w.slots[i].doneValue))
      ensures HasIdentity(Reaped(w.slots[i])) ==> Reaped(w.slots[i]) == w.slots[i]
    {
      ReapedKeeps(w.slots[i], w.next, Progress(w.accepted, w.slots[i].doneValue));
    }
  }

  /** A free slot taken under the next done value. */
  lemma TakeKeeps(w: World, i: nat, s: Slot)
    requires Inv(w) && i < |w.slots| && HasIdentity(s) && !s.submissionReady
    ensures Inv(World(w.slots[i := s.(state := Queued, dispatched := false, producerCompleted := false, doneValue := w.next)],
                      w.next + 1, w.accepted))
  {}

  lemma ReserveKeeps(w: World, e: Step)
    requires Inv(w) && Enabled(w, e) && (e.Submit? || e.Reserve?)
    ensures Inv(Apply(w, e))
  {
    ReapKeeps(w);
    ReapedKeeps(w.slots[e.slot], w.next, Progress(w.accepted, w.slots[e.slot].doneValue));
    var r := Reaped(w.slots[e.slot]);
    var s := if e.Submit? then r.(ticket := Some(e.step)) else r.(prefetch := Some(e.sequence), discard := false, submissionReady := false);
    TakeKeeps(w.(slots := ReapAll(w.slots)), e.slot, s);
  }

  lemma OtherKeeps(w: World, e: Step)
    requires Inv(w) && Enabled(w, e) && !e.Submit? && !e.Reserve? && !e.Receive?
    ensures Inv(Apply(w, e))
  {
    if e.Reap? {
      ReapKeeps(w);
    } else {
      var t := Apply(w, e);
      assert t.slots == w.slots[e.slot := t.slots[e.slot]];
      OneSlotKeeps(w, e.slot, t.slots[e.slot]);
    }
  }

  lemma OneSlotKeeps(w: World, i: nat, s: Slot)
    requires Inv(w) && i < |w.slots| && s.doneValue == w.slots[i].doneValue
    requires SlotOk(s, w.next, Progress(w.accepted, s.doneValue)) && (HasIdentity(s) ==> HasIdentity(w.slots[i]))
    ensures Inv(w.(slots := w.slots[i := s]))
  {}

  lemma {:induction false} RunInv(ws: seq<World>, es: seq<Step>, i: nat)
    requires IsRun(ws, es) && i <= |es|
    ensures Inv(ws[i])
  {
    if i > 0 {
      RunInv(ws, es, i - 1);
      var e := es[i - 1];
      if e.Receive? {
        ReceiveKeeps(ws[i - 1], e.m);
      } else if e.Submit? || e.Reserve? {
        ReserveKeeps(ws[i - 1], e);
      } else {
        OtherKeeps(ws[i - 1], e);
      }
    }
  }

  // ---- main results ----

  /** Whatever arrives, what is accepted for a done value is a prefix of submitted, completed. */
  lemma AcceptedIsPrefix(ws: seq<World>, es: seq<Step>, i: nat, value: nat)
    requires IsRun(ws, es) && i <= |es|
    ensures IsPrefix(Progress(ws[i].accepted, value))
  {
    RunInv(ws, es, i);
  }

  /** A slot that holds something, under this done value, and has not failed. */
  predicate Holds(slots: seq<Slot>, slot: int, value: int) {
    && 0 <= slot < |slots| && slots[slot].doneValue == value && !slots[slot].state.Error?
    && (slots[slot].ticket.Some? || slots[slot].prefetch.Some?)
  }

  /** A progress message is accepted if and only if its slot holds something under its done value,
      has not failed, and the message is the next one after those accepted for that value. */
  lemma AcceptedIffNext(ws: seq<World>, es: seq<Step>, i: nat, m: Message)
    requires IsRun(ws, es) && i <= |es| && !m.kind.Failed?
    ensures Accepts(ws[i].slots, m)
            <==> Holds(ws[i].slots, m.slot, m.value)
                 && Progress(ws[i].accepted, ws[i].slots[m.slot].doneValue) == if m.kind.Submitted? then [] else [Submitted]
  {
    RunInv(ws, es, i);
    if 0 <= m.slot < |ws[i].slots| {
      NextIsAccepted(ws[i].slots[m.slot], ws[i].next, Progress(ws[i].accepted, ws[i].slots[m.slot].doneValue));
    }
  }

  lemma NextIsAccepted(s: Slot, next: nat, progress: seq<Kind>)
    requires SlotOk(s, next, progress)
    ensures AcceptsSubmitted(s) <==> !s.state.Error? && (s.ticket.Some? || s.prefetch.Some?) && progress == []
    ensures AcceptsCompleted(s) <==> !s.state.Error? && (s.ticket.Some? || s.prefetch.Some?) && progress == [Submitted]
  {}

  predicate Takes(e: Step) { e.Submit? || e.Reserve? }

  function TakenSlot(e: Step): nat
    requires Takes(e)
  {
    e.slot
  }

  lemma {:induction false} ValuesOnlyGrow(ws: seq<World>, es: seq<Step>, i: nat, j: nat)
    requires IsRun(ws, es) && i <= j <= |es|
    ensures ws[i].next <= ws[j].next
    ensures i < j && Takes(es[i]) ==> ws[i].next < ws[j].next
  {
    if i < j {
      ValuesOnlyGrow(ws, es, i, j - 1);
      if i < j - 1 {
        assert ws[j] == Apply(ws[j - 1], es[j - 1]);
      }
    }
  }

  /** Done values never repeat: two reservations of a run get different ones. */
  lemma DoneValuesDiffer(ws: seq<World>, es: seq<Step>, i: nat, j: nat)
    requires IsRun(ws, es) && i < j < |es| && Takes(es[i]) && Takes(es[j])
    ensures ws[i + 1].slots[TakenSlot(es[i])].doneValue < ws[j + 1].slots[TakenSlot(es[j])].doneValue
  {
    ValuesOnlyGrow(ws, es, i, j);
  }

  /** A progress message for a slot that has been reset, or that carries another done value than
      the slot's present one, changes nothing. */
  lemma StaleIsRejected(ws: seq<World>, es: seq<Step>, i: nat, m: Message)
    requires IsRun(ws, es) && i <= |es| && !m.kind.Failed?
    requires 0 <= m.slot < |ws[i].slots| ==> ws[i].slots[m.slot].state.Free? || ws[i].slots[m.slot].doneValue != m.value
    ensures !Accepts(ws[i].slots, m) && Apply(ws[i], Receive(m)) == ws[i]
  {
    RunInv(ws, es, i);
  }

  /** A slot that is never discarded or cancelled becomes free only by being reaped after its own
      read has completed and its consumer's work has completed. */
  lemma FreedOnlyWhenBothDone(ws: seq<World>, es: seq<Step>, i: nat, k: nat)
    requires IsRun(ws, es) && i < |es| && k < |ws[i].slots| && k < |ws[i + 1].slots|
    requires !ws[i].slots[k].state.Free? && !ws[i].slots[k].discard && es[i] != Discard(k) && es[i] != Cancel(k)
    requires ws[i + 1].slots[k].state.Free? || (Takes(es[i]) && TakenSlot(es[i]) == k)
    requires !ws[i].slots[k].state.Error?
    ensures ws[i].slots[k].state.Releasing? && !ws[i].slots[k].consumerPending
    ensures Progress(ws[i].accepted, ws[i].slots[k].doneValue) == [Submitted, Completed]
  {
    RunInv(ws, es, i);
    assert ws[i + 1] == Apply(ws[i], es[i]);
  }

  /** A slot that holds something can be taken by a new ticket or prefetch exactly when its read has
      completed and nobody wants its rows any more: it has been released and its consumer's work
      has completed, or it was discarded unconsumed. */
  lemma TakenOverIff(ws: seq<World>, es: seq<Step>, i: nat, k: nat, n: nat)
    requires IsRun(ws, es) && i <= |es| && k < |ws[i].slots|
    requires ws[i].slots[k].ticket.Some? || ws[i].slots[k].prefetch.Some?
    ensures var s := ws[i].slots[k];
            var done := Progress(ws[i].accepted, s.doneValue) == [Submitted, Completed]
                        && ((s.state.Releasing? && !s.consumerPending) || (s.discard && (s.state.Ready? || s.state.Error?)));
            && (Enabled(ws[i], Submit(k, n)) <==> done) && (Enabled(ws[i], Reserve(k, n)) <==> done)
            && (Apply(ws[i], Reap).slots[k].state.Free? <==> done)
  {
    RunInv(ws, es, i);
    assert SlotOk(ws[i].slots[k], ws[i].next, Progress(ws[i].accepted, ws[i].slots[k].doneValue));
  }

  /** A slot is consumed only after its submission was accepted, or it is a prefetch claimed
      early, which can be released only after. */
  lemma UsedOnlyWhenSubmitted(ws: seq<World>, es: seq<Step>, i: nat, k: nat)
    requires IsRun(ws, es) && i < |es|
    requires es[i] == Release(k) || (es[i] == Claim(k) && k < |ws[i].slots| && ws[i].slots[k].ticket.Some?)
    ensures k < |ws[i].slots| && Progress(ws[i].accepted, ws[i].slots[k].doneValue) != []
  {
    RunInv(ws, es, i);
  }

  /** Slot `k` is given up, for good or to a new owner. */
  predicate Freed(w: World, e: Step, t: World, k: nat)
    requires k < |w.slots| && k < |t.slots|
  {
    !w.slots[k].state.Free? && (t.slots[k].state.Free? || (Takes(e) && TakenSlot(e) == k))
  }

  /** It is given up while the other process still has its read: no completion was accepted. */
  predicate FreedEarly(w: World, e: Step, t: World, k: nat)
    requires k < |w.slots| && k < |t.slots|
  {
    Freed(w, e, t, k) && w.slots[k].dispatched && Progress(t.accepted, w.slots[k].doneValue) != [Submitted, Completed]
  }

  lemma ReceiveFreesLate(w: World, m: Message, t: World, k: nat)
    requires Inv(w) && t == Apply(w, Receive(m)) && k < |w.slots|
    ensures !FreedEarly(w, Receive(m), t, k)
  {
    if Accepts(w.slots, m) && m.slot == k && m.kind.Completed? {
      var s := w.slots[k];
      assert SlotOk(s, w.next, Progress(w.accepted, s.doneValue));
      ProgressGrows(w.accepted, s.doneValue, Completed, s.doneValue);
    }
  }

  lemma ReapFreesLate(w: World, e: Step, t: World, k: nat)
    requires Inv(w) && Enabled(w, e) && t == Apply(w, e) && k < |w.slots| && (Takes(e) || e.Reap?)
    ensures !FreedEarly(w, e, t, k)
  {
    assert SlotOk(w.slots[k], w.next, Progress(w.accepted, w.slots[k].doneValue));
  }

  predicate Abandons(s: Slot, e: Step, k: nat) {
    e == Cancel(k) || (e == Discard(k) && (s.state.Ready? || s.state.Error?))
  }

  lemma OwnStepFrees(w: World, e: Step, t: World, k: nat)
    requires Inv(w) && Enabled(w, e) && t == Apply(w, e) && k < |w.slots| && !Takes(e) && !e.Reap? && !e.Receive?
    ensures Freed(w, e, t, k) <==> Abandons(w.slots[k], e, k)
    ensures t.accepted == w.accepted && (Abandons(w.slots[k], e, k) ==> HasIdentity(w.slots[k]))
  {
    assert SlotOk(w.slots[k], w.next, Progress(w.accepted, w.slots[k].doneValue));
  }

  /** A step gives a slot up before its dispatched read has completed if and only if it discards the
      slot in state Ready or Error, or cancels it, without that completion. */
  lemma FreedEarlyIff(ws: seq<World>, es: seq<Step>, i: nat, k: nat)
    requires IsRun(ws, es) && i < |es| && k < |ws[i].slots| && k < |ws[i + 1].slots|
    ensures FreedEarly(ws[i], es[i], ws[i + 1], k)
            <==> (var s := ws[i].slots[k];
                  s.dispatched && !s.producerCompleted && Abandons(s, es[i], k))
  {
    RunInv(ws, es, i);
    var w, e := ws[i], es[i];
    assert ws[i + 1] == Apply(w, e);
    assert SlotOk(w.slots[k], w.next, Progress(w.accepted, w.slots[k].doneValue));
    if e.Receive? {
      ReceiveFreesLate(w, e.m, ws[i + 1], k);
    } else if Takes(e) || e.Reap? {
      ReapFreesLate(w, e, ws[i + 1], k);
    } else {
      OwnStepFrees(w, e, ws[i + 1], k);
    }
  }

  /** A failing run: a slot discarded once it is Ready belongs to someone else, while the read for
      its first owner, under done value 1, is still going on. */
  lemma DiscardFreesEarly() returns (ws: seq<World>, es: seq<Step>)
    ensures IsRun(ws, es) && |es| == 6 && |ws[4].slots| == |ws[5].slots| == |ws[6].slots| == 1
    ensures es[4] == Discard(0) && FreedEarly(ws[4], es[4], ws[5], 0)
    ensures ws[6].slots[0].state.Queued? && ws[6].slots[0].doneValue == 2 && Progress(ws[6].accepted, 1) == [Submitted]
  {
    var free := Slot(Free, None, None, false, false, false, false, 0, false);
    ws, es := [World([free], 1, [])], [];
    ws, es := OneMore(ws, es, Reserve(0, 0));
    ws, es := OneMore(ws, es, Begin(0));
    ws, es := OneMore(ws, es, Dispatch(0));
    ws, es := OneMore(ws, es, Receive(Message(Submitted, 0, 1)));
    ProgressGrows([], 1, Submitted, 1);
    ws, es := OneMore(ws, es, Discard(0));
    ws, es := OneMore(ws, es, Reserve(0, 1));
  }

  lemma OneMore(ws: seq<World>, es: seq<Step>, e: Step) returns (ws': seq<World>, es': seq<Step>)
    requires IsRun(ws, es) && Enabled(ws[|es|], e)
    ensures IsRun(ws', es') && es' == es + [e] && ws'[..|ws|] == ws && ws'[|es'|] == Apply(ws[|es|], e)
  {
    ws', es' := ws + [Apply(ws[|es|], e)], es + [e];
  }

  // ---- the handler ----

  class Receiver {
    var slots: seq<Slot>
    var errors: nat

    constructor (slots: seq<Slot>)
      ensures this.slots == slots && errors == 0
    {
      this.slots, errors := slots, 0;
    }

    /** `_handle_ipc_result`; a rejected message is recorded as an error. */
    method HandleIpcResult(m: Message) returns (accepted: bool)
      modifies this
      ensures accepted == Accepts(old(slots), m)
      ensures slots == Handle(old(slots), m)
      ensures errors == old(errors) + (if accepted && !m.kind.Failed? then 0 else 1)
    {
      if m.slot < 0 || m.slot >= |slots| || slots[m.slot].doneValue != m.value {
        errors := errors + 1;
        return false;
      }
      var slot := slots[m.slot];
      match m.kind {
        case Submitted => {
          if slot.ticket.Some? == slot.prefetch.Some? || slot.submissionReady {
            errors := errors + 1;
            return false;
          }
          if slot.state.Queued? || slot.state.Producing? {
            slot := slot.(state := Ready);
          } else if !(slot.state.Consuming? && slot.prefetch.Some?) {
            errors := errors + 1;
            return false;
          }
          slot := slot.(submissionReady := true);
        }
        case Completed => {
          if slot.ticket.Some? == slot.prefetch.Some? || !slot.submissionReady || slot.producerCompleted
             || !(slot.state.Ready? || slot.state.Consuming? || slot.state.Releasing?) {
            errors := errors + 1;
            return false;
          }
          slot := slot.(producerCompleted := true);
          if slot.discard && (slot.state.Ready? || slot.state.Releasing?) {
            slot := Reset(slot);
          }
        }
        case Failed => {
          slot := slot.(state := Error, submissionReady := true);
          errors := errors + 1;
        }
      }
      slots := slots[m.slot := slot];
      return true;
    }
  }
}
