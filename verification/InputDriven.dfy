/** Host-side accounting of `InputDrivenGdsPleConnector`: the model thread launches and releases
    outputs, a background thread takes requests from a one-place queue, and results arrive later,
    from the same thread or from another process.

    Each step is one critical section or one blocking call that has returned; threads interleave
    freely. What the GPU does is the subject of `TwoRank`. */
module InputDriven {
  import opened Options

  datatype Record = Record(dummy: bool, tokens: nat, released: bool, completed: bool)

  /** Between launching and its metadata hand-off the model thread is inside `prepare_forward`. */
  datatype ModelPhase = Ready | HandingOff(sequence: nat)

  datatype WorkerPhase = Waiting | Copying(sequence: nat) | Planning(sequence: nat)

  datatype Stats = Stats(launched: nat, dummy: nat, released: nat, completed: nat, handoffs: nat, samples: seq<nat>)

  datatype State = State(
    nextSequence: nat, active: Option<nat>, activeTokens: nat, records: map<nat, Record>,
    mailbox: Option<nat>, metadataEnqueued: nat, error: bool, stats: Stats)

  /** `None` where the source raises without changing anything. */
  type Outcome = Option<State>

  // ---- the critical sections ----

  function Launch(s: State, tokens: nat, dummy: bool): Outcome {
    if s.error || s.active.Some? then None
    else Some(s.(nextSequence := s.nextSequence + 1, active := Some(s.nextSequence), activeTokens := tokens,
                 records := s.records[s.nextSequence := Record(dummy, tokens, false, dummy)],
                 stats := s.stats.(launched := s.stats.launched + 1,
                                   dummy := s.stats.dummy + (if dummy then 1 else 0))))
  }

  /** `put_nowait`: a full queue is a failure of the whole path. */
  function Enqueue(s: State, sequence: nat): State {
    if s.mailbox.Some? then s.(error := true) else s.(mailbox := Some(sequence))
  }

  /** `_finalize_record_locked`: a real record goes, with one sample, when both sides are done. */
  function Finalize(s: State, sequence: nat): State {
    if sequence !in s.records then s
    else
      var r := s.records[sequence];
      if r.dummy then (if r.released then s.(records := s.records - {sequence}) else s)
      else if !r.released || !r.completed then s
      else s.(records := s.records - {sequence}, stats := s.stats.(samples := s.stats.samples + [sequence]))
  }

  function Release(s: State): Outcome {
    if s.active.None? || s.active.value !in s.records then None
    else
      var q := s.active.value;
      Some(Finalize(s.(records := s.records[q := s.records[q].(released := true)],
                       stats := s.stats.(released := s.stats.released + 1), active := None, activeTokens := 0), q))
  }

  /** A `submitted` message changes timings only, but must name a live real record. */
  function Submitted(s: State, sequence: nat): State {
    if sequence !in s.records || s.records[sequence].dummy then s.(error := true) else s
  }

  function Completed(s: State, sequence: nat): State {
    if sequence !in s.records || s.records[sequence].dummy then s.(error := true)
    else if s.records[sequence].completed then s.(error := true)
    else Finalize(s.(records := s.records[sequence := s.records[sequence].(completed := true)],
                     stats := s.stats.(completed := s.stats.completed + 1)), sequence)
  }

  /** `wait_for_output_ready` returns. */
  predicate OutputReady(s: State) {
    && !s.error && s.active.Some? && s.active.value in s.records && s.records[s.active.value].completed
  }

  // ---- runs ----

  /** The connector, where its threads are, which reads have been dispatched, and what has
      happened: `launches` of real reads, `finished` reads, `letGo` real outputs. */
  datatype World = World(s: State, model: ModelPhase, worker: WorkerPhase, reading: set<nat>,
                         launches: set<nat>, finished: set<nat>, letGo: set<nat>)

  datatype Event =
    | PrepareForward(tokens: nat) | HandedOff | DummyOutputs(tokens: nat) | ReleaseOutputs
    | Take | MetadataEnqueued | Dispatch | ReportSubmitted(sequence: nat) | ReportCompleted(sequence: nat)

  function Start(): World {
    World(State(1, None, 0, map[], None, 0, false, Stats(0, 0, 0, 0, 0, [])), Ready, Waiting, {}, {}, {}, {})
  }

  /** When a thread can take the step at all. */
  predicate Enabled(w: World, e: Event) {
    match e
    case PrepareForward(tokens) => w.model.Ready? && tokens > 0
    case DummyOutputs(tokens) => w.model.Ready? && tokens > 0
    case ReleaseOutputs => w.model.Ready?
    case HandedOff => w.model.HandingOff? && w.s.metadataEnqueued >= w.model.sequence
    case Take => w.worker.Waiting? && w.s.mailbox.Some?
    case MetadataEnqueued => w.worker.Copying?
    case Dispatch => w.worker.Planning?
    case ReportSubmitted(q) => q in w.reading
    case ReportCompleted(q) => q in w.reading
  }

  function Step(w: World, e: Event): World
    requires Enabled(w, e)
  {
    match e
    case PrepareForward(tokens) =>
      var q := w.s.nextSequence;
      (match Launch(w.s, tokens, false)
       case None => w
       case Some(t) => w.(s := Enqueue(t, q), launches := w.launches + {q},
                          model := if t.mailbox.Some? then Ready else HandingOff(q)))
    case HandedOff =>
      if w.s.metadataEnqueued == w.model.sequence then
        w.(s := w.s.(stats := w.s.stats.(handoffs := w.s.stats.handoffs + 1)), model := Ready)
      else w.(s := w.s.(error := true), model := Ready)
    case DummyOutputs(tokens) =>
      (match Launch(w.s, tokens, true)
       case None => w
       case Some(t) => w.(s := t))
    case ReleaseOutputs =>
      (match Release(w.s)
       case None => w
       case Some(t) => w.(s := t, letGo := if w.s.active.value in w.launches then w.letGo + {w.s.active.value} else w.letGo))
    case Take => w.(s := w.s.(mailbox := None), worker := Copying(w.s.mailbox.value))
    case MetadataEnqueued => w.(s := w.s.(metadataEnqueued := w.worker.sequence), worker := Planning(w.worker.sequence))
    case Dispatch =>
      if w.worker.sequence !in w.s.records then w.(s := w.s.(error := true), worker := Waiting)
      else w.(worker := Waiting, reading := w.reading + {w.worker.sequence})
    case ReportSubmitted(q) => w.(s := Submitted(w.s, q))
    case ReportCompleted(q) => w.(s := Completed(w.s, q), reading := w.reading - {q}, finished := w.finished + {q})
  }

  ghost predicate IsRun(ws: seq<World>, es: seq<Event>) {
    && |ws| == |es| + 1 && ws[0] == Start()
    && forall i :: 0 <= i < |es| ==> Enabled(ws[i], es[i]) && ws[i + 1] == Step(ws[i], es[i])
  }

  // ---- the invariant ----

  /** A record is kept exactly while one side still needs it. */
  predicate Live(w: World, q: nat) {
    (q in w.launches && !(q in w.finished && q in w.letGo)) || (w.s.active == Some(q) && q !in w.launches)
  }

  ghost predicate RecordsOk(w: World) {
    && (forall q: nat :: q in w.s.records <==> Live(w, q))
    && (forall q: nat :: q in w.s.records ==> RecordOk(w, q, w.s.records[q]))
  }

  predicate RecordOk(w: World, q: nat, r: Record) {
    && (r.dummy <==> q !in w.launches) && (r.released <==> q in w.letGo)
    && (r.completed <==> r.dummy || q in w.finished)
  }

  ghost predicate HistoryOk(w: World) {
    && w.finished <= w.launches && w.letGo <= w.launches
    && (forall q: nat :: q in w.launches ==> 0 < q < w.s.nextSequence)
    && 0 < w.s.nextSequence
    && (w.s.active.Some? ==> w.s.active.value + 1 == w.s.nextSequence && w.s.active.value !in w.letGo)
    && (w.s.active.Some? ==> 0 < w.s.active.value)
    && (forall q: nat :: q in w.launches ==> q in w.letGo || w.s.active == Some(q))
  }

  /** Where an unfinished read is: exactly one of the queue, the worker, and the producer. */
  ghost predicate PipelineOk(w: World) {
    && w.s.metadataEnqueued < w.s.nextSequence
    && (forall q: nat :: q in w.launches && q !in w.finished ==>
          q in w.reading || w.s.mailbox == Some(q) || WorkerHas(w, q))
    && (forall q: nat :: q in w.reading ==> q in w.launches && q !in w.finished)
    && (w.s.mailbox.Some? ==> w.model == HandingOff(w.s.mailbox.value)
                              && w.s.mailbox.value !in w.reading && w.s.mailbox.value !in w.finished
                              && w.s.metadataEnqueued < w.s.mailbox.value)
    && (!w.worker.Waiting? ==> w.worker.sequence in w.launches && w.worker.sequence !in w.reading
                               && w.worker.sequence !in w.finished && w.s.mailbox != Some(w.worker.sequence))
    && (w.worker.Copying? ==> w.model == HandingOff(w.worker.sequence) && w.s.metadataEnqueued < w.worker.sequence)
    && (w.model.HandingOff? ==> w.s.active == Some(w.model.sequence) && w.model.sequence in w.launches
                                && w.s.metadataEnqueued <= w.model.sequence)
  }

  predicate WorkerHas(w: World, q: nat) { !w.worker.Waiting? && w.worker.sequence == q }

  predicate NoRepeat(s: seq<nat>) { forall i, j :: 0 <= i < j < |s| ==> s[i] != s[j] }

  ghost predicate StatsOk(w: World) {
    && w.s.stats.launched == w.s.stats.released + (if w.s.active.Some? then 1 else 0)
    && w.s.stats.launched == w.s.nextSequence - 1 == |w.launches| + w.s.stats.dummy
    && w.s.stats.completed == |w.finished|
    && NoRepeat(w.s.stats.samples)
    && (forall q: nat :: q in w.s.stats.samples <==> q in w.finished && q in w.letGo)
  }

  ghost predicate Inv(w: World) {
    && !w.s.error && HistoryOk(w) && RecordsOk(w) && PipelineOk(w) && StatsOk(w)
  }

  lemma DummyKeeps(w: World, tokens: nat)
    requires Inv(w) && Enabled(w, DummyOutputs(tokens))
    ensures Inv(Step(w, DummyOutputs(tokens)))
  {}

  lemma LaunchKeeps(w: World, tokens: nat)
    requires Inv(w) && Enabled(w, PrepareForward(tokens))
    ensures Inv(Step(w, PrepareForward(tokens)))
  {}

  lemma HandedOffKeeps(w: World)
    requires Inv(w) && Enabled(w, HandedOff)
    ensures Inv(Step(w, HandedOff))
  {}

  lemma ReleaseKeeps(w: World)
    requires Inv(w) && Enabled(w, ReleaseOutputs)
    ensures Inv(Step(w, ReleaseOutputs))
  {}

  lemma WorkerKeeps(w: World, e: Event)
    requires Inv(w) && Enabled(w, e) && (e.Take? || e.MetadataEnqueued? || e.Dispatch?)
    ensures Inv(Step(w, e))
  {}

  lemma SubmittedKeeps(w: World, e: Event)
    requires Inv(w) && Enabled(w, e) && e.ReportSubmitted?
    ensures Inv(Step(w, e))
  {}

  lemma CompletedHistory(w: World, q: nat, t: World)
    requires Inv(w) && Enabled(w, ReportCompleted(q)) && t == Step(w, ReportCompleted(q))
    ensures !t.s.error && HistoryOk(t)
  {}

  lemma CompletedRecords(w: World, q: nat, t: World)
    requires Inv(w) && Enabled(w, ReportCompleted(q)) && t == Step(w, ReportCompleted(q))
    ensures RecordsOk(t)
  {}

  lemma CompletedPipeline(w: World, q: nat, t: World)
    requires Inv(w) && Enabled(w, ReportCompleted(q)) && t == Step(w, ReportCompleted(q))
    ensures PipelineOk(t)
  {}

  lemma CompletedStats(w: World, q: nat, t: World)
    requires Inv(w) && Enabled(w, ReportCompleted(q)) && t == Step(w, ReportCompleted(q))
    ensures StatsOk(t)
  {}

  lemma CompletedKeeps(w: World, e: Event)
    requires Inv(w) && Enabled(w, e) && e.ReportCompleted?
    ensures Inv(Step(w, e))
  {
    CompletedHistory(w, e.sequence, Step(w, e));
    CompletedRecords(w, e.sequence, Step(w, e));
    CompletedPipeline(w, e.sequence, Step(w, e));
    CompletedStats(w, e.sequence, Step(w, e));
  }

  lemma StepKeeps(w: World, e: Event)
    requires Inv(w) && Enabled(w, e)
    ensures Inv(Step(w, e))
  {
    match e
    case PrepareForward(tokens) => LaunchKeeps(w, tokens);
    case DummyOutputs(tokens) => DummyKeeps(w, tokens);
    case HandedOff => HandedOffKeeps(w);
    case ReleaseOutputs => ReleaseKeeps(w);
    case Take => WorkerKeeps(w, e);
    case MetadataEnqueued => WorkerKeeps(w, e);
    case Dispatch => WorkerKeeps(w, e);
    case ReportSubmitted(_) => SubmittedKeeps(w, e);
    case ReportCompleted(_) => CompletedKeeps(w, e);
  }

  // ---- main results, over every run ----

  lemma {:induction false} RunInv(ws: seq<World>, es: seq<Event>, i: nat)
    requires IsRun(ws, es) && i <= |es|
    ensures Inv(ws[i])
  {
    if i > 0 {
      RunInv(ws, es, i - 1);
      StepKeeps(ws[i - 1], es[i - 1]);
    }
  }

  /** No run fails: the one-place queue is never full, the hand-off never sees another request's
      number, and no result is stale or a duplicate. Every launch is released or still active. */
  lemma EveryRunAccounts(ws: seq<World>, es: seq<Event>, i: nat)
    requires IsRun(ws, es) && i <= |es|
    ensures !ws[i].s.error
    ensures ws[i].s.stats.launched == ws[i].s.stats.released + (if ws[i].s.active.Some? then 1 else 0)
    ensures forall tokens :: Enabled(ws[i], PrepareForward(tokens)) && ws[i].s.active.None? ==> ws[i].s.mailbox.None?
    ensures ws[i].model.HandingOff? ==> ws[i].s.metadataEnqueued <= ws[i].model.sequence
  {
    RunInv(ws, es, i);
  }

  /** A real request is sampled once, and its record dropped, exactly when its output has been
      released and its read has completed, in whichever order. */
  lemma SampledWhenBothDone(ws: seq<World>, es: seq<Event>, i: nat, q: nat)
    requires IsRun(ws, es) && i <= |es| && q in ws[i].launches
    ensures q in ws[i].s.stats.samples <==> q in ws[i].finished && q in ws[i].letGo
    ensures q in ws[i].s.stats.samples <==> q !in ws[i].s.records
    ensures NoRepeat(ws[i].s.stats.samples)
  {
    RunInv(ws, es, i);
  }

  /** The host wait returns for the active request only, and only once its own read has completed;
      the record it polls cannot disappear before. */
  lemma ReadyIsOwnCompletion(ws: seq<World>, es: seq<Event>, i: nat)
    requires IsRun(ws, es) && i <= |es| && ws[i].s.active.Some?
    ensures ws[i].s.active.value in ws[i].s.records
    ensures ws[i].s.active.value in ws[i].launches ==> (OutputReady(ws[i].s) <==> ws[i].s.active.value in ws[i].finished)
    ensures ws[i].s.active.value !in ws[i].launches ==> OutputReady(ws[i].s)
  {
    RunInv(ws, es, i);
  }

  /** The model thread is turned away only by its own order of calls: a launch is accepted exactly
      when no output is held, a release exactly when one is. */
  lemma TurnsAreAccepted(ws: seq<World>, es: seq<Event>, i: nat, tokens: nat, dummy: bool)
    requires IsRun(ws, es) && i <= |es|
    ensures Launch(ws[i].s, tokens, dummy).Some? <==> ws[i].s.active.None?
    ensures Release(ws[i].s).Some? <==> ws[i].s.active.Some?
  {
    RunInv(ws, es, i);
    if ws[i].s.active.Some? {
      assert Live(ws[i], ws[i].s.active.value);
    }
  }

  ghost function Elements(s: seq<nat>): set<nat> { set q | q in s }

  lemma {:induction false} DistinctCount(s: seq<nat>)
    requires NoRepeat(s)
    ensures |Elements(s)| == |s|
  {
    if s == [] {
      assert Elements(s) == {};
    } else {
      var n := |s| - 1;
      DistinctCount(s[..n]);
      assert s == s[..n] + [s[n]];
      assert Elements(s) == Elements(s[..n]) + {s[n]};
    }
  }

  /** Conservation: when no output is held and no read is under way, no record is left and every
      real launch has produced exactly one sample. */
  lemma QuietMeansAllSampled(ws: seq<World>, es: seq<Event>, i: nat)
    requires IsRun(ws, es) && i <= |es|
    requires ws[i].s.active.None? && ws[i].worker.Waiting? && ws[i].reading == {}
    ensures ws[i].s.records == map[]
    ensures |ws[i].s.stats.samples| == ws[i].s.stats.launched - ws[i].s.stats.dummy == ws[i].s.stats.completed
  {
    RunInv(ws, es, i);
    var w := ws[i];
    forall q: nat | q in w.launches ensures q in w.finished && q in w.letGo {
      assert w.s.mailbox != Some(q);
    }
    assert w.launches == w.finished;
    assert Elements(w.s.stats.samples) == w.launches;
    DistinctCount(w.s.stats.samples);
    assert forall q: nat :: q !in w.s.records;
  }

  // ---- without the hand-off wait ----

  /** The wait is what keeps the queue from overflowing: returning from `prepare_forward` at any
      moment before the hand-off, the next launch finds the queue full if and only if the worker has
      not taken the previous request yet. */
  lemma WaitPreventsOverflow(w: World, tokens: nat)
    requires Inv(w) && w.model.HandingOff? && 0 < tokens
    ensures var released := Release(w.s);
            && released.Some? && Launch(released.value, tokens, false).Some?
            && (Enqueue(Launch(released.value, tokens, false).value, w.s.nextSequence).error <==> w.s.mailbox.Some?)
  {
    assert Live(w, w.model.sequence);
  }

  /** Such a moment is reached by the very first launch. */
  lemma WithoutWaitingQueueOverflows()
    ensures var w := Step(Start(), PrepareForward(1));
            Enabled(Start(), PrepareForward(1)) && Inv(w) && w.model.HandingOff? && w.s.mailbox.Some?
  {
    StartInv();
    LaunchKeeps(Start(), 1);
  }

  lemma StartInv()
    ensures Inv(Start())
  {}

  // ---- the connector ----

  class Connector {
    var nextSequence: nat
    var active: Option<nat>
    var activeTokens: nat
    var records: map<nat, Record>
    var mailbox: Option<nat>
    var metadataEnqueued: nat
    var error: bool
    var stats: Stats

    ghost function Contents(): State
      reads this
    {
      State(nextSequence, active, activeTokens, records, mailbox, metadataEnqueued, error, stats)
    }

    constructor ()
      ensures Contents() == Start().s
    {
      nextSequence, active, activeTokens, records := 1, None, 0, map[];
      mailbox, metadataEnqueued, error, stats := None, 0, false, Stats(0, 0, 0, 0, 0, []);
    }

    /** Up to the blocking hand-off; `accepted` is false where the source raises at once. */
    method PrepareForward(tokens: nat, dummy: bool) returns (accepted: bool)
      modifies this
      ensures accepted == Launch(old(Contents()), tokens, dummy).Some?
      ensures accepted <==> !old(error) && old(active).None?
      ensures accepted ==> active == Some(old(nextSequence)) && nextSequence == old(nextSequence) + 1
      ensures accepted && !dummy ==> error == old(mailbox).Some? && (!error ==> mailbox == Some(old(nextSequence)))
      ensures !accepted ==> Contents() == old(Contents())
      ensures accepted && dummy ==> Contents() == Launch(old(Contents()), tokens, dummy).value
      ensures accepted && !dummy ==>
                Contents() == Enqueue(Launch(old(Contents()), tokens, dummy).value, old(nextSequence))
    {
      if error || active.Some? {
        return false;
      }
      var sequence := nextSequence;
      nextSequence := nextSequence + 1;
      active, activeTokens := Some(sequence), tokens;
      records := records[sequence := Record(dummy, tokens, false, dummy)];
      stats := stats.(launched := stats.launched + 1);
      if dummy {
        stats := stats.(dummy := stats.dummy + 1);
        return true;
      }
      if mailbox.Some? {
        error := true;
      } else {
        mailbox := Some(sequence);
      }
      return true;
    }

    method FinalizeRecord(sequence: nat)
      modifies `records, `stats
      ensures Contents() == Finalize(old(Contents()), sequence)
    {
      if sequence !in records {
        return;
      }
      var record := records[sequence];
      if record.dummy {
        if record.released {
          records := records - {sequence};
        }
        return;
      }
      if !record.released || !record.completed {
        return;
      }
      stats := stats.(samples := stats.samples + [sequence]);
      records := records - {sequence};
    }

    method ReleaseOutputs() returns (accepted: bool)
      modifies this
      ensures accepted == Release(old(Contents())).Some?
      ensures accepted <==> old(active).Some? && old(active).value in old(records)
      ensures Contents() == if accepted then Release(old(Contents())).value else old(Contents())
    {
      if active.None? || active.value !in records {
        return false;
      }
      var sequence := active.value;
      records := records[sequence := records[sequence].(released := true)];
      stats := stats.(released := stats.released + 1);
      active, activeTokens := None, 0;
      FinalizeRecord(sequence);
      return true;
    }

    method HandleCompleted(sequence: nat)
      modifies this
      ensures Contents() == Completed(old(Contents()), sequence)
    {
      if sequence !in records || records[sequence].dummy || records[sequence].completed {
        error := true;
        return;
      }
      records := records[sequence := records[sequence].(completed := true)];
      stats := stats.(completed := stats.completed + 1);
      FinalizeRecord(sequence);
    }
  }
}
