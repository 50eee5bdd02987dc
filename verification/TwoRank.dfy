/** The two-rank hand-off of `TpPleTransport`: rank 0 reads table rows into its output and
    broadcasts them, rank 1 receives; 0/1 flags and events order the streams.

    Host threads append operations to in-order streams and run ahead of them; every stream
    executes its own operations in order, freely interleaved with the others. Gathering,
    sending, receiving and consuming take two steps, so overlap is visible. */
module TwoRank {
  import opened Options

  // ---- generations, operations, programs ----

  /** One `prepare_forward`: a real transfer, serialized or not, or a dummy run. */
  datatype Kind = Real(serial: bool) | Dummy

  type Schedule = nat -> Kind

  datatype Op =
    | StageInputs | RecordInputs | WaitInputs | CopyMetadata | RecordMetadata | WaitMetadata
    | WaitFlag(value: nat) | RaiseFlag | ResetFlag
    | BeginGather | EndGather | BeginSend | EndSend | BeginReceive | EndReceive | RecordDone | WaitDone
    | BeginConsume | EndConsume | ZeroOutput

  datatype StreamId = Main0 | Copy0 | Reader0 | Cast0 | Main1 | Cast1

  /** What the owner's `prepare_forward` puts on the main stream before the metadata hand-off. */
  function LaunchOps(k: Kind): seq<Op> {
    if k.Real? then [StageInputs, RecordInputs] else []
  }

  function PrepareOps(rank: nat, k: Kind): seq<Op> {
    if k.Dummy? then [ZeroOutput, RaiseFlag]
    else if rank == 0 then [WaitMetadata]
    else []
  }

  function ConsumeOps(): seq<Op> {
    [WaitFlag(1), BeginConsume, EndConsume]
  }

  function ReleaseOps(k: Kind): seq<Op> {
    if k.Real? then [WaitDone, ResetFlag] else [ResetFlag]
  }

  function CastOps(rank: nat, k: Kind): seq<Op> {
    if k.Dummy? then []
    else if rank == 0 then [WaitMetadata, WaitFlag(1), BeginSend, EndSend, RecordDone]
    else [WaitFlag(0), BeginReceive, EndReceive, RaiseFlag, RecordDone]
  }

  function Program(id: StreamId, k: Kind): seq<Op> {
    match id
    case Main0 => LaunchOps(k) + PrepareOps(0, k) + ConsumeOps() + ReleaseOps(k)
    case Main1 => PrepareOps(1, k) + ConsumeOps() + ReleaseOps(k)
    case Cast0 => CastOps(0, k)
    case Cast1 => CastOps(1, k)
    case Copy0 => if k.Real? then [WaitInputs, CopyMetadata, RecordMetadata] else []
    case Reader0 => if k.Real? then [WaitFlag(0), BeginGather, EndGather, RaiseFlag] else []
  }

  /** How many operations a generation puts on a stream. */
  function Length(id: StreamId, k: Kind): (n: nat)
    ensures n == |Program(id, k)|
  {
    if k.Real? then
      match id case Main0 => 8 case Main1 => 5 case Cast0 => 5 case Cast1 => 5 case Copy0 => 3 case Reader0 => 4
    else
      if id.Main0? || id.Main1? then 6 else 0
  }

  /** The operation at a position of a stream's program, without building the program. */
  function OpAt(id: StreamId, k: Kind, pc: nat): Op
    requires pc < Length(id, k)
  {
    if k.Dummy? then
      if pc == 0 then ZeroOutput else if pc == 1 then RaiseFlag else if pc == 2 then WaitFlag(1)
      else if pc == 3 then BeginConsume else if pc == 4 then EndConsume else ResetFlag
    else
      match id
      case Main0 =>
        if pc == 0 then StageInputs else if pc == 1 then RecordInputs else if pc == 2 then WaitMetadata
        else if pc == 3 then WaitFlag(1) else if pc == 4 then BeginConsume else if pc == 5 then EndConsume
        else if pc == 6 then WaitDone else ResetFlag
      case Main1 =>
        if pc == 0 then WaitFlag(1) else if pc == 1 then BeginConsume else if pc == 2 then EndConsume
        else if pc == 3 then WaitDone else ResetFlag
      case Cast0 =>
        if pc == 0 then WaitMetadata else if pc == 1 then WaitFlag(1) else if pc == 2 then BeginSend
        else if pc == 3 then EndSend else RecordDone
      case Cast1 =>
        if pc == 0 then WaitFlag(0) else if pc == 1 then BeginReceive else if pc == 2 then EndReceive
        else if pc == 3 then RaiseFlag else RecordDone
      case Copy0 => if pc == 0 then WaitInputs else if pc == 1 then CopyMetadata else RecordMetadata
      case Reader0 =>
        if pc == 0 then WaitFlag(0) else if pc == 1 then BeginGather else if pc == 2 then EndGather else RaiseFlag
  }

  /** The positions step through exactly the operations the host calls enqueue. */
  lemma ProgramOps(id: StreamId, k: Kind, pc: nat)
    requires pc < Length(id, k)
    ensures Program(id, k)[pc] == OpAt(id, k, pc)
  {
    if k.Dummy? {
      assert Program(id, k) == [ZeroOutput, RaiseFlag, WaitFlag(1), BeginConsume, EndConsume, ResetFlag];
    } else if id.Main0? {
      assert Program(id, k) == [StageInputs, RecordInputs, WaitMetadata, WaitFlag(1), BeginConsume, EndConsume, WaitDone, ResetFlag];
    } else if id.Main1? {
      assert Program(id, k) == [WaitFlag(1), BeginConsume, EndConsume, WaitDone, ResetFlag];
    }
  }

  // ---- state ----

  /** What a buffer holds: the rows of a generation, zeros, or a half-written mixture. */
  datatype Buf = Data(gen: nat) | Zeros | Torn

  /** Next operation `pc` of generation `gen`; all earlier generations are done. */
  datatype Pos = Pos(gen: nat, pc: nat)

  datatype HostPhase = Idle | Launched | Prepared

  /** Rank 0: its model thread (`gen`, `phase`), the background thread with its one-place mailbox
      and the last request taken, four streams, the records that event waits refer to (fixed when
      the wait is enqueued), and memory. `sent` is what each broadcast delivers. */
  datatype Owner = Owner(
    gen: nat, phase: HostPhase, mailbox: Option<nat>, taken: nat, copying: bool,
    main: Pos, copy: Pos, reader: Pos, cast: Pos,
    lastInputs: nat, lastDone: nat, inputsOf: map<nat, nat>, metadataOf: map<nat, nat>, doneOf: map<nat, nat>,
    mem: Memory)

  datatype Memory = Memory(
    inputs: nat, metadata: nat, planned: map<nat, nat>, out: Buf, flag: nat, sent: map<nat, Buf>)

  /** Rank 1: its model thread, two streams, the record its waits refer to, and memory. */
  datatype Remote = Remote(
    gen: nat, phase: HostPhase, main: Pos, cast: Pos,
    lastDone: nat, doneOf: map<nat, nat>, out: Buf, flag: nat)

  datatype State = State(owner: Owner, remote: Remote)

  function Init(): State {
    State(Owner(0, Idle, None, 0, false, Pos(1, 0), Pos(1, 0), Pos(1, 0), Pos(1, 0),
                0, 0, map[], map[], map[], Memory(0, 0, map[], Zeros, 0, map[])),
          Remote(0, Idle, Pos(1, 0), Pos(1, 0), 0, map[], Zeros, 0))
  }

  predicate Past(p: Pos, gen: nat, pc: nat) {
    p.gen > gen || (p.gen == gen && p.pc > pc)
  }

  /** How much of a generation's main-stream program the host has enqueued. */
  function MainEnqueued(id: StreamId, k: Kind, phase: HostPhase): nat {
    match phase
    case Launched => 2
    case Prepared => if k.Dummy? then 5 else if id.Main0? then 6 else 3
    case Idle => Length(id, k)
  }

  predicate EnqueuedOnMain(id: StreamId, k: Kind, p: Pos, gen: nat, phase: HostPhase) {
    p.gen < gen || (p.gen == gen && p.pc < MainEnqueued(id, k, phase))
  }

  function Next(id: StreamId, k: Kind, p: Pos): Pos {
    if p.pc + 1 == Length(id, k) then Pos(p.gen + 1, 0) else Pos(p.gen, p.pc + 1)
  }

  // ---- steps of rank 0 ----

  datatype OwnerStep =
    | Launch | Handoff | Release0      // the model thread
    | Take | Plan                     // the background thread
    | RunMain0 | RunCopy | RunReader | RunCast0
    | PassCopy | PassReader | PassCast0   // a dummy run puts nothing on these streams

  predicate CanRun(kind: Schedule, id: StreamId, p: Pos) {
    p.pc < Length(id, kind(p.gen))
  }

  predicate CanPass(kind: Schedule, p: Pos, gen: nat) {
    kind(p.gen).Dummy? && p.gen <= gen
  }

  predicate ReadyOnOwner(o: Owner, op: Op, n: nat) {
    match op
    case WaitFlag(v) => o.mem.flag == v
    case WaitInputs => n in o.inputsOf && Past(o.main, o.inputsOf[n], 1)
    case WaitMetadata => n in o.metadataOf && Past(o.copy, o.metadataOf[n], 2)
    case WaitDone => n in o.doneOf && Past(o.cast, o.doneOf[n], 4)
    case EndGather => n in o.mem.planned
    case _ => true
  }

  function OnMemory(m: Memory, op: Op, n: nat): Memory
    requires op.EndGather? ==> n in m.planned
  {
    match op
    case StageInputs => m.(inputs := n)
    case CopyMetadata => m.(metadata := m.inputs)
    case BeginGather => m.(out := Torn)
    case EndGather => m.(out := Data(m.planned[n]))
    case EndSend => m.(sent := m.sent[n := m.out])
    case RaiseFlag => m.(flag := 1)
    case ResetFlag => m.(flag := 0)
    case ZeroOutput => m.(out := Zeros)
    case _ => m
  }

  predicate MainReady(kind: Schedule, o: Owner) {
    && CanRun(kind, Main0, o.main) && EnqueuedOnMain(Main0, kind(o.main.gen), o.main, o.gen, o.phase)
    && ReadyOnOwner(o, OpAt(Main0, kind(o.main.gen), o.main.pc), o.main.gen)
  }

  function MainStep(kind: Schedule, o: Owner): Owner
    requires MainReady(kind, o)
  {
    o.(main := Next(Main0, kind(o.main.gen), o.main),
       mem := OnMemory(o.mem, OpAt(Main0, kind(o.main.gen), o.main.pc), o.main.gen))
  }

  predicate CopyReady(kind: Schedule, o: Owner) {
    && CanRun(kind, Copy0, o.copy) && o.copy.gen in o.inputsOf
    && ReadyOnOwner(o, OpAt(Copy0, kind(o.copy.gen), o.copy.pc), o.copy.gen)
  }

  function CopyStep(kind: Schedule, o: Owner): Owner
    requires CopyReady(kind, o)
  {
    o.(copy := Next(Copy0, kind(o.copy.gen), o.copy),
       mem := OnMemory(o.mem, OpAt(Copy0, kind(o.copy.gen), o.copy.pc), o.copy.gen))
  }

  predicate ReaderReady(kind: Schedule, o: Owner) {
    && CanRun(kind, Reader0, o.reader) && o.reader.gen in o.mem.planned
    && ReadyOnOwner(o, OpAt(Reader0, kind(o.reader.gen), o.reader.pc), o.reader.gen)
  }

  function ReaderStep(kind: Schedule, o: Owner): Owner
    requires ReaderReady(kind, o)
  {
    o.(reader := Next(Reader0, kind(o.reader.gen), o.reader),
       mem := OnMemory(o.mem, OpAt(Reader0, kind(o.reader.gen), o.reader.pc), o.reader.gen))
  }

  predicate CastReady(kind: Schedule, o: Owner) {
    && CanRun(kind, Cast0, o.cast) && o.cast.gen in o.metadataOf
    && ReadyOnOwner(o, OpAt(Cast0, kind(o.cast.gen), o.cast.pc), o.cast.gen)
  }

  function CastStep(kind: Schedule, o: Owner): Owner
    requires CastReady(kind, o)
  {
    o.(cast := Next(Cast0, kind(o.cast.gen), o.cast),
       mem := OnMemory(o.mem, OpAt(Cast0, kind(o.cast.gen), o.cast.pc), o.cast.gen))
  }

  predicate OwnerEnabled(kind: Schedule, o: Owner, step: OwnerStep) {
    match step
    case Launch => o.phase.Idle? && (kind(o.gen + 1) == Real(true) ==> o.main.gen > o.gen)
    case Handoff => o.phase.Launched? && o.taken == o.gen
    case Release0 => o.phase.Prepared?
    case Take => o.mailbox.Some? && !o.copying
    case Plan => o.copying && Past(o.copy, o.taken, 2)
    case RunMain0 => MainReady(kind, o)
    case RunCopy => CopyReady(kind, o)
    case RunReader => ReaderReady(kind, o)
    case RunCast0 => CastReady(kind, o)
    case PassCopy => CanPass(kind, o.copy, o.gen)
    case PassReader => CanPass(kind, o.reader, o.gen)
    case PassCast0 => CanPass(kind, o.cast, o.gen)
  }

  function OwnerApply(kind: Schedule, o: Owner, step: OwnerStep): Owner
    requires OwnerEnabled(kind, o, step)
  {
    match step
    case Launch =>
      var n := o.gen + 1;
      if kind(n).Real? then o.(gen := n, phase := Launched, lastInputs := n, mailbox := Some(n))
      else o.(gen := n, phase := Prepared)
    case Handoff =>
      o.(phase := Prepared, metadataOf := o.metadataOf[o.gen := o.taken], lastDone := o.gen)
    case Release0 =>
      if kind(o.gen).Real? then o.(phase := Idle, doneOf := o.doneOf[o.gen := o.lastDone]) else o.(phase := Idle)
    case Take =>
      var n := o.mailbox.value;
      o.(mailbox := None, taken := n, copying := true, inputsOf := o.inputsOf[n := o.lastInputs])
    case Plan => o.(copying := false, mem := o.mem.(planned := o.mem.planned[o.taken := o.mem.metadata]))
    case RunMain0 => MainStep(kind, o)
    case RunCopy => CopyStep(kind, o)
    case RunReader => ReaderStep(kind, o)
    case RunCast0 => CastStep(kind, o)
    case PassCopy => o.(copy := Pos(o.copy.gen + 1, 0))
    case PassReader => o.(reader := Pos(o.reader.gen + 1, 0))
    case PassCast0 => o.(cast := Pos(o.cast.gen + 1, 0))
  }

  // ---- steps of rank 1 ----

  datatype RemoteStep = Prepare1 | Release1 | RunMain1 | RunCast1 | PassCast1

  predicate ReadyOnRemote(r: Remote, sent: map<nat, Buf>, op: Op, n: nat) {
    match op
    case WaitFlag(v) => r.flag == v
    case WaitDone => n in r.doneOf && Past(r.cast, r.doneOf[n], 4)
    case EndReceive => n in sent
    case _ => true
  }

  function OnRemote(r: Remote, sent: map<nat, Buf>, op: Op, n: nat): Remote
    requires ReadyOnRemote(r, sent, op, n)
  {
    match op
    case BeginReceive => r.(out := Torn)
    case EndReceive => r.(out := sent[n])
    case RaiseFlag => r.(flag := 1)
    case ResetFlag => r.(flag := 0)
    case ZeroOutput => r.(out := Zeros)
    case _ => r
  }

  predicate RemoteEnabled(kind: Schedule, r: Remote, sent: map<nat, Buf>, step: RemoteStep) {
    match step
    case Prepare1 => r.phase.Idle? && (kind(r.gen + 1) == Real(true) ==> r.main.gen > r.gen)
    case Release1 => r.phase.Prepared?
    case RunMain1 =>
      CanRun(kind, Main1, r.main) && EnqueuedOnMain(Main1, kind(r.main.gen), r.main, r.gen, r.phase)
      && ReadyOnRemote(r, sent, OpAt(Main1, kind(r.main.gen), r.main.pc), r.main.gen)
    case RunCast1 =>
      CanRun(kind, Cast1, r.cast) && r.cast.gen <= r.gen
      && ReadyOnRemote(r, sent, OpAt(Cast1, kind(r.cast.gen), r.cast.pc), r.cast.gen)
    case PassCast1 => CanPass(kind, r.cast, r.gen)
  }

  function RemoteApply(kind: Schedule, r: Remote, sent: map<nat, Buf>, step: RemoteStep): Remote
    requires RemoteEnabled(kind, r, sent, step)
  {
    match step
    case Prepare1 =>
      var n := r.gen + 1;
      if kind(n).Real? then r.(gen := n, phase := Prepared, lastDone := n) else r.(gen := n, phase := Prepared)
    case Release1 =>
      if kind(r.gen).Real? then r.(phase := Idle, doneOf := r.doneOf[r.gen := r.lastDone]) else r.(phase := Idle)
    case RunMain1 =>
      var k := kind(r.main.gen);
      OnRemote(r, sent, OpAt(Main1, k, r.main.pc), r.main.gen).(main := Next(Main1, k, r.main))
    case RunCast1 =>
      var k := kind(r.cast.gen);
      OnRemote(r, sent, OpAt(Cast1, k, r.cast.pc), r.cast.gen).(cast := Next(Cast1, k, r.cast))
    case PassCast1 => r.(cast := Pos(r.cast.gen + 1, 0))
  }

  // ---- the whole system ----

  datatype Step = OnRank0(o: OwnerStep) | OnRank1(r: RemoteStep)

  predicate Enabled(kind: Schedule, s: State, step: Step) {
    match step
    case OnRank0(o) => OwnerEnabled(kind, s.owner, o)
    case OnRank1(r) => RemoteEnabled(kind, s.remote, s.owner.mem.sent, r)
  }

  function Apply(kind: Schedule, s: State, step: Step): State
    requires Enabled(kind, s, step)
  {
    match step
    case OnRank0(o) => s.(owner := OwnerApply(kind, s.owner, o))
    case OnRank1(r) => s.(remote := RemoteApply(kind, s.remote, s.owner.mem.sent, r))
  }

  // ---- what must never be observed ----

  /** Between its wait and its end a consumer, and a sender, see exactly their generation. */
  ghost predicate OwnerSafe(kind: Schedule, o: Owner) {
    && (kind(o.main.gen).Real? && 4 <= o.main.pc <= 5 ==> o.mem.out == Data(o.main.gen))
    && (kind(o.main.gen).Dummy? && 3 <= o.main.pc <= 4 ==> o.mem.out == Zeros)
    && (kind(o.cast.gen).Real? && 2 <= o.cast.pc <= 3 ==> o.mem.out == Data(o.cast.gen))
  }

  ghost predicate RemoteSafe(kind: Schedule, r: Remote) {
    && (kind(r.main.gen).Real? && 1 <= r.main.pc <= 2 ==> r.out == Data(r.main.gen))
    && (kind(r.main.gen).Dummy? && 3 <= r.main.pc <= 4 ==> r.out == Zeros)
  }

  // ---- the invariant of rank 0 ----

  predicate IsReal(kind: Schedule, n: nat) { 1 <= n && kind(n).Real? }

  predicate AtReal(kind: Schedule, p: Pos, length: nat) {
    1 <= p.gen && (p.pc == 0 || (IsReal(kind, p.gen) && p.pc < length))
  }

  ghost predicate OwnerPositions(kind: Schedule, o: Owner) {
    && 1 <= o.main.gen && o.main.pc < Length(Main0, kind(o.main.gen))
    && AtReal(kind, o.copy, 3) && AtReal(kind, o.reader, 4) && AtReal(kind, o.cast, 5)
    && o.main.gen <= o.gen + 1
    && (o.main.gen == o.gen + 1 ==> o.main.pc == 0)
  }

  /** Event waits refer to the record of their own generation. */
  ghost predicate OwnerCaptures(kind: Schedule, o: Owner) {
    && (forall k :: k in o.inputsOf ==> o.inputsOf[k] == k && IsReal(kind, k) && k <= o.taken)
    && (forall k :: k in o.metadataOf ==> o.metadataOf[k] == k && k in o.inputsOf)
    && (forall k :: k in o.doneOf ==> o.doneOf[k] == k && k in o.metadataOf)
    && (forall k :: k in o.mem.planned ==> o.mem.planned[k] == k && k in o.inputsOf && o.copy.gen > k)
    && (forall k :: k in o.inputsOf && k != o.taken ==> k in o.mem.planned)
    && (forall k :: k in o.mem.sent ==> o.mem.sent[k] == Data(k))
  }

  ghost predicate OwnerHost(kind: Schedule, o: Owner) {
    && (o.phase.Launched? ==> IsReal(kind, o.gen) && o.lastInputs == o.gen && o.gen !in o.metadataOf)
    && (o.phase.Prepared? && IsReal(kind, o.gen) ==> o.gen in o.metadataOf && o.lastDone == o.gen)
    && (o.phase.Idle? && IsReal(kind, o.gen) ==> o.gen in o.doneOf)
    && (o.mailbox.Some? ==> o.phase.Launched? && o.mailbox.value == o.gen && o.taken < o.gen)
    && (o.phase.Launched? && o.mailbox.None? ==> o.taken == o.gen)
    && o.taken <= o.gen
    && (o.taken != 0 ==> o.taken in o.inputsOf)
    && (o.copying ==> o.taken != 0 && o.taken !in o.mem.planned)
    && (!o.copying && o.taken != 0 ==> o.taken in o.mem.planned)
    && (o.phase.Prepared? ==> 0 < o.gen)
  }

  /** Who has to have come how far before whom in a real generation. */
  ghost predicate OwnerOrderAt(o: Owner, k: nat) {
    && (Past(o.copy, k, 0) ==> k in o.inputsOf && Past(o.main, k, 1))
    && (Past(o.reader, k, 0) ==> k in o.mem.planned)
    && (Past(o.cast, k, 0) ==> o.copy.gen > k)
    && (Past(o.cast, k, 1) ==> o.reader.gen > k)
    && (o.main.gen > k ==> o.cast.gen > k)
    && (Past(o.main, k, 2) ==> o.copy.gen > k)
    && (Past(o.main, k, 3) ==> o.reader.gen > k)
    && (Past(o.main, k, 6) ==> o.cast.gen > k)
  }

  ghost predicate OwnerOrder(kind: Schedule, o: Owner) {
    forall k {:trigger IsReal(kind, k)} :: IsReal(kind, k) ==> OwnerOrderAt(o, k)
  }

  ghost predicate OwnerMemory(kind: Schedule, o: Owner) {
    var n := o.main.gen;
    && o.mem.flag == (if (if IsReal(kind, n) then o.reader.gen > n else o.main.pc >= 2) then 1 else 0)
    && (IsReal(kind, n) && o.main.pc >= 1 ==> o.mem.inputs == n)
    && (o.copy.pc == 2 ==> o.mem.metadata == o.copy.gen)
    && (o.copying && o.copy.gen > o.taken ==> o.mem.metadata == o.taken)
    && (IsReal(kind, n) && Past(o.reader, n, 2) ==> o.mem.out == Data(n))
    && (!IsReal(kind, n) && o.main.pc >= 1 ==> o.mem.out == Zeros)
  }

  ghost predicate OwnerInv(kind: Schedule, o: Owner) {
    OwnerPositions(kind, o) && OwnerCaptures(kind, o) && OwnerHost(kind, o) && OwnerOrder(kind, o) && OwnerMemory(kind, o)
  }

  lemma OwnerInvIsSafe(kind: Schedule, o: Owner)
    requires OwnerInv(kind, o)
    ensures OwnerSafe(kind, o)
  {
    assert IsReal(kind, o.main.gen) ==> OwnerOrderAt(o, o.main.gen);
    if IsReal(kind, o.cast.gen) && 2 <= o.cast.pc {
      assert OwnerOrderAt(o, o.cast.gen);
    }
  }

  // ---- every step of rank 0 keeps its invariant ----

  lemma OrderKept(kind: Schedule, o: Owner, t: Owner)
    requires OwnerOrder(kind, o)
    requires t.main == o.main && t.copy == o.copy && t.reader == o.reader && t.cast == o.cast
    requires forall k :: k in o.inputsOf ==> k in t.inputsOf
    requires forall k :: k in o.mem.planned ==> k in t.mem.planned
    ensures OwnerOrder(kind, t)
  {
    forall k | IsReal(kind, k) ensures OwnerOrderAt(t, k) {
      assert OwnerOrderAt(o, k);
    }
  }

  lemma LaunchKeeps(kind: Schedule, o: Owner, t: Owner)
    requires OwnerInv(kind, o) && o.phase.Idle? && IsReal(kind, o.gen + 1)
    requires t == o.(gen := o.gen + 1, phase := Launched, lastInputs := o.gen + 1, mailbox := Some(o.gen + 1))
    ensures OwnerInv(kind, t)
  {
    OrderKept(kind, o, t);
  }

  lemma LaunchDummyKeeps(kind: Schedule, o: Owner, t: Owner)
    requires OwnerInv(kind, o) && o.phase.Idle? && !IsReal(kind, o.gen + 1)
    requires t == o.(gen := o.gen + 1, phase := Prepared)
    ensures OwnerInv(kind, t)
  {
    OrderKept(kind, o, t);
  }

  lemma HandoffKeeps(kind: Schedule, o: Owner, t: Owner)
    requires OwnerInv(kind, o) && o.phase.Launched? && o.taken == o.gen
    requires t == o.(phase := Prepared, metadataOf := o.metadataOf[o.gen := o.taken], lastDone := o.gen)
    ensures OwnerInv(kind, t)
  {
    OrderKept(kind, o, t);
  }

  lemma ReleaseKeeps(kind: Schedule, o: Owner, t: Owner)
    requires OwnerInv(kind, o) && o.phase.Prepared? && IsReal(kind, o.gen)
    requires t == o.(phase := Idle, doneOf := o.doneOf[o.gen := o.lastDone])
    ensures OwnerInv(kind, t)
  {
    OrderKept(kind, o, t);
  }

  lemma ReleaseDummyKeeps(kind: Schedule, o: Owner, t: Owner)
    requires OwnerInv(kind, o) && o.phase.Prepared? && !IsReal(kind, o.gen)
    requires t == o.(phase := Idle)
    ensures OwnerInv(kind, t)
  {
    OrderKept(kind, o, t);
  }

  lemma TakeKeeps(kind: Schedule, o: Owner, t: Owner)
    requires OwnerInv(kind, o) && o.mailbox.Some? && !o.copying
    requires t == o.(mailbox := None, taken := o.mailbox.value, copying := true,
                     inputsOf := o.inputsOf[o.mailbox.value := o.lastInputs])
    ensures OwnerInv(kind, t)
  {
    OrderKept(kind, o, t);
    assert OwnerOrderAt(o, o.gen);
  }

  lemma PlanKeeps(kind: Schedule, o: Owner, t: Owner)
    requires OwnerInv(kind, o) && o.copying && Past(o.copy, o.taken, 2)
    requires t == o.(copying := false, mem := o.mem.(planned := o.mem.planned[o.taken := o.mem.metadata]))
    ensures OwnerInv(kind, t)
  {
    OrderKept(kind, o, t);
    assert IsReal(kind, o.taken);
    assert OwnerOrderAt(o, o.taken);
  }

  /** One operation of the metadata-copy stream. */
  ghost predicate CopyMove(o: Owner, t: Owner) {
    && t == o.(copy := t.copy, mem := o.mem.(metadata := t.mem.metadata))
    && o.copy.gen in o.inputsOf
    && (o.copy.pc == 0 ==> Past(o.main, o.inputsOf[o.copy.gen], 1))
    && t.mem.metadata == (if o.copy.pc == 1 then o.mem.inputs else o.mem.metadata)
    && t.copy == (if o.copy.pc == 2 then Pos(o.copy.gen + 1, 0) else Pos(o.copy.gen, o.copy.pc + 1))
  }

  /** One operation of the reader stream. */
  ghost predicate ReaderMove(o: Owner, t: Owner) {
    && t == o.(reader := t.reader, mem := o.mem.(out := t.mem.out, flag := t.mem.flag))
    && o.reader.gen in o.mem.planned
    && (o.reader.pc == 0 ==> o.mem.flag == 0)
    && t.mem.out == (if o.reader.pc == 1 then Torn else if o.reader.pc == 2 then Data(o.mem.planned[o.reader.gen]) else o.mem.out)
    && t.mem.flag == (if o.reader.pc == 3 then 1 else o.mem.flag)
    && t.reader == (if o.reader.pc == 3 then Pos(o.reader.gen + 1, 0) else Pos(o.reader.gen, o.reader.pc + 1))
  }

  /** One operation of the broadcast stream. */
  ghost predicate CastMove(o: Owner, t: Owner) {
    && t == o.(cast := t.cast, mem := o.mem.(sent := t.mem.sent))
    && o.cast.gen in o.metadataOf
    && (o.cast.pc == 0 ==> Past(o.copy, o.metadataOf[o.cast.gen], 2))
    && (o.cast.pc == 1 ==> o.mem.flag == 1)
    && t.mem.sent == (if o.cast.pc == 3 then o.mem.sent[o.cast.gen := o.mem.out] else o.mem.sent)
    && t.cast == (if o.cast.pc == 4 then Pos(o.cast.gen + 1, 0) else Pos(o.cast.gen, o.cast.pc + 1))
  }

  /** One operation of the main stream in a real generation. */
  ghost predicate MainMove(kind: Schedule, o: Owner, t: Owner) {
    && t == o.(main := t.main, mem := o.mem.(inputs := t.mem.inputs, flag := t.mem.flag))
    && EnqueuedOnMain(Main0, kind(o.main.gen), o.main, o.gen, o.phase)
    && t.mem.inputs == (if o.main.pc == 0 then o.main.gen else o.mem.inputs)
    && t.mem.flag == (if o.main.pc == 7 then 0 else o.mem.flag)
    && (o.main.pc == 2 ==> o.main.gen in o.metadataOf && Past(o.copy, o.metadataOf[o.main.gen], 2))
    && (o.main.pc == 3 ==> o.mem.flag == 1)
    && (o.main.pc == 6 ==> o.main.gen in o.doneOf && Past(o.cast, o.doneOf[o.main.gen], 4))
    && t.main == (if o.main.pc == 7 then Pos(o.main.gen + 1, 0) else Pos(o.main.gen, o.main.pc + 1))
  }

  /** One operation of the main stream in a dummy run. */
  ghost predicate MainMoveDummy(kind: Schedule, o: Owner, t: Owner) {
    && t == o.(main := t.main, mem := o.mem.(out := t.mem.out, flag := t.mem.flag))
    && EnqueuedOnMain(Main0, kind(o.main.gen), o.main, o.gen, o.phase)
    && t.mem.out == (if o.main.pc == 0 then Zeros else o.mem.out)
    && t.mem.flag == (if o.main.pc == 5 then 0 else if o.main.pc == 1 then 1 else o.mem.flag)
    && t.main == (if o.main.pc == 5 then Pos(o.main.gen + 1, 0) else Pos(o.main.gen, o.main.pc + 1))
  }

  lemma CopyMoves(kind: Schedule, o: Owner, t: Owner)
    requires OwnerInv(kind, o) && CopyMove(o, t)
    ensures OwnerInv(kind, t)
  {
    assert IsReal(kind, o.copy.gen);
    assert OwnerOrderAt(o, o.copy.gen);
    forall k | IsReal(kind, k) ensures OwnerOrderAt(t, k) {
      assert OwnerOrderAt(o, k);
    }
  }

  lemma ReaderMoves(kind: Schedule, o: Owner, t: Owner)
    requires OwnerInv(kind, o) && ReaderMove(o, t)
    ensures OwnerInv(kind, t)
  {
    assert IsReal(kind, o.reader.gen);
    assert OwnerOrderAt(o, o.reader.gen);
    forall k | IsReal(kind, k) ensures OwnerOrderAt(t, k) {
      assert OwnerOrderAt(o, k);
    }
  }

  lemma CastKeepsOrder(kind: Schedule, o: Owner, t: Owner)
    requires OwnerInv(kind, o) && CastMove(o, t)
    ensures OwnerOrder(kind, t)
  {
    assert IsReal(kind, o.cast.gen);
    assert OwnerOrderAt(o, o.cast.gen);
    forall k | IsReal(kind, k) ensures OwnerOrderAt(t, k) {
      assert OwnerOrderAt(o, k);
    }
  }

  lemma CastMoves(kind: Schedule, o: Owner, t: Owner)
    requires OwnerInv(kind, o) && CastMove(o, t)
    ensures OwnerInv(kind, t)
  {
    assert IsReal(kind, o.cast.gen);
    assert OwnerOrderAt(o, o.cast.gen);
    CastKeepsOrder(kind, o, t);
  }

  lemma MainKeepsOrder(kind: Schedule, o: Owner, t: Owner)
    requires OwnerInv(kind, o) && IsReal(kind, o.main.gen) && MainMove(kind, o, t)
    ensures OwnerOrder(kind, t)
  {
    assert OwnerOrderAt(o, o.main.gen);
    forall k | IsReal(kind, k) ensures OwnerOrderAt(t, k) {
      assert OwnerOrderAt(o, k);
    }
  }

  lemma MainKeepsMemory(kind: Schedule, o: Owner, t: Owner)
    requires OwnerInv(kind, o) && IsReal(kind, o.main.gen) && MainMove(kind, o, t)
    ensures OwnerMemory(kind, t)
  {
    assert OwnerOrderAt(o, o.main.gen);
    assert IsReal(kind, o.main.gen + 1) ==> OwnerOrderAt(o, o.main.gen + 1);
    assert IsReal(kind, o.copy.gen) ==> OwnerOrderAt(o, o.copy.gen);
  }

  lemma MainMoves(kind: Schedule, o: Owner, t: Owner)
    requires OwnerInv(kind, o) && IsReal(kind, o.main.gen) && MainMove(kind, o, t)
    ensures OwnerInv(kind, t)
  {
    MainKeepsOrder(kind, o, t);
    MainKeepsMemory(kind, o, t);
  }

  lemma MainDummyKeepsOrder(kind: Schedule, o: Owner, t: Owner)
    requires OwnerInv(kind, o) && !IsReal(kind, o.main.gen) && MainMoveDummy(kind, o, t)
    ensures OwnerOrder(kind, t)
  {
    forall k | IsReal(kind, k) ensures OwnerOrderAt(t, k) {
      assert OwnerOrderAt(o, k);
    }
  }

  lemma MainMovesDummy(kind: Schedule, o: Owner, t: Owner)
    requires OwnerInv(kind, o) && !IsReal(kind, o.main.gen) && MainMoveDummy(kind, o, t)
    ensures OwnerInv(kind, t)
  {
    MainDummyKeepsOrder(kind, o, t);
    assert IsReal(kind, o.main.gen + 1) ==> OwnerOrderAt(o, o.main.gen + 1);
    assert IsReal(kind, o.reader.gen) ==> OwnerOrderAt(o, o.reader.gen);
  }

  lemma PassCopyKeeps(kind: Schedule, o: Owner, t: Owner)
    requires OwnerInv(kind, o) && !IsReal(kind, o.copy.gen) && t == o.(copy := Pos(o.copy.gen + 1, 0))
    ensures OwnerInv(kind, t)
  {
    forall k | IsReal(kind, k) ensures OwnerOrderAt(t, k) {
      assert OwnerOrderAt(o, k);
    }
  }

  lemma PassReaderKeeps(kind: Schedule, o: Owner, t: Owner)
    requires OwnerInv(kind, o) && !IsReal(kind, o.reader.gen) && t == o.(reader := Pos(o.reader.gen + 1, 0))
    ensures OwnerInv(kind, t)
  {
    forall k | IsReal(kind, k) ensures OwnerOrderAt(t, k) {
      assert OwnerOrderAt(o, k);
    }
  }

  lemma PassCastKeeps(kind: Schedule, o: Owner, t: Owner)
    requires OwnerInv(kind, o) && !IsReal(kind, o.cast.gen) && t == o.(cast := Pos(o.cast.gen + 1, 0))
    ensures OwnerInv(kind, t)
  {
    forall k | IsReal(kind, k) ensures OwnerOrderAt(t, k) {
      assert OwnerOrderAt(o, k);
    }
  }

  lemma RunMainIsMove(kind: Schedule, o: Owner, t: Owner)
    requires MainReady(kind, o) && t == MainStep(kind, o) && kind(o.main.gen).Real?
    ensures MainMove(kind, o, t)
  {
    var op := OpAt(Main0, kind(o.main.gen), o.main.pc);
    if o.main.pc == 0 { assert op == StageInputs; }
    else if o.main.pc == 1 { assert op == RecordInputs; }
    else if o.main.pc == 2 { assert op == WaitMetadata; }
    else if o.main.pc == 3 { assert op == WaitFlag(1); }
    else if o.main.pc == 4 { assert op == BeginConsume; }
    else if o.main.pc == 5 { assert op == EndConsume; }
    else if o.main.pc == 6 { assert op == WaitDone; }
    else { assert op == ResetFlag; }
  }

  lemma RunMainIsMoveDummy(kind: Schedule, o: Owner, t: Owner)
    requires MainReady(kind, o) && t == MainStep(kind, o) && kind(o.main.gen).Dummy?
    ensures MainMoveDummy(kind, o, t)
  {
    var op := OpAt(Main0, kind(o.main.gen), o.main.pc);
    if o.main.pc == 0 { assert op == ZeroOutput; }
    else if o.main.pc == 1 { assert op == RaiseFlag; }
    else if o.main.pc == 2 { assert op == WaitFlag(1); }
    else if o.main.pc == 3 { assert op == BeginConsume; }
    else if o.main.pc == 4 { assert op == EndConsume; }
    else { assert op == ResetFlag; }
  }

  lemma RunCopyIsMove(kind: Schedule, o: Owner, t: Owner)
    requires CopyReady(kind, o) && t == CopyStep(kind, o)
    ensures CopyMove(o, t)
  {
    if o.copy.pc == 0 {} else if o.copy.pc == 1 {} else {}
  }

  lemma RunReaderIsMove(kind: Schedule, o: Owner, t: Owner)
    requires ReaderReady(kind, o) && t == ReaderStep(kind, o)
    ensures ReaderMove(o, t)
  {
    if o.reader.pc == 0 {} else if o.reader.pc == 1 {} else if o.reader.pc == 2 {} else {}
  }

  lemma RunCastIsMove(kind: Schedule, o: Owner, t: Owner)
    requires CastReady(kind, o) && t == CastStep(kind, o)
    ensures CastMove(o, t)
  {
    if o.cast.pc == 0 {} else if o.cast.pc == 1 {} else if o.cast.pc == 2 {} else if o.cast.pc == 3 {} else {}
  }

  lemma OwnerRunKeeps(kind: Schedule, o: Owner, step: OwnerStep, t: Owner)
    requires OwnerInv(kind, o) && OwnerEnabled(kind, o, step) && t == OwnerApply(kind, o, step)
    requires step.RunMain0? || step.RunCopy? || step.RunReader? || step.RunCast0?
    ensures OwnerInv(kind, t)
  {
    match step
    case RunMain0 =>
      if IsReal(kind, o.main.gen) {
        RunMainIsMove(kind, o, t);
        MainMoves(kind, o, t);
      } else {
        RunMainIsMoveDummy(kind, o, t);
        MainMovesDummy(kind, o, t);
      }
    case RunCopy => RunCopyIsMove(kind, o, t); CopyMoves(kind, o, t);
    case RunReader => RunReaderIsMove(kind, o, t); ReaderMoves(kind, o, t);
    case RunCast0 => RunCastIsMove(kind, o, t); CastMoves(kind, o, t);
  }

  lemma OwnerHostKeeps(kind: Schedule, o: Owner, step: OwnerStep, t: Owner)
    requires OwnerInv(kind, o) && OwnerEnabled(kind, o, step) && t == OwnerApply(kind, o, step)
    requires step.Handoff? || step.Take? || step.Plan?
    ensures OwnerInv(kind, t)
  {
    match step
    case Handoff => HandoffKeeps(kind, o, t);
    case Take => TakeKeeps(kind, o, t);
    case Plan => PlanKeeps(kind, o, t);
  }

  lemma LaunchIs(kind: Schedule, o: Owner, t: Owner)
    requires OwnerEnabled(kind, o, Launch) && t == OwnerApply(kind, o, Launch)
    ensures o.phase.Idle?
    ensures t == if IsReal(kind, o.gen + 1) then
                   o.(gen := o.gen + 1, phase := Launched, lastInputs := o.gen + 1, mailbox := Some(o.gen + 1))
                 else o.(gen := o.gen + 1, phase := Prepared)
  {}

  lemma OwnerReleaseKeeps(kind: Schedule, o: Owner, t: Owner)
    requires OwnerInv(kind, o) && OwnerEnabled(kind, o, Release0) && t == OwnerApply(kind, o, Release0)
    ensures OwnerInv(kind, t)
  {
    if kind(o.gen).Real? { ReleaseKeeps(kind, o, t); } else { ReleaseDummyKeeps(kind, o, t); }
  }

  lemma OwnerPassKeeps(kind: Schedule, o: Owner, step: OwnerStep, t: Owner)
    requires OwnerInv(kind, o) && OwnerEnabled(kind, o, step) && t == OwnerApply(kind, o, step)
    requires step.PassCopy? || step.PassReader? || step.PassCast0?
    ensures OwnerInv(kind, t)
  {
    match step
    case PassCopy => PassCopyKeeps(kind, o, t);
    case PassReader => PassReaderKeeps(kind, o, t);
    case PassCast0 => PassCastKeeps(kind, o, t);
  }

  lemma OwnerStepKeeps(kind: Schedule, o: Owner, step: OwnerStep, t: Owner)
    requires OwnerInv(kind, o) && OwnerEnabled(kind, o, step) && t == OwnerApply(kind, o, step)
    ensures OwnerInv(kind, t)
  {
    if step.Launch? {
      LaunchIs(kind, o, t);
      if IsReal(kind, o.gen + 1) { LaunchKeeps(kind, o, t); } else { LaunchDummyKeeps(kind, o, t); }
    } else if step.Release0? {
      OwnerReleaseKeeps(kind, o, t);
    } else if step.Handoff? || step.Take? || step.Plan? {
      OwnerHostKeeps(kind, o, step, t);
    } else if step.PassCopy? || step.PassReader? || step.PassCast0? {
      OwnerPassKeeps(kind, o, step, t);
    } else {
      OwnerRunKeeps(kind, o, step, t);
    }
  }

  // ---- the invariant of rank 1 ----

  ghost predicate RemotePositions(kind: Schedule, r: Remote) {
    && 1 <= r.main.gen && r.main.pc < Length(Main1, kind(r.main.gen))
    && AtReal(kind, r.cast, 5)
    && r.main.gen <= r.gen + 1
    && (r.main.gen == r.gen + 1 ==> r.main.pc == 0)
    && (forall k :: k in r.doneOf ==> r.doneOf[k] == k)
    && !r.phase.Launched? && (r.phase.Prepared? ==> 0 < r.gen)
    && (r.phase.Prepared? && IsReal(kind, r.gen) ==> r.lastDone == r.gen)
  }

  ghost predicate RemoteOrderAt(r: Remote, k: nat) {
    && (Past(r.cast, k, 0) ==> r.main.gen >= k)
    && (r.main.gen > k ==> r.cast.gen > k)
    && (Past(r.main, k, 0) ==> Past(r.cast, k, 3))
    && (Past(r.main, k, 3) ==> r.cast.gen > k)
  }

  ghost predicate RemoteOrder(kind: Schedule, r: Remote) {
    forall k {:trigger IsReal(kind, k)} :: IsReal(kind, k) ==> RemoteOrderAt(r, k)
  }

  predicate FirstAfterDummy(kind: Schedule, j: nat) {
    2 <= j && IsReal(kind, j) && kind(j - 1).Dummy?
  }

  /** The host enqueued no transfer after a dummy run before that run had drained. */
  ghost predicate DummiesDrained(kind: Schedule, r: Remote) {
    forall j: nat {:trigger FirstAfterDummy(kind, j)} :: FirstAfterDummy(kind, j) && j <= r.gen ==> r.main.gen >= j
  }

  ghost predicate RemoteMemory(kind: Schedule, r: Remote) {
    var n := r.main.gen;
    && r.flag == (if (if IsReal(kind, n) then Past(r.cast, n, 3) else r.main.pc >= 2) then 1 else 0)
    && (IsReal(kind, n) && Past(r.cast, n, 2) ==> r.out == Data(n))
    && (!IsReal(kind, n) && r.main.pc >= 1 ==> r.out == Zeros)
  }

  ghost predicate RemoteInv(kind: Schedule, r: Remote) {
    RemotePositions(kind, r) && RemoteOrder(kind, r) && DummiesDrained(kind, r) && RemoteMemory(kind, r)
  }

  /** Every broadcast delivers the rows of its own generation. */
  ghost predicate SentOk(sent: map<nat, Buf>) {
    forall k :: k in sent ==> sent[k] == Data(k)
  }

  /** A real transfer right after a dummy run is serialized. */
  ghost predicate Guarded(kind: Schedule) {
    forall j: nat {:trigger FirstAfterDummy(kind, j)} :: FirstAfterDummy(kind, j) ==> kind(j).serial
  }

  lemma RemoteInvIsSafe(kind: Schedule, r: Remote)
    requires RemoteInv(kind, r)
    ensures RemoteSafe(kind, r)
  {
    assert IsReal(kind, r.main.gen) ==> RemoteOrderAt(r, r.main.gen);
  }

  /** Somewhere between a dummy run and a later transfer, a transfer follows a dummy run. */
  lemma {:induction false} FirstRealAfter(kind: Schedule, n: nat, k: nat) returns (j: nat)
    requires 1 <= n < k && kind(n).Dummy? && IsReal(kind, k)
    ensures n < j <= k && FirstAfterDummy(kind, j)
    decreases k - n
  {
    if kind(n + 1).Real? {
      j := n + 1;
    } else {
      j := FirstRealAfter(kind, n + 1, k);
    }
  }

  /** A receiver that finds the flag down belongs to the generation the main stream is in. */
  lemma FlagDownMeansCurrent(kind: Schedule, r: Remote)
    requires RemoteInv(kind, r) && IsReal(kind, r.cast.gen) && r.cast.gen <= r.gen && r.flag == 0
    ensures r.main.gen >= r.cast.gen
  {
    var n := r.main.gen;
    if n < r.cast.gen {
      assert Past(r.cast, n, 3);
      var _ := FirstRealAfter(kind, n, r.cast.gen);
    }
  }

  // ---- every step of rank 1 keeps its invariant ----

  lemma PrepareKeeps(kind: Schedule, r: Remote, t: Remote)
    requires RemoteInv(kind, r) && r.phase.Idle? && Guarded(kind)
    requires kind(r.gen + 1) == Real(true) ==> r.main.gen > r.gen
    requires t == r.(gen := r.gen + 1, phase := Prepared, lastDone := t.lastDone)
    requires IsReal(kind, r.gen + 1) ==> t.lastDone == r.gen + 1
    ensures RemoteInv(kind, t)
  {
    forall j: nat | FirstAfterDummy(kind, j) && j <= t.gen ensures t.main.gen >= j {
      if j == r.gen + 1 {
        assert kind(j) == Real(true);
      }
    }
    forall k | IsReal(kind, k) ensures RemoteOrderAt(t, k) {
      assert RemoteOrderAt(r, k);
    }
  }

  lemma Release1Keeps(kind: Schedule, r: Remote, t: Remote)
    requires RemoteInv(kind, r) && r.phase.Prepared?
    requires t == r.(phase := Idle, doneOf := t.doneOf)
    requires t.doneOf == if IsReal(kind, r.gen) then r.doneOf[r.gen := r.lastDone] else r.doneOf
    ensures RemoteInv(kind, t)
  {
    forall k | IsReal(kind, k) ensures RemoteOrderAt(t, k) {
      assert RemoteOrderAt(r, k);
    }
  }

  lemma PassCast1Keeps(kind: Schedule, r: Remote, t: Remote)
    requires RemoteInv(kind, r) && !IsReal(kind, r.cast.gen) && t == r.(cast := Pos(r.cast.gen + 1, 0))
    ensures RemoteInv(kind, t)
  {
    forall k | IsReal(kind, k) ensures RemoteOrderAt(t, k) {
      assert RemoteOrderAt(r, k);
    }
  }

  /** One operation of the receiving stream. */
  ghost predicate ReceiveMove(r: Remote, sent: map<nat, Buf>, t: Remote) {
    && t == r.(cast := t.cast, out := t.out, flag := t.flag)
    && r.cast.gen <= r.gen
    && (r.cast.pc == 0 ==> r.flag == 0)
    && (r.cast.pc == 2 ==> r.cast.gen in sent)
    && t.out == (if r.cast.pc == 1 then Torn else if r.cast.pc == 2 then sent[r.cast.gen] else r.out)
    && t.flag == (if r.cast.pc == 3 then 1 else r.flag)
    && t.cast == (if r.cast.pc == 4 then Pos(r.cast.gen + 1, 0) else Pos(r.cast.gen, r.cast.pc + 1))
  }

  lemma ReceiveMoves(kind: Schedule, r: Remote, sent: map<nat, Buf>, t: Remote)
    requires RemoteInv(kind, r) && SentOk(sent) && ReceiveMove(r, sent, t) && IsReal(kind, r.cast.gen)
    ensures RemoteInv(kind, t)
  {
    if r.cast.pc == 0 {
      FlagDownMeansCurrent(kind, r);
    }
    assert RemoteOrderAt(r, r.cast.gen);
    forall k | IsReal(kind, k) ensures RemoteOrderAt(t, k) {
      assert RemoteOrderAt(r, k);
    }
  }

  ghost predicate Main1Move(kind: Schedule, r: Remote, t: Remote) {
    && t == r.(main := t.main, flag := t.flag)
    && EnqueuedOnMain(Main1, kind(r.main.gen), r.main, r.gen, r.phase)
    && (r.main.pc == 0 ==> r.flag == 1)
    && (r.main.pc == 3 ==> r.main.gen in r.doneOf && Past(r.cast, r.doneOf[r.main.gen], 4))
    && t.flag == (if r.main.pc == 4 then 0 else r.flag)
    && t.main == (if r.main.pc == 4 then Pos(r.main.gen + 1, 0) else Pos(r.main.gen, r.main.pc + 1))
  }

  ghost predicate Main1MoveDummy(kind: Schedule, r: Remote, t: Remote) {
    && t == r.(main := t.main, out := t.out, flag := t.flag)
    && EnqueuedOnMain(Main1, kind(r.main.gen), r.main, r.gen, r.phase)
    && t.out == (if r.main.pc == 0 then Zeros else r.out)
    && t.flag == (if r.main.pc == 5 then 0 else if r.main.pc == 1 then 1 else r.flag)
    && t.main == (if r.main.pc == 5 then Pos(r.main.gen + 1, 0) else Pos(r.main.gen, r.main.pc + 1))
  }

  lemma Main1Moves(kind: Schedule, r: Remote, t: Remote)
    requires RemoteInv(kind, r) && Main1Move(kind, r, t) && IsReal(kind, r.main.gen)
    ensures RemoteInv(kind, t)
  {
    assert RemoteOrderAt(r, r.main.gen);
    assert IsReal(kind, r.main.gen + 1) ==> RemoteOrderAt(r, r.main.gen + 1);
    forall k | IsReal(kind, k) ensures RemoteOrderAt(t, k) {
      assert RemoteOrderAt(r, k);
    }
  }

  lemma Main1MovesDummy(kind: Schedule, r: Remote, t: Remote)
    requires RemoteInv(kind, r) && Main1MoveDummy(kind, r, t) && !IsReal(kind, r.main.gen)
    ensures RemoteInv(kind, t)
  {
    assert IsReal(kind, r.main.gen + 1) ==> RemoteOrderAt(r, r.main.gen + 1);
    forall k | IsReal(kind, k) ensures RemoteOrderAt(t, k) {
      assert RemoteOrderAt(r, k);
    }
  }

  lemma RunCast1IsMove(kind: Schedule, r: Remote, sent: map<nat, Buf>, t: Remote)
    requires RemoteEnabled(kind, r, sent, RunCast1) && t == RemoteApply(kind, r, sent, RunCast1)
    ensures ReceiveMove(r, sent, t) && kind(r.cast.gen).Real?
  {
    var op := OpAt(Cast1, kind(r.cast.gen), r.cast.pc);
    if r.cast.pc == 0 { assert op == WaitFlag(0); }
    else if r.cast.pc == 1 { assert op == BeginReceive; }
    else if r.cast.pc == 2 { assert op == EndReceive; }
    else if r.cast.pc == 3 { assert op == RaiseFlag; }
    else { assert op == RecordDone; }
  }

  lemma RunMain1IsMove(kind: Schedule, r: Remote, sent: map<nat, Buf>, t: Remote)
    requires RemoteEnabled(kind, r, sent, RunMain1) && t == RemoteApply(kind, r, sent, RunMain1)
    ensures if kind(r.main.gen).Real? then Main1Move(kind, r, t) else Main1MoveDummy(kind, r, t)
  {
    var op := OpAt(Main1, kind(r.main.gen), r.main.pc);
    if kind(r.main.gen).Real? {
      assert r.main.pc == 4 ==> op == ResetFlag;
    } else {
      assert r.main.pc == 5 ==> op == ResetFlag;
    }
  }

  lemma RemoteStepKeeps(kind: Schedule, r: Remote, sent: map<nat, Buf>, step: RemoteStep, t: Remote)
    requires RemoteInv(kind, r) && SentOk(sent) && Guarded(kind)
    requires RemoteEnabled(kind, r, sent, step) && t == RemoteApply(kind, r, sent, step)
    ensures RemoteInv(kind, t)
  {
    match step
    case Prepare1 => PrepareKeeps(kind, r, t);
    case Release1 => Release1Keeps(kind, r, t);
    case PassCast1 => PassCast1Keeps(kind, r, t);
    case RunCast1 =>
      RunCast1IsMove(kind, r, sent, t);
      ReceiveMoves(kind, r, sent, t);
    case RunMain1 =>
      RunMain1IsMove(kind, r, sent, t);
      if kind(r.main.gen).Real? { Main1Moves(kind, r, t); } else { Main1MovesDummy(kind, r, t); }
  }

  // ---- runs ----

  ghost predicate Follows(kind: Schedule, s: State, t: State) {
    exists step :: Enabled(kind, s, step) && t == Apply(kind, s, step)
  }

  ghost predicate IsRun(kind: Schedule, run: seq<State>) {
    && 0 < |run| && run[0] == Init()
    && forall i :: 0 <= i < |run| - 1 ==> Follows(kind, run[i], run[i + 1])
  }

  ghost predicate Reachable(kind: Schedule, s: State) {
    exists run :: IsRun(kind, run) && run[|run| - 1] == s
  }

  lemma InitInv(kind: Schedule)
    ensures OwnerInv(kind, Init().owner) && RemoteInv(kind, Init().remote)
  {}

  lemma {:induction false} RunInv(kind: Schedule, run: seq<State>)
    requires IsRun(kind, run)
    ensures OwnerInv(kind, run[|run| - 1].owner)
    ensures Guarded(kind) ==> RemoteInv(kind, run[|run| - 1].remote)
  {
    if |run| == 1 {
      InitInv(kind);
    } else {
      RunInv(kind, run[..|run| - 1]);
      var s, t := run[|run| - 2], run[|run| - 1];
      assert Follows(kind, s, t);
      var step :| Enabled(kind, s, step) && t == Apply(kind, s, step);
      match step
      case OnRank0(o) => OwnerStepKeeps(kind, s.owner, o, t.owner);
      case OnRank1(r) =>
        if Guarded(kind) {
          RemoteStepKeeps(kind, s.remote, s.owner.mem.sent, r, t.remote);
        }
    }
  }

  lemma ReachableInv(kind: Schedule, s: State)
    requires Reachable(kind, s)
    ensures OwnerInv(kind, s.owner)
    ensures Guarded(kind) ==> RemoteInv(kind, s.remote)
  {
    var run :| IsRun(kind, run) && run[|run| - 1] == s;
    RunInv(kind, run);
  }

  lemma InitReachable(kind: Schedule)
    ensures Reachable(kind, Init())
  {
    assert IsRun(kind, [Init()]);
  }

  lemma Do(kind: Schedule, s: State, step: Step) returns (t: State)
    requires Reachable(kind, s) && Enabled(kind, s, step)
    ensures Reachable(kind, t) && t == Apply(kind, s, step)
  {
    t := Apply(kind, s, step);
    assert Follows(kind, s, t);
    var run :| IsRun(kind, run) && run[|run| - 1] == s;
    var longer := run + [t];
    forall i | 0 <= i < |longer| - 1 ensures Follows(kind, longer[i], longer[i + 1]) {
      if i < |run| - 1 {
        assert Follows(kind, run[i], run[i + 1]);
      }
    }
    assert IsRun(kind, longer);
  }

  // ---- what the invariant says about every run ----

  /** Rank 0 refills its output for a generation only after every earlier one was both broadcast
      and consumed, and its broadcast waits for its own generation's flag, not a stale one. */
  lemma OwnerOutputHeld(kind: Schedule, s: State, j: nat, k: nat)
    requires Reachable(kind, s) && IsReal(kind, j) && IsReal(kind, k)
    ensures Past(s.owner.reader, j, 0) && k < j ==> s.owner.cast.gen > k && s.owner.main.gen > k
    ensures Past(s.owner.cast, k, 1) ==> s.owner.reader.gen > k
  {
    ReachableInv(kind, s);
    assert OwnerOrderAt(s.owner, j) && OwnerOrderAt(s.owner, k);
    if Past(s.owner.reader, j, 0) {
      assert Past(s.owner.copy, j, 0);
    }
  }

  /** The one-place metadata mailbox is empty whenever a launch may put into it. */
  lemma MailboxNeverFull(kind: Schedule, s: State)
    requires Reachable(kind, s) && OwnerEnabled(kind, s.owner, Launch)
    ensures s.owner.mailbox.None?
  {
    ReachableInv(kind, s);
  }

  // ---- single operations, with their new state spelled out ----

  lemma DoMain(kind: Schedule, s: State) returns (t: State)
    requires Reachable(kind, s) && MainReady(kind, s.owner) && kind(s.owner.main.gen).Real?
    ensures Reachable(kind, t) && t.remote == s.remote && MainMove(kind, s.owner, t.owner)
  {
    t := Do(kind, s, OnRank0(RunMain0));
    RunMainIsMove(kind, s.owner, t.owner);
  }

  lemma DoMainDummy(kind: Schedule, s: State) returns (t: State)
    requires Reachable(kind, s) && MainReady(kind, s.owner) && kind(s.owner.main.gen).Dummy?
    ensures Reachable(kind, t) && t.remote == s.remote && MainMoveDummy(kind, s.owner, t.owner)
  {
    t := Do(kind, s, OnRank0(RunMain0));
    RunMainIsMoveDummy(kind, s.owner, t.owner);
  }

  lemma DoReader(kind: Schedule, s: State) returns (t: State)
    requires Reachable(kind, s) && ReaderReady(kind, s.owner)
    ensures Reachable(kind, t) && t.remote == s.remote && ReaderMove(s.owner, t.owner)
  {
    t := Do(kind, s, OnRank0(RunReader));
    RunReaderIsMove(kind, s.owner, t.owner);
  }

  lemma DoCast(kind: Schedule, s: State) returns (t: State)
    requires Reachable(kind, s) && CastReady(kind, s.owner)
    ensures Reachable(kind, t) && t.remote == s.remote && CastMove(s.owner, t.owner)
  {
    t := Do(kind, s, OnRank0(RunCast0));
    RunCastIsMove(kind, s.owner, t.owner);
  }

  lemma DoReceive(kind: Schedule, s: State) returns (t: State)
    requires Reachable(kind, s) && RemoteEnabled(kind, s.remote, s.owner.mem.sent, RunCast1)
    ensures Reachable(kind, t) && t.owner == s.owner && ReceiveMove(s.remote, s.owner.mem.sent, t.remote)
  {
    t := Do(kind, s, OnRank1(RunCast1));
    RunCast1IsMove(kind, s.remote, s.owner.mem.sent, t.remote);
  }

  lemma DoMain1(kind: Schedule, s: State) returns (t: State)
    requires Reachable(kind, s) && RemoteEnabled(kind, s.remote, s.owner.mem.sent, RunMain1)
    ensures Reachable(kind, t) && t.owner == s.owner
    ensures if kind(s.remote.main.gen).Real? then Main1Move(kind, s.remote, t.remote) else Main1MoveDummy(kind, s.remote, t.remote)
  {
    t := Do(kind, s, OnRank1(RunMain1));
    RunMain1IsMove(kind, s.remote, s.owner.mem.sent, t.remote);
  }

  // ---- every schedule can be completed, generation by generation ----

  predicate OwnerAt(o: Owner, n: nat, phase: HostPhase, main: Pos, copy: Pos, reader: Pos, cast: Pos, flag: nat) {
    && o.gen == n && o.phase == phase && o.main == main && o.copy == copy && o.reader == reader && o.cast == cast
    && o.mem.flag == flag
  }

  predicate OwnerQuiet(o: Owner, k: nat) {
    && OwnerAt(o, k, Idle, Pos(k + 1, 0), Pos(k + 1, 0), Pos(k + 1, 0), Pos(k + 1, 0), 0)
    && o.mailbox.None? && !o.copying
  }

  predicate RemoteQuiet(r: Remote, k: nat) {
    r.gen == k && r.phase.Idle? && r.main == Pos(k + 1, 0) && r.cast == Pos(k + 1, 0) && r.flag == 0
  }

  lemma OwnerStages(kind: Schedule, s: State, n: nat) returns (t: State)
    requires Reachable(kind, s) && 1 <= n && OwnerQuiet(s.owner, n - 1) && kind(n).Real?
    ensures Reachable(kind, t) && t.remote == s.remote
    ensures OwnerAt(t.owner, n, Launched, Pos(n, 2), Pos(n, 0), Pos(n, 0), Pos(n, 0), 0)
    ensures t.owner.mailbox == Some(n) && !t.owner.copying && t.owner.lastInputs == n
  {
    t := OwnerLaunches(kind, s, n);
    t := DoMain(kind, t);
    t := DoMain(kind, t);
  }

  lemma OwnerLaunches(kind: Schedule, s: State, n: nat) returns (t: State)
    requires Reachable(kind, s) && 1 <= n && OwnerQuiet(s.owner, n - 1) && kind(n).Real?
    ensures Reachable(kind, t) && t.remote == s.remote
    ensures OwnerAt(t.owner, n, Launched, Pos(n, 0), Pos(n, 0), Pos(n, 0), Pos(n, 0), 0)
    ensures t.owner.mailbox == Some(n) && !t.owner.copying && t.owner.lastInputs == n
  {
    t := Do(kind, s, OnRank0(Launch));
  }

  lemma OwnerCopies(kind: Schedule, s: State, n: nat) returns (t: State)
    requires Reachable(kind, s) && kind(n).Real?
    requires OwnerAt(s.owner, n, Launched, Pos(n, 2), Pos(n, 0), Pos(n, 0), Pos(n, 0), 0)
    requires s.owner.mailbox == Some(n) && !s.owner.copying && s.owner.lastInputs == n
    ensures Reachable(kind, t) && t.remote == s.remote
    ensures OwnerAt(t.owner, n, Launched, Pos(n, 2), Pos(n + 1, 0), Pos(n, 0), Pos(n, 0), 0)
    ensures t.owner.mailbox.None? && t.owner.copying && t.owner.taken == n
  {
    t := Do(kind, s, OnRank0(Take));
    t := Do(kind, t, OnRank0(RunCopy));
    t := Do(kind, t, OnRank0(RunCopy));
    t := Do(kind, t, OnRank0(RunCopy));
  }

  lemma OwnerPlans(kind: Schedule, s: State, n: nat) returns (t: State)
    requires Reachable(kind, s) && kind(n).Real?
    requires OwnerAt(s.owner, n, Launched, Pos(n, 2), Pos(n + 1, 0), Pos(n, 0), Pos(n, 0), 0)
    requires s.owner.mailbox.None? && s.owner.copying && s.owner.taken == n
    ensures Reachable(kind, t) && t.remote == s.remote
    ensures OwnerAt(t.owner, n, Prepared, Pos(n, 3), Pos(n + 1, 0), Pos(n, 0), Pos(n, 0), 0)
    ensures t.owner.mailbox.None? && !t.owner.copying && n in t.owner.mem.planned && t.owner.lastDone == n
    ensures n in t.owner.metadataOf && t.owner.metadataOf[n] == n
  {
    t := Do(kind, s, OnRank0(Plan));
    t := Do(kind, t, OnRank0(Handoff));
    t := DoMain(kind, t);
  }

  lemma OwnerReads(kind: Schedule, s: State, n: nat) returns (t: State)
    requires Reachable(kind, s) && kind(n).Real?
    requires OwnerAt(s.owner, n, Prepared, Pos(n, 3), Pos(n + 1, 0), Pos(n, 0), Pos(n, 0), 0)
    requires n in s.owner.mem.planned
    ensures Reachable(kind, t) && t.remote == s.remote
    ensures OwnerAt(t.owner, n, Prepared, Pos(n, 3), Pos(n + 1, 0), Pos(n + 1, 0), Pos(n, 0), 1)
    ensures t.owner == s.owner.(reader := t.owner.reader, mem := t.owner.mem)
  {
    t := DoReader(kind, s);
    t := DoReader(kind, t);
    t := DoReader(kind, t);
    t := DoReader(kind, t);
  }

  lemma OwnerSends(kind: Schedule, s: State, n: nat) returns (t: State)
    requires Reachable(kind, s) && kind(n).Real?
    requires OwnerAt(s.owner, n, Prepared, Pos(n, 3), Pos(n + 1, 0), Pos(n + 1, 0), Pos(n, 0), 1)
    requires n in s.owner.metadataOf && s.owner.metadataOf[n] == n
    ensures Reachable(kind, t) && t.remote == s.remote && n in t.owner.mem.sent
    ensures OwnerAt(t.owner, n, Prepared, Pos(n, 3), Pos(n + 1, 0), Pos(n + 1, 0), Pos(n + 1, 0), 1)
    ensures t.owner == s.owner.(cast := t.owner.cast, mem := t.owner.mem)
  {
    t := DoCast(kind, s);
    t := DoCast(kind, t);
    t := DoCast(kind, t);
    t := DoCast(kind, t);
    t := DoCast(kind, t);
  }

  lemma OwnerReleases(kind: Schedule, s: State, n: nat) returns (t: State)
    requires Reachable(kind, s) && kind(n).Real?
    requires OwnerAt(s.owner, n, Prepared, Pos(n, 3), Pos(n + 1, 0), Pos(n + 1, 0), Pos(n + 1, 0), 1)
    requires s.owner.mailbox.None? && !s.owner.copying && s.owner.lastDone == n
    ensures Reachable(kind, t) && t.remote == s.remote && t.owner.mem.sent == s.owner.mem.sent
    ensures OwnerAt(t.owner, n, Idle, Pos(n, 6), Pos(n + 1, 0), Pos(n + 1, 0), Pos(n + 1, 0), 1)
    ensures t.owner.mailbox.None? && !t.owner.copying && n in t.owner.doneOf && t.owner.doneOf[n] == n
  {
    t := DoMain(kind, s);
    t := DoMain(kind, t);
    t := DoMain(kind, t);
    t := Do(kind, t, OnRank0(Release0));
  }

  lemma OwnerConsumes(kind: Schedule, s: State, n: nat) returns (t: State)
    requires Reachable(kind, s) && kind(n).Real?
    requires OwnerAt(s.owner, n, Prepared, Pos(n, 3), Pos(n + 1, 0), Pos(n + 1, 0), Pos(n + 1, 0), 1)
    requires s.owner.mailbox.None? && !s.owner.copying && s.owner.lastDone == n
    ensures Reachable(kind, t) && t.remote == s.remote && OwnerQuiet(t.owner, n) && t.owner.mem.sent == s.owner.mem.sent
  {
    t := OwnerReleases(kind, s, n);
    t := DoMain(kind, t);
    t := DoMain(kind, t);
  }

  lemma OwnerTransfers(kind: Schedule, s: State, n: nat) returns (t: State)
    requires Reachable(kind, s) && 1 <= n && OwnerQuiet(s.owner, n - 1) && kind(n).Real?
    ensures Reachable(kind, t) && t.remote == s.remote && OwnerQuiet(t.owner, n) && n in t.owner.mem.sent
  {
    t := OwnerStages(kind, s, n);
    t := OwnerCopies(kind, t, n);
    t := OwnerPlans(kind, t, n);
    t := OwnerReads(kind, t, n);
    t := OwnerSends(kind, t, n);
    t := OwnerConsumes(kind, t, n);
  }

  lemma OwnerDummies(kind: Schedule, s: State, n: nat) returns (t: State)
    requires Reachable(kind, s) && 1 <= n && OwnerQuiet(s.owner, n - 1) && kind(n).Dummy?
    ensures Reachable(kind, t) && t.remote == s.remote && OwnerQuiet(t.owner, n)
  {
    t := Do(kind, s, OnRank0(Launch));
    t := Do(kind, t, OnRank0(Release0));
    t := OwnerDummyMain(kind, t, n);
    t := Do(kind, t, OnRank0(PassCopy));
    t := Do(kind, t, OnRank0(PassReader));
    t := Do(kind, t, OnRank0(PassCast0));
  }

  lemma OwnerZeros(kind: Schedule, s: State, n: nat) returns (t: State)
    requires Reachable(kind, s) && kind(n).Dummy?
    requires OwnerAt(s.owner, n, Idle, Pos(n, 0), Pos(n, 0), Pos(n, 0), Pos(n, 0), 0)
    ensures Reachable(kind, t) && t.remote == s.remote
    ensures t.owner == s.owner.(main := Pos(n, 3), mem := t.owner.mem)
  {
    t := DoMainDummy(kind, s);
    t := DoMainDummy(kind, t);
    t := DoMainDummy(kind, t);
  }

  lemma OwnerDummyMain(kind: Schedule, s: State, n: nat) returns (t: State)
    requires Reachable(kind, s) && kind(n).Dummy?
    requires OwnerAt(s.owner, n, Idle, Pos(n, 0), Pos(n, 0), Pos(n, 0), Pos(n, 0), 0)
    ensures Reachable(kind, t) && t.remote == s.remote
    ensures t.owner == s.owner.(main := Pos(n + 1, 0), mem := t.owner.mem) && t.owner.mem.flag == 0
  {
    t := OwnerZeros(kind, s, n);
    t := DoMainDummy(kind, t);
    t := DoMainDummy(kind, t);
    t := DoMainDummy(kind, t);
  }

  lemma OwnerGeneration(kind: Schedule, s: State, n: nat) returns (t: State)
    requires Reachable(kind, s) && 1 <= n && OwnerQuiet(s.owner, n - 1)
    ensures Reachable(kind, t) && t.remote == s.remote && OwnerQuiet(t.owner, n)
    ensures IsReal(kind, n) ==> n in t.owner.mem.sent
  {
    if kind(n).Real? { t := OwnerTransfers(kind, s, n); } else { t := OwnerDummies(kind, s, n); }
  }

  lemma RemoteReceives(kind: Schedule, s: State, n: nat) returns (t: State)
    requires Reachable(kind, s) && kind(n).Real? && n in s.owner.mem.sent
    requires s.remote.cast == Pos(n, 0) && n <= s.remote.gen && s.remote.flag == 0
    ensures Reachable(kind, t) && t.owner == s.owner
    ensures t.remote == s.remote.(cast := Pos(n, 3), out := s.owner.mem.sent[n])
  {
    t := DoReceive(kind, s);
    t := DoReceive(kind, t);
    t := DoReceive(kind, t);
  }

  lemma RemoteLaunches(kind: Schedule, s: State, n: nat) returns (t: State)
    requires Reachable(kind, s) && 1 <= n && RemoteQuiet(s.remote, n - 1) && kind(n).Real?
    ensures Reachable(kind, t) && t.owner == s.owner
    ensures t.remote == s.remote.(gen := n, lastDone := n, doneOf := s.remote.doneOf[n := n])
  {
    t := Do(kind, s, OnRank1(Prepare1));
    t := Do(kind, t, OnRank1(Release1));
  }

  lemma RemoteArrives(kind: Schedule, s: State, n: nat) returns (t: State)
    requires Reachable(kind, s) && 1 <= n && RemoteQuiet(s.remote, n - 1) && kind(n).Real? && n in s.owner.mem.sent
    ensures Reachable(kind, t) && t.owner == s.owner
    ensures t.remote.gen == n && t.remote.phase.Idle? && t.remote.main == Pos(n, 0) && t.remote.flag == 1
    ensures t.remote.cast == Pos(n + 1, 0) && n in t.remote.doneOf && t.remote.doneOf[n] == n
  {
    t := RemoteLaunches(kind, s, n);
    t := RemoteReceives(kind, t, n);
    t := DoReceive(kind, t);
    t := DoReceive(kind, t);
  }

  lemma RemoteTransfers(kind: Schedule, s: State, n: nat) returns (t: State)
    requires Reachable(kind, s) && 1 <= n && RemoteQuiet(s.remote, n - 1) && kind(n).Real? && n in s.owner.mem.sent
    ensures Reachable(kind, t) && t.owner == s.owner && RemoteQuiet(t.remote, n)
  {
    t := RemoteArrives(kind, s, n);
    t := DoMain1(kind, t);
    t := DoMain1(kind, t);
    t := DoMain1(kind, t);
    t := DoMain1(kind, t);
    t := DoMain1(kind, t);
  }

  lemma RemoteDummyMain(kind: Schedule, s: State, n: nat) returns (t: State)
    requires Reachable(kind, s) && kind(n).Dummy?
    requires s.remote.main == Pos(n, 0) && (n < s.remote.gen || (n == s.remote.gen && s.remote.phase.Idle?))
    ensures Reachable(kind, t) && t.owner == s.owner
    ensures t.remote == s.remote.(main := Pos(n + 1, 0), out := Zeros, flag := 0)
  {
    t := DoMain1(kind, s);
    t := DoMain1(kind, t);
    t := DoMain1(kind, t);
    t := DoMain1(kind, t);
    t := DoMain1(kind, t);
    t := DoMain1(kind, t);
  }

  lemma RemoteDummies(kind: Schedule, s: State, n: nat) returns (t: State)
    requires Reachable(kind, s) && 1 <= n && RemoteQuiet(s.remote, n - 1) && kind(n).Dummy?
    ensures Reachable(kind, t) && t.owner == s.owner && RemoteQuiet(t.remote, n)
  {
    t := Do(kind, s, OnRank1(Prepare1));
    t := Do(kind, t, OnRank1(Release1));
    t := RemoteDummyMain(kind, t, n);
    t := Do(kind, t, OnRank1(PassCast1));
  }

  /** Any schedule can be carried through any number of generations. */
  lemma {:induction false} EveryScheduleCompletes(kind: Schedule, k: nat) returns (s: State)
    ensures Reachable(kind, s) && OwnerQuiet(s.owner, k) && RemoteQuiet(s.remote, k)
  {
    if k == 0 {
      InitReachable(kind);
      s := Init();
    } else {
      s := EveryScheduleCompletes(kind, k - 1);
      s := OwnerGeneration(kind, s, k);
      if kind(k).Real? { s := RemoteTransfers(kind, s, k); } else { s := RemoteDummies(kind, s, k); }
    }
  }

  // ---- the main theorem ----

  /** Rank 0 is done with the dummy run and the transfer behind it, before rank 1 has seen either. */
  lemma OwnerRunsAhead(kind: Schedule, j: nat) returns (s: State)
    requires FirstAfterDummy(kind, j)
    ensures Reachable(kind, s) && OwnerQuiet(s.owner, j) && RemoteQuiet(s.remote, j - 2) && j in s.owner.mem.sent
  {
    s := EveryScheduleCompletes(kind, j - 2);
    s := OwnerGeneration(kind, s, j - 1);
    s := OwnerGeneration(kind, s, j);
  }

  /** Rank 1 prepares both, and receives the rows of the transfer before its dummy run is over. */
  lemma RemotePreparesBoth(kind: Schedule, s: State, j: nat) returns (t: State)
    requires FirstAfterDummy(kind, j) && !kind(j).serial
    requires Reachable(kind, s) && OwnerQuiet(s.owner, j) && RemoteQuiet(s.remote, j - 2)
    ensures Reachable(kind, t) && t.owner == s.owner
    ensures t.remote == s.remote.(gen := j, phase := Prepared, lastDone := j, cast := Pos(j, 0))
  {
    t := Do(kind, s, OnRank1(Prepare1));
    t := Do(kind, t, OnRank1(Release1));
    t := Do(kind, t, OnRank1(Prepare1));
    t := Do(kind, t, OnRank1(PassCast1));
  }

  /** Without a drain, rank 1 can consume zeros left by the dummy run before a transfer. */
  lemma UnguardedLosesRows(kind: Schedule, j: nat) returns (s: State)
    requires FirstAfterDummy(kind, j) && !kind(j).serial
    ensures Reachable(kind, s) && !RemoteSafe(kind, s.remote)
    ensures s.remote.main == Pos(j, 1) && s.remote.out == Zeros
  {
    s := OwnerRunsAhead(kind, j);
    s := RemotePreparesBoth(kind, s, j);
    s := RemoteReceives(kind, s, j);
    s := RemoteDummyMain(kind, s, j - 1);
    s := DoReceive(kind, s);
    s := DoMain1(kind, s);
  }

  ghost predicate AlwaysSafe(kind: Schedule) {
    forall s :: Reachable(kind, s) ==> OwnerSafe(kind, s.owner) && RemoteSafe(kind, s.remote)
  }

  /** Rank 0 is safe under every schedule. */
  lemma OwnerAlwaysSafe(kind: Schedule, s: State)
    requires Reachable(kind, s)
    ensures OwnerSafe(kind, s.owner) && SentOk(s.owner.mem.sent)
  {
    ReachableInv(kind, s);
    OwnerInvIsSafe(kind, s.owner);
  }

  /** Both ranks see exactly their generation in every run, if and only if every transfer that
      directly follows a dummy run is serialized. */
  lemma SafeIffGuarded(kind: Schedule)
    ensures AlwaysSafe(kind) <==> Guarded(kind)
  {
    if Guarded(kind) {
      forall s | Reachable(kind, s) ensures OwnerSafe(kind, s.owner) && RemoteSafe(kind, s.remote) {
        ReachableInv(kind, s);
        OwnerInvIsSafe(kind, s.owner);
        RemoteInvIsSafe(kind, s.remote);
      }
    } else {
      var j: nat :| FirstAfterDummy(kind, j) && !kind(j).serial;
      var _ := UnguardedLosesRows(kind, j);
    }
  }
}
