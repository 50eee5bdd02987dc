/** The per-rank transport object whose calls put the programs of `TwoRank` on the streams. */
module TpPleTransport {
  import opened TwoRank

  /** Inputs longer than this are serialized when the transport serializes large inputs. */
  const LARGE_INPUT := 112

  /** One `prepare_forward`, with the flag the runner had set when it was called. */
  datatype Call = Call(tokens: nat, dummy: bool, flagged: bool)

  /** The generations these calls start: a transfer is serialized exactly when the transport
      serializes large inputs and the input has more than 112 tokens or was flagged. */
  ghost predicate Starts(calls: seq<Call>, history: seq<Kind>, serialize: bool) {
    |calls| == |history| && forall i :: 0 <= i < |calls| ==>
      history[i] == if calls[i].dummy then Dummy else Real(serialize && (calls[i].flagged || calls[i].tokens > 112))
  }

  /** Each accepted call keeps the history that of the calls. */
  lemma StartsNext(calls: seq<Call>, history: seq<Kind>, serialize: bool, call: Call, k: Kind)
    requires k == if call.dummy then Dummy else Real(serialize && (call.flagged || call.tokens > 112))
    ensures Starts(calls, history, serialize) ==> Starts(calls + [call], history + [k], serialize)
  {}

  /** The history as a schedule from generation 1 on, with dummy runs behind it. */
  function ScheduleOf(history: seq<Kind>): Schedule {
    n => if 1 <= n <= |history| then history[n - 1] else Dummy
  }

  /** With serialization on, the condition for safety says how many tokens a transfer behind a dummy
      run has, or that it was flagged; with it off, that there is no such transfer. */
  lemma GuardedIff(calls: seq<Call>, history: seq<Kind>, serialize: bool)
    requires Starts(calls, history, serialize)
    ensures Guarded(ScheduleOf(history)) <==>
              forall i :: 0 < i < |calls| && calls[i - 1].dummy && !calls[i].dummy ==>
                serialize && (calls[i].flagged || calls[i].tokens > 112)
  {
    var kind := ScheduleOf(history);
    if Guarded(kind) {
      forall i | 0 < i < |calls| && calls[i - 1].dummy && !calls[i].dummy
        ensures serialize && (calls[i].flagged || calls[i].tokens > 112)
      {
        assert FirstAfterDummy(kind, i + 1);
      }
    } else {
      var j: nat :| FirstAfterDummy(kind, j) && !kind(j).serial;
      assert calls[j - 2].dummy && !calls[j - 1].dummy;
    }
  }

  class Transport {
    const rank: nat
    const maxTokens: nat
    const serializeLargeInputs: bool
    var requireSerialInput: bool
    var closed: bool
    var active: bool
    var dummy: bool
    var tokens: nat
    var sequence: nat
    /** Operations put on the caller's main stream and on the transport's own stream. */
    var mainStream: seq<Op>
    var castStream: seq<Op>
    /** The generations started so far. */
    ghost var history: seq<Kind>
    ghost var calls: seq<Call>

    constructor (rank: nat, maxTokens: nat, serializeLargeInputs: bool, requireSerialInput: bool)
      requires rank < 2
      ensures Valid() && !closed && !active && sequence == 0 && mainStream == [] && castStream == [] && history == [] && calls == []
      ensures this.rank == rank && this.maxTokens == maxTokens && this.requireSerialInput == requireSerialInput
      ensures this.serializeLargeInputs == serializeLargeInputs
    {
      this.rank := rank;
      this.maxTokens := maxTokens;
      this.serializeLargeInputs := serializeLargeInputs;
      this.requireSerialInput := requireSerialInput;
      closed, active, dummy, tokens, sequence := false, false, false, 0, 0;
      mainStream, castStream, history, calls := [], [], [], [];
    }

    /** The broadcast stream holds exactly the broadcasts of the generations started. */
    ghost predicate Valid()
      reads this
    {
      && rank < 2
      && castStream == CastPrograms(rank, history)
      && sequence == RealCount(history)
      && (active ==> history != [] && history[|history| - 1].Dummy? == dummy)
      && (closed ==> !active)
    }

    function MainId(): StreamId { if rank == 0 then Main0 else Main1 }

    function CastId(): StreamId { if rank == 0 then Cast0 else Cast1 }

    /** Whether this input is exchanged under CPU rendezvous. */
    predicate Serial(numTokens: nat)
      reads this
    {
      serializeLargeInputs && (requireSerialInput || numTokens > LARGE_INPUT)
    }

    function KindOf(numTokens: nat, dummyRun: bool): Kind
      reads this
    {
      if dummyRun then Dummy else Real(Serial(numTokens))
    }

    /** `accepted` is false where the source's assertions raise. */
    method PrepareForward(numTokens: nat, dummyRun: bool) returns (accepted: bool)
      requires Valid()
      modifies this
      ensures Valid() && closed == old(closed) && requireSerialInput == old(requireSerialInput)
      ensures accepted == (!old(closed) && !old(active) && 0 < numTokens <= maxTokens)
      ensures !accepted ==> unchanged(this)
      ensures accepted ==>
                history == old(history) + [if dummyRun then Dummy
                                           else Real(serializeLargeInputs && (old(requireSerialInput) || numTokens > 112))]
      ensures accepted ==>
                var k := old(KindOf(numTokens, dummyRun));
                && active && dummy == dummyRun && tokens == numTokens
                && history == old(history) + [k] && calls == old(calls) + [Call(numTokens, dummyRun, requireSerialInput)]
                && sequence == old(sequence) + (if dummyRun then 0 else 1)
                && mainStream == old(mainStream) + (if rank == 0 then LaunchOps(k) else []) + PrepareOps(rank, k)
                && castStream == old(castStream) + Program(CastId(), k)
    {
      if closed || active || !(0 < numTokens <= maxTokens) {
        return false;
      }
      if dummyRun {
        SignalDummyOutputs(numTokens);
        return true;
      }
      PrepareTransfer(numTokens);
      accepted := true;
    }

    /** A transfer: rank 0 stages the inputs first. */
    method PrepareTransfer(numTokens: nat)
      requires Valid() && !closed && !active && 0 < numTokens <= maxTokens
      modifies this
      ensures Valid() && closed == old(closed) && requireSerialInput == old(requireSerialInput)
      ensures var k := old(KindOf(numTokens, false));
              && active && !dummy && tokens == numTokens
              && history == old(history) + [k] && sequence == old(sequence) + 1
              && calls == old(calls) + [Call(numTokens, false, requireSerialInput)]
              && mainStream == old(mainStream) + (if rank == 0 then LaunchOps(k) else []) + PrepareOps(rank, k)
              && castStream == old(castStream) + Program(CastId(), k)
    {
      ghost var k := KindOf(numTokens, false);
      active, dummy, tokens, sequence := true, false, numTokens, sequence + 1;
      if rank == 0 {
        mainStream := mainStream + [StageInputs, RecordInputs] + [WaitMetadata];
      }
      EnqueueBroadcast(k);
      history, calls := history + [k], calls + [Call(numTokens, false, requireSerialInput)];
    }

    method EnqueueBroadcast(ghost k: Kind)
      requires rank < 2 && k.Real?
      modifies this`castStream
      ensures castStream == old(castStream) + Program(CastId(), k)
    {
      if rank == 0 {
        castStream := castStream + [WaitMetadata, WaitFlag(1), BeginSend, EndSend, RecordDone];
      } else {
        castStream := castStream + [WaitFlag(0), BeginReceive, EndReceive, RaiseFlag, RecordDone];
      }
    }

    method SignalDummyOutputs(numTokens: nat)
      requires Valid() && !closed && !active
      modifies this
      ensures Valid() && !closed && requireSerialInput == old(requireSerialInput)
      ensures active && dummy && tokens == numTokens && history == old(history) + [Dummy] && sequence == old(sequence)
      ensures calls == old(calls) + [Call(numTokens, true, requireSerialInput)]
      ensures mainStream == old(mainStream) + PrepareOps(rank, Dummy) && castStream == old(castStream)
    {
      active, dummy, tokens := true, true, numTokens;
      mainStream := mainStream + [ZeroOutput, RaiseFlag];
      history, calls := history + [Dummy], calls + [Call(numTokens, true, requireSerialInput)];
    }

    method ConsumeOutput(numTokens: nat) returns (accepted: bool)
      requires Valid()
      modifies this`mainStream
      ensures Valid() && accepted == (active && numTokens <= tokens)
      ensures mainStream == if accepted then old(mainStream) + ConsumeOps() else old(mainStream)
    {
      accepted := active && numTokens <= tokens;
      if accepted {
        mainStream := mainStream + [WaitFlag(1), BeginConsume, EndConsume];
      }
    }

    method ReleaseOutputs() returns (accepted: bool)
      requires Valid()
      modifies this`mainStream, this`active
      ensures Valid() && accepted == old(active) && !active
      ensures accepted ==> mainStream == old(mainStream) + ReleaseOps(history[|history| - 1])
      ensures !accepted ==> mainStream == old(mainStream)
    {
      if !active {
        return false;
      }
      if !dummy {
        mainStream := mainStream + [WaitDone];
      }
      mainStream := mainStream + [ResetFlag];
      active := false;
      accepted := true;
    }

    /** Closing is refused while an output is active, and happens once. */
    method Close() returns (accepted: bool)
      requires Valid()
      modifies this`closed
      ensures Valid() && accepted == (old(closed) || !active) && closed == accepted
    {
      if closed {
        return true;
      }
      if active {
        return false;
      }
      closed := true;
      accepted := true;
    }

    /** One model step: its three calls put exactly one program of `TwoRank` on each stream. */
    method Step(numTokens: nat, dummyRun: bool) returns (accepted: bool)
      requires Valid() && !closed && !active && 0 < numTokens <= maxTokens
      modifies this
      ensures Valid() && !closed && !active && accepted
      ensures history == old(history) + [old(KindOf(numTokens, dummyRun))]
      ensures calls == old(calls) + [Call(numTokens, dummyRun, old(requireSerialInput))]
      ensures mainStream == old(mainStream) + Program(MainId(), old(KindOf(numTokens, dummyRun)))
      ensures castStream == old(castStream) + Program(CastId(), old(KindOf(numTokens, dummyRun)))
    {
      ghost var before, k := mainStream, KindOf(numTokens, dummyRun);
      var prepared := PrepareForward(numTokens, dummyRun);
      ghost var first := if rank == 0 then LaunchOps(k) else [];
      var used := UseOutput(numTokens);
      accepted := prepared && used;
      AppendAll(before, first, PrepareOps(rank, k), ConsumeOps(), ReleaseOps(k));
    }

    /** The two calls behind a preparation. */
    method UseOutput(numTokens: nat) returns (accepted: bool)
      requires Valid() && active && numTokens <= tokens
      modifies this`mainStream, this`active
      ensures Valid() && !active && accepted
      ensures mainStream == old(mainStream) + ConsumeOps() + ReleaseOps(history[|history| - 1])
    {
      var consumed := ConsumeOutput(numTokens);
      var released := ReleaseOutputs();
      accepted := consumed && released;
    }
  }

  lemma AppendAll(s: seq<Op>, a: seq<Op>, b: seq<Op>, c: seq<Op>, d: seq<Op>)
    ensures s + a + b + c + d == s + (a + b + c + d)
    ensures [] + b + c + d == b + c + d
  {
    assert [] + b == b;
  }

  function CastPrograms(rank: nat, kinds: seq<Kind>): seq<Op> {
    if kinds == [] then []
    else CastPrograms(rank, kinds[..|kinds| - 1]) + CastOps(rank, kinds[|kinds| - 1])
  }

  function RealCount(kinds: seq<Kind>): nat {
    if kinds == [] then 0
    else RealCount(kinds[..|kinds| - 1]) + (if kinds[|kinds| - 1].Real? then 1 else 0)
  }
}
