/** The in-process reads of the input-driven connector: one output bound to every slot of the
    reader, read in one piece when that fits and in chunks when it does not. */
module DirectOutput {
  import opened Options
  import opened Pages
  import opened PagePlan
  import opened GatherPlan
  import opened NativeRead
  import opened ChunkedRead
  import EndToEnd

  datatype Failure = ReadFailed(error: ReadError) | PastBoundary | WrongSize

  /** `rebind_output_slots([output] * slot_count)`. */
  method BindOutput(reader: Reader, output: array<Byte>) returns (r: Result<(), ReadError>)
    requires reader.Valid() && forall j :: 0 <= j < |reader.slots| ==> output != reader.slots[j].staging
    modifies reader, reader.slots
    ensures reader.Valid() && reader.free == old(reader.free) && reader.active == old(reader.active)
    ensures r == if reader.closed then Err(Closed)
                 else if reader.active != {} then Err(SlotsActive)
                 else if output.Length == 0 then Err(BadOutput)
                 else Ok(())
    ensures r.Ok? ==> reader.SharedOutput() == Some(output) && reader.outputBytes == output.Length
  {
    r := reader.Rebind(seq(|reader.slots|, _ => output));
  }

  /** Why the read fails, if it does: only the error that asks for chunks is not final. */
  ghost function AssembleError(l: Layout, c: Config, fileSize: nat, ids: seq<int>, outputBytes: nat, anyFree: bool,
                               closed: bool): Option<ReadError>
    requires ValidLayout(l)
  {
    var e := LeaseError(l, c, fileSize, ids, 0, outputBytes, anyFree, closed);
    if e == Some(ChunkedReadRequired) then ReadAllError(l, c, fileSize, ids, 0, outputBytes, anyFree, closed) else e
  }

  /** With a slot to read into, only a request that outgrows the output or the staging is tried
      again in chunks; any other failure of the read in one piece is final. */
  lemma AssembleErrorIs(l: Layout, c: Config, fileSize: nat, ids: seq<int>, outputBytes: nat)
    requires ValidLayout(l) && ids != []
    ensures var e := AssembleError(l, c, fileSize, ids, outputBytes, true, false);
            var planned := NativeAnswer(RequestFor(l, ids, 0), c, fileSize);
            if |ids| * l.g.rowBytes > outputBytes || planned == Err(StagingExceeded) then
              e == ReadAllError(l, c, fileSize, ids, 0, outputBytes, true, false)
            else
              e == if planned.Ok? then None else Some(Native(planned.error))
  {}

  /** The read in one piece, and its release. */
  method ReadWhole(reader: Reader, file: seq<Byte>, ids: seq<int>) returns (r: Result<Lease, ReadError>)
    requires reader.Valid()
    modifies reader, reader.slots, reader.Buffers()
    ensures reader.Valid() && reader.Buffers() == old(reader.Buffers()) && reader.outputBytes == old(reader.outputBytes)
    ensures reader.active == old(reader.active) && |reader.free| == |old(reader.free)| && reader.closed == old(reader.closed)
    ensures reader.SharedOutput() == old(reader.SharedOutput())
    ensures ErrorOf(r) == LeaseError(reader.l, reader.c, |file|, ids, 0, reader.outputBytes, old(reader.free) != [], reader.closed)
    ensures r.Ok? ==> if ids == [] then r.value == Empty else r.value.Lease? && r.value.count == |ids|
    ensures r.Ok? && Untorn(reader.l, reader.c, ids, |ids|) ==> InPlace(reader.Shared(), file, reader.l, ids)
  {
    var rows;
    r, rows := reader.ReadChunk(file, ids, 0);
  }

  /** A shared output holds the lookup from its start. */
  ghost predicate InPlace(output: Option<seq<Byte>>, file: seq<Byte>, l: Layout, ids: seq<int>) {
    && EndToEnd.RowsReadable(file, l.g, ids)
    && (ids != [] && output.Some? ==> Placed(output.value, 0, EndToEnd.Lookup(file, l.g, ids)))
  }

  /** The chunks, and their release. */
  method ReadInChunks(reader: Reader, file: seq<Byte>, ids: seq<int>) returns (r: Result<seq<Lease>, ReadError>)
    requires reader.Valid() && ids != []
    modifies reader, reader.slots, reader.Buffers()
    ensures reader.Valid() && reader.Buffers() == old(reader.Buffers()) && reader.outputBytes == old(reader.outputBytes)
    ensures reader.active == old(reader.active) && |reader.free| == |old(reader.free)| && reader.closed == old(reader.closed)
    ensures reader.SharedOutput() == old(reader.SharedOutput())
    ensures ErrorOf(r) == ReadAllError(reader.l, reader.c, |file|, ids, 0, reader.outputBytes, old(reader.free) != [], reader.closed)
    ensures r.Ok? ==> Tiled(r.value, 0, reader.l.g.rowBytes) && RowsOf(r.value) == |ids|
    ensures r.Ok? && Untorn(reader.l, reader.c, ids, ChunkRows(reader.l, reader.c, reader.outputBytes)) ==>
              InPlace(reader.Shared(), file, reader.l, ids)
  {
    var rows;
    r, rows := reader.ReadAll(file, ids, 0);
    assert ids[..|ids|] == ids;
  }

  lemma RowsGrow(leases: seq<Lease>, k: nat, rowBytes: nat)
    requires k < |leases| && leases[k].Lease?
    ensures RowsOf(leases[..k + 1]) == RowsOf(leases[..k]) + leases[k].count
    ensures RowsOf(leases[..k + 1]) * rowBytes == RowsOf(leases[..k]) * rowBytes + leases[k].count * rowBytes
  {
    assert leases[..k + 1][..k] == leases[..k];
  }

  lemma {:induction false} RowsBounded(leases: seq<Lease>, k: nat)
    requires k <= |leases|
    ensures RowsOf(leases[..k]) <= RowsOf(leases)
    decreases |leases| - k
  {
    if k == |leases| {
      assert leases[..k] == leases;
    } else {
      assert leases[..k + 1][..k] == leases[..k];
      RowsBounded(leases, k + 1);
    }
  }

  /** The bytes of the leases, added up and checked against what the request expects. */
  method Account(leases: seq<Lease>, rowBytes: nat, expected: nat) returns (r: Result<(), Failure>)
    requires forall k :: 0 <= k < |leases| ==> leases[k].Lease?
    ensures RowsOf(leases) * rowBytes == expected ==> r == Ok(())
    ensures RowsOf(leases) * rowBytes < expected ==> r == Err(WrongSize)
    ensures RowsOf(leases) * rowBytes > expected ==> r == Err(PastBoundary)
  {
    var assembled := 0;
    for k := 0 to |leases|
      invariant assembled == RowsOf(leases[..k]) * rowBytes && assembled <= expected
    {
      RowsGrow(leases, k, rowBytes);
      var end := assembled + leases[k].count * rowBytes;
      if end > expected {
        RowsBounded(leases, k + 1);
        assert RowsOf(leases[..k + 1]) * rowBytes <= RowsOf(leases) * rowBytes by {
          MulMono(RowsOf(leases[..k + 1]), RowsOf(leases), rowBytes);
        }
        return Err(PastBoundary);
      }
      assembled := end;
    }
    assert leases[..|leases|] == leases;
    return if assembled != expected then Err(WrongSize) else Ok(());
  }

  lemma OneLease(lease: Lease, count: nat)
    requires if count == 0 then lease == Empty else lease.Lease? && lease.count == count
    ensures RowsOf(if lease.Lease? then [lease] else []) == count
  {
    assert [lease][..0] == [];
  }

  ghost predicate NeverTornIn(reader: Reader, ids: seq<int>)
    requires ValidLayout(reader.l)
    reads reader
  {
    Untorn(reader.l, reader.c, ids, |ids|) && Untorn(reader.l, reader.c, ids, ChunkRows(reader.l, reader.c, reader.outputBytes))
  }

  /** In one piece, or else in chunks. */
  method ReadLeases(reader: Reader, file: seq<Byte>, ids: seq<int>) returns (r: Result<seq<Lease>, ReadError>)
    requires reader.Valid()
    modifies reader, reader.slots, reader.Buffers()
    ensures reader.Valid() && reader.active == old(reader.active) && |reader.free| == |old(reader.free)|
    ensures reader.closed == old(reader.closed) && reader.outputBytes == old(reader.outputBytes)
    ensures reader.SharedOutput() == old(reader.SharedOutput())
    ensures ErrorOf(r) == AssembleError(reader.l, reader.c, |file|, ids, reader.outputBytes, old(reader.free) != [], reader.closed)
    ensures r.Ok? ==> RowsOf(r.value) == |ids| && forall k :: 0 <= k < |r.value| ==> r.value[k].Lease?
    ensures r.Ok? && NeverTornIn(reader, ids) ==> InPlace(reader.Shared(), file, reader.l, ids)
  {
    var whole := ReadWhole(reader, file, ids);
    match whole {
      case Ok(lease) => {
        OneLease(lease, |ids|);
        r := Ok(if lease.Lease? then [lease] else []);
      }
      case Err(e) => {
        if e != ChunkedReadRequired {
          return Err(e);
        }
        r := ReadInChunks(reader, file, ids);
      }
    }
  }

  /** `_produce_in_process`, up to the flag: neither size check can fail, so the read ends as the
      reader decides, and the rows then lie in request order at the start of the shared output. */
  method ProduceInProcess(reader: Reader, file: seq<Byte>, ids: seq<int>, expected: nat) returns (r: Result<(), Failure>)
    requires reader.Valid() && expected == |ids| * reader.l.g.rowBytes
    modifies reader, reader.slots, reader.Buffers()
    ensures reader.Valid() && reader.active == old(reader.active) && |reader.free| == |old(reader.free)|
    ensures reader.SharedOutput() == old(reader.SharedOutput())
    ensures r == match AssembleError(reader.l, reader.c, |file|, ids, reader.outputBytes, old(reader.free) != [], reader.closed)
                 case Some(e) => Err(ReadFailed(e))
                 case None => Ok(())
    ensures r.Ok? && NeverTornIn(reader, ids) ==> InPlace(reader.Shared(), file, reader.l, ids)
  {
    var leases := ReadLeases(reader, file, ids);
    match leases {
      case Err(e) => r := Err(ReadFailed(e));
      case Ok(all) => r := Account(all, reader.l.g.rowBytes, expected);
    }
  }
}
