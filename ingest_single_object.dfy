/**
 * IngestSingleObject: copy a file into memory through `pipeStream` with a
 * 4096-byte buffer, ingest the bytes into Fedora, and push the pid the
 * repository assigned.
 */
module IngestSingleObject {
  import opened Wrappers
  import opened Meandre
  import opened Streams

  /** The buffer size `execute` passes to `pipeStream`. */
  const BufferSize: nat := 4096

  /** The output port of the assigned pid. */
  const PidPort: string := "pid"

  /** The writes `pipeStream` makes, and whether a `read` threw. */
  datatype Piped = Piped(chunks: seq<seq<byte>>, failed: bool)

  /**
   * The copy loop over a stream: read into a buffer of `bsize` bytes and write
   * what was read, until a read returns 0 or -1 or throws.
   */
  function Pipe(pending: seq<Arrival>, bsize: nat): (p: Piped)
    ensures p.failed ==> Faults(pending)
    decreases Size(pending)
  {
    match Reply(pending, bsize)
    case Fault => Piped([], true)
    case End => Piped([], false)
    case Got(d) =>
      if |d| == 0 then Piped([], false)
      else
        ReadConsumes(pending, bsize);
        var p := Pipe(Rest(pending, bsize), bsize);
        Piped([d] + p.chunks, p.failed)
  }

  /** One turn of the copy loop: a read that throws or returns nothing ends it, any other read is written first. */
  lemma PipeStep(pending: seq<Arrival>, bsize: nat)
    ensures Reply(pending, bsize).Fault? ==> Pipe(pending, bsize) == Piped([], true)
    ensures Reply(pending, bsize).End? || Reply(pending, bsize) == Got([]) ==> Pipe(pending, bsize) == Piped([], false)
    ensures Reply(pending, bsize).Got? && |Reply(pending, bsize).data| > 0 ==>
      var p := Pipe(Rest(pending, bsize), bsize);
      Pipe(pending, bsize) == Piped([Reply(pending, bsize).data] + p.chunks, p.failed)
  {
  }

  /** Every write carries between one and `bsize` bytes. */
  lemma {:induction false} PipeChunkBounds(pending: seq<Arrival>, bsize: nat)
    ensures forall i :: 0 <= i < |Pipe(pending, bsize).chunks| ==> 1 <= |Pipe(pending, bsize).chunks[i]| <= bsize
    decreases Size(pending)
  {
    var r := Reply(pending, bsize);
    if r.Got? && |r.data| > 0 {
      ReadConsumes(pending, bsize);
      PipeChunkBounds(Rest(pending, bsize), bsize);
    }
  }

  /** A zero-length buffer copies nothing: the first read returns 0 and ends the loop. */
  lemma PipeWithEmptyBuffer(pending: seq<Arrival>)
    ensures Pipe(pending, 0) == Piped([], false)
  {
  }

  /** What is written is always a front part of the stream's content. */
  lemma {:induction false} PipePrefix(pending: seq<Arrival>, bsize: nat)
    ensures Concat(Pipe(pending, bsize).chunks) <= Content(pending)
    decreases Size(pending)
  {
    var r := Reply(pending, bsize);
    if r.Got? && |r.data| > 0 {
      ReadConsumes(pending, bsize);
      PipePrefix(Rest(pending, bsize), bsize);
      var p := Pipe(Rest(pending, bsize), bsize);
      assert ([r.data] + p.chunks)[1..] == p.chunks;
    }
  }

  /**
   * With a non-empty buffer and a stream whose pieces are not empty, the whole
   * content up to the first fault is copied, and the copy fails exactly when
   * the stream holds a fault.
   */
  lemma {:induction false} PipeCopiesContent(pending: seq<Arrival>, bsize: nat)
    requires bsize > 0 && Progressing(pending)
    ensures Concat(Pipe(pending, bsize).chunks) == Content(pending)
    ensures Pipe(pending, bsize).failed <==> Faults(pending)
    decreases Size(pending)
  {
    var r := Reply(pending, bsize);
    if r.Got? {
      assert |r.data| > 0;
      ReadConsumes(pending, bsize);
      PipeCopiesContent(Rest(pending, bsize), bsize);
      var p := Pipe(Rest(pending, bsize), bsize);
      assert ([r.data] + p.chunks)[1..] == p.chunks;
    } else if r.Fault? {
      assert Faults(pending);
    }
  }

  /**
   * `pipeStream`: copy the input to the output, then close the input and,
   * only if that succeeded, the output. A failure to close is swallowed; a
   * negative buffer size or a failed read is thrown after the closing.
   */
  method PipeStream(instr: InputStream, outstr: OutputStream, bsize: int) returns (thrown: Option<Cause>)
    requires !instr.closed
    modifies instr, outstr
    ensures bsize < 0 ==> thrown == Some(NegativeArraySize) && outstr.writes == old(outstr.writes)
    ensures bsize >= 0 ==>
      var p := Pipe(old(instr.pending), bsize);
      && outstr.writes == old(outstr.writes) + p.chunks
      && thrown == (if p.failed then Some(StreamFault) else None)
    ensures instr.closed == !instr.closeFails
    ensures outstr.closed == (old(outstr.closed) || !instr.closeFails)
  {
    thrown := None;
    if bsize < 0 {
      thrown := Some(NegativeArraySize);
    } else {
      var buffer := new byte[bsize];
      ghost var copied: seq<seq<byte>> := [];
      while true
        invariant !instr.closed
        invariant outstr.writes == old(outstr.writes) + copied && outstr.closed == old(outstr.closed)
        invariant Pipe(old(instr.pending), bsize)
               == Piped(copied + Pipe(instr.pending, bsize).chunks, Pipe(instr.pending, bsize).failed)
        invariant thrown == None
        decreases Size(instr.pending)
      {
        ghost var before := instr.pending;
        PipeStep(before, bsize);
        var lengthread, fault := instr.Read(buffer);
        if fault {
          thrown := Some(StreamFault);
          break;
        }
        if lengthread <= 0 {
          break;
        }
        ghost var d := buffer[..lengthread];
        ghost var after := instr.pending;
        assert Reply(before, bsize) == Got(d) && after == Rest(before, bsize);
        ReadConsumes(before, bsize);
        outstr.Write(buffer, lengthread);
        assert Pipe(before, bsize) == Piped([d] + Pipe(after, bsize).chunks, Pipe(after, bsize).failed);
        assert copied + Pipe(before, bsize).chunks == (copied + [d]) + Pipe(after, bsize).chunks;
        copied := copied + [d];
      }
    }
    // the `finally` block
    var closeFault := instr.Close();
    if !closeFault {
      outstr.Close();
    }
  }

  /** The arguments of one `ingest` call. */
  datatype IngestRequest = IngestRequest(content: seq<byte>, format: string, logMessage: string)

  /** `ingest`: the assigned pid, or None when the call throws. */
  type Ingester = IngestRequest -> Option<string>

  /**
   * Both copies of `execute`. `file` is what opening the named file yields:
   * the stream's contents and whether closing it throws, or None when
   * `new FileInputStream` throws.
   */
  method Execute(format: string, fileName: string, file: Option<(seq<Arrival>, bool)>, ingest: Ingester)
    returns (ingested: Option<IngestRequest>, pushes: seq<Push>, thrown: Option<Thrown>)
    ensures file.None? ==> ingested == None && pushes == [] && thrown == Some(ComponentExecution(MissingFile))
    ensures file.Some? ==>
      var p := Pipe(file.value.0, BufferSize);
      if p.failed then ingested == None && pushes == [] && thrown == Some(ComponentExecution(StreamFault))
      else
        var request := IngestRequest(Concat(p.chunks), format, "Ingesting file " + fileName);
        && ingested == Some(request)
        && match ingest(request)
           case None => pushes == [] && thrown == Some(ComponentExecution(RemoteFault))
           case Some(pid) => pushes == [Push(PidPort, Text(pid))] && thrown == None
  {
    ingested, pushes, thrown := None, [], None;
    if file.None? {
      thrown := Some(ComponentExecution(MissingFile));
      return;
    }
    var ingestStream := new InputStream(file.value.0, file.value.1);
    var logMessage := "Ingesting file " + fileName;
    var outstr := new OutputStream();
    var fault := PipeStream(ingestStream, outstr, BufferSize);
    if fault.Some? {
      thrown := Some(ComponentExecution(fault.value));
      return;
    }
    assert outstr.writes == Pipe(file.value.0, BufferSize).chunks;
    var request := IngestRequest(outstr.ToByteArray(), format, logMessage);
    ingested := Some(request);
    var pid := ingest(request);
    if pid.None? {
      thrown := Some(ComponentExecution(RemoteFault));
      return;
    }
    pushes := [Push(PidPort, Text(pid.value))];
  }

  /** A file of non-empty pieces without a fault is ingested whole. */
  lemma IngestsWholeFile(contents: seq<Arrival>)
    requires Progressing(contents) && !Faults(contents)
    ensures !Pipe(contents, BufferSize).failed && Concat(Pipe(contents, BufferSize).chunks) == Content(contents)
  {
    PipeCopiesContent(contents, BufferSize);
  }
}
