/**
 * The two java.io streams `pipeStream` works on: a file input stream whose
 * contents arrive in pieces, and the in-memory ByteArrayOutputStream that
 * collects what is written to it.
 */
module Streams {

  newtype byte = b: int | 0 <= b < 256

  /**
   * What the file yields next: a piece of data that one `read` can return
   * (a whole piece or its front part), or an IOException.
   */
  datatype Arrival = Bytes(data: seq<byte>) | ReadFault

  /** The outcome of `read(buffer)`: the bytes read, the end of the stream (-1), or an IOException. */
  datatype ReadReply = Got(data: seq<byte>) | End | Fault

  /**
   * `read` into a buffer of `cap` bytes: a zero-length buffer reads nothing,
   * an exhausted stream reports its end, and otherwise at most `cap` bytes of
   * the next piece are returned.
   */
  function Reply(pending: seq<Arrival>, cap: nat): (r: ReadReply)
    ensures r.Got? ==> |r.data| <= cap
  {
    if cap == 0 then Got([])
    else if pending == [] then End
    else match pending[0]
      case ReadFault => Fault
      case Bytes(d) => Got(if |d| <= cap then d else d[..cap])
  }

  /** What is still to come after that `read`. */
  function Rest(pending: seq<Arrival>, cap: nat): seq<Arrival>
  {
    if cap == 0 || pending == [] then pending
    else match pending[0]
      case ReadFault => pending
      case Bytes(d) => if |d| <= cap then pending[1..] else [Bytes(d[cap..])] + pending[1..]
  }

  /** A measure of the stream: every piece counts one more than its length. */
  function Size(pending: seq<Arrival>): nat
    decreases |pending|
  {
    if pending == [] then 0
    else (match pending[0] case ReadFault => 1 case Bytes(d) => |d| + 1) + Size(pending[1..])
  }

  /** The bytes the stream delivers before its end or its first fault. */
  function Content(pending: seq<Arrival>): seq<byte>
    decreases |pending|
  {
    if pending == [] then []
    else match pending[0]
      case ReadFault => []
      case Bytes(d) => d + Content(pending[1..])
  }

  /** Whether the stream ends with a fault rather than at its end. */
  predicate Faults(pending: seq<Arrival>)
  {
    exists i :: 0 <= i < |pending| && pending[i].ReadFault?
  }

  /** No piece is empty, so every `read` into a non-empty buffer makes progress (as `read` promises). */
  predicate Progressing(pending: seq<Arrival>)
  {
    forall i :: 0 <= i < |pending| && pending[i].Bytes? ==> |pending[i].data| > 0
  }

  /** A read that returns bytes consumes exactly them: the stream shrinks and its content loses that front. */
  lemma ReadConsumes(pending: seq<Arrival>, cap: nat)
    requires Reply(pending, cap).Got? && |Reply(pending, cap).data| > 0
    ensures Size(Rest(pending, cap)) < Size(pending)
    ensures Content(pending) == Reply(pending, cap).data + Content(Rest(pending, cap))
    ensures Faults(Rest(pending, cap)) == Faults(pending)
    ensures Progressing(pending) ==> Progressing(Rest(pending, cap))
  {
  }

  /** The file input stream: what it has still to deliver, and whether it is closed. */
  class InputStream {
    var pending: seq<Arrival>
    var closed: bool
    /** Whether `close` throws IOException. */
    const closeFails: bool

    constructor (contents: seq<Arrival>, closeFails: bool)
      ensures pending == contents && !closed && this.closeFails == closeFails
    {
      pending := contents;
      closed := false;
      this.closeFails := closeFails;
    }

    /** `read(buffer)`: fills the front of the buffer and returns the count, -1 at the end, or throws. */
    method Read(buffer: array<byte>) returns (n: int, fault: bool)
      requires !closed
      modifies this, buffer
      ensures closed == old(closed)
      ensures match Reply(old(pending), buffer.Length)
        case Fault => fault && pending == old(pending)
        case End => !fault && n == -1 && pending == old(pending)
        case Got(d) =>
          && !fault && n == |d| && buffer[..n] == d
          && pending == Rest(old(pending), buffer.Length)
    {
      var r := Reply(pending, buffer.Length);
      match r
      case Fault =>
        return 0, true;
      case End =>
        return -1, false;
      case Got(d) =>
        forall i | 0 <= i < |d| {
          buffer[i] := d[i];
        }
        pending := Rest(pending, buffer.Length);
        return |d|, false;
    }

    /** `close()`: closes the stream, or throws and leaves it open. */
    method Close() returns (fault: bool)
      modifies this
      ensures fault == closeFails
      ensures closed == (old(closed) || !closeFails) && pending == old(pending)
    {
      fault := closeFails;
      if !fault {
        closed := true;
      }
    }
  }

  /** The ByteArrayOutputStream: the writes made to it, in order, and whether `close` was called. */
  class OutputStream {
    var writes: seq<seq<byte>>
    var closed: bool

    constructor ()
      ensures writes == [] && !closed
    {
      writes := [];
      closed := false;
    }

    /** `write(buffer, 0, n)`: appends the first `n` bytes of the buffer. */
    method Write(buffer: array<byte>, n: nat)
      requires n <= buffer.Length
      modifies this
      ensures writes == old(writes) + [buffer[..n]] && closed == old(closed)
    {
      writes := writes + [buffer[..n]];
    }

    /** `close()` of a ByteArrayOutputStream has no other effect and never throws. */
    method Close()
      modifies this
      ensures closed && writes == old(writes)
    {
      closed := true;
    }

    /** `toByteArray()`: every byte written, in order, so each run of earlier writes is a front part of it. */
    function ToByteArray(): (bytes: seq<byte>)
      reads this
      ensures forall k :: 0 <= k <= |writes| ==> Concat(writes[..k]) <= bytes
    {
      ConcatPrefixes(writes);
      Concat(writes)
    }
  }

  /** The chunks joined in order. */
  function Concat(chunks: seq<seq<byte>>): seq<byte>
    decreases |chunks|
  {
    if chunks == [] then [] else chunks[0] + Concat(chunks[1..])
  }

  /** Joining the first `k` chunks gives a front part of joining them all. */
  lemma {:induction false} ConcatPrefix(chunks: seq<seq<byte>>, k: nat)
    requires k <= |chunks|
    ensures Concat(chunks[..k]) <= Concat(chunks)
    decreases k
  {
    if k > 0 {
      ConcatPrefix(chunks[1..], k - 1);
      assert chunks[..k][1..] == chunks[1..][..k - 1];
    }
  }

  lemma ConcatPrefixes(chunks: seq<seq<byte>>)
    ensures forall k :: 0 <= k <= |chunks| ==> Concat(chunks[..k]) <= Concat(chunks)
  {
    forall k | 0 <= k <= |chunks|
      ensures Concat(chunks[..k]) <= Concat(chunks)
    {
      ConcatPrefix(chunks, k);
    }
  }
}
