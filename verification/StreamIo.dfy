/**
 Streams as the code meets them: every read and write is answered by the next step of a script.
 */
module StreamIo {
  import opened Bytes

  /** Of the kinds of error only the unexpected end is told apart from the others. */
  datatype ErrorKind = UnexpectedEof | OtherError

  /** What a read finds: nothing yet, a failure, or some bytes (none at the end of the stream). */
  datatype ReadStep = Stall | Break(kind: ErrorKind) | Chunk(bytes: seq<Byte>)

  datatype ReadResult = ReadPending | ReadFailed(kind: ErrorKind) | Got(bytes: seq<Byte>)

  /** One read into `space` bytes.  A chunk that does not fit is delivered in part and kept in part. */
  function ReadOnce(script: seq<ReadStep>, space: nat): (ReadResult, seq<ReadStep>) {
    if script == [] then (ReadPending, [])
    else
      match script[0]
      case Stall => (ReadPending, script[1..])
      case Break(kind) => (ReadFailed(kind), script[1..])
      case Chunk(bytes) =>
        if |bytes| <= space then
          (Got(bytes), script[1..])
        else
          (Got(bytes[..space]), [Chunk(bytes[space..])] + script[1..])
  }

  /** Some steps of the script were used up, the last of which was `step`. */
  predicate StoppedAt<T(==)>(script: seq<T>, left: seq<T>, step: T) {
    |left| < |script| && script[|script| - |left| - 1] == step
  }

  /** The first `n` steps deliver bytes. */
  predicate OnlyData(script: seq<ReadStep>, n: nat) {
    n <= |script| && forall i :: 0 <= i < n ==> script[i].Chunk? && script[i].bytes != []
  }

  /** Bytes were read up to a step, the last one used up. */
  predicate ReadUpTo(script: seq<ReadStep>, left: seq<ReadStep>, step: ReadStep) {
    StoppedAt(script, left, step) && OnlyData(script, |script| - |left| - 1)
  }

  /** All there was are bytes, and all of them were read. */
  predicate ReadAll(script: seq<ReadStep>, left: seq<ReadStep>) {
    left == [] && OnlyData(script, |script|)
  }

  /** All steps used up so far, if not all of the last of them, delivered bytes. */
  predicate ReadSome(script: seq<ReadStep>, left: seq<ReadStep>) {
    |left| <= |script| && OnlyData(script, |script| - |left|)
  }

  /** All bytes a script delivers. */
  function BytesOf(script: seq<ReadStep>): seq<Byte> {
    if script == [] then []
    else (if script[0].Chunk? then script[0].bytes else []) + BytesOf(script[1..])
  }

  function Weight(script: seq<ReadStep>): nat {
    if script == [] then 0
    else (if script[0].Chunk? then |script[0].bytes| else 0) + 1 + Weight(script[1..])
  }

  /** What a read delivers is taken off the front of the script. */
  lemma {:induction false} ReadConserves(script: seq<ReadStep>, space: nat)
    ensures var (result, left) := ReadOnce(script, space);
            && BytesOf(script) == (if result.Got? then result.bytes else []) + BytesOf(left)
            && (result.Got? ==> |result.bytes| <= space && Weight(left) + |result.bytes| <= Weight(script))
            && (result.Got? && |result.bytes| < space ==> Weight(left) + |result.bytes| < Weight(script))
            && Weight(left) <= Weight(script)
  {
    if script != [] && script[0].Chunk? && space < |script[0].bytes| {
      var bytes := script[0].bytes;
      assert bytes == bytes[..space] + bytes[space..];
      assert ([Chunk(bytes[space..])] + script[1..])[1..] == script[1..];
    }
  }

  /** Steps used up after a read that got bytes are used up of the whole script. */
  lemma ReadLater(script: seq<ReadStep>, space: nat, left: seq<ReadStep>, step: ReadStep)
    requires var result := ReadOnce(script, space).0; result.Got? && result.bytes != []
    requires |left| <= |ReadOnce(script, space).1|
    requires step.Chunk? ==> step.bytes == []
    ensures |left| <= |script|
    ensures ReadUpTo(ReadOnce(script, space).1, left, step) ==> ReadUpTo(script, left, step)
    ensures ReadAll(ReadOnce(script, space).1, left) ==> ReadAll(script, left)
    ensures ReadSome(ReadOnce(script, space).1, left) ==> ReadSome(script, left)
  {
    var next := ReadOnce(script, space).1;
    var dropped := |script| - |next|;
    assert dropped <= 1 && forall i :: 1 <= i < |next| ==> next[i] == script[dropped + i];
    forall n: nat | OnlyData(next, n)
      ensures OnlyData(script, dropped + n)
    {
      forall i | 0 <= i < dropped + n
        ensures script[i].Chunk? && script[i].bytes != []
      {
        if i > 0 {
          assert next[i - dropped].Chunk? && next[i - dropped].bytes != [];
        }
      }
    }
  }

  /** What a write meets: the stream is full, fails, or accepts up to so many bytes. */
  datatype WriteStep = Block | Reject(kind: ErrorKind) | Accept(count: nat)

  datatype WriteResult = WritePending | WriteFailed(kind: ErrorKind) | Wrote(count: nat)

  function WriteOnce(script: seq<WriteStep>, size: nat): (WriteResult, seq<WriteStep>) {
    if script == [] then (WritePending, [])
    else
      match script[0]
      case Block => (WritePending, script[1..])
      case Reject(kind) => (WriteFailed(kind), script[1..])
      case Accept(count) => (Wrote(if count < size then count else size), script[1..])
  }

  /** An open stream: what it will deliver, what it will accept, and what was written to it. */
  class Io {
    var incoming: seq<ReadStep>
    var outgoing: seq<WriteStep>
    var written: seq<Byte>

    constructor (incoming: seq<ReadStep>, outgoing: seq<WriteStep>)
      ensures this.incoming == incoming && this.outgoing == outgoing && written == []
    {
      this.incoming, this.outgoing, written := incoming, outgoing, [];
    }

    method PollRead(space: nat) returns (result: ReadResult)
      modifies this`incoming
      ensures (result, incoming) == ReadOnce(old(incoming), space)
    {
      var (r, left) := ReadOnce(incoming, space);
      result, incoming := r, left;
    }

    method PollWrite(bytes: seq<Byte>) returns (result: WriteResult)
      modifies this`outgoing, this`written
      ensures (result, outgoing) == WriteOnce(old(outgoing), |bytes|)
      ensures result.Wrote? ==> result.count <= |bytes|
      ensures written == old(written) + (if result.Wrote? then bytes[..result.count] else [])
    {
      var (r, left) := WriteOnce(outgoing, |bytes|);
      result, outgoing := r, left;
      if result.Wrote? {
        written := written + bytes[..result.count];
      }
    }
  }
}
