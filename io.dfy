/** The byte-stream vocabulary the engine is written against: bytes, the
    fixed size of one read, the I/O errors it distinguishes, and a scripted
    stream that stands in for a real reader/writer. */
module Io {

  datatype Option<T> = None | Some(value: T)

  /** One byte, as Rust's `u8`. */
  type u8 = b: int | 0 <= b < 256

  /** Size of the temporary buffer handed to one `read` call. */
  const TEMP_BUFFER_SIZE: nat := 1024

  /** What one `read` into a `TEMP_BUFFER_SIZE` buffer can deliver: never
      more bytes than the buffer holds. The empty chunk is end of stream. */
  type Chunk = s: seq<u8> | |s| <= TEMP_BUFFER_SIZE

  /** The `io::ErrorKind`s the engine produces or passes on. */
  datatype ErrorKind = InvalidData | Other | Transport

  datatype IoError = IoError(kind: ErrorKind, reason: string)

  /** The result of one `read` call on the underlying stream. */
  datatype ReadResult = Read(bytes: Chunk) | ReadFailed(err: IoError)

  /** `io::Result<()>` as returned by a write. */
  datatype Status = Success | Failure(err: IoError)

  /** A scripted stream: the results its future `read` calls give, in order,
      and every byte written to it so far. Once the script is used up the
      stream reads as closed. */
  datatype Stream = Stream(pending: seq<ReadResult>, written: seq<u8>) {

    /** The result of the next `read` call. */
    function NextRead(): ReadResult {
      if pending == [] then Read([]) else pending[0]
    }

    /** The stream after that `read` call: the script loses exactly the
        result just read from its front, and nothing is written. */
    function AfterRead(): (s: Stream)
      ensures s.written == written
      ensures pending == (if pending == [] then [] else [NextRead()]) + s.pending
    {
      if pending == [] then this else this.(pending := pending[1..])
    }
  }

  /** Dropping the first read of `a + b` drops the first read of `a`. */
  lemma DropFirstOfAppend<T>(a: seq<T>, b: seq<T>)
    requires a != []
    ensures (a + b)[0] == a[0] && (a + b)[1..] == a[1..] + b
  {
  }

  /** All bytes delivered by the successful reads of a script, in order. */
  function Chunks(script: seq<ReadResult>): seq<u8> {
    if script == [] then []
    else (if script[0].Read? then script[0].bytes else []) + Chunks(script[1..])
  }

  lemma {:induction false} ChunksAppend(a: seq<ReadResult>, b: seq<ReadResult>)
    ensures Chunks(a + b) == Chunks(a) + Chunks(b)
  {
    if a == [] {
      assert a + b == b;
    } else {
      assert (a + b)[1..] == a[1..] + b;
      ChunksAppend(a[1..], b);
    }
  }
}
