/** What one `read_message` call does, as a function of the decoder, the
    buffer and the stream's remaining reads. Both engines (blocking and
    cooperative) run this same loop; their methods are proved equal to it. */
module Framing {
  import opened Io
  import opened Decoder
  import opened Encoder

  /** A value that is both an encoder and a decoder for `M`, as handed to
      `new_rw`. */
  datatype Codec<!M> = Codec(encode: Encode<M>, decode: Decode<M>)

  /** `io::Result<Option<M>>`: a message, end of stream, or an error. */
  datatype ReadOutcome<M> = Message(msg: M) | EndOfStream | Failed(err: IoError)

  /** The outcome of a `read_message` call together with the engine's
      buffer and the stream's remaining reads afterwards. */
  datatype ReadState<M> = ReadState(outcome: ReadOutcome<M>, buffer: seq<u8>, pending: seq<ReadResult>)

  /** The read loop. Each round first reads one chunk: a failed read is
      passed on, an empty one is end of stream; otherwise the chunk is
      appended and the decoder runs on the whole buffer. `Continue` goes
      round again, `Done(msg, used)` retires `used` bytes and delivers
      `msg`, `Error` becomes an `InvalidData` error with nothing retired. */
  function ReadLoop<M>(decode: Decode<M>, buffer: seq<u8>, script: seq<ReadResult>): (r: ReadState<M>)
    requires Consumes(decode)
    ensures |r.pending| < |script| || (script == [] && r.pending == [] && r.outcome == EndOfStream && r.buffer == buffer)
    decreases |script|
  {
    if script == [] then ReadState(EndOfStream, buffer, [])
    else match script[0]
      case ReadFailed(e) => ReadState(Failed(e), buffer, script[1..])
      case Read(chunk) =>
        if |chunk| == 0 then ReadState(EndOfStream, buffer, script[1..])
        else
          var appended := buffer + chunk;
          match decode(appended)
          case Continue => ReadLoop(decode, appended, script[1..])
          case Done(msg, used) => ReadState(Message(msg), appended[used..], script[1..])
          case Error(reason) => ReadState(Failed(IoError(InvalidData, reason)), appended, script[1..])
  }

  /** Exact-consumption accounting for a call that ended in state `r`
      after being fed the bytes `fed`: a delivered message is the
      decoder's `Done` on `fed` and the buffer left behind is `fed` minus
      exactly the `used` bytes retired; otherwise nothing was retired. */
  ghost predicate Accounts<M>(decode: Decode<M>, fed: seq<u8>, r: ReadState<M>) {
    && (r.outcome.Message? ==>
          && |r.buffer| <= |fed|
          && decode(fed) == Done(r.outcome.msg, |fed| - |r.buffer|)
          && r.buffer == fed[|fed| - |r.buffer|..])
    && (!r.outcome.Message? ==> r.buffer == fed)
  }

  /** The bytes a call was fed: the buffer it started with followed by
      every byte it read from the stream. */
  function Fed<M>(buffer: seq<u8>, script: seq<ReadResult>, r: ReadState<M>): seq<u8>
    requires |r.pending| <= |script|
  {
    buffer + Chunks(script[..|script| - |r.pending|])
  }

  /** After any `read_message` call the remaining buffer is the old
      buffer plus the bytes newly read, minus exactly the bytes the
      delivered message used. */
  lemma {:induction false} ReadLoopAccounting<M>(decode: Decode<M>, buffer: seq<u8>, script: seq<ReadResult>)
    requires Consumes(decode)
    ensures Accounts(decode, Fed(buffer, script, ReadLoop(decode, buffer, script)), ReadLoop(decode, buffer, script))
    decreases |script|
  {
    var r := ReadLoop(decode, buffer, script);
    if script == [] {
      assert script[..0] == [];
    } else if script[0].Read? && |script[0].bytes| > 0 && decode(buffer + script[0].bytes).Continue? {
      var appended := buffer + script[0].bytes;
      ContinueRound(decode, buffer, script);
      ReadLoopAccounting(decode, appended, script[1..]);
    } else {
      FinalRoundAccounting(decode, buffer, script);
    }
  }

  /** A round that reads a non-empty chunk and gets `Continue` hands the
      appended buffer to the next round; the bytes fed to the whole call
      are the same either way. */
  lemma ContinueRound<M>(decode: Decode<M>, buffer: seq<u8>, script: seq<ReadResult>)
    requires Consumes(decode)
    requires script != [] && script[0].Read? && |script[0].bytes| > 0
    requires decode(buffer + script[0].bytes).Continue?
    ensures var r := ReadLoop(decode, buffer, script);
            && r == ReadLoop(decode, buffer + script[0].bytes, script[1..])
            && Fed(buffer, script, r) == Fed(buffer + script[0].bytes, script[1..], r)
  {
    var r := ReadLoop(decode, buffer, script);
    assert r == ReadLoop(decode, buffer + script[0].bytes, script[1..]);
    ChunksAfterFirst(buffer, script, |script| - |r.pending|);
  }

  /** A round that reads a non-empty chunk and gets `Done(msg, used)`
      ends the call: `msg` is delivered, the buffer keeps what follows the
      first `used` bytes, and the call was fed the buffer and that chunk. */
  lemma DoneRound<M>(decode: Decode<M>, buffer: seq<u8>, script: seq<ReadResult>)
    requires Consumes(decode)
    requires script != [] && script[0].Read? && |script[0].bytes| > 0
    requires decode(buffer + script[0].bytes).Done?
    ensures var r := ReadLoop(decode, buffer, script);
            var d := decode(buffer + script[0].bytes);
            && r == ReadState(Message(d.msg), (buffer + script[0].bytes)[d.used..], script[1..])
            && Fed(buffer, script, r) == buffer + script[0].bytes
  {
    var r := ReadLoop(decode, buffer, script);
    assert |r.pending| == |script| - 1;
    ChunksAfterFirst(buffer, script, 1);
    assert script[1..][..0] == [];
  }

  /** Reading the first `n` results of a script that starts with a
      successful read is that read followed by the next `n - 1`. */
  lemma ChunksAfterFirst(buffer: seq<u8>, script: seq<ReadResult>, n: nat)
    requires 1 <= n <= |script| && script[0].Read?
    ensures buffer + Chunks(script[..n]) == (buffer + script[0].bytes) + Chunks(script[1..][..n - 1])
  {
    assert script[..n] == [script[0]] + script[1..][..n - 1];
    ChunksAppend([script[0]], script[1..][..n - 1]);
    assert Chunks([script[0]]) == script[0].bytes;
  }

  /** Accounting for a call that ends in the round it starts with. */
  lemma FinalRoundAccounting<M>(decode: Decode<M>, buffer: seq<u8>, script: seq<ReadResult>)
    requires Consumes(decode)
    requires script != []
    requires !(script[0].Read? && |script[0].bytes| > 0 && decode(buffer + script[0].bytes).Continue?)
    ensures Accounts(decode, Fed(buffer, script, ReadLoop(decode, buffer, script)), ReadLoop(decode, buffer, script))
  {
    var r := ReadLoop(decode, buffer, script);
    assert |r.pending| == |script| - 1;
    assert script[..1] == [script[0]];
    var fed := buffer + (if script[0].Read? then script[0].bytes else []);
    assert Chunks(script[..1]) == (if script[0].Read? then script[0].bytes else []);
    assert Fed(buffer, script, r) == fed;
    if script[0].Read? && |script[0].bytes| > 0 {
      match decode(fed)
      case Done(msg, used) =>
        assert r.buffer == fed[used..];
      case Error(reason) =>
        assert r.buffer == fed;
    }
  }

  /** A call takes the results it used from the front of the script, in
      order, and leaves the rest for the next call. */
  lemma {:induction false} ReadLoopTakesPrefix<M>(decode: Decode<M>, buffer: seq<u8>, script: seq<ReadResult>)
    requires Consumes(decode)
    ensures var r := ReadLoop(decode, buffer, script);
            r.pending == script[|script| - |r.pending|..]
    decreases |script|
  {
    if script != [] && script[0].Read? && |script[0].bytes| > 0
       && decode(buffer + script[0].bytes).Continue? {
      ReadLoopTakesPrefix(decode, buffer + script[0].bytes, script[1..]);
    }
  }

  /** The old buffer is kept whole: the bytes left behind by a call that
      did not deliver a message extend the buffer it started with. */
  lemma BufferGrowsUntilDelivery<M>(decode: Decode<M>, buffer: seq<u8>, script: seq<ReadResult>)
    requires Consumes(decode)
    ensures !ReadLoop(decode, buffer, script).outcome.Message? ==> buffer <= ReadLoop(decode, buffer, script).buffer
  {
    ReadLoopAccounting(decode, buffer, script);
  }

  /** A read of zero bytes ends the call with end of stream, whatever the
      buffer holds, and leaves the buffer as it was. */
  lemma EmptyReadIsEndOfStream<M>(decode: Decode<M>, buffer: seq<u8>, script: seq<ReadResult>)
    requires Consumes(decode)
    requires script == [] || script[0] == Read([])
    ensures ReadLoop(decode, buffer, script).outcome == EndOfStream
    ensures ReadLoop(decode, buffer, script).buffer == buffer
  {
  }

  /** A failed read is passed on unchanged, with the buffer untouched. */
  lemma ReadFailurePropagates<M>(decode: Decode<M>, buffer: seq<u8>, script: seq<ReadResult>)
    requires Consumes(decode)
    requires script != [] && script[0].ReadFailed?
    ensures ReadLoop(decode, buffer, script) == ReadState(Failed(script[0].err), buffer, script[1..])
  {
  }

  /** The decoder is consulted only after a fresh non-empty read: a
      complete message already waiting in the buffer is not delivered when
      the stream reports end of stream, and the bytes stay buffered. */
  lemma LeftoverFrameNeedsRead<M>(decode: Decode<M>, buffer: seq<u8>)
    requires Consumes(decode)
    requires decode(buffer).Done?
    ensures ReadLoop(decode, buffer, [Read([])]) == ReadState(EndOfStream, buffer, [])
  {
  }

  /** A decoder error surfaces as `InvalidData` carrying the decoder's
      reason; the chunk just read stays in the buffer and nothing is
      retired. */
  lemma DecodeErrorIsInvalidData<M>(decode: Decode<M>, buffer: seq<u8>, chunk: Chunk, script: seq<ReadResult>)
    requires Consumes(decode)
    requires |chunk| > 0 && decode(buffer + chunk).Error?
    ensures ReadLoop(decode, buffer, [Read(chunk)] + script)
         == ReadState(Failed(IoError(InvalidData, decode(buffer + chunk).reason)), buffer + chunk, script)
  {
    assert ([Read(chunk)] + script)[1..] == script;
  }
}
