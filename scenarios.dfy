/** The crate's own test scenarios, replayed against the model. A pipe is
    modelled by handing the bytes one engine wrote to another engine as
    the result of a single read; a dropped writer is the end of the
    script. */
module Scenarios {
  import opened Io
  import opened Encoder
  import opened Framing
  import opened Uint16Codec
  import Sync
  import Async

  /** `b"hello world!"` */
  const HelloWorld: seq<u8> := [104, 101, 108, 108, 111, 32, 119, 111, 114, 108, 100, 33]

  /** `b"hello async world!"` */
  const HelloAsyncWorld: seq<u8> :=
    [104, 101, 108, 108, 111, 32, 97, 115, 121, 110, 99, 32, 119, 111, 114, 108, 100, 33]

  /** `b"\x00\x10hello"`: declares a 16-byte payload but carries 5. */
  const Truncated: seq<u8> := [0x00, 0x10, 104, 101, 108, 108, 111]

  /** A payload longer than `u16::MAX`. */
  function Oversized(): (s: seq<u8>)
    ensures |s| == 70000 && |s| > U16_MAX
  {
    seq(70000, _ => 0)
  }

  /** The reader's view of the truncated test: one read of
      `00 10 h e l l o`, then the closed stream. The decoder waits for 16
      payload bytes, so the call ends with end of stream and keeps the
      seven bytes. */
  lemma TruncatedThenClosed()
    ensures ReadLoop(Uint16Decode, [], [Read(Truncated)]) == ReadState(EndOfStream, Truncated, [])
  {
    var chunk: Chunk := Truncated;
    assert !HasFrame(Truncated);
    assert [] + chunk == Truncated;
    assert [Read(chunk)][1..] == [];
  }

  /** A payload that fits in one read is written by a `MessageIo` writer
      as its length in two big-endian bytes followed by the payload, and a
      `MessageIo` reader handed those bytes in one read delivers the payload
      and keeps nothing. */
  method SyncRoundTrip(payload: seq<u8>) returns (wire: seq<u8>, received: ReadOutcome<seq<u8>>, left: seq<u8>)
    requires 2 + |payload| <= TEMP_BUFFER_SIZE
    ensures wire == ToBeBytes(|payload|) + payload
    ensures received == Message(payload) && left == []
  {
    Uint16DecodeConsumes();
    var writer := new Sync.MessageIo<seq<u8>>.NewWriter(Stream([], []), Uint16Encode);
    var status := writer.WriteMessage(payload);
    wire := writer.stream.written;
    var chunk: Chunk := wire;
    var reader := new Sync.MessageIo<seq<u8>>.NewReader(Stream([Read(chunk)], []), Uint16Decode);
    FrameInFirstRead(payload, [], [Read(chunk)]);
    ChunksAfterFirst([], [Read(chunk)], 1);
    assert [Read(chunk)][1..][..0] == [];
    received := reader.ReadMessage();
    left := reader.buffer;
  }

  /** A payload too long for a `u16` length is refused with an `Other`
      error and adds nothing to the wire. */
  method SyncOversized(before: seq<u8>) returns (status: Status, wire: seq<u8>)
    ensures status.Failure? && status.err.kind == Other
    ensures wire == before
  {
    var writer := new Sync.MessageIo<seq<u8>>.NewWriter(Stream([], before), Uint16Encode);
    status := writer.WriteMessage(Oversized());
    wire := writer.stream.written;
  }

  /** The raw encoder writes `00 10 h e l l o` verbatim; once the writer
      is dropped a reader sees end of stream, not an error, with the seven
      bytes still buffered. */
  method SyncTruncated() returns (wire: seq<u8>, outcome: ReadOutcome<seq<u8>>, left: seq<u8>)
    ensures wire == Truncated
    ensures outcome == EndOfStream && left == Truncated
  {
    Uint16DecodeConsumes();
    var writer := new Sync.MessageIo<seq<u8>>.NewWriter(Stream([], []), RawEncode);
    var status := writer.WriteMessage(Truncated);
    wire := writer.stream.written;
    var chunk: Chunk := wire;
    var reader := new Sync.MessageIo<seq<u8>>.NewReader(Stream([Read(chunk)], []), Uint16Decode);
    TruncatedThenClosed();
    outcome := reader.ReadMessage();
    left := reader.buffer;
  }

  /** The crate's sync test: "hello world!" goes over the wire as
      `00 0C` followed by its bytes and comes back intact; a
      70000-byte payload is refused with nothing written; a truncated
      frame followed by the writer closing reads as end of stream. */
  method TestSyncMessageIo() returns (wire: seq<u8>, received: ReadOutcome<seq<u8>>,
                                      oversized: Status, truncated: ReadOutcome<seq<u8>>)
    ensures wire == [0x00, 0x0C] + HelloWorld
    ensures received == Message(HelloWorld)
    ensures oversized.Failure? && oversized.err.kind == Other
    ensures truncated == EndOfStream
  {
    var left;
    wire, received, left := SyncRoundTrip(HelloWorld);
    var after;
    oversized, after := SyncOversized(wire);
    var rawWire;
    rawWire, truncated, left := SyncTruncated();
  }

  /** A payload that fits in one read is written by a `AsyncMessageIo` writer
      as its length in two big-endian bytes followed by the payload, and a
      `AsyncMessageIo` reader handed those bytes in one read delivers the payload
      and keeps nothing. */
  method AsyncRoundTrip(payload: seq<u8>) returns (wire: seq<u8>, received: ReadOutcome<seq<u8>>, left: seq<u8>)
    requires 2 + |payload| <= TEMP_BUFFER_SIZE
    ensures wire == ToBeBytes(|payload|) + payload
    ensures received == Message(payload) && left == []
  {
    Uint16DecodeConsumes();
    var writer := new Async.AsyncMessageIo<seq<u8>>.NewWriter(Stream([], []), Uint16Encode);
    var status := writer.WriteMessage(payload);
    wire := writer.stream.written;
    var chunk: Chunk := wire;
    var reader := new Async.AsyncMessageIo<seq<u8>>.NewReader(Stream([Read(chunk)], []), Uint16Decode);
    FrameInFirstRead(payload, [], [Read(chunk)]);
    ChunksAfterFirst([], [Read(chunk)], 1);
    assert [Read(chunk)][1..][..0] == [];
    received := reader.ReadMessage();
    left := reader.buffer;
  }

  /** A payload too long for a `u16` length is refused with an `InvalidData`
      error and adds nothing to the wire. */
  method AsyncOversized(before: seq<u8>) returns (status: Status, wire: seq<u8>)
    ensures status.Failure? && status.err.kind == InvalidData
    ensures wire == before
  {
    var writer := new Async.AsyncMessageIo<seq<u8>>.NewWriter(Stream([], before), Uint16Encode);
    status := writer.WriteMessage(Oversized());
    wire := writer.stream.written;
  }

  /** The raw encoder writes `00 10 h e l l o` verbatim; once the writer
      is dropped a reader sees end of stream, not an error, with the seven
      bytes still buffered. */
  method AsyncTruncated() returns (wire: seq<u8>, outcome: ReadOutcome<seq<u8>>, left: seq<u8>)
    ensures wire == Truncated
    ensures outcome == EndOfStream && left == Truncated
  {
    Uint16DecodeConsumes();
    var writer := new Async.AsyncMessageIo<seq<u8>>.NewWriter(Stream([], []), RawEncode);
    var status := writer.WriteMessage(Truncated);
    wire := writer.stream.written;
    var chunk: Chunk := wire;
    var reader := new Async.AsyncMessageIo<seq<u8>>.NewReader(Stream([Read(chunk)], []), Uint16Decode);
    TruncatedThenClosed();
    outcome := reader.ReadMessage();
    left := reader.buffer;
  }

  /** The crate's async test: "hello async world!" goes over the wire as
      `00 12` followed by its bytes and comes back intact; a
      70000-byte payload is refused with nothing written; a truncated
      frame followed by the writer closing reads as end of stream. */
  method TestAsyncMessageIo() returns (wire: seq<u8>, received: ReadOutcome<seq<u8>>,
                                      oversized: Status, truncated: ReadOutcome<seq<u8>>)
    ensures wire == [0x00, 0x12] + HelloAsyncWorld
    ensures received == Message(HelloAsyncWorld)
    ensures oversized.Failure? && oversized.err.kind == InvalidData
    ensures truncated == EndOfStream
  {
    var left;
    wire, received, left := AsyncRoundTrip(HelloAsyncWorld);
    var after;
    oversized, after := AsyncOversized(wire);
    var rawWire;
    rawWire, truncated, left := AsyncTruncated();
  }

  /** Writing the unit value through the unit encoder succeeds and puts
      no bytes on the wire, whatever was written before. */
  method WriteThroughUnitEncoder(before: seq<u8>) returns (status: Status, wire: seq<u8>)
    ensures status == Success && wire == before
  {
    var writer := new Sync.MessageIo<()>.NewWriter(Stream([], before), UnitEncode);
    status := writer.WriteMessage(());
    wire := writer.stream.written;
  }
}
