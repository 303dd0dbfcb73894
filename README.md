# msg-io: a verified model of message framing over byte streams

msg-io turns a byte stream into a sequence of discrete messages. An
engine (`MessageIo` for blocking `std::io` streams, `AsyncMessageIo` for
`futures` streams) owns a stream, an encoder, a decoder and a growable
frame buffer. `read_message` reads chunks of at most `TEMP_BUFFER_SIZE`
(1024) bytes, appends each to the buffer and asks the decoder whether a
whole message is there. `write_message` encodes one message and writes
all of its bytes. The crate's tests drive the engine with a codec that
prefixes each payload with its length as two big-endian bytes.

This project models that core in Dafny:

- `io.dfy` (module `Io`): bytes, `TEMP_BUFFER_SIZE`, the I/O error kinds, and a
  scripted stream. The stream is the list of results its future `read` calls
  give, plus every byte written to it. A `Chunk` never exceeds 1024 bytes, and
  an exhausted script reads as closed.
- `decoder.dfy` (module `Decoder`): `DecoderResult` (`Continue`, `Done(msg, used)`,
  `Error(reason)`). A decoder is a pure function of the bytes. `Consumes` says a
  decoder never claims more bytes than it was given.
- `encoder.dfy` (module `Encoder`): `EncodeResult` (`Ok(bytes)`, `Err(reason)`)
  and the unit no-op encoder.
- `framing.dfy` (module `Framing`): `ReadLoop`, the read loop as a function of
  the decoder, the buffer and the stream's remaining reads. Beside it are the
  lemmas on exact-consumption accounting.
- `sync.dfy` (module `Sync`) and `async.dfy` (module `Async`): the two engines
  as classes. Each has a `buffer` and a `stream` field that its methods update
  in place. `ReadMessage` is a `while` loop proved equal to `ReadLoop`.
  `WriteMessage` appends the encoded bytes or reports the encoder's failure.
- `codec.dfy` (module `Uint16Codec`): the tests' `RawEncoder`,
  `Uint16FramedEncoder` and `Uint16FramedDecoder`. It proves the round trip,
  the size limit, the "need more data" behaviour and chunking invariance.
  Chunking invariance means however a frame is split across reads, one
  `read_message` delivers it and retires exactly its bytes.
- `scenarios.dfy` (module `Scenarios`): the crate's tests replayed on the
  engines. A pipe is modelled by giving the bytes one engine wrote to another
  engine as a single read. The `async` scenarios run against `AsyncMessageIo`
  directly; the crate's own async test goes through the tokio wrapper.

Two consequences of how the code is written shape the model:

- Each round of `read_message` reads before it decodes
  (src/sync.rs:100-106, src/async.rs:107-113). So a second frame that arrived
  in the same chunk as the first is decoded only after another non-empty read.
  If the stream has closed, the call reports end of stream and the frame stays
  buffered (`Framing.LeftoverFrameNeedsRead`).
- `read_message` exists only on engines whose encoder is the unit placeholder
  `()` (src/sync.rs:62, src/async.rs:67). `write_message` exists only on engines
  whose decoder is `()` (src/sync.rs:122, src/async.rs:129). An engine built by
  `new_rw` has real values in both places, so it can neither read nor write.
  The model keeps this: `ReadMessage` requires `IsReader()`, `WriteMessage`
  requires `IsWriter()`, and `NewRw` ensures neither holds.
- The `Decoder` and `Encoder` traits are declared differently in different
  files. The model uses one contract: a decoder is a function of the byte
  sequence (the declared `decode` has no receiver), and an encoder is a
  function from a message to bytes or an error string.

## Model

| member | source | states |
|---|---|---|
| `Framing.ReadLoop` | src/sync.rs:100-118 | One `read_message` call. A failed read is passed on. An empty read is end of stream. A non-empty chunk is appended and decoded: `Continue` loops, `Done(msg, used)` retires `used` bytes and delivers `msg`, `Error` becomes `InvalidData` with nothing retired. Every call that does not end on an exhausted script uses up at least one read. |
| `Framing.ReadLoopAccounting` | src/sync.rs:105-110 | Let "fed" be the old buffer followed by every byte the call read. A delivered message is the decoder's `Done(msg, used)` on "fed", and the buffer left is "fed" without exactly its first `used` bytes. Otherwise nothing is retired and the buffer is "fed". |
| `Framing.ReadLoopTakesPrefix` | src/sync.rs:102 | A call uses the stream's read results from the front, in order. The reads it did not use are left for the next call. |
| `Framing.ContinueRound` | src/sync.rs:105-107 | After a non-empty read and `Continue`, the call goes on with the chunk appended to the buffer. Nothing is consumed, and the bytes fed to the call are the same. |
| `Framing.FinalRoundAccounting` | src/sync.rs:102-114 | Accounting for a call that ends in its first round: end of stream, read error, `Done` or `Error`. |
| `Framing.DoneRound` | src/sync.rs:108-110 | After a non-empty read and `Done(msg, used)`, the call delivers `msg`. The buffer keeps what follows the first `used` bytes of the appended buffer, and the call was fed exactly that one chunk. |
| `Framing.ChunksAfterFirst` | src/sync.rs:105 | The bytes of the first `n` reads are the first chunk followed by the bytes of the next `n - 1` reads. |
| `Framing.BufferGrowsUntilDelivery` | src/sync.rs:105 | A call that delivers no message leaves a buffer that extends the old one. |
| `Framing.EmptyReadIsEndOfStream` | src/sync.rs:102-103 | A zero-byte read gives end of stream, not an error, whatever the buffer holds. The buffer is unchanged. |
| `Framing.ReadFailurePropagates` | src/sync.rs:102 | A failed read returns that same error at once. The buffer is unchanged. |
| `Framing.LeftoverFrameNeedsRead` | src/sync.rs:100-106 | A complete frame already in the buffer is not delivered when the next read reports end of stream. The call gives end of stream and keeps the bytes. |
| `Framing.DecodeErrorIsInvalidData` | src/sync.rs:112-114 | A decoder `Error` becomes an `InvalidData` error with the decoder's reason. The chunk stays appended and nothing is consumed. |
| `Sync.MessageIo.New` | src/sync.rs:32-39 | `new` stores the stream, encoder and decoder with an empty buffer. |
| `Sync.MessageIo.NewRw` | src/sync.rs:53-59 | `new_rw` installs the same codec value in both roles with an empty buffer. The resulting engine is neither a reader nor a writer. |
| `Sync.MessageIo.NewReader` | src/sync.rs:72-83 | `new_reader` gives a reader (unit encoder, the given decoder) with an empty buffer. |
| `Sync.MessageIo.NewWriter` | src/sync.rs:132-143 | `new_writer` gives a writer (the given encoder, unit decoder) with an empty buffer. |
| `Sync.MessageIo.StreamRead` | src/sync.rs:101-102 | One `read` takes the next scripted result from the stream. An exhausted stream reads zero bytes. |
| `Sync.MessageIo.ReadMessage` | src/sync.rs:95-119 | The loop returns exactly the outcome, buffer and remaining stream that `ReadLoop` gives for the old buffer and stream. Nothing is written. |
| `Sync.MessageIo.WriteMessage` | src/sync.rs:157-165 | If the encoder fails, the result is an `Other` error and the wire is unchanged. Otherwise the wire grows by exactly the encoded bytes and the result is success. |
| `Async.AsyncMessageIo.New` | src/async.rs:33-40 | `new` stores the stream, encoder and decoder with an empty buffer. |
| `Async.AsyncMessageIo.NewRw` | src/async.rs:58-64 | `new_rw` installs the same codec value (cloned) as encoder and as decoder. The buffer is empty, and the engine is neither a reader nor a writer. |
| `Async.AsyncMessageIo.NewReader` | src/async.rs:82-88 | `new_reader` gives a reader with an empty buffer. |
| `Async.AsyncMessageIo.NewWriter` | src/async.rs:144-150 | `new_writer` gives a writer with an empty buffer. |
| `Async.AsyncMessageIo.StreamRead` | src/async.rs:108-109 | One `read` into the 1024-byte temporary buffer takes the next scripted result. |
| `Async.AsyncMessageIo.ReadMessage` | src/async.rs:102-126 | The same loop as the blocking engine, proved equal to `ReadLoop`. |
| `Async.AsyncMessageIo.WriteMessage` | src/async.rs:163-173 | If the encoder fails, the result is `InvalidData` and nothing is written. Otherwise `write_all` puts every encoded byte on the wire. |
| `Encoder.UnitEncode` | src/encoder.rs:19-25 | The unit encoder always succeeds on its only input, `()`, and produces no bytes. |
| `Uint16Codec.RawEncode` | src/lib.rs:30-35 | `RawEncoder` always succeeds and returns its input unchanged as the wire bytes. |
| `Uint16Codec.RawWriteReadBack` | src/lib.rs:103-111 | Bytes written by `RawEncoder` and delivered in one read before the writer closes are read back as the payload of the frame they start with when they hold a whole one (the rest stays buffered). Otherwise the reader gets end of stream with every byte kept. |
| `Uint16Codec.FromBeBytes` | src/lib.rs:55 | Two big-endian bytes give a length of at most `u16::MAX`. |
| `Uint16Codec.ToBeBytes` | src/lib.rs:45 | A `u16` becomes two bytes that `FromBeBytes` reads back as the same number. |
| `Uint16Codec.Uint16Encode` | src/lib.rs:37-49 | Encoding fails exactly when the payload exceeds 65535 bytes. A success is 2 + len(data) bytes: the length, big-endian, then the data unchanged. |
| `Uint16Codec.Uint16Decode` | src/lib.rs:50-66 | The decoder never returns `Error`. It returns `Done` exactly when the prefix and the whole declared payload are present, so with fewer than 2 bytes it returns `Continue`. `used` is 2 + declared length, at most the input's length, and `msg` is the bytes between. |
| `Uint16Codec.Uint16DecodeConsumes` | src/lib.rs:56-58 | The decoder never claims more bytes than it was given, so the engine's `advance` is always in range. |
| `Uint16Codec.RoundTrip` | src/lib.rs:37-66 | Any payload of at most 65535 bytes encodes, and its frame decodes to `Done(payload, frame length)`. |
| `Uint16Codec.DecodeIgnoresTrailingBytes` | src/lib.rs:55-58 | Once the decoder returns `Done`, appending more bytes gives the same `Done`. |
| `Uint16Codec.FramePrefixContinues` | src/lib.rs:56-60 | Any proper prefix of a frame decodes to `Continue`. |
| `Uint16Codec.FrameThenAnything` | src/lib.rs:55-58 | A frame followed by any bytes decodes to its payload and uses exactly the frame's bytes. |
| `Uint16Codec.HasFrameExtends` | src/lib.rs:54-56 | More bytes never turn a complete frame back into an incomplete one. |
| `Uint16Codec.TruncatedFrameIsEndOfStream` | src/lib.rs:104-111 | If the stream closes before the declared payload is complete, `read_message` gives end of stream, never an error or a partial message. Every byte read stays buffered. |
| `Uint16Codec.TruncatedAfterFirstRead` | src/sync.rs:105-107 | The inductive step of the truncated-frame lemma, after one non-empty read. |
| `Uint16Codec.TruncatedFirstRead` | src/lib.rs:56-60 | While the buffer plus everything still to be read lacks a complete frame, the first read leaves the decoder at `Continue`, and the rest still lacks a frame. |
| `Uint16Codec.ReadAnyChunking` | src/sync.rs:100-110 | However a frame's bytes are split into non-empty reads, one call delivers the payload, whatever the script holds after those reads (more data, a failed read or end of stream). The bytes fed are exactly the frame followed by what is left buffered. |
| `Uint16Codec.FrameNeedsMoreReads` | src/sync.rs:105-107 | The chunking step where the first read leaves the frame incomplete, so the decoder continues; the reads after the frame are unconstrained. |
| `Uint16Codec.FrameInFirstRead` | src/sync.rs:105-110 | The chunking step where the first read completes the frame. The call delivers the payload and keeps what followed the frame. |
| `Scenarios.SyncRoundTrip` | src/lib.rs:78-87 | A payload written through `Uint16FramedEncoder` appears on the wire as length plus payload. Read back in one chunk, it is delivered whole with nothing left over. |
| `Scenarios.SyncOversized` | src/lib.rs:89-92 | A 70000-byte payload is refused with an `Other` error, and nothing is written. |
| `Scenarios.SyncTruncated` | src/lib.rs:97-111 | `RawEncoder` writes `00 10 h e l l o` verbatim. After the writer closes, the reader sees end of stream, and the seven bytes stay buffered. |
| `Scenarios.TruncatedThenClosed` | src/lib.rs:104-111 | One read of `00 10 h e l l o` followed by a closed stream ends in end of stream, with those seven bytes still buffered. |
| `Scenarios.TestSyncMessageIo` | src/lib.rs:70-112 | The blocking test: "hello world!" travels as `00 0C` plus its bytes and comes back intact. The oversized payload fails, and the truncated frame gives end of stream. |
| `Scenarios.AsyncRoundTrip` | src/lib.rs:121-132 | The round trip through the async engine. |
| `Scenarios.AsyncOversized` | src/lib.rs:134-137 | On the async engine, an oversized payload fails with `InvalidData`, and nothing is written. |
| `Scenarios.AsyncTruncated` | src/lib.rs:139-150 | On the async engine, a truncated frame gives end of stream. |
| `Scenarios.TestAsyncMessageIo` | src/lib.rs:116-151 | The async test: "hello async world!" round trip, oversized payload refused, and truncated frame giving end of stream. |
| `Scenarios.WriteThroughUnitEncoder` | src/encoder.rs:19-25 | The unit encoder never fails and produces no bytes. Writing through it succeeds and leaves the wire as it was. |

## Left out

- src/tokio.rs: a wrapper that adapts tokio streams and holds no framing logic. Its calls do not match the signatures in src/async.rs.
- Real streams (`std::io::Read`/`Write`, `futures` `AsyncReadExt`/`AsyncWriteExt`, pipes, `UnixStream`): a stream is a fixed script of read results plus the bytes written so far.
- A pipe read may return fewer bytes than were written. The scenarios deliver each write as one read; `Uint16Codec.ReadAnyChunking` covers every other split into non-empty reads.
- Suspension at `.await`: each async call is treated as one sequential step, since nothing observable happens to the buffer during suspension.
- `BytesMut` capacity, reallocation and `INITIAL_BUFFER_SIZE`: only the buffer's contents are observable.
- A decoder that claims more bytes than it was given makes `advance` panic. The model excludes such decoders by requiring `Consumes`, instead of modelling the panic.
- `Sync.MessageIo.WriteMessage`: the sink always accepts bytes, so a failing or partial `write_all` is not modelled.
- `Async.AsyncMessageIo.WriteMessage`: the sink always accepts bytes, so a failing or partial `write_all` is not modelled.
- `io::Error` beyond its kind and message: read failures carry whatever error the script gives.
- Module wiring, feature flags and test plumbing (pipe creation, `drop`, `#[tokio::test]`).
