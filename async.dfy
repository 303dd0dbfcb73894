/** The cooperative-async Message I/O engine. It runs the same loop as the
    blocking one; suspension at an `await` changes nothing observable, so
    each call is modelled as one sequential step. */
module Async {
  import opened Io
  import opened Decoder
  import opened Encoder
  import opened Framing

  /** `AsyncMessageIo<S, E, D>`. An absent encoder or decoder stands for the
      unit placeholder `()` that the role constructors install. */
  class AsyncMessageIo<M> {
    var stream: Stream
    const encoder: Option<Encode<M>>
    const decoder: Option<Decode<M>>
    var buffer: seq<u8>

    /** `read_message` is only offered on engines whose encoder is `()`. */
    predicate IsReader() {
      encoder.None? && decoder.Some?
    }

    /** `write_message` is only offered on engines whose decoder is `()`. */
    predicate IsWriter() {
      encoder.Some? && decoder.None?
    }

    /** `new`: any stream, encoder and decoder, with an empty buffer. */
    constructor New(stream: Stream, encoder: Option<Encode<M>>, decoder: Option<Decode<M>>)
      ensures this.stream == stream && this.encoder == encoder && this.decoder == decoder
      ensures buffer == []
    {
      this.stream := stream;
      this.encoder := encoder;
      this.decoder := decoder;
      buffer := [];
    }

    /** `new_rw`: the same codec value (cloned) in both roles. */
    constructor NewRw(stream: Stream, encDec: Codec<M>)
      ensures this.stream == stream
      ensures encoder == Some(encDec.encode) && decoder == Some(encDec.decode)
      ensures buffer == []
      ensures !IsReader() && !IsWriter()
    {
      this.stream := stream;
      encoder := Some(encDec.encode);
      decoder := Some(encDec.decode);
      buffer := [];
    }

    /** `new_reader`: a decoder and the unit encoder. */
    constructor NewReader(stream: Stream, decoder: Decode<M>)
      ensures this.stream == stream && this.decoder == Some(decoder)
      ensures IsReader() && buffer == []
    {
      this.stream := stream;
      encoder := None;
      this.decoder := Some(decoder);
      buffer := [];
    }

    /** `new_writer`: an encoder and the unit decoder. */
    constructor NewWriter(stream: Stream, encoder: Encode<M>)
      ensures this.stream == stream && this.encoder == Some(encoder)
      ensures IsWriter() && buffer == []
    {
      this.stream := stream;
      this.encoder := Some(encoder);
      decoder := None;
      buffer := [];
    }

    /** One `read` call on the stream into a `TEMP_BUFFER_SIZE` buffer. */
    method StreamRead() returns (result: ReadResult)
      modifies this`stream
      ensures result == old(stream).NextRead() && stream == old(stream).AfterRead()
    {
      result := stream.NextRead();
      stream := stream.AfterRead();
    }

    /** `read_message`: reads and decodes until a message, end of stream
        or an error. Returns what `ReadLoop` specifies and leaves the
        buffer and the stream as it says; nothing is written. */
    method ReadMessage() returns (r: ReadOutcome<M>)
      requires IsReader() && Consumes(decoder.value)
      modifies this`stream, this`buffer
      ensures ReadState(r, buffer, stream.pending) == ReadLoop(decoder.value, old(buffer), old(stream.pending))
      ensures stream.written == old(stream.written)
    {
      var decode := decoder.value;
      while true
        invariant ReadLoop(decode, buffer, stream.pending) == ReadLoop(decode, old(buffer), old(stream.pending))
        invariant stream.written == old(stream.written)
        decreases |stream.pending|
      {
        var result := StreamRead();
        match result
        case ReadFailed(e) =>
          return Failed(e);
        case Read(chunk) =>
          if |chunk| == 0 {
            return EndOfStream;
          }
          buffer := buffer + chunk;
          match decode(buffer)
          case Continue =>
          case Done(msg, used) =>
            buffer := buffer[used..];
            return Message(msg);
          case Error(reason) =>
            return Failed(IoError(InvalidData, reason));
      }
    }

    /** `write_message`: an encoder failure becomes an `InvalidData` error
        and nothing is written; otherwise `write_all` writes every encoded
        byte. */
    method WriteMessage(msg: M) returns (r: Status)
      requires IsWriter()
      modifies this`stream
      ensures stream.pending == old(stream.pending)
      ensures encoder.value(msg).Err? ==>
                r == Failure(IoError(InvalidData, encoder.value(msg).reason)) && stream.written == old(stream.written)
      ensures encoder.value(msg).Ok? ==>
                r == Success && stream.written == old(stream.written) + encoder.value(msg).bytes
    {
      match encoder.value(msg)
      case Err(reason) =>
        return Failure(IoError(InvalidData, reason));
      case Ok(encoded) =>
        stream := stream.(written := stream.written + encoded);
        return Success;
    }
  }
}
