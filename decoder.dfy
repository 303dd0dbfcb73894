/** The decode contract: a decoder looks at every byte accumulated so far
    and says whether a whole message is there. */
module Decoder {
  import opened Io

  /** The outcome of one decode attempt.
      - `Continue`: more data is needed before a message is complete;
      - `Done(msg, used)`: `msg` was decoded from the first `used` bytes;
      - `Error(reason)`: the bytes can never form a message. */
  datatype DecoderResult<T> = Continue | Done(msg: T, used: nat) | Error(reason: string)

  /** A decoder is a function of the byte slice alone: the declared
      `decode` takes no receiver, so it keeps no state between calls. */
  type Decode<T> = seq<u8> -> DecoderResult<T>

  /** A decoder that never claims more bytes than it was given; the engine
      retires `used` bytes from its buffer, which fails otherwise. */
  ghost predicate Consumes<T>(decode: Decode<T>) {
    forall data: seq<u8> :: decode(data).Done? ==> decode(data).used <= |data|
  }
}
