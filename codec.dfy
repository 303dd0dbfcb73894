/** The length-prefixed codec the crate's tests run the engine with: a
    frame is the payload's length as two big-endian bytes followed by the
    payload; plus a raw encoder that writes its input verbatim. */
module Uint16Codec {
  import opened Io
  import opened Decoder
  import opened Encoder
  import opened Framing

  /** `u16::MAX`. */
  const U16_MAX: nat := 0xFFFF

  /** `u16::from_be_bytes`. */
  function FromBeBytes(hi: u8, lo: u8): (n: nat)
    ensures n <= U16_MAX
  {
    hi * 256 + lo
  }

  /** `n.to_be_bytes()` for a `u16`: most significant byte first. */
  function ToBeBytes(n: nat): (r: seq<u8>)
    requires n <= U16_MAX
    ensures |r| == 2 && FromBeBytes(r[0], r[1]) == n
  {
    [n / 256, n % 256]
  }

  /** `RawEncoder`: the payload is its own wire form. */
  function RawEncode(data: seq<u8>): (r: EncodeResult)
    ensures r.Ok? && r.bytes == data
  {
    Ok(data)
  }

  /** `Uint16FramedEncoder`: refuses payloads longer than `u16::MAX`,
      otherwise prefixes the payload with its length. */
  function Uint16Encode(data: seq<u8>): (r: EncodeResult)
    ensures r.Err? <==> |data| > U16_MAX
    ensures r.Ok? ==> |r.bytes| == 2 + |data| && r.bytes[2..] == data
                      && FromBeBytes(r.bytes[0], r.bytes[1]) == |data|
  {
    if |data| > U16_MAX then Err("Data too large to encode")
    else Ok(ToBeBytes(|data|) + data)
  }

  /** The payload length a frame declares in its first two bytes. */
  function Declared(data: seq<u8>): nat
    requires |data| >= 2
  {
    FromBeBytes(data[0], data[1])
  }

  /** `data` holds a whole frame: the prefix and the declared payload. */
  predicate HasFrame(data: seq<u8>) {
    |data| >= 2 && |data| >= 2 + Declared(data)
  }

  /** `Uint16FramedDecoder`: `Continue` until the prefix and the whole
      declared payload are present, then `Done` with the payload and the
      frame's size. */
  function Uint16Decode(data: seq<u8>): (r: DecoderResult<seq<u8>>)
    ensures !r.Error?
    ensures r.Done? <==> HasFrame(data)
    ensures r.Done? ==> r.used == 2 + Declared(data) && r.msg == data[2..r.used]
  {
    if |data| >= 2 then
      var msgLen := FromBeBytes(data[0], data[1]);
      if 2 + msgLen <= |data| then Done(data[2..2 + msgLen], 2 + msgLen)
      else Continue
    else Continue
  }

  /** The decoder never claims bytes it was not given. */
  lemma Uint16DecodeConsumes()
    ensures Consumes(Uint16Decode)
  {
    forall data: seq<u8> | Uint16Decode(data).Done?
      ensures Uint16Decode(data).used <= |data|
    {
    }
  }

  /** Round trip: a payload of at most `u16::MAX` bytes encodes, and its
      frame decodes back to it, using exactly the frame's bytes. */
  lemma RoundTrip(m: seq<u8>)
    requires |m| <= U16_MAX
    ensures Uint16Encode(m).Ok?
    ensures Uint16Decode(Uint16Encode(m).bytes) == Done(m, |Uint16Encode(m).bytes|)
  {
    var frame := Uint16Encode(m).bytes;
    assert frame[2..2 + |m|] == frame[2..];
  }

  /** What a reader makes of bytes written by `RawEncoder` and delivered
      in one read before the writer closes: the payload of the frame they
      start with when they hold a whole one, otherwise end of stream with
      every byte kept. */
  lemma RawWriteReadBack(data: Chunk)
    requires |data| > 0
    ensures var r := ReadLoop(Uint16Decode, [], [Read(RawEncode(data).bytes)]);
            if HasFrame(data)
            then r.outcome == Message(data[2..2 + Declared(data)]) && r.buffer == data[2 + Declared(data)..]
            else r.outcome == EndOfStream && r.buffer == data
  {
    Uint16DecodeConsumes();
    var script := [Read(data)];
    assert [] + data == data;
    if HasFrame(data) {
      DoneRound(Uint16Decode, [], script);
    } else {
      ContinueRound(Uint16Decode, [], script);
      assert script[1..] == [];
    }
  }

  /** Once a frame is complete, bytes arriving after it change nothing. */
  lemma DecodeIgnoresTrailingBytes(data: seq<u8>, extra: seq<u8>)
    requires Uint16Decode(data).Done?
    ensures Uint16Decode(data + extra) == Uint16Decode(data)
  {
    var used := Uint16Decode(data).used;
    assert (data + extra)[..2] == data[..2];
    assert (data + extra)[2..used] == data[2..used];
  }

  /** A proper prefix of a frame is not yet a frame. */
  lemma FramePrefixContinues(m: seq<u8>, p: seq<u8>)
    requires |m| <= U16_MAX
    requires p < Uint16Encode(m).bytes
    ensures Uint16Decode(p) == Continue
  {
    var frame := Uint16Encode(m).bytes;
    if |p| >= 2 {
      assert p[0] == frame[0] && p[1] == frame[1];
    }
  }

  /** The bytes of a frame followed by anything decode to the frame's
      payload, using exactly the frame's bytes. */
  lemma FrameThenAnything(m: seq<u8>, rest: seq<u8>)
    requires |m| <= U16_MAX
    ensures Uint16Decode(Uint16Encode(m).bytes + rest) == Done(m, 2 + |m|)
  {
    RoundTrip(m);
    DecodeIgnoresTrailingBytes(Uint16Encode(m).bytes, rest);
  }

  /** More bytes never undo a complete frame. */
  lemma HasFrameExtends(data: seq<u8>, extra: seq<u8>)
    requires HasFrame(data)
    ensures HasFrame(data + extra)
  {
    assert (data + extra)[0] == data[0] && (data + extra)[1] == data[1];
  }

  /** A truncated frame is end of stream: when the stream closes before
      the declared payload is complete, `read_message` reports end of
      stream (never an error and never a partial message), and every byte
      it read stays in the buffer. */
  lemma {:induction false} TruncatedFrameIsEndOfStream(buffer: seq<u8>, script: seq<ReadResult>)
    requires forall i :: 0 <= i < |script| ==> script[i].Read?
    requires !HasFrame(buffer + Chunks(script))
    ensures var r := ReadLoop(Uint16Decode, buffer, script);
            r.outcome == EndOfStream && r.buffer == Fed(buffer, script, r)
    decreases |script|, 1
  {
    Uint16DecodeConsumes();
    ReadLoopAccounting(Uint16Decode, buffer, script);
    if script != [] && |script[0].bytes| > 0 {
      TruncatedAfterFirstRead(buffer, script);
    }
  }

  /** The step of `TruncatedFrameIsEndOfStream` past a non-empty read. */
  lemma {:induction false} TruncatedAfterFirstRead(buffer: seq<u8>, script: seq<ReadResult>)
    requires forall i :: 0 <= i < |script| ==> script[i].Read?
    requires script != [] && |script[0].bytes| > 0
    requires !HasFrame(buffer + Chunks(script))
    ensures var r := ReadLoop(Uint16Decode, buffer, script);
            r.outcome == EndOfStream && r.buffer == Fed(buffer, script, r)
    decreases |script|, 0
  {
    var appended := buffer + script[0].bytes;
    TruncatedFirstRead(buffer, script);
    ContinueRound(Uint16Decode, buffer, script);
    TruncatedFrameIsEndOfStream(appended, script[1..]);
  }

  /** While the whole input lacks a frame, so does the buffer after its
      first read: the decoder says `Continue` and the rest still lacks one. */
  lemma TruncatedFirstRead(buffer: seq<u8>, script: seq<ReadResult>)
    requires script != [] && script[0].Read?
    requires !HasFrame(buffer + Chunks(script))
    ensures Uint16Decode(buffer + script[0].bytes) == Continue
    ensures !HasFrame(buffer + script[0].bytes + Chunks(script[1..]))
  {
    var appended := buffer + script[0].bytes;
    assert buffer + Chunks(script) == appended + Chunks(script[1..]);
    if HasFrame(appended) {
      HasFrameExtends(appended, Chunks(script[1..]));
    }
  }

  /** Chunking invariance: however the bytes of a frame are split into
      non-empty reads, one `read_message` delivers the frame's payload and
      retires exactly the frame, keeping whatever followed it. The reads
      `post` after the ones that carry the frame are never issued, so they
      may be anything: more data, a failure or end of stream. */
  lemma {:induction false} ReadAnyChunking(m: seq<u8>, buffer: seq<u8>, pre: seq<ReadResult>, post: seq<ReadResult>)
    requires |m| <= U16_MAX
    requires forall i :: 0 <= i < |pre| ==> pre[i].Read? && |pre[i].bytes| > 0
    requires |buffer| < 2 + |m| && Uint16Encode(m).bytes <= buffer + Chunks(pre)
    ensures var r := ReadLoop(Uint16Decode, buffer, pre + post);
            && r.outcome == Message(m)
            && Fed(buffer, pre + post, r) == Uint16Encode(m).bytes + r.buffer
    decreases |pre|, 1
  {
    assert pre != [];
    assert buffer + Chunks(pre) == buffer + pre[0].bytes + Chunks(pre[1..]);
    DropFirstOfAppend(pre, post);
    if |buffer + pre[0].bytes| >= 2 + |m| {
      FrameInFirstRead(m, buffer, pre + post);
    } else {
      FrameNeedsMoreReads(m, buffer, pre, post);
    }
  }

  /** The case of `ReadAnyChunking` where the first read leaves the frame
      incomplete: the decoder says `Continue` and the rest of the frame
      comes from the later reads. */
  lemma {:induction false} FrameNeedsMoreReads(m: seq<u8>, buffer: seq<u8>, pre: seq<ReadResult>, post: seq<ReadResult>)
    requires |m| <= U16_MAX
    requires forall i :: 0 <= i < |pre| ==> pre[i].Read? && |pre[i].bytes| > 0
    requires pre != [] && |buffer + pre[0].bytes| < 2 + |m|
    requires Uint16Encode(m).bytes <= buffer + pre[0].bytes + Chunks(pre[1..])
    ensures var r := ReadLoop(Uint16Decode, buffer, pre + post);
            && r.outcome == Message(m)
            && Fed(buffer, pre + post, r) == Uint16Encode(m).bytes + r.buffer
    decreases |pre|, 0
  {
    Uint16DecodeConsumes();
    var appended := buffer + pre[0].bytes;
    DropFirstOfAppend(pre, post);
    FramePrefixContinues(m, appended);
    ContinueRound(Uint16Decode, buffer, pre + post);
    ReadAnyChunking(m, appended, pre[1..], post);
  }

  /** The case of `ReadAnyChunking` where the first read completes the
      frame. */
  lemma FrameInFirstRead(m: seq<u8>, buffer: seq<u8>, script: seq<ReadResult>)
    requires |m| <= U16_MAX
    requires script != [] && script[0].Read? && |script[0].bytes| > 0
    requires Uint16Encode(m).bytes <= buffer + script[0].bytes
    ensures var r := ReadLoop(Uint16Decode, buffer, script);
            && r.outcome == Message(m)
            && Fed(buffer, script, r) == Uint16Encode(m).bytes + r.buffer
  {
    Uint16DecodeConsumes();
    var frame := Uint16Encode(m).bytes;
    var appended := buffer + script[0].bytes;
    var tail := appended[|frame|..];
    assert appended == frame + tail;
    FrameThenAnything(m, tail);
    DoneRound(Uint16Decode, buffer, script);
  }
}
