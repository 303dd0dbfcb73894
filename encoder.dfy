/** The encode contract: one message becomes its complete wire bytes, or
    the encoder says why it cannot be encoded. */
module Encoder {
  import opened Io

  /** `Result<Vec<u8>, String>`. */
  datatype EncodeResult = Ok(bytes: seq<u8>) | Err(reason: string)

  type Encode<-T> = T -> EncodeResult

  /** The no-op encoder of the unit type: the unit value has no payload,
      so it encodes to no bytes at all. */
  function UnitEncode(data: ()): (r: EncodeResult)
    ensures r.Ok? && r.bytes == []
  {
    Ok([])
  }
}
