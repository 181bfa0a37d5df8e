/** The contract between the framing layer and user codecs (`Decoder` and
    `Encoder`). Rust traits become function values: a decoder maps the
    accumulator to an outcome and what it leaves of the accumulator, an
    encoder maps an item and an output buffer to the grown buffer or an
    error. The obligations the documentation puts on implementers are the
    predicates below. */
module Codec {
  import opened Bytes

  datatype Result<T, E> = Ok(value: T) | Err(error: E)

  /** The three possible answers of `Decoder::decode`:
      `Ok(Some(item))`, `Ok(None)` (not enough data yet) and `Err(e)`. */
  datatype Decoded<I, E> = Item(item: I) | NeedMore | Failed(error: E)

  /** One decoder call: its answer and the accumulator it leaves behind. */
  datatype DecodeStep<I, E> = DecodeStep(outcome: Decoded<I, E>, rest: seq<u8>)

  type DecodeFn<I, E> = seq<u8> -> DecodeStep<I, E>

  /** `Encoder::encode`: the output buffer after the item was put into it, or the error. */
  type EncodeFn<!I, E> = (I, seq<u8>) -> Result<seq<u8>, E>

  /** A decoder depletes the accumulator only from its front: the bytes it
      used are gone and whatever it did not use is still there, in order. */
  ghost predicate DepletesFront<I, E>(decode: DecodeFn<I, E>) {
    forall src :: IsSuffix(decode(src).rest, src)
  }

  /** A decoder that answers "not enough data" consumes nothing. */
  ghost predicate KeepsOnNeedMore<I, E>(decode: DecodeFn<I, E>) {
    forall src :: decode(src).outcome.NeedMore? ==> decode(src).rest == src
  }

  /** An encoder only appends to the buffer it is given. */
  ghost predicate AppendsToDst<I(!new), E>(encode: EncodeFn<I, E>) {
    forall item, dst :: encode(item, dst).Ok? ==> IsPrefix(dst, encode(item, dst).value)
  }
}
