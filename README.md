# framous, modelled in Dafny

framous is a small framing layer for blocking byte streams. A `FramedRead`
owns a reader, a user `Decoder` and a persistent accumulator (`buf`). Each
`framed_read` call loops: it reads once from the reader into an 8 KiB
scratch array, appends the bytes read to the accumulator, and asks the
decoder for an item. The decoder answers with an item, with "not enough
data" (the loop reads again) or with an error (returned as is). A
`FramedWrite` owns a writer and a user `Encoder`. Each `framed_write` encodes
one item into a fresh buffer. If encoding fails, nothing else happens.
Otherwise it makes one `write` of the buffer, whose count is ignored, and
then one `flush`. `Framed` pairs a reader and a writer and can be split
back into them. The repository's tests define a length-prefix codec,
`TestCodec`: a length byte `L`, then `L` bytes; `L = 1` is a `u8`, `L = 2`
a big-endian `u16`, anything else `Unrecognised`, which cannot be encoded.

The Dafny project has five modules:

- `Bytes` (bytes.dfy): `u8`, `u16`, big-endian splitting, prefix/suffix
  relations, and `ByteBuf`, a stand-in for the part of `BytesMut` the test
  codec uses in place (`advance`, `split_to`, `get_u8`, `get_u16`,
  `put_u8`, `put_u16`).
- `Codec` (codec.dfy): the `Decoder`/`Encoder` contract. The decoder's
  three answers are the datatype `Decoded` (`Item`, `NeedMore`, `Failed`).
  Decoders and encoders are function values. The duties the documentation
  puts on implementers are predicates: `DepletesFront` (used bytes leave
  from the front, unused bytes stay in order), `KeepsOnNeedMore` and
  `AppendsToDst`.
- `Io` (io.dfy): the reader and writer objects. A `Source` is a finite
  script of `read` answers (`Data(bytes)` or `Fail(e)`); once the script is
  used up every read returns 0 bytes. A `Sink` records the bytes it
  received and its successful flushes, and answers `write` (take at most
  `limit` bytes, or fail) and `flush` from scripts. With empty scripts it
  behaves like a `Vec<u8>`.
- `Framed` (framed.dfy): `Run`, the specification of one `framed_read`
  call; `ReadCalls`, several calls in a row; `WriteOnce`, one
  `framed_write`; the classes `FramedRead`, `FramedWrite` and `Framed`,
  whose methods are proved against those functions; and lemmas about the
  loop.
- `TestCodec` (test_codec.dfy): the test codec as functions (`DecodeFrame`,
  `EncodeFrame`) and as in-place methods on a `ByteBuf`, its round trips,
  and the repository's tests as lemmas about the reader and the writer.

`framed_read` as written never returns when the reader is exhausted (every
read returns 0 bytes) and the decoder keeps answering "not enough data"
without touching the accumulator. `Run` answers `Diverges` at exactly that
point: `DivergesOnlyWhenSpinning` and `SpinningDiverges` prove that this
answer marks the loop's fixed point and nothing else.

Where the `Decoder` documentation and the code disagree, the model follows
the code: the documentation says an `Err` "will close the underlying `Read`
object", but `framed_read` only returns the error and nothing is closed.

Three behaviours of the code are easy to miss, and the model states them:

- A zero-byte read is not end of stream: the empty slice is appended and
  decoding is retried (`ZeroByteReadStillDecodes`, `SpinningDiverges`).
- `framed_write` makes one `write` and ignores its count, so a short write
  still returns `Ok` (`WriteOnceOutcome`, `ShortWriteStillOk`).
- Every `framed_read` call reads before it decodes, even when the
  accumulator already holds a whole frame (`RunReadsFirst`,
  `BufferedFrameBehindReadError`).

## Model

| member | source | states |
|---|---|---|
| `Codec.DepletesFront` | src/codec.rs:11-15 | a decoder removes the bytes it used from the front of the accumulator and leaves every unused byte there, in order |
| `Codec.KeepsOnNeedMore` | src/codec.rs:20-22 | a decoder that answers "not enough data" takes nothing, so the next read's bytes are appended to the same accumulator |
| `Codec.AppendsToDst` | src/codec.rs:37-43 | an encoder inserts the item into `dst` by appending to it, keeping the bytes `dst` already held |
| `Io.Source.Read` | src/framed.rs:95-97 | one `read` returns the next scripted answer, and at most the 8 KiB the scratch array holds; once the script is used up it returns 0 bytes |
| `Io.Sink.Write` | src/framed.rs:116 | one `write` records the bytes the sink's reply lets it take (all of them when no reply is scripted) and returns that count, or returns the scripted error with nothing recorded |
| `Io.Sink.Flush` | src/framed.rs:117 | one `flush` is counted when it succeeds, or returns the scripted error |
| `Framed.Run` | src/framed.rs:94-105 | one `framed_read` call: read, append, decode; an item or error is returned, "not enough data" loops; `Diverges` marks the point where the loop would spin forever |
| `Framed.ReadCalls` | src/framed.rs:27-31 | successive `framed_read` calls on one reader share the accumulator field, so each call starts from what the previous one left |
| `Framed.WriteOnce` | src/framed.rs:113-118 | one `framed_write` call: encode into an empty buffer, stop on an encode error, one `write`, stop on its error, then `flush` |
| `Framed.FramedRead.constructor` | src/framed.rs:35-41 | a new reader owns the given source and decoder, and its accumulator starts empty |
| `Framed.FramedRead.ReadFrame` | src/framed.rs:94-105 | the loop appends exactly the bytes read to the back of `buf`; the result, the new `buf` and the source's remaining script are those `Run` gives for the old ones |
| `Framed.FramedWrite.constructor` | src/framed.rs:50-52 | a new writer owns the given sink and encoder |
| `Framed.FramedWrite.WriteFrame` | src/framed.rs:113-118 | the result and the sink's new state are those of `WriteOnce`: encode into an empty buffer, one write, then flush |
| `Framed.Framed.constructor` | src/framed.rs:67-72 | the pair holds a fresh reader over the source with an empty accumulator and a fresh writer over the sink |
| `Framed.Framed.Split` | src/framed.rs:74-76 | splitting returns the pair's own reader and writer, unchanged |
| `Framed.Framed.ReadFrame` | src/framed.rs:126-128 | reading on the pair is exactly the reader's `framed_read` |
| `Framed.Framed.WriteFrame` | src/framed.rs:136-138 | writing on the pair is exactly the writer's `framed_write` |
| `Framed.RunReadsFirst` | src/framed.rs:96-99 | every call consumes the first scripted read before its answer is decided, even when the accumulator already holds a whole frame |
| `Framed.RunKeepsByteOrder` | src/framed.rs:97-99 | the accumulator is a FIFO: after a call, the accumulator followed by the unread script is a suffix of the same before the call, so bytes are neither reordered nor invented |
| `Framed.DivergesOnlyWhenSpinning` | src/framed.rs:96-101 | `Diverges` is answered only when the source is used up and the decoder answers "not enough data" leaving the accumulator unchanged, so the loop repeats forever |
| `Framed.SpinningDiverges` | src/framed.rs:97-101 | in that state the call never returns: zero-byte reads keep the loop going |
| `Framed.ZeroByteReadStillDecodes` | src/framed.rs:97-100 | a zero-byte read is not an error: with the source used up, the call still returns the decoder's item or error on the accumulator |
| `Framed.ReadErrorEndsCall` | src/framed.rs:97 | a failed read returns its error at once, with no decode and the accumulator untouched |
| `Framed.ReturnsFirstAnswer` | src/framed.rs:99-103 | the call returns the decoder's first item or error, decoded on the old accumulator plus exactly the chunks read so far; "not enough data" reads again, and no chunk after the deciding one is read, so a later failing read is never seen |
| `Framed.ReadFailsAfterNeedMore` | src/framed.rs:96-101 | a read that fails after any number of "not enough data" rounds ends the call with its error; the bytes of the earlier reads stay in the accumulator and later chunks are not read |
| `Framed.WriteEncodeFailureTouchesNothing` | src/framed.rs:114-115 | if encoding fails its error is returned and the sink is unchanged: no write, no flush |
| `Framed.WriteOnceOutcome` | src/framed.rs:113-118 | `framed_write` succeeds exactly when encode, the one write and the flush succeed; then the sink received what that one write took of the frame, and one flush happened |
| `TestCodec.DecodeFrame` | src/framed.rs:167-191 | never fails; "not enough data", with the input untouched, exactly when it is empty or shorter than `1 + src[0]`; otherwise exactly `1 + src[0]` bytes are taken from the front |
| `TestCodec.EncodeFrame` | src/framed.rs:197-212 | fails exactly on `Unrecognised`; otherwise appends to `dst` and keeps what it held |
| `TestCodec.Frame` | src/framed.rs:198-206 | an encoded frame is a length byte followed by that many bytes |
| `TestCodec.EncodeAppendsFrame` | src/framed.rs:198-206 | encoding appends the same frame whatever `dst` already holds |
| `TestCodec.CodecKeepsContract` | src/codec.rs:11-43 | the test codec depletes only the bytes it uses, leaves the buffer alone on "not enough data", and only appends when encoding |
| `TestCodec.EncodeThenDecode` | src/framed.rs:177-206 | decoding `encode(m)` followed by any bytes yields `m` and leaves exactly those bytes |
| `TestCodec.DecodeThenEncode` | src/framed.rs:177-206 | a decoded `U8` or `U16` re-encodes to exactly the bytes the decoder consumed |
| `TestCodec.OtherLengthsUnrecognised` | src/framed.rs:180-189 | a whole frame with length byte other than 1 or 2 (0 included) is consumed and yields `Unrecognised` |
| `TestCodec.FramePrefixIncomplete` | src/framed.rs:168-175 | a strict prefix of a frame is "not enough data" and is left byte for byte |
| `TestCodec.ReadOneFrame` | src/framed.rs:94-105 | a frame delivered in chunks of any sizes (empty ones included) is returned, and exactly its bytes are consumed: what is left in the accumulator and unread is exactly what followed the frame (that the call stops at the chunk completing the frame is `ReturnsFirstAnswer`) |
| `TestCodec.ReadFramesInOrder` | src/framed.rs:94-105 | successive calls over frames delivered in any chunking yield the messages one per call and in order; bytes of later frames stay in the accumulator |
| `TestCodec.ReaderValidU8` | src/framed.rs:216-221 | `[1, 128]` reads as `U8(128)` |
| `TestCodec.ReaderValidU16` | src/framed.rs:224-229 | `[2, 1, 128]` reads as `U16(384)` |
| `TestCodec.ReadUnrecognised` | src/framed.rs:232-237 | `[3, 1, 128, 0]` reads as `Unrecognised` |
| `TestCodec.WriteValidU8` | src/framed.rs:240-245 | writing `U8(12)` leaves `[1, 12]` in the sink, flushed once |
| `TestCodec.WriteValidU16` | src/framed.rs:248-253 | writing `U16(1234)` leaves `[2, 4, 210]` in the sink, flushed once |
| `TestCodec.InvalidWrite` | src/framed.rs:256-261 | writing `Unrecognised` is an `InvalidData` error and leaves the sink as it was |
| `TestCodec.FramedRoundTrip` | src/framed.rs:264-272 | through a `Framed` pair, `U16(1234)` is written as `[2, 4, 210]` and read back as `U16(1234)` |
| `TestCodec.WriteThenRead` | src/framed.rs:113-118 | for every encodable message, `framed_write` to an empty `Vec`-like sink succeeds, writes exactly its frame, and one `framed_read` over those bytes returns the message with nothing left over |
| `TestCodec.TwoFramesInOneRead` | src/framed.rs:98-100 | two frames arriving in one read come out of two calls in order; the second is decoded after a zero-byte read |
| `TestCodec.BufferedFrameBehindReadError` | src/framed.rs:96-97 | a whole frame waiting in the accumulator is not returned when the next read fails; the call after that returns it |
| `TestCodec.ShortWriteStillOk` | src/framed.rs:116 | a sink taking one byte of `[2, 4, 210]` still makes `framed_write` return `Ok`, with only `[2]` written |
| `TestCodec.Decode` | src/framed.rs:167-191 | the in-place decoder (`advance`, `split_to`, `get_u8`, `get_u16`) answers as `DecodeFrame` and leaves in `src` what it leaves |
| `TestCodec.Encode` | src/framed.rs:197-212 | the in-place encoder (`put_u8`, `put_u16`) appends what `EncodeFrame` appends, and leaves `dst` alone on error |

## Left out

- Decoder and encoder state: the traits take `&mut self`, but here decoders and encoders are functions of their input only. `TestCodec` has no state.
- `Framed.FramedRead.ReadFrame`: requires the decoder to deplete the accumulator only from its front (`DepletesFront`, the `Decoder` documentation's rule). A decoder that adds bytes to the accumulator is not modelled. Without this rule the model could not tell when the loop diverges.
- `Framed.FramedRead.ReadFrame`: where the real loop would spin forever it returns `Diverges`. It never blocks, because reads in the model never block.
- Real `Read`/`Write` objects, `TcpStream` and `try_clone` are replaced by the scripted `Source` and `Sink`. The `framed_over_tcp` test and its mock server are network I/O and are left out.
- Threads, `Send` and the move semantics behind `split`: `Split` only returns the two halves.
- `BytesMut` capacity and the `INITIAL_CAPACITY` reservations are allocation tuning. The only trace of the constant is that one read delivers at most 8192 bytes.
- The `From<io::Error>` bounds on the error types are type plumbing. `IoError` keeps only a kind and a message.
- src/lib.rs holds only module declarations and re-exports.
- The panics of `get_u8`/`get_u16` on short input cannot happen after the decoder's length checks. The in-place methods require enough bytes instead.
