/** The length-prefix codec of the framing layer's own tests: a frame is a
    length byte `L` followed by `L` payload bytes; `L = 1` carries a `u8`,
    `L = 2` a big-endian `u16`, any other length decodes to `Unrecognised`,
    which cannot be encoded. Plugged into the generic reader and writer it
    gives concrete round trips and chunking properties. */
module TestCodec {
  import opened Bytes
  import opened Codec
  import opened Io
  import opened Framed

  datatype TestMsg = U8(byte: u8) | U16(word: u16) | Unrecognised

  /** `TestCodec::decode`: "not enough data" until the accumulator holds
      the length byte and that many payload bytes; then the whole frame,
      and nothing after it, is consumed. */
  function DecodeFrame(src: seq<u8>): (s: DecodeStep<TestMsg, IoError>)
    ensures !s.outcome.Failed?
    ensures s.outcome.NeedMore? <==> |src| == 0 || |src| < 1 + src[0] as int
    ensures s.outcome.NeedMore? ==> s.rest == src
    ensures s.outcome.Item? ==> s.rest == src[1 + src[0] as int..]
  {
    if |src| < 1 then DecodeStep(NeedMore, src)
    else
      var msgLen := src[0] as int;
      if |src| < msgLen + 1 then DecodeStep(NeedMore, src)
      else
        var msg := src[1..msgLen + 1];
        var item :=
          if msgLen == 1 then U8(msg[0])
          else if msgLen == 2 then U16(BigEndian(msg[0], msg[1]))
          else Unrecognised;
        DecodeStep(Item(item), src[msgLen + 1..])
  }

  /** `TestCodec::encode`: appends the frame of a `U8` or `U16` to `dst`;
      `Unrecognised` is an `InvalidData` error. */
  function EncodeFrame(item: TestMsg, dst: seq<u8>): (r: Result<seq<u8>, IoError>)
    ensures r.Err? <==> item.Unrecognised?
    ensures r.Ok? ==> IsPrefix(dst, r.value) && |dst| < |r.value|
  {
    match item
    case U8(v) => Ok(dst + [1, v])
    case U16(v) => Ok(dst + [2, HighByte(v), LowByte(v)])
    case Unrecognised => Err(IoError(InvalidData, ""))
  }

  predicate Encodable(m: TestMsg) {
    !m.Unrecognised?
  }

  /** The frame of `m`: its length byte says how many bytes follow. */
  function Frame(m: TestMsg): (f: seq<u8>)
    requires Encodable(m)
    ensures 1 <= |f| && |f| == 1 + f[0] as int
  {
    EncodeFrame(m, []).value
  }

  /** The frames of `ms`, back to back. */
  function Frames(ms: seq<TestMsg>): seq<u8>
    requires forall i :: 0 <= i < |ms| ==> Encodable(ms[i])
  {
    if ms == [] then [] else Frame(ms[0]) + Frames(ms[1..])
  }

  /** What successive reads answer when each yields the next of `ms`. */
  function AllProduced(ms: seq<TestMsg>): seq<Outcome<TestMsg, IoError>> {
    if ms == [] then [] else [Produced(ms[0])] + AllProduced(ms[1..])
  }

  /** Encoding does not assume an empty buffer: the frame is appended to whatever `dst` holds. */
  lemma EncodeAppendsFrame(m: TestMsg, dst: seq<u8>)
    requires Encodable(m)
    ensures EncodeFrame(m, dst) == Ok(dst + Frame(m))
  {
  }

  /** The test codec keeps the `Decoder` and `Encoder` contracts. */
  lemma CodecKeepsContract()
    ensures DepletesFront(DecodeFrame) && KeepsOnNeedMore(DecodeFrame)
    ensures AppendsToDst(EncodeFrame)
  {
  }

  /** Round trip: decoding a frame followed by anything yields the encoded
      message and leaves exactly what followed. */
  lemma EncodeThenDecode(m: TestMsg, tail: seq<u8>)
    requires Encodable(m)
    ensures DecodeFrame(Frame(m) + tail) == DecodeStep(Item(m), tail)
  {
    var src := Frame(m) + tail;
    if m.U16? {
      BigEndianOfSplit(m.word);
      assert src[1..3] == [HighByte(m.word), LowByte(m.word)];
    }
    assert src[|Frame(m)|..] == tail;
  }

  /** Converse round trip: a decoded `U8` or `U16` re-encodes to exactly the bytes consumed. */
  lemma DecodeThenEncode(src: seq<u8>)
    requires DecodeFrame(src).outcome.Item?
    requires Encodable(DecodeFrame(src).outcome.item)
    ensures Frame(DecodeFrame(src).outcome.item) + DecodeFrame(src).rest == src
  {
    var m := DecodeFrame(src).outcome.item;
    if m.U16? {
      SplitOfBigEndian(src[1], src[2]);
      assert Frame(m) == src[..3];
    } else {
      assert Frame(m) == src[..2];
    }
  }

  /** A length byte other than 1 or 2 (0 included) still consumes its frame and yields `Unrecognised`. */
  lemma OtherLengthsUnrecognised(src: seq<u8>)
    requires 1 <= |src| && 1 + src[0] as int <= |src|
    requires src[0] != 1 && src[0] != 2
    ensures DecodeFrame(src) == DecodeStep(Item(Unrecognised), src[1 + src[0] as int..])
  {
  }

  /** A strict prefix of a frame is "not enough data" and is left alone. */
  lemma FramePrefixIncomplete(m: TestMsg, p: seq<u8>)
    requires Encodable(m)
    requires |p| < |Frame(m)| && p == Frame(m)[..|p|]
    ensures DecodeFrame(p) == DecodeStep(NeedMore, p)
  {
  }

  /** Once the accumulator holds a whole frame, decoding takes exactly that frame. */
  lemma DecodeWholeFrame(m: TestMsg, grown: seq<u8>, later: seq<u8>, tail: seq<u8>)
    requires Encodable(m)
    requires grown + later == Frame(m) + tail && |Frame(m)| <= |grown|
    ensures DecodeFrame(grown) == DecodeStep(Item(m), grown[|Frame(m)|..])
    ensures grown[|Frame(m)|..] + later == tail
  {
    var f := Frame(m);
    calc {
      grown[..|f|];
      (grown + later)[..|f|];
      (f + tail)[..|f|];
      f;
    }
    assert grown == f + grown[|f|..];
    EncodeThenDecode(m, grown[|f|..]);
    calc {
      grown[|f|..] + later;
      (grown + later)[|f|..];
      (f + tail)[|f|..];
      tail;
    }
  }

  /** While the accumulator holds only part of a frame, decoding waits and more bytes are still to come. */
  lemma DecodePartFrame(m: TestMsg, grown: seq<u8>, later: seq<u8>, tail: seq<u8>)
    requires Encodable(m)
    requires grown + later == Frame(m) + tail && |grown| < |Frame(m)|
    ensures DecodeFrame(grown) == DecodeStep(NeedMore, grown)
    ensures later != []
  {
    var f := Frame(m);
    calc {
      grown;
      (grown + later)[..|grown|];
      (f + tail)[..|grown|];
      f[..|grown|];
    }
    FramePrefixIncomplete(m, grown);
  }

  /** A reader fed a frame in chunks of any sizes (empty ones too) yields
      exactly that message once its last byte is in, and consumes exactly
      the frame: what was not yet turned into items is then what followed it. */
  lemma {:induction false} ReadOneFrame(m: TestMsg, script: seq<Chunk<IoError>>, buf: seq<u8>, tail: seq<u8>)
    requires Encodable(m) && AllData(script)
    requires Stream(buf, script) == Frame(m) + tail
    ensures Run(DecodeFrame, script, buf).outcome == Produced(m)
    ensures Stream(Run(DecodeFrame, script, buf).buf, Run(DecodeFrame, script, buf).script) == tail
    decreases |script|
  {
    CodecKeepsContract();
    var (chunk, next) := NextChunk(script);
    var grown := buf + chunk.bytes;
    assert grown + Pending(next) == Frame(m) + tail by {
      PendingNext(script);
    }
    if |grown| >= |Frame(m)| {
      DecodeWholeFrame(m, grown, Pending(next), tail);
      assert Run(DecodeFrame, script, buf) == RunResult(Produced(m), next, grown[|Frame(m)|..]) by {
        RunStep(DecodeFrame, script, buf);
      }
    } else {
      DecodePartFrame(m, grown, Pending(next), tail);
      assert Run(DecodeFrame, script, buf) == Run(DecodeFrame, next, grown) by {
        RunStep(DecodeFrame, script, buf);
      }
      assert AllData(next);
      ReadOneFrame(m, next, grown, tail);
    }
  }

  /** Successive reads over a stream of frames, delivered in chunks of any
      sizes, yield the messages one per call and in order; bytes of a later
      frame that arrive with an earlier one stay in the accumulator for the
      next call. */
  lemma {:induction false} ReadFramesInOrder(ms: seq<TestMsg>, script: seq<Chunk<IoError>>, buf: seq<u8>, tail: seq<u8>)
    requires forall i :: 0 <= i < |ms| ==> Encodable(ms[i])
    requires AllData(script)
    requires Stream(buf, script) == Frames(ms) + tail
    ensures ReadCalls(DecodeFrame, script, buf, |ms|).outcomes == AllProduced(ms)
    ensures Stream(ReadCalls(DecodeFrame, script, buf, |ms|).buf, ReadCalls(DecodeFrame, script, buf, |ms|).script) == tail
  {
    if ms != [] {
      CodecKeepsContract();
      assert Frames(ms) + tail == Frame(ms[0]) + (Frames(ms[1..]) + tail);
      ReadOneFrame(ms[0], script, buf, Frames(ms[1..]) + tail);
      var r := Run(DecodeFrame, script, buf);
      assert AllData(r.script) by {
        RunReadsFirst(DecodeFrame, script, buf);
        forall i | 0 <= i < |r.script| ensures r.script[i].Data? {
          assert r.script[i] == script[|script| - |r.script| + i];
        }
      }
      ReadFramesInOrder(ms[1..], r.script, r.buf, tail);
    }
  }

  /** `reader_valid_u8`. */
  lemma ReaderValidU8()
    ensures Run(DecodeFrame, [Data([1, 128])], []) == RunResult(Produced(U8(128)), [], [])
  {
  }

  /** `reader_valid_u16`: `[2, 1, 128]` is `U16(2^8 + 128)`. */
  lemma ReaderValidU16()
    ensures Run(DecodeFrame, [Data([2, 1, 128])], []) == RunResult(Produced(U16(384)), [], [])
  {
  }

  /** `read_unrecognised`: a length-3 frame. */
  lemma ReadUnrecognised()
    ensures Run(DecodeFrame, [Data([3, 1, 128, 0])], []) == RunResult(Produced(Unrecognised), [], [])
  {
  }

  /** `write_valid_u8`, on a sink that behaves like a `Vec<u8>`. */
  lemma WriteValidU8()
    ensures WriteOnce(EncodeFrame, U8(12), SinkState([], 0, [], [])) == (Ok(()), SinkState([1, 12], 1, [], []))
  {
  }

  /** `write_valid_u16`: `1234` is written big-endian as `4, 210`. */
  lemma WriteValidU16()
    ensures WriteOnce(EncodeFrame, U16(1234), SinkState([], 0, [], [])) == (Ok(()), SinkState([2, 4, 210], 1, [], []))
  {
  }

  /** `invalid_write`: `Unrecognised` is refused and nothing reaches the sink. */
  lemma InvalidWrite(sink: SinkState<IoError>)
    ensures WriteOnce(EncodeFrame, Unrecognised, sink) == (Err(IoError(InvalidData, "")), sink)
  {
  }

  /** Two frames delivered by one read: the first call yields the first and
      leaves the second in the accumulator; the second call, whose own read
      returns 0 bytes, yields it. */
  lemma TwoFramesInOneRead()
    ensures ReadCalls(DecodeFrame, [Data([1, 5, 2, 1, 0])], [], 2)
         == Session([Produced(U8(5)), Produced(U16(256))], [], [])
  {
    var read: seq<u8> := [1, 5, 2, 1, 0];
    assert read[2..] == [2, 1, 0];
  }

  /** Read before decode: a whole frame waiting in the accumulator is not
      returned when the call's first read fails; the next call gets it. */
  lemma BufferedFrameBehindReadError(e: IoError)
    ensures ReadCalls(DecodeFrame, [Fail(e)], [1, 7], 2)
         == Session([Error(e), Produced(U8(7))], [], [])
  {
  }

  /** The single write's count is not checked: a sink that takes one byte
      still gets `Ok` from `framed_write`, holding only the length byte. */
  lemma ShortWriteStillOk()
    ensures WriteOnce(EncodeFrame, U16(1234), SinkState([], 0, [Accept(1)], []))
         == (Ok(()), SinkState([2], 1, [], []))
  {
    var frame: seq<u8> := [2, 4, 210];
    assert EncodeFrame(U16(1234), []) == Ok(frame);
    var s0: SinkState<IoError> := SinkState([], 0, [Accept(1)], []);
    assert s0.written + frame[..1] == [2];
    assert SinkWrite(s0, frame).0.Ok?;
    assert SinkWrite(s0, frame).1 == SinkState([2], 0, [], []);
    assert SinkFlush<IoError>(SinkState([2], 0, [], [])) == (Ok(()), SinkState([2], 1, [], []));
  }

  /** `TestCodec::decode` in place: the frame is taken off the front of `src`. */
  method Decode(src: ByteBuf) returns (r: Decoded<TestMsg, IoError>)
    modifies src
    ensures DecodeStep(r, src.data) == DecodeFrame(old(src.data))
  {
    if |src.data| < 1 {
      return NeedMore;
    }
    var msgLen := src.data[0];
    if |src.data| < msgLen as int + 1 {
      return NeedMore;
    }
    src.Advance(1);
    var msg := src.SplitTo(msgLen as nat);
    if msgLen == 1 {
      var val := msg.GetU8();
      r := Item(U8(val));
    } else if msgLen == 2 {
      var val := msg.GetU16();
      r := Item(U16(val));
    } else {
      r := Item(Unrecognised);
    }
  }

  /** `TestCodec::encode` in place: the frame is appended to `dst`; on error `dst` is untouched. */
  method Encode(item: TestMsg, dst: ByteBuf) returns (r: Result<(), IoError>)
    modifies dst
    ensures EncodeFrame(item, old(dst.data)).Ok? ==> r.Ok? && dst.data == EncodeFrame(item, old(dst.data)).value
    ensures EncodeFrame(item, old(dst.data)).Err? ==> r == Err(EncodeFrame(item, old(dst.data)).error) && dst.data == old(dst.data)
  {
    match item
    case U8(val) =>
      dst.PutU8(1);
      dst.PutU8(val);
      r := Ok(());
    case U16(val) =>
      dst.PutU8(2);
      dst.PutU16(val);
      r := Ok(());
    case Unrecognised =>
      r := Err(IoError(InvalidData, ""));
  }

  /** Writing any encodable message to an empty `Vec`-like sink and
      reading the bytes it received gives the message back, with nothing
      left over. */
  lemma WriteThenRead(m: TestMsg)
    requires Encodable(m)
    ensures var (r, sink) := WriteOnce(EncodeFrame, m, SinkState([], 0, [], []));
            && r.Ok? && sink.written == Frame(m)
            && Run(DecodeFrame, [Data(sink.written)], []).outcome == Produced(m)
            && Stream(Run(DecodeFrame, [Data(sink.written)], []).buf, Run(DecodeFrame, [Data(sink.written)], []).script) == []
  {
    EncodeAppendsFrame(m, []);
    WriteOnceOutcome(EncodeFrame, m, SinkState([], 0, [], []));
    var script: seq<Chunk<IoError>> := [Data(Frame(m))];
    assert Stream([], script) == Frame(m) + [] by {
      assert Pending(script[1..]) == [];
    }
    ReadOneFrame(m, script, [], []);
  }

  /** The `framed` test: a `Framed` pair writes `U16(1234)` to a `Vec`-like
      sink and reads `U16(1234)` back from a source holding its frame. */
  method FramedRoundTrip() returns (written: seq<u8>, msg: Outcome<TestMsg, IoError>)
    ensures written == [2, 4, 210] && msg == Produced(U16(1234))
  {
    CodecKeepsContract();
    var source := new Source([Data([2, 4, 210])]);
    var sink := new Sink([], []);
    var framed := new Framed(source, sink, DecodeFrame, EncodeFrame);
    var _ := framed.WriteFrame(U16(1234));
    WriteValidU16();
    msg := framed.ReadFrame();
    EncodeThenDecode(U16(1234), []);
    written := sink.written;
  }
}
