/** The frame-assembly layer: `FramedRead` (a persistent accumulator fed by
    a source and drained by a decoder), `FramedWrite` (encode into a fresh
    buffer, one `write`, one `flush`) and `Framed`, which pairs the two.

    `Run` is the specification of one `framed_read` call: it follows the
    loop read, append, decode until the decoder yields an item or an
    error, or a read fails. Where the loop as written would spin forever
    (the source is used up, so every read returns 0 bytes, and the decoder
    keeps answering "not enough data" without touching the accumulator)
    `Run` stops and answers `Diverges`. */
module Framed {
  import opened Bytes
  import opened Codec
  import opened Io

  /** What a `framed_read` call comes to. */
  datatype Outcome<I, E> = Produced(item: I) | Error(error: E) | Diverges

  /** The outcome with the source's remaining script and the accumulator after the call. */
  datatype RunResult<I, E> = RunResult(outcome: Outcome<I, E>, script: seq<Chunk<E>>, buf: seq<u8>)

  /** Bytes a chunk carries. */
  function ChunkBytes<E>(c: Chunk<E>): seq<u8> {
    if c.Data? then c.bytes else []
  }

  /** All bytes the source has yet to deliver, in order. */
  function Pending<E>(script: seq<Chunk<E>>): seq<u8> {
    if script == [] then [] else ChunkBytes(script[0]) + Pending(script[1..])
  }

  /** The bytes not yet turned into items: the accumulator followed by what the source still holds. */
  function Stream<E>(buf: seq<u8>, script: seq<Chunk<E>>): seq<u8> {
    buf + Pending(script)
  }

  /** One `framed_read` call on a source with `script` and an accumulator holding `buf`. */
  function Run<I, E>(decode: DecodeFn<I, E>, script: seq<Chunk<E>>, buf: seq<u8>): RunResult<I, E>
    requires DepletesFront(decode)
    decreases |script|, |buf|
  {
    var (chunk, next) := NextChunk(script);
    match chunk
    case Fail(e) => RunResult(Error(e), next, buf)
    case Data(bytes) =>
      var grown := buf + bytes;
      var step := decode(grown);
      match step.outcome
      case Item(x) => RunResult(Produced(x), next, step.rest)
      case Failed(e) => RunResult(Error(e), next, step.rest)
      case NeedMore =>
        if next == [] && step.rest == grown then RunResult(Diverges, next, grown)
        else
          assert IsSuffix(step.rest, grown);
          Run(decode, next, step.rest)
  }

  /** What `n` successive `framed_read` calls on the same reader come to. */
  datatype Session<I, E> = Session(outcomes: seq<Outcome<I, E>>, script: seq<Chunk<E>>, buf: seq<u8>)

  /** `n` successive `framed_read` calls; a call that never returns ends the session. */
  function ReadCalls<I, E>(decode: DecodeFn<I, E>, script: seq<Chunk<E>>, buf: seq<u8>, n: nat): Session<I, E>
    requires DepletesFront(decode)
    decreases n
  {
    if n == 0 then Session([], script, buf)
    else
      var r := Run(decode, script, buf);
      if r.outcome.Diverges? then Session([Diverges], r.script, r.buf)
      else
        var more := ReadCalls(decode, r.script, r.buf, n - 1);
        Session([r.outcome] + more.outcomes, more.script, more.buf)
  }

  /** One `framed_write` call: encode into an empty buffer; on success one
      `write` of the whole buffer, whose count is not looked at, then `flush`. */
  function WriteOnce<I, E>(encode: EncodeFn<I, E>, item: I, sink: SinkState<E>): (Result<(), E>, SinkState<E>) {
    match encode(item, [])
    case Err(e) => (Err(e), sink)
    case Ok(dst) =>
      var (w, afterWrite) := SinkWrite(sink, dst);
      if w.Err? then (Err(w.error), afterWrite) else SinkFlush(afterWrite)
  }

  class FramedRead<I, E> {
    const inner: Source<E>
    const decoder: DecodeFn<I, E>
    var buf: seq<u8>

    ghost predicate Valid()
      reads this, inner
    {
      inner.Valid() && DepletesFront(decoder)
    }

    /** `FramedRead::new`: the accumulator starts empty. */
    constructor (inner: Source<E>, decoder: DecodeFn<I, E>)
      requires inner.Valid() && DepletesFront(decoder)
      ensures Valid()
      ensures this.inner == inner && this.decoder == decoder && buf == []
    {
      this.inner := inner;
      this.decoder := decoder;
      buf := [];
    }

    /** `framed_read`: read, append what was read to the accumulator, decode; repeat on "not enough data". */
    method ReadFrame() returns (r: Outcome<I, E>)
      requires Valid()
      modifies this, inner
      ensures Valid()
      ensures RunResult(r, inner.script, buf) == Run(decoder, old(inner.script), old(buf))
    {
      while true
        invariant Valid()
        invariant Run(decoder, inner.script, buf) == Run(decoder, old(inner.script), old(buf))
        decreases |inner.script|, |buf|
      {
        var chunk := inner.Read();
        if chunk.Fail? {
          return Error(chunk.error);
        }
        var grown := buf + chunk.bytes;
        buf := grown;
        var step := decoder(buf);
        assert IsSuffix(step.rest, grown);
        buf := step.rest;
        match step.outcome
        case Item(x) =>
          return Produced(x);
        case Failed(e) =>
          return Error(e);
        case NeedMore =>
          if inner.script == [] && buf == grown {
            return Diverges;
          }
      }
    }
  }

  class FramedWrite<I, E> {
    const inner: Sink<E>
    const encoder: EncodeFn<I, E>

    /** `FramedWrite::new`. */
    constructor (inner: Sink<E>, encoder: EncodeFn<I, E>)
      ensures this.inner == inner && this.encoder == encoder
    {
      this.inner := inner;
      this.encoder := encoder;
    }

    /** `framed_write`: encode into a fresh buffer; on success one `write`, then `flush`. */
    method WriteFrame(item: I) returns (r: Result<(), E>)
      modifies inner
      ensures (r, inner.State()) == WriteOnce(encoder, item, old(inner.State()))
    {
      var dst: seq<u8> := [];
      var encoded := encoder(item, dst);
      if encoded.Err? {
        return Err(encoded.error);
      }
      dst := encoded.value;
      var w := inner.Write(dst);
      if w.Err? {
        return Err(w.error);
      }
      r := inner.Flush();
    }
  }

  class Framed<I, E> {
    const reader: FramedRead<I, E>
    const writer: FramedWrite<I, E>

    /** `Framed::new`: a fresh reader over `source` and a fresh writer over `sink`. */
    constructor (source: Source<E>, sink: Sink<E>, decoder: DecodeFn<I, E>, encoder: EncodeFn<I, E>)
      requires source.Valid() && DepletesFront(decoder)
      ensures fresh(reader) && fresh(writer)
      ensures reader.Valid()
      ensures reader.inner == source && reader.decoder == decoder && reader.buf == []
      ensures writer.inner == sink && writer.encoder == encoder
    {
      reader := new FramedRead(source, decoder);
      writer := new FramedWrite(sink, encoder);
    }

    /** `Framed::split`: the two halves, unchanged. */
    method Split() returns (r: FramedRead<I, E>, w: FramedWrite<I, E>)
      ensures r == reader && w == writer
    {
      r, w := reader, writer;
    }

    /** `framed_read` on the pair: the reader's. */
    method ReadFrame() returns (r: Outcome<I, E>)
      requires reader.Valid()
      modifies reader, reader.inner
      ensures reader.Valid()
      ensures RunResult(r, reader.inner.script, reader.buf) == Run(reader.decoder, old(reader.inner.script), old(reader.buf))
    {
      r := reader.ReadFrame();
    }

    /** `framed_write` on the pair: the writer's. */
    method WriteFrame(item: I) returns (r: Result<(), E>)
      modifies writer.inner
      ensures (r, writer.inner.State()) == WriteOnce(writer.encoder, item, old(writer.inner.State()))
    {
      r := writer.WriteFrame(item);
    }
  }

  /** The answer a decided decoder call gives `framed_read`. */
  function Answer<I, E>(d: Decoded<I, E>): Outcome<I, E>
    requires !d.NeedMore?
  {
    if d.Item? then Produced(d.item) else Error(d.error)
  }

  /** Every chunk of the script carries data; no read fails. */
  predicate AllData<E>(script: seq<Chunk<E>>) {
    forall i :: 0 <= i < |script| ==> script[i].Data?
  }

  lemma PendingNext<E>(script: seq<Chunk<E>>)
    ensures Pending(script) == ChunkBytes(NextChunk(script).0) + Pending(NextChunk(script).1)
  {
  }

  /** The first `k` reads of the script return data; later ones may fail. */
  predicate DataUpTo<E>(script: seq<Chunk<E>>, k: nat) {
    k <= |script| && forall i :: 0 <= i < k ==> script[i].Data?
  }

  /** After the first read, one read fewer is known to return data. */
  lemma DataUpToAfterFirst<E>(script: seq<Chunk<E>>, k: nat)
    requires 0 < k && DataUpTo(script, k)
    ensures DataUpTo(script[1..], k - 1)
  {
    forall i | 0 <= i < k - 1 ensures script[1..][i].Data? {
      assert script[1..][i] == script[i + 1];
    }
  }

  /** The bytes of the first `j + 1` chunks: the first chunk's, then those of the next `j`. */
  lemma PendingOfPrefix<E>(script: seq<Chunk<E>>, j: nat)
    requires j < |script| && script[0].Data?
    ensures Pending(script[..j + 1]) == script[0].bytes + Pending(script[1..][..j])
  {
    assert script[..j + 1][1..] == script[1..][..j];
  }

  /** One iteration of the loop when the read succeeds. */
  lemma RunStep<I, E>(decode: DecodeFn<I, E>, script: seq<Chunk<E>>, buf: seq<u8>)
    requires DepletesFront(decode)
    requires NextChunk(script).0.Data?
    ensures var next := NextChunk(script).1;
            var grown := buf + NextChunk(script).0.bytes;
            var step := decode(grown);
            Run(decode, script, buf) ==
              if !step.outcome.NeedMore? then RunResult(Answer(step.outcome), next, step.rest)
              else if next == [] && step.rest == grown then RunResult(Diverges, [], grown)
              else Run(decode, next, step.rest)
  {
  }

  /** Each call reads before it decodes: whatever it answers, the first
      chunk of the script has been consumed, even when the accumulator
      already held a whole frame. */
  lemma {:induction false} RunReadsFirst<I, E>(decode: DecodeFn<I, E>, script: seq<Chunk<E>>, buf: seq<u8>)
    requires DepletesFront(decode)
    ensures IsSuffix(Run(decode, script, buf).script, NextChunk(script).1)
    decreases |script|, |buf|
  {
    var (chunk, next) := NextChunk(script);
    if chunk.Data? {
      var grown := buf + chunk.bytes;
      var step := decode(grown);
      assert IsSuffix(step.rest, grown);
      if step.outcome.NeedMore? && !(next == [] && step.rest == grown) {
        assert Run(decode, script, buf) == Run(decode, next, step.rest) by {
          RunStep(decode, script, buf);
        }
        RunReadsFirst(decode, next, step.rest);
        SuffixTransitive(Run(decode, next, step.rest).script, NextChunk(next).1, next);
      } else {
        assert Run(decode, script, buf).script == next by {
          RunStep(decode, script, buf);
        }
      }
    }
  }

  /** The accumulator is a FIFO: bytes are appended at the back in the
      order read and leave only from the front, so what is left unconsumed
      after a call (accumulator, then the rest of the source) is a suffix
      of what was unconsumed before it. */
  lemma {:induction false} RunKeepsByteOrder<I, E>(decode: DecodeFn<I, E>, script: seq<Chunk<E>>, buf: seq<u8>)
    requires DepletesFront(decode)
    ensures IsSuffix(Stream(Run(decode, script, buf).buf, Run(decode, script, buf).script), Stream(buf, script))
    decreases |script|, |buf|
  {
    var (chunk, next) := NextChunk(script);
    PendingNext(script);
    if chunk.Data? {
      var grown := buf + chunk.bytes;
      var step := decode(grown);
      assert Stream(buf, script) == grown + Pending(next);
      assert IsSuffix(step.rest, grown);
      SuffixAppend(step.rest, grown, Pending(next));
      if step.outcome.NeedMore? && !(next == [] && step.rest == grown) {
        var r := Run(decode, next, step.rest);
        assert Run(decode, script, buf) == r by {
          RunStep(decode, script, buf);
        }
        RunKeepsByteOrder(decode, next, step.rest);
        SuffixTransitive(Stream(r.buf, r.script), Stream(step.rest, next), Stream(buf, script));
      } else {
        RunStep(decode, script, buf);
      }
    }
  }

  /** `Diverges` is answered only at a true fixed point of the loop: the
      source is used up, so each further read returns 0 bytes, and the
      decoder answers "not enough data" on the accumulator without touching
      it, so every later iteration repeats the same one. */
  lemma {:induction false} DivergesOnlyWhenSpinning<I, E>(decode: DecodeFn<I, E>, script: seq<Chunk<E>>, buf: seq<u8>)
    requires DepletesFront(decode)
    requires Run(decode, script, buf).outcome.Diverges?
    ensures Run(decode, script, buf).script == []
    ensures decode(Run(decode, script, buf).buf) == DecodeStep(NeedMore, Run(decode, script, buf).buf)
    decreases |script|, |buf|
  {
    var (chunk, next) := NextChunk(script);
    var grown := buf + chunk.bytes;
    var step := decode(grown);
    assert IsSuffix(step.rest, grown);
    RunStep(decode, script, buf);
    if !(next == [] && step.rest == grown) {
      DivergesOnlyWhenSpinning(decode, next, step.rest);
    }
  }

  /** Conversely, at that fixed point the loop as written never returns. */
  lemma SpinningDiverges<I, E>(decode: DecodeFn<I, E>, buf: seq<u8>)
    requires DepletesFront(decode)
    requires decode(buf) == DecodeStep(NeedMore, buf)
    ensures Run(decode, [], buf) == RunResult(Diverges, [], buf)
  {
    assert buf + ChunkBytes(NextChunk<E>([]).0) == buf;
  }

  /** A zero-byte read is not an error: once the source is used up the call
      still decodes what the accumulator holds and returns its answer. */
  lemma ZeroByteReadStillDecodes<I, E>(decode: DecodeFn<I, E>, buf: seq<u8>)
    requires DepletesFront(decode)
    requires !decode(buf).outcome.NeedMore?
    ensures Run(decode, [], buf) == RunResult(Answer(decode(buf).outcome), [], decode(buf).rest)
  {
    assert buf + ChunkBytes(NextChunk<E>([]).0) == buf;
  }

  /** A failed read ends the call with that error and no decode attempt;
      the accumulator is left as it was, even if it held a whole frame. */
  lemma ReadErrorEndsCall<I, E>(decode: DecodeFn<I, E>, e: E, more: seq<Chunk<E>>, buf: seq<u8>)
    requires DepletesFront(decode)
    ensures Run(decode, [Fail(e)] + more, buf) == RunResult(Error(e), more, buf)
  {
  }

  /** The call returns the decoder's first answer that is not "not enough
      data", after exactly the reads needed to get it: with `k` chunks read
      the accumulator is the old one followed by those `k` chunks, an item
      comes back as the result, a decoder error comes back unchanged, and
      the chunks after the `k`-th are not read, whatever they would return. */
  lemma {:induction false} ReturnsFirstAnswer<I, E>(decode: DecodeFn<I, E>, script: seq<Chunk<E>>, buf: seq<u8>, k: nat)
    requires DepletesFront(decode) && KeepsOnNeedMore(decode)
    requires 0 < k && DataUpTo(script, k)
    requires forall j :: 0 < j < k ==> decode(buf + Pending(script[..j])).outcome.NeedMore?
    requires !decode(buf + Pending(script[..k])).outcome.NeedMore?
    ensures var step := decode(buf + Pending(script[..k]));
            Run(decode, script, buf) == RunResult(Answer(step.outcome), script[k..], step.rest)
  {
    var last := decode(buf + Pending(script[..k]));
    var grown := buf + script[0].bytes;
    var step := decode(grown);
    assert grown == buf + Pending(script[..1]) by {
      PendingOfPrefix(script, 0);
    }
    if k > 1 {
      assert Run(decode, script, buf) == Run(decode, script[1..], grown) by {
        assert step.outcome.NeedMore? && step.rest == grown;
        RunStep(decode, script, buf);
      }
      assert Run(decode, script[1..], grown) == RunResult(Answer(last.outcome), script[k..], last.rest) by {
        NeedMoreAfterFirstRead(decode, script, buf, k);
        DataUpToAfterFirst(script, k);
        ReturnsFirstAnswer(decode, script[1..], grown, k - 1);
        assert script[1..][k - 1..] == script[k..];
      }
    } else {
      assert Run(decode, script, buf) == RunResult(Answer(step.outcome), script[1..], step.rest) by {
        RunStep(decode, script, buf);
      }
    }
  }

  /** The decoder's answers after the first chunk was read, counted from
      the second chunk instead of the first. */
  lemma NeedMoreAfterFirstRead<I, E>(decode: DecodeFn<I, E>, script: seq<Chunk<E>>, buf: seq<u8>, k: nat)
    requires 1 < k <= |script| && script[0].Data?
    requires forall j :: 0 < j < k ==> decode(buf + Pending(script[..j])).outcome.NeedMore?
    ensures var grown := buf + script[0].bytes;
            forall j :: 0 < j < k - 1 ==> decode(grown + Pending(script[1..][..j])).outcome.NeedMore?
    ensures buf + script[0].bytes + Pending(script[1..][..k - 1]) == buf + Pending(script[..k])
  {
    var grown := buf + script[0].bytes;
    forall j | 0 < j < k - 1
      ensures decode(grown + Pending(script[1..][..j])).outcome.NeedMore?
    {
      PendingOfPrefix(script, j);
      assert grown + Pending(script[1..][..j]) == buf + Pending(script[..j + 1]);
    }
    PendingOfPrefix(script, k - 1);
  }

  /** A read that fails after `j` reads answered only by "not enough data"
      ends the call with its error: the bytes of the `j` earlier reads stay
      in the accumulator, and the chunks after the failed read are not read. */
  lemma {:induction false} ReadFailsAfterNeedMore<I, E>(decode: DecodeFn<I, E>, script: seq<Chunk<E>>, buf: seq<u8>, j: nat)
    requires DepletesFront(decode) && KeepsOnNeedMore(decode)
    requires DataUpTo(script, j) && j < |script| && script[j].Fail?
    requires forall i :: 0 < i <= j ==> decode(buf + Pending(script[..i])).outcome.NeedMore?
    ensures Run(decode, script, buf) == RunResult(Error(script[j].error), script[j + 1..], buf + Pending(script[..j]))
  {
    if j == 0 {
      assert buf + Pending(script[..0]) == buf by {
        assert script[..0] == [];
      }
      assert script == [Fail(script[0].error)] + script[1..];
      ReadErrorEndsCall(decode, script[0].error, script[1..], buf);
    } else {
      var grown := buf + script[0].bytes;
      ShiftBeforeFailedRead(decode, script, buf, j);
      NeedMoreReadsOn(decode, script, buf);
      ReadFailsAfterNeedMore(decode, script[1..], grown, j - 1);
    }
  }

  /** One round of "not enough data" with more of the script to come: the
      loop goes on with the next read, the accumulator grown by the chunk. */
  lemma NeedMoreReadsOn<I, E>(decode: DecodeFn<I, E>, script: seq<Chunk<E>>, buf: seq<u8>)
    requires DepletesFront(decode) && KeepsOnNeedMore(decode)
    requires 1 < |script| && script[0].Data?
    requires decode(buf + script[0].bytes).outcome.NeedMore?
    ensures Run(decode, script, buf) == Run(decode, script[1..], buf + script[0].bytes)
  {
    RunStep(decode, script, buf);
  }

  /** The hypotheses of `ReadFailsAfterNeedMore`, counted from the second
      chunk once the first has been read into the accumulator. */
  lemma ShiftBeforeFailedRead<I, E>(decode: DecodeFn<I, E>, script: seq<Chunk<E>>, buf: seq<u8>, j: nat)
    requires 0 < j < |script| && DataUpTo(script, j) && script[j].Fail?
    requires forall i :: 0 < i <= j ==> decode(buf + Pending(script[..i])).outcome.NeedMore?
    ensures var grown := buf + script[0].bytes;
            && decode(grown).outcome.NeedMore?
            && DataUpTo(script[1..], j - 1) && script[1..][j - 1] == script[j]
            && (forall i :: 0 < i <= j - 1 ==> decode(grown + Pending(script[1..][..i])).outcome.NeedMore?)
            && grown + Pending(script[1..][..j - 1]) == buf + Pending(script[..j])
            && script[1..][j..] == script[j + 1..]
  {
    var grown := buf + script[0].bytes;
    assert grown == buf + Pending(script[..1]) by {
      PendingOfPrefix(script, 0);
    }
    NeedMoreAfterFirstRead(decode, script, buf, j + 1);
    DataUpToAfterFirst(script, j);
    PendingOfPrefix(script, j - 1);
  }

  /** If the encoder fails, `framed_write` returns its error and the sink is
      not touched: no write, no flush. */
  lemma WriteEncodeFailureTouchesNothing<I, E>(encode: EncodeFn<I, E>, item: I, sink: SinkState<E>)
    requires encode(item, []).Err?
    ensures WriteOnce(encode, item, sink) == (Err(encode(item, []).error), sink)
  {
  }

  /** `framed_write` succeeds exactly when encoding, the one write and the
      flush all succeed; then the sink has received the part of the frame
      that one write took (the count it returned is not checked, so a
      short write goes unnoticed), one write reply and one flush reply are
      used up, and one flush has happened. */
  lemma WriteOnceOutcome<I, E>(encode: EncodeFn<I, E>, item: I, sink: SinkState<E>)
    ensures WriteOnce(encode, item, sink).0.Ok? <==>
              encode(item, []).Ok? &&
              !(sink.writeReplies != [] && sink.writeReplies[0].Refuse?) &&
              !(sink.flushReplies != [] && sink.flushReplies[0].FlushFails?)
    ensures WriteOnce(encode, item, sink).0.Ok? ==>
              var frame := encode(item, []).value;
              WriteOnce(encode, item, sink).1 == SinkState(
                sink.written + frame[..Accepted(sink.writeReplies, |frame|)],
                sink.flushes + 1,
                Rest(sink.writeReplies),
                Rest(sink.flushReplies))
  {
  }
}
