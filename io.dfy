/** Stand-ins for the `std::io::Read` and `std::io::Write` objects the
    framing layer owns. A source is a finite script of what successive
    `read` calls return; once the script is used up every `read` returns 0
    bytes. A sink records the bytes that reached it and the flushes, and
    answers `write` and `flush` from scripts of replies; once a script is
    used up it behaves like a `Vec<u8>` (every write is taken whole, every
    flush succeeds). */
module Io {
  import opened Bytes
  import opened Codec

  datatype ErrorKind = InvalidData | Other
  datatype IoError = IoError(kind: ErrorKind, message: string)

  /** Size of the scratch array `framed_read` reads into, and the initial
      capacity of the accumulator and of each write buffer. */
  const INITIAL_CAPACITY: nat := 8 * 1024

  /** What one `read` call returns: some bytes (possibly none) or an error. */
  datatype Chunk<E> = Data(bytes: seq<u8>) | Fail(error: E)

  /** A `read` into the scratch array never returns more bytes than it holds. */
  predicate FitsReadBuffer<E>(script: seq<Chunk<E>>) {
    forall i :: 0 <= i < |script| && script[i].Data? ==> |script[i].bytes| <= INITIAL_CAPACITY
  }

  /** The next `read`'s answer and the script left after it. */
  function NextChunk<E>(script: seq<Chunk<E>>): (Chunk<E>, seq<Chunk<E>>) {
    if script == [] then (Data([]), []) else (script[0], script[1..])
  }

  class Source<E> {
    var script: seq<Chunk<E>>

    ghost predicate Valid()
      reads this
    {
      FitsReadBuffer(script)
    }

    constructor (script: seq<Chunk<E>>)
      requires FitsReadBuffer(script)
      ensures Valid() && this.script == script
    {
      this.script := script;
    }

    /** `Read::read`: the next scripted answer, or 0 bytes once the script is done. */
    method Read() returns (c: Chunk<E>)
      requires Valid()
      modifies this
      ensures Valid()
      ensures (c, script) == NextChunk(old(script))
      ensures c.Data? ==> |c.bytes| <= INITIAL_CAPACITY
    {
      if script == [] {
        c := Data([]);
      } else {
        c := script[0];
        script := script[1..];
      }
    }
  }

  /** How the sink answers one `write`: take at most `limit` bytes, or fail. */
  datatype WriteReply<E> = Accept(limit: nat) | Refuse(error: E)

  /** How the sink answers one `flush`. */
  datatype FlushReply<E> = Flushed | FlushFails(error: E)

  /** Everything observable about a sink. */
  datatype SinkState<E> = SinkState(
    written: seq<u8>,
    flushes: nat,
    writeReplies: seq<WriteReply<E>>,
    flushReplies: seq<FlushReply<E>>)

  /** How many of `len` offered bytes the next `write` takes. */
  function Accepted<E>(replies: seq<WriteReply<E>>, len: nat): nat {
    if replies == [] || replies[0].Refuse? then len
    else if replies[0].limit < len then replies[0].limit
    else len
  }

  /** `Write::write`: `Ok(count)` with the first `count` bytes recorded, or the scripted error. */
  function SinkWrite<E>(s: SinkState<E>, bytes: seq<u8>): (Result<nat, E>, SinkState<E>) {
    if s.writeReplies == [] then
      var n: nat := |bytes|;
      (Ok(n), s.(written := s.written + bytes))
    else if s.writeReplies[0].Refuse? then
      (Err(s.writeReplies[0].error), s.(writeReplies := s.writeReplies[1..]))
    else
      var n := Accepted(s.writeReplies, |bytes|);
      (Ok(n), s.(written := s.written + bytes[..n], writeReplies := s.writeReplies[1..]))
  }

  /** `Write::flush`: counted when it succeeds. */
  function SinkFlush<E>(s: SinkState<E>): (Result<(), E>, SinkState<E>) {
    if s.flushReplies == [] then
      (Ok(()), s.(flushes := s.flushes + 1))
    else if s.flushReplies[0].FlushFails? then
      (Err(s.flushReplies[0].error), s.(flushReplies := s.flushReplies[1..]))
    else
      (Ok(()), s.(flushes := s.flushes + 1, flushReplies := s.flushReplies[1..]))
  }

  class Sink<E> {
    var written: seq<u8>
    var flushes: nat
    var writeReplies: seq<WriteReply<E>>
    var flushReplies: seq<FlushReply<E>>

    function State(): SinkState<E>
      reads this
    {
      SinkState(written, flushes, writeReplies, flushReplies)
    }

    constructor (writeReplies: seq<WriteReply<E>>, flushReplies: seq<FlushReply<E>>)
      ensures State() == SinkState([], 0, writeReplies, flushReplies)
    {
      written, flushes := [], 0;
      this.writeReplies, this.flushReplies := writeReplies, flushReplies;
    }

    method Write(bytes: seq<u8>) returns (r: Result<nat, E>)
      modifies this
      ensures (r, State()) == SinkWrite(old(State()), bytes)
    {
      var (res, s) := SinkWrite(State(), bytes);
      r := res;
      written, flushes, writeReplies, flushReplies := s.written, s.flushes, s.writeReplies, s.flushReplies;
    }

    method Flush() returns (r: Result<(), E>)
      modifies this
      ensures (r, State()) == SinkFlush(old(State()))
    {
      var (res, s) := SinkFlush(State());
      r := res;
      written, flushes, writeReplies, flushReplies := s.written, s.flushes, s.writeReplies, s.flushReplies;
    }
  }
}
