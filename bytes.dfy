/** Byte-level vocabulary shared by the framing layer: Rust's `u8` and `u16`,
    big-endian splitting of a `u16`, prefix/suffix relations on byte strings,
    and `ByteBuf`, a stand-in for the part of `bytes::BytesMut` (with the
    `Buf`/`BufMut` accessors) that the test codec uses in place. */
module Bytes {

  newtype u8 = x: int | 0 <= x < 0x100
  newtype u16 = x: int | 0 <= x < 0x1_0000

  /** The `u16` whose big-endian bytes are `hi`, `lo` (what `Buf::get_u16` reads). */
  function BigEndian(hi: u8, lo: u8): u16 {
    (hi as int * 0x100 + lo as int) as u16
  }

  /** First byte `BufMut::put_u16` writes. */
  function HighByte(v: u16): u8 {
    (v as int / 0x100) as u8
  }

  /** Second byte `BufMut::put_u16` writes. */
  function LowByte(v: u16): u8 {
    (v as int % 0x100) as u8
  }

  lemma BigEndianOfSplit(v: u16)
    ensures BigEndian(HighByte(v), LowByte(v)) == v
  {
  }

  lemma SplitOfBigEndian(hi: u8, lo: u8)
    ensures HighByte(BigEndian(hi, lo)) == hi && LowByte(BigEndian(hi, lo)) == lo
  {
  }

  /** `s` without its first element, if it has one. */
  function Rest<T>(s: seq<T>): seq<T> {
    if s == [] then [] else s[1..]
  }

  /** `a` begins `b`. */
  ghost predicate IsPrefix<T>(a: seq<T>, b: seq<T>) {
    |a| <= |b| && a == b[..|a|]
  }

  /** `a` is what is left of `b` once some elements were taken off its front. */
  ghost predicate IsSuffix<T>(a: seq<T>, b: seq<T>) {
    |a| <= |b| && a == b[|b| - |a|..]
  }

  lemma SuffixTransitive<T>(a: seq<T>, b: seq<T>, c: seq<T>)
    requires IsSuffix(a, b) && IsSuffix(b, c)
    ensures IsSuffix(a, c)
  {
    assert b[|b| - |a|..] == c[|c| - |a|..];
  }

  lemma SuffixAppend<T>(a: seq<T>, b: seq<T>, t: seq<T>)
    requires IsSuffix(a, b)
    ensures IsSuffix(a + t, b + t)
  {
    assert (b + t)[|b| - |a|..] == b[|b| - |a|..] + t;
  }

  /** A growable byte buffer; reading takes bytes off the front, writing adds at the back. */
  class ByteBuf {
    var data: seq<u8>

    constructor ()
      ensures data == []
    {
      data := [];
    }

    /** `Buf::advance`: drop `n` bytes from the front. */
    method Advance(n: nat)
      requires n <= |data|
      modifies this
      ensures data == old(data)[n..]
    {
      data := data[n..];
    }

    /** `BytesMut::split_to`: the first `n` bytes move into a new buffer. */
    method SplitTo(n: nat) returns (head: ByteBuf)
      requires n <= |data|
      modifies this
      ensures fresh(head)
      ensures head.data == old(data)[..n] && data == old(data)[n..]
    {
      head := new ByteBuf();
      head.data := data[..n];
      data := data[n..];
    }

    /** `Buf::get_u8`: take one byte off the front. */
    method GetU8() returns (b: u8)
      requires 1 <= |data|
      modifies this
      ensures b == old(data)[0] && data == old(data)[1..]
    {
      b := data[0];
      data := data[1..];
    }

    /** `Buf::get_u16`: take two bytes off the front, read big-endian. */
    method GetU16() returns (v: u16)
      requires 2 <= |data|
      modifies this
      ensures v == BigEndian(old(data)[0], old(data)[1]) && data == old(data)[2..]
    {
      v := BigEndian(data[0], data[1]);
      data := data[2..];
    }

    /** `BufMut::put_u8`: append one byte. */
    method PutU8(b: u8)
      modifies this
      ensures data == old(data) + [b]
    {
      data := data + [b];
    }

    /** `BufMut::put_u16`: append two bytes, big-endian. */
    method PutU16(v: u16)
      modifies this
      ensures data == old(data) + [HighByte(v), LowByte(v)]
    {
      data := data + [HighByte(v), LowByte(v)];
    }
  }
}
