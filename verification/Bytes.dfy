/** Machine integers and byte strings as the codecs use them: unsigned integers
    are mathematical integers with an explicit range, and every big- or
    little-endian field has a writer and a reader that undo each other. */
module Bytes {
  type byte = x: int | 0 <= x < 0x100
  type u16 = x: int | 0 <= x < 0x1_0000
  type u32 = x: int | 0 <= x < 0x1_0000_0000
  type bytes = seq<byte>

  const TWO_TO_THE_24 := 0x100_0000
  const TWO_TO_THE_32 := 0x1_0000_0000

  datatype Option<+T> = None | Some(value: T)

  function Min(a: int, b: int): int {
    if a <= b then a else b
  }

  // ---- writers ----

  function Be16(v: u16): bytes {
    [v / 0x100, v % 0x100]
  }

  /** Three low-order bytes; higher bits of `v` are lost. */
  function Be24(v: u32): (r: bytes)
    ensures |r| == 3
  {
    [v / 0x1_0000 % 0x100] + Be16(v % 0x1_0000)
  }

  function Be32(v: u32): (r: bytes)
    ensures |r| == 4
  {
    Be16(v / 0x1_0000) + Be16(v % 0x1_0000)
  }

  function Le32(v: u32): (r: bytes)
    ensures |r| == 4
  {
    var hi, lo := v / 0x1_0000, v % 0x1_0000;
    [lo % 0x100, lo / 0x100, hi % 0x100, hi / 0x100]
  }

  // ---- readers, at an offset ----

  function At(b: bytes, i: nat): int
    requires i < |b|
  {
    b[i]
  }

  function U16At(b: bytes, i: nat): u16
    requires i + 2 <= |b|
  {
    At(b, i) * 0x100 + At(b, i + 1)
  }

  function U24At(b: bytes, i: nat): (r: u32)
    requires i + 3 <= |b|
    ensures r < TWO_TO_THE_24
  {
    At(b, i) * 0x1_0000 + U16At(b, i + 1)
  }

  function U32At(b: bytes, i: nat): u32
    requires i + 4 <= |b|
  {
    U16At(b, i) * 0x1_0000 + U16At(b, i + 2)
  }

  function U32LeAt(b: bytes, i: nat): u32
    requires i + 4 <= |b|
  {
    At(b, i) + At(b, i + 1) * 0x100 + (At(b, i + 2) + At(b, i + 3) * 0x100) * 0x1_0000
  }

  // ---- a reader undoes its writer ----

  lemma Be16RoundTrip(v: u16)
    ensures U16At(Be16(v), 0) == v
  {
  }

  lemma Be24RoundTrip(v: u32)
    ensures U24At(Be24(v), 0) == v % TWO_TO_THE_24
  {
    var hi, lo := v / 0x1_0000, v % 0x1_0000;
    assert v == hi / 0x100 * TWO_TO_THE_24 + (hi % 0x100 * 0x1_0000 + lo);
  }

  lemma Be32RoundTrip(v: u32)
    ensures U32At(Be32(v), 0) == v
  {
    var hi, lo: u16 := v / 0x1_0000, v % 0x1_0000;
    assert U16At(Be32(v), 0) == hi / 0x100 * 0x100 + hi % 0x100;
    assert U16At(Be32(v), 2) == lo / 0x100 * 0x100 + lo % 0x100;
  }

  lemma Le32RoundTrip(v: u32)
    ensures U32LeAt(Le32(v), 0) == v
  {
    var hi, lo := v / 0x1_0000, v % 0x1_0000;
    assert lo % 0x100 + lo / 0x100 * 0x100 == lo;
    assert hi % 0x100 + hi / 0x100 * 0x100 == hi;
  }

  lemma ConcatAssociates<T>(a: seq<T>, b: seq<T>, c: seq<T>)
    ensures a + (b + c) == a + b + c
  {
  }

  lemma ConcatAssociatesTwice(a: bytes, b: bytes, c: bytes, d: bytes)
    ensures a + (b + (c + d)) == a + b + c + d
  {
  }

  // ---- sequences ----

  predicate IsSuffix<T(==)>(b: seq<T>, of: seq<T>) {
    |b| <= |of| && b == of[|of| - |b|..]
  }

  lemma SuffixTrans<T>(a: seq<T>, b: seq<T>, c: seq<T>)
    requires IsSuffix(a, b) && IsSuffix(b, c)
    ensures IsSuffix(a, c)
  {
    assert c[|c| - |b|..][|b| - |a|..] == c[|c| - |a|..];
  }

  function Flatten(parts: seq<bytes>): bytes {
    if parts == [] then [] else parts[0] + Flatten(parts[1..])
  }

  /** The byte buffers of the `bytes` crate: data is consumed at the front and
      appended at the back, in place. */
  class ByteBuf {
    var data: bytes

    constructor (data: bytes)
      ensures this.data == data
    {
      this.data := data;
    }

    method Advance(n: nat)
      requires n <= |data|
      modifies this
      ensures data == old(data)[n..]
    {
      data := data[n..];
    }

    method Take(n: nat) returns (r: bytes)
      requires n <= |data|
      modifies this
      ensures r == old(data)[..n] && data == old(data)[n..]
    {
      r := data[..n];
      data := data[n..];
    }

    method GetU8() returns (r: byte)
      requires 1 <= |data|
      modifies this
      ensures r == old(data)[0] && data == old(data)[1..]
    {
      r := data[0];
      data := data[1..];
    }

    method GetU16() returns (r: u16)
      requires 2 <= |data|
      modifies this
      ensures r == U16At(old(data), 0) && data == old(data)[2..]
    {
      r := U16At(data, 0);
      data := data[2..];
    }

    method GetU24() returns (r: u32)
      requires 3 <= |data|
      modifies this
      ensures r == U24At(old(data), 0) && data == old(data)[3..]
    {
      r := U24At(data, 0);
      data := data[3..];
    }

    method GetU32() returns (r: u32)
      requires 4 <= |data|
      modifies this
      ensures r == U32At(old(data), 0) && data == old(data)[4..]
    {
      r := U32At(data, 0);
      data := data[4..];
    }

    method GetU32Le() returns (r: u32)
      requires 4 <= |data|
      modifies this
      ensures r == U32LeAt(old(data), 0) && data == old(data)[4..]
    {
      r := U32LeAt(data, 0);
      data := data[4..];
    }

    method Put(b: bytes)
      modifies this
      ensures data == old(data) + b
    {
      data := data + b;
    }
  }
}
