/** The value type shared by AMF0 and AMF3, its strings and its numbers. */
module Amf {
  import opened Bytes

  /** An IEEE 754 double as its eight big-endian bytes; nothing here computes with doubles. */
  type F64 = s: bytes | |s| == 8 witness [0, 0, 0, 0, 0, 0, 0, 0]

  type i32 = x: int | -0x8000_0000 <= x < 0x8000_0000

  /** A hash map is the list of its entries in iteration order. Values with the same
      entries in different orders stand for equal maps iterated differently. */
  datatype Prop = Prop(key: bytes, val: AmfValue)

  datatype AmfValue =
    | Null
    | Undefined
    | Boolean(b: bool)
    | Number(n: F64)
    | String(s: bytes)
    | Array(elems: seq<AmfValue>)
    | Object(props: seq<Prop>)
    | TypedObject(className: bytes, props: seq<Prop>)
    | Date(n: F64)
    | Xml(s: bytes)
    | ByteArray(data: bytes)
    | Integer(i: i32)
    | EcmaArray(props: seq<Prop>)

  datatype AmfError =
    | UnexpectedEof
    | NestingTooDeep
    | UnknownMarker(marker: byte)
    | InvalidObjectEnd
    | InvalidReference(index: nat)
    | InvalidUtf8

  datatype Result<+T> = Ok(value: T) | Err(error: AmfError)

  const MAX_NESTING_DEPTH := 64

  // ---- maps ----

  function HasKey(props: seq<Prop>, key: bytes): bool {
    exists i :: 0 <= i < |props| && props[i].key == key
  }

  /** Insertion replaces the value of a key that is there already. */
  function Put(props: seq<Prop>, key: bytes, val: AmfValue): seq<Prop> {
    if props == [] then [Prop(key, val)]
    else if props[0].key == key then [Prop(key, val)] + props[1..]
    else [props[0]] + Put(props[1..], key, val)
  }

  predicate DistinctKeys(props: seq<Prop>) {
    forall i, j :: 0 <= i < j < |props| ==> props[i].key != props[j].key
  }

  lemma {:induction false} PutNew(props: seq<Prop>, key: bytes, val: AmfValue)
    requires !HasKey(props, key)
    ensures Put(props, key, val) == props + [Prop(key, val)]
  {
    if props != [] {
      assert props[0].key != key;
      forall i | 0 <= i < |props[1..]| ensures props[1..][i].key != key {
        assert props[1..][i] == props[i + 1];
      }
      PutNew(props[1..], key, val);
    }
  }

  lemma HasHead(p: Prop, rest: seq<Prop>, k: bytes)
    ensures HasKey([p] + rest, k) <==> p.key == k || HasKey(rest, k)
  {
    var all := [p] + rest;
    assert all[0] == p && forall i :: 0 <= i < |rest| ==> all[i + 1] == rest[i];
    if HasKey(rest, k) {
      var i :| 0 <= i < |rest| && rest[i].key == k;
      assert all[i + 1].key == k;
    }
  }

  lemma DistinctHead(p: Prop, rest: seq<Prop>)
    ensures DistinctKeys([p] + rest) <==> !HasKey(rest, p.key) && DistinctKeys(rest)
  {
    var all := [p] + rest;
    assert all[0] == p && forall i :: 0 <= i < |rest| ==> all[i + 1] == rest[i];
    if DistinctKeys(all) {
      forall i, j | 0 <= i < j < |rest| ensures rest[i].key != rest[j].key {
        assert all[i + 1].key != all[j + 1].key;
      }
    }
  }

  /** What insertion leaves in a map: the new entry, and the old ones of other keys. */
  lemma {:induction false} PutKeeps(props: seq<Prop>, key: bytes, val: AmfValue)
    ensures forall p :: p in Put(props, key, val) ==> p == Prop(key, val) || p in props
    ensures forall k :: HasKey(Put(props, key, val), k) <==> k == key || HasKey(props, k)
    ensures DistinctKeys(props) ==> DistinctKeys(Put(props, key, val))
  {
    hide HasKey, DistinctKeys;
    var r := Put(props, key, val);
    if props == [] {
      Singleton(Prop(key, val));
    } else {
      var rest := props[1..];
      assert props == [props[0]] + rest;
      var r1 := Put(rest, key, val);
      PutKeeps(rest, key, val);
      DistinctHead(props[0], rest);
      DistinctHead(props[0], r1);
      DistinctHead(Prop(key, val), rest);
      forall k ensures HasKey(r, k) <==> k == key || HasKey(props, k) {
        HasHead(props[0], rest, k);
        HasHead(props[0], r1, k);
        HasHead(Prop(key, val), rest, k);
      }
    }
  }

  lemma Singleton(p: Prop)
    ensures DistinctKeys([p]) && !HasKey([], p.key)
    ensures forall k :: !HasKey([], k)
    ensures forall k :: HasKey([p], k) <==> k == p.key
  {
    assert [p][0] == p;
  }

  lemma NewKey(acc: seq<Prop>, props: seq<Prop>)
    requires props != [] && DistinctKeys(acc + props)
    ensures !HasKey(acc, props[0].key)
  {
    forall i | 0 <= i < |acc| ensures acc[i].key != props[0].key {
      assert (acc + props)[i] == acc[i] && (acc + props)[|acc|] == props[0];
    }
  }

  lemma ShiftKeys(acc: seq<Prop>, props: seq<Prop>, next: Prop)
    requires props != [] && DistinctKeys(acc + props) && next.key == props[0].key
    ensures DistinctKeys(acc + [next] + props[1..])
    ensures forall p :: p in props[1..] ==> p in props
  {
    var a, b := acc + props, acc + [next] + props[1..];
    assert forall i :: 0 <= i < |a| ==> b[i].key == a[i].key;
  }

  // ---- nesting ----

  function Max(a: nat, b: nat): nat {
    if a >= b then a else b
  }

  function Height(v: AmfValue): (h: nat)
    ensures h >= 1
    decreases v, 0
  {
    match v
    case Object(props) => 1 + HeightProps(props)
    case EcmaArray(props) => 1 + HeightProps(props)
    case TypedObject(_, props) => 1 + HeightProps(props)
    case Array(elems) => 1 + HeightAll(elems)
    case _ => 1
  }

  function HeightProps(props: seq<Prop>): nat
    decreases props, 1
  {
    if props == [] then 0 else Max(Height(props[0].val), HeightProps(props[1..]))
  }

  function HeightAll(vs: seq<AmfValue>): nat
    decreases vs, 1
  {
    if vs == [] then 0 else Max(Height(vs[0]), HeightAll(vs[1..]))
  }

  // ---- strings ----

  predicate Between(b: byte, lo: byte, hi: byte) {
    lo <= b <= hi
  }

  /** Well-formed UTF-8 (The Unicode Standard, table 3-7). */
  predicate ValidUtf8(s: bytes) {
    if s == [] then true
    else if s[0] < 0x80 then ValidUtf8(s[1..])
    else if |s| >= 2 && Between(s[0], 0xC2, 0xDF) && Between(s[1], 0x80, 0xBF) then ValidUtf8(s[2..])
    else if |s| >= 3 && Between(s[0], 0xE0, 0xEF) && Between(s[2], 0x80, 0xBF)
         && Between(s[1], if s[0] == 0xE0 then 0xA0 else 0x80, if s[0] == 0xED then 0x9F else 0xBF)
      then ValidUtf8(s[3..])
    else
      && |s| >= 4 && Between(s[0], 0xF0, 0xF4) && Between(s[2], 0x80, 0xBF) && Between(s[3], 0x80, 0xBF)
      && Between(s[1], if s[0] == 0xF0 then 0x90 else 0x80, if s[0] == 0xF4 then 0x8F else 0xBF)
      && ValidUtf8(s[4..])
  }

  predicate FitsString(s: bytes, limit: nat) {
    |s| <= limit && ValidUtf8(s)
  }

  // ---- numbers ----

  const ZERO: F64 := [0, 0, 0, 0, 0, 0, 0, 0]

  function Pow2(n: nat): (r: nat)
    ensures r >= 1
  {
    if n == 0 then 1 else 2 * Pow2(n - 1)
  }

  lemma {:induction false} Pow2Sum(a: nat, b: nat)
    ensures Pow2(a + b) == Pow2(a) * Pow2(b)
  {
    if a > 0 {
      Pow2Sum(a - 1, b);
    }
  }

  /** The position of the highest bit. */
  function Log2(n: nat): (r: nat)
    requires n >= 1
    ensures Pow2(r) <= n < 2 * Pow2(r)
  {
    if n == 1 then 0 else 1 + Log2(n / 2)
  }

  lemma {:induction false} Log2Bound(n: nat, k: nat)
    requires 1 <= n < Pow2(k)
    ensures Log2(n) < k
  {
    if n > 1 {
      Log2Bound(n / 2, k - 1);
    }
  }

  const TWO_TO_THE_52 := 0x10_0000_0000_0000

  lemma Pow2Of16()
    ensures Pow2(4) == 16 && Pow2(16) == 0x1_0000
  {
    assert Pow2(4) == 16;
    hide Pow2;
    Pow2Sum(4, 4);
    Pow2Sum(8, 8);
  }

  lemma Pow2Facts()
    ensures Pow2(32) == TWO_TO_THE_32 && Pow2(52) == TWO_TO_THE_52
  {
    hide Pow2;
    Pow2Of16();
    Pow2Sum(16, 16);
    Pow2Sum(32, 16);
    Pow2Sum(48, 4);
  }

  lemma ExponentRange(a: nat)
    requires 1 <= a <= TWO_TO_THE_32
    ensures Log2(a) <= 32 && Pow2(Log2(a)) * Pow2(52 - Log2(a)) == TWO_TO_THE_52
  {
    assert Pow2(33) == 2 * Pow2(32);
    Pow2Facts();
    Log2Bound(a, 33);
    Pow2Sum(Log2(a), 52 - Log2(a));
  }

  lemma ProductBound(x: nat, y: nat, z: nat)
    requires x < y && z >= 1
    ensures 0 <= x * z < y * z
  {
  }

  /** The 52 fraction bits of `a`: its leading bit is implicit, the rest is shifted up. */
  function Fraction(a: nat): (r: nat)
    requires 1 <= a <= TWO_TO_THE_32
    ensures r < TWO_TO_THE_52
  {
    var e := Log2(a);
    ExponentRange(a);
    ProductBound(a - Pow2(e), Pow2(e), Pow2(52 - e));
    (a - Pow2(e)) * Pow2(52 - e)
  }

  function HighWord(negative: bool, e: nat, f: nat): u32
    requires e <= 32 && f < TWO_TO_THE_52
  {
    (if negative then 0x8000_0000 else 0) + (1023 + e) * 0x10_0000 + f / TWO_TO_THE_32
  }

  /** Sign, exponent and fraction fields. */
  function Pack(negative: bool, e: nat, f: nat): F64
    requires e <= 32 && f < TWO_TO_THE_52
  {
    Be32(HighWord(negative, e, f)) + Be32(f % TWO_TO_THE_32)
  }

  /** The double that equals an integer of at most 32 bits. */
  function IntToF64(n: int): F64
    requires -TWO_TO_THE_32 <= n <= TWO_TO_THE_32
  {
    if n == 0 then ZERO
    else
      var a := if n < 0 then -n else n;
      ExponentRange(a);
      Pack(n < 0, Log2(a), Fraction(a))
  }

  /** Conversion to u32 as the language defines it: towards zero, saturating, NaN to 0. */
  function F64ToU32(d: F64): u32 {
    var hi := U32At(d, 0);
    Truncated(hi >= 0x8000_0000, hi / 0x10_0000 % 0x800, hi % 0x10_0000 * TWO_TO_THE_32 + U32At(d, 4))
  }

  function Truncated(negative: bool, exponent: nat, fraction: nat): u32 {
    if exponent == 0x7FF && fraction != 0 then 0
    else if negative || exponent < 1023 then 0
    else if exponent >= 1023 + 32 then TWO_TO_THE_32 - 1
    else Min(Quotient(TWO_TO_THE_52 + fraction, Pow2(52 - (exponent - 1023))), TWO_TO_THE_32 - 1)
  }

  function Quotient(x: nat, y: nat): nat
    requires y >= 1
  {
    x / y
  }

  lemma ExactQuotient(x: nat, z: nat)
    requires z >= 1
    ensures x * z / z == x
  {
    var q, r := x * z / z, x * z % z;
    assert x * z == z * q + r;
    assert (x - q) * z == r;
    if x > q {
      AtLeast(x - q, z);
    }
  }

  lemma AtLeast(x: nat, z: nat)
    requires x >= 1
    ensures x * z >= z
  {
  }

  lemma ReadHalves(hi: u32, lo: u32)
    ensures U32At(Be32(hi) + Be32(lo), 0) == hi && U32At(Be32(hi) + Be32(lo), 4) == lo
  {
    var d := Be32(hi) + Be32(lo);
    Be32RoundTrip(hi);
    Be32RoundTrip(lo);
    assert forall i :: 0 <= i < 4 ==> d[i] == Be32(hi)[i] && d[4 + i] == Be32(lo)[i];
  }

  lemma SplitWord(e: nat, f: nat)
    requires e < 32 && f < TWO_TO_THE_52
    ensures var hi := HighWord(false, e, f);
      hi < 0x8000_0000 && hi / 0x10_0000 % 0x800 == 1023 + e
      && hi % 0x10_0000 * TWO_TO_THE_32 + f % TWO_TO_THE_32 == f
  {
  }

  lemma Unpack(e: nat, f: nat)
    requires e < 32 && f < TWO_TO_THE_52
    ensures F64ToU32(Pack(false, e, f)) == Truncated(false, 1023 + e, f)
  {
    hide Truncated, HighWord;
    SplitWord(e, f);
    ReadHalves(HighWord(false, e, f), f % TWO_TO_THE_32);
  }

  lemma ZeroThroughF64()
    ensures F64ToU32(ZERO) == 0
  {
    hide Pow2, Quotient;
    assert U32At(ZERO, 0) == 0;
  }

  /** Every u32 survives the way through a double. */
  lemma U32ThroughF64(n: u32)
    ensures F64ToU32(IntToF64(n)) == n
  {
    hide F64ToU32, Pack, Fraction, Log2;
    if n > 0 {
      PositiveThroughF64(n);
    } else {
      ZeroThroughF64();
    }
  }

  lemma PositiveThroughF64(n: u32)
    requires n > 0
    ensures F64ToU32(IntToF64(n)) == n
  {
    hide Pow2, Log2, Quotient, Fraction, Pack, F64ToU32;
    assert Log2(n) < 32 by {
      Pow2Facts();
      Log2Bound(n, 32);
    }
    TopFraction(n);
    Unpack(Log2(n), Fraction(n));
    assert IntToF64(n) == Pack(false, Log2(n), Fraction(n));
  }

  lemma TopFraction(n: nat)
    requires 1 <= n <= TWO_TO_THE_32
    ensures Log2(n) <= 32 && Quotient(TWO_TO_THE_52 + Fraction(n), Pow2(52 - Log2(n))) == n
  {
    hide Quotient, Log2, Pow2;
    ExponentRange(n);
    Restored(n, Pow2(Log2(n)), Pow2(52 - Log2(n)));
  }

  lemma Restored(n: nat, p: nat, z: nat)
    requires 1 <= p <= n && z >= 1
    ensures Quotient(p * z + (n - p) * z, z) == n
  {
    assert p * z + (n - p) * z == n * z;
    ExactQuotient(n, z);
  }
}
