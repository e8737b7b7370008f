/** What comes back when one encoder's AMF3 output is read by a decoder whose
    string table mirrors the encoder's. */
module Amf3Proofs {
  import opened Bytes
  import opened Amf
  import opened Amf3Model

  // ---- variable-length integers ----

  lemma MoreU29(st: State, i: nat, value: nat, digit: nat, rest: bytes)
    requires i < 3 && value < (if i == 0 then 1 else if i == 1 then 0x80 else 0x4000)
    requires digit < 0x80 && st.buf == [digit + 0x80] + rest
    ensures U29From(st, i, value) == U29From(st.(buf := rest), i + 1, value * 0x80 + digit)
  {
    assert st.buf[1..] == rest;
  }

  lemma LastU29(st: State, i: nat, value: nat, b: byte, rest: bytes)
    requires i <= 3 && value < (if i == 0 then 1 else if i == 1 then 0x80 else if i == 2 then 0x4000 else 0x20_0000)
    requires st.buf == [b] + rest && (i < 3 ==> b < 0x80)
    ensures U29From(st, i, value) == Out(Ok(value * (if i == 3 then 0x100 else 0x80) + b), st.(buf := rest))
  {
    assert st.buf[1..] == rest;
  }

  lemma TwoDigits(v: nat)
    requires v < 0x4000
    ensures v / 0x80 % 0x80 * 0x80 + v % 0x80 == v
  {
  }

  lemma ThreeDigits(v: nat)
    requires v < 0x20_0000
    ensures (v / 0x4000 % 0x80 * 0x80 + v / 0x80 % 0x80) * 0x80 + v % 0x80 == v
  {
    var x := v / 0x80;
    assert v / 0x4000 == x / 0x80;
    TwoDigits(x);
  }

  lemma FourDigits(v: nat)
    requires v < TWO_TO_THE_29
    ensures ((v / 0x40_0000 % 0x80 * 0x80 + v / 0x8000 % 0x80) * 0x80 + v / 0x100 % 0x80) * 0x100 + v % 0x100 == v
  {
    var y := v / 0x100;
    assert v / 0x8000 == y / 0x80 && v / 0x40_0000 == y / 0x4000;
    ThreeDigits(y);
  }

  lemma U29RoundTrip(v: nat, st: State, tail: bytes)
    requires v < TWO_TO_THE_29 && st.buf == U29(v) + tail
    ensures ReadU29(st) == Out(Ok(v), st.(buf := tail))
  {
    hide U29From;
    if v < 0x80 {
      LastU29(st, 0, 0, v, tail);
    } else if v < 0x4000 {
      TwoDigits(v);
      TwoBytes(st, v / 0x80 % 0x80, v % 0x80, tail);
    } else if v < 0x20_0000 {
      var a, b, c := v / 0x4000 % 0x80, v / 0x80 % 0x80, v % 0x80;
      ThreeDigits(v);
      ThreeBytes(st, a, b, c, tail);
    } else {
      var a, b, c := v / 0x40_0000 % 0x80, v / 0x8000 % 0x80, v / 0x100 % 0x80;
      FourDigits(v);
      FourBytes(st, a, b, c, v % 0x100, tail);
    }
  }

  lemma TwoBytes(st: State, a: nat, b: nat, tail: bytes)
    requires a < 0x80 && b < 0x80
    requires st.buf == [a + 0x80, b] + tail
    ensures U29From(st, 0, 0) == Out(Ok(a * 0x80 + b), st.(buf := tail))
  {
    hide U29From;
    assert st.buf == [a + 0x80] + ([b] + tail);
    MoreU29(st, 0, 0, a, [b] + tail);
    LastU29(st.(buf := [b] + tail), 1, a, b, tail);
  }

  lemma ThreeBytes(st: State, a: nat, b: nat, c: nat, tail: bytes)
    requires a < 0x80 && b < 0x80 && c < 0x80
    requires st.buf == [a + 0x80, b + 0x80, c] + tail
    ensures U29From(st, 0, 0) == Out(Ok((a * 0x80 + b) * 0x80 + c), st.(buf := tail))
  {
    hide U29From;
    var t1, t2 := [b + 0x80] + ([c] + tail), [c] + tail;
    assert st.buf == [a + 0x80] + t1;
    MoreU29(st, 0, 0, a, t1);
    MoreU29(st.(buf := t1), 1, a, b, t2);
    LastU29(st.(buf := t2), 2, a * 0x80 + b, c, tail);
  }

  lemma FourBytes(st: State, a: nat, b: nat, c: nat, d: byte, tail: bytes)
    requires a < 0x80 && b < 0x80 && c < 0x80
    requires st.buf == [a + 0x80, b + 0x80, c + 0x80, d] + tail
    ensures U29From(st, 0, 0) == Out(Ok(((a * 0x80 + b) * 0x80 + c) * 0x100 + d), st.(buf := tail))
  {
    hide U29From;
    var t3 := [d] + tail;
    var t2 := [c + 0x80] + t3;
    var t1 := [b + 0x80] + t2;
    assert st.buf == [a + 0x80] + t1;
    MoreU29(st, 0, 0, a, t1);
    MoreU29(st.(buf := t1), 1, a, b, t2);
    MoreU29(st.(buf := t2), 2, a * 0x80 + b, c, t3);
    LastU29(st.(buf := t3), 3, (a * 0x80 + b) * 0x80 + c, d, tail);
  }

  /** A length below 2^28 survives its inline header. */
  lemma InlineHeader(len: nat)
    requires len < TWO_TO_THE_28
    ensures Inline(len) < TWO_TO_THE_29 && Inline(len) % 2 == 1 && Inline(len) / 2 == len
  {
  }

  // ---- string tables ----

  /** A map to indices and a vector that are inverse to each other. */
  ghost predicate Inverse<T(!new)>(t: map<T, nat>, v: seq<T>) {
    && |t| == |v|
    && (forall i :: 0 <= i < |v| ==> v[i] in t && t[v[i]] == i)
    && (forall x :: x in t ==> t[x] < |v| && v[t[x]] == x)
  }

  lemma Append<T(!new)>(t: map<T, nat>, v: seq<T>, x: T)
    requires Inverse(t, v) && x !in t
    ensures Inverse(t[x := |t|], v + [x])
  {
    assert t[x := |t|].Keys == t.Keys + {x};
  }

  /** The decoder's vector and the encoder's map agree; the empty string is in neither. */
  ghost predicate Interned(t: Table, strings: seq<bytes>) {
    Inverse(t, strings) && [] !in t
  }

  lemma Enter(t: Table, strings: seq<bytes>, s: bytes)
    requires Interned(t, strings) && s !in t && s != []
    ensures Interned(t[s := |t|], strings + [s])
  {
    Append(t, strings, s);
    hide Inverse;
  }

  lemma StringRoundTrip(t: Table, s: bytes, st: State, tail: bytes)
    requires Interned(t, st.strings) && |s| < TWO_TO_THE_28 && ValidUtf8(s)
    requires st.buf == PrintString(t, s).data + tail && |PrintString(t, s).table| <= TWO_TO_THE_28
    ensures var o := ReadString(st);
      o == Out(Ok(s), st.(buf := tail, strings := o.st.strings)) && Interned(PrintString(t, s).table, o.st.strings)
  {
    hide U29, ReadU29, ValidUtf8;
    if s == [] {
      U29RoundTrip(1, st, tail);
    } else if s in t {
      U29RoundTrip(t[s] * 2, st, tail);
    } else {
      hide Interned;
      InlineHeader(|s|);
      ConcatAssociates(U29(Inline(|s|)), s, tail);
      U29RoundTrip(Inline(|s|), st, s + tail);
      assert (s + tail)[..|s|] == s && (s + tail)[|s|..] == tail;
      Enter(t, st.strings, s);
    }
  }

  // ---- what a value becomes, and which values the format can carry ----

  /** Maps without class become objects; integers outside 29 bits become doubles. */
  function Norm(v: AmfValue): AmfValue
    decreases v, 0
  {
    match v
    case Integer(i) => if -TWO_TO_THE_28 <= i < TWO_TO_THE_28 then v else Number(IntToF64(i))
    case Object(props) => Object(NormProps(props))
    case EcmaArray(props) => Object(NormProps(props))
    case TypedObject(name, props) => Classed(name, NormProps(props))
    case Array(elems) => Array(NormAll(elems))
    case _ => v
  }

  function Classed(name: bytes, props: seq<Prop>): AmfValue {
    if name == [] then Object(props) else TypedObject(name, props)
  }

  function NormProps(props: seq<Prop>): (r: seq<Prop>)
    ensures |r| == |props| && forall i :: 0 <= i < |r| ==> r[i].key == props[i].key
    decreases props, 1
  {
    if props == [] then [] else [Prop(props[0].key, Norm(props[0].val))] + NormProps(props[1..])
  }

  function NormAll(vs: seq<AmfValue>): (r: seq<AmfValue>)
    ensures |r| == |vs|
    decreases vs, 1
  {
    if vs == [] then [] else [Norm(vs[0])] + NormAll(vs[1..])
  }

  const LENGTH_LIMIT := TWO_TO_THE_28 - 1

  /** Strings are UTF-8 and keys distinct (always so in the program), keys are not empty,
      and every length has at most 28 bits. */
  predicate Fits(v: AmfValue)
    decreases v, 0
  {
    match v
    case String(s) => FitsString(s, LENGTH_LIMIT)
    case Xml(s) => FitsString(s, LENGTH_LIMIT)
    case ByteArray(data) => |data| <= LENGTH_LIMIT
    case Object(props) => DistinctKeys(props) && FitsProps(props)
    case EcmaArray(props) => DistinctKeys(props) && FitsProps(props)
    case TypedObject(name, props) => FitsString(name, LENGTH_LIMIT) && DistinctKeys(props) && FitsProps(props)
    case Array(elems) => |elems| <= LENGTH_LIMIT && FitsAll(elems)
    case _ => true
  }

  predicate FitsProps(props: seq<Prop>)
    decreases props, 1
  {
    forall p :: p in props ==> p.key != [] && FitsString(p.key, LENGTH_LIMIT) && Fits(p.val)
  }

  predicate FitsAll(vs: seq<AmfValue>)
    decreases vs, 1
  {
    forall v :: v in vs ==> Fits(v)
  }

  // ---- round trip of values ----

  /** Decoding gives back the value, leaves `tail` and a string table that mirrors `t`; or the
      value nests too deeply from here, and decoding says so. */
  ghost predicate Returned<T>(height: nat, value: T, t: Table, st: State, tail: bytes, o: Out<T>) {
    if st.depth + height <= MAX_NESTING_DEPTH then
      && o.r == Ok(value)
      && o.st.buf == tail && o.st.depth == st.depth && Interned(t, o.st.strings)
    else
      o.r == Err(NestingTooDeep)
  }

  /** The string table still has room for 28-bit indices. */
  predicate Room(p: Printed) {
    |p.table| <= TWO_TO_THE_28
  }

  lemma Nested(a: bytes, b: bytes, c: bytes, tail: bytes)
    ensures a + b + c + tail == a + (b + (c + tail))
  {
  }

  /** One entry of a map, given that its value comes back. */
  lemma PropStep(lenient: bool, t: Table, acc: seq<Prop>, p: Prop, st: State, tail: bytes)
    requires p.key != [] && FitsString(p.key, LENGTH_LIMIT) && !HasKey(acc, p.key)
    requires Interned(t, st.strings) && Room(PrintString(t, p.key))
    requires st.buf == PrintString(t, p.key).data + (Print(PrintString(t, p.key).table, p.val).data + tail)
    requires var st1, v := ReadString(st).st, Print(PrintString(t, p.key).table, p.val);
      Returned(Height(p.val), Norm(p.val), v.table, st1, tail, Decode(lenient, st1))
    ensures var st1, o := ReadString(st).st, DecodeProps(lenient, st, acc);
      && st1.buf == Print(PrintString(t, p.key).table, p.val).data + tail && st1.depth == st.depth
      && Interned(PrintString(t, p.key).table, st1.strings)
      && if st.depth + Height(p.val) <= MAX_NESTING_DEPTH then
           o == DecodeProps(lenient, Decode(lenient, st1).st, acc + [Prop(p.key, Norm(p.val))])
         else
           o.r == Err(NestingTooDeep)
  {
    hide Decode, ReadString, PrintString, Print, Norm, Height, Interned, HasKey, ValidUtf8;
    StringRoundTrip(t, p.key, st, Print(PrintString(t, p.key).table, p.val).data + tail);
    PutNew(acc, p.key, Norm(p.val));
  }

  lemma {:induction false} PropsRoundTrip(lenient: bool, t: Table, acc: seq<Prop>, props: seq<Prop>,
                                          st: State, tail: bytes)
    requires FitsProps(props) && DistinctKeys(acc + props) && st.depth <= MAX_NESTING_DEPTH
    requires Interned(t, st.strings) && Room(PrintProps(t, props))
    requires st.buf == PrintProps(t, props).data + tail
    ensures Returned(HeightProps(props), acc + NormProps(props), PrintProps(t, props).table, st, tail,
                     DecodeProps(lenient, st, acc))
    decreases props, 1
  {
    hide Decode, Norm, Height, Fits, FitsString, DistinctKeys, DecodeProps, ReadString, PrintString, Print, Interned;
    if props == [] {
      EndOfProps(lenient, t, acc, st, tail);
    } else {
      var p, rest := props[0], props[1..];
      var k := PrintString(t, p.key);
      var v := Print(k.table, p.val);
      var tail1 := PrintProps(v.table, rest).data + tail;
      assert p in props;
      Nested(k.data, v.data, PrintProps(v.table, rest).data, tail);
      KeyRead(t, p.key, st, v.data + tail1);
      var st1 := ReadString(st).st;
      RoundTrip(lenient, k.table, p.val, st1, tail1);
      NewKey(acc, props);
      PropStep(lenient, t, acc, p, st, tail1);
      if st.depth + Height(p.val) <= MAX_NESTING_DEPTH {
        var next := Prop(p.key, Norm(p.val));
        ShiftKeys(acc, props, next);
        PropsRoundTrip(lenient, v.table, acc + [next], rest, Decode(lenient, st1).st, tail);
        assert acc + [next] + NormProps(rest) == acc + ([next] + NormProps(rest));
      }
    }
  }

  lemma KeyRead(t: Table, key: bytes, st: State, tail: bytes)
    requires FitsString(key, LENGTH_LIMIT) && Interned(t, st.strings) && Room(PrintString(t, key))
    requires st.buf == PrintString(t, key).data + tail
    ensures var o := ReadString(st);
      o.r == Ok(key) && o.st == st.(buf := tail, strings := o.st.strings)
      && Interned(PrintString(t, key).table, o.st.strings)
  {
    hide Interned, ReadString, PrintString, ValidUtf8;
    StringRoundTrip(t, key, st, tail);
  }

  lemma EndOfProps(lenient: bool, t: Table, acc: seq<Prop>, st: State, tail: bytes)
    requires Interned(t, st.strings) && |t| <= TWO_TO_THE_28 && st.buf == PrintString(t, []).data + tail
    ensures DecodeProps(lenient, st, acc) == Out(Ok(acc), st.(buf := tail)) && acc + [] == acc
    ensures PrintString(t, []).table == t
  {
    hide U29, ReadU29;
    U29RoundTrip(1, st, tail);
  }

  lemma {:induction false} AllRoundTrip(lenient: bool, t: Table, acc: seq<AmfValue>, vs: seq<AmfValue>,
                                        st: State, tail: bytes)
    requires FitsAll(vs) && st.depth <= MAX_NESTING_DEPTH
    requires Interned(t, st.strings) && Room(PrintAll(t, vs))
    requires st.buf == PrintAll(t, vs).data + tail
    ensures Returned(HeightAll(vs), acc + NormAll(vs), PrintAll(t, vs).table, st, tail,
                     DecodeElems(lenient, st, |vs|, acc))
    decreases vs, 1
  {
    hide Decode, Norm, Height, Fits, Print, Interned;
    if vs == [] {
      assert acc + [] == acc && [] + tail == tail;
    } else {
      var rest := vs[1..];
      var v := Print(t, vs[0]);
      var tail1 := PrintAll(v.table, rest).data + tail;
      assert vs[0] in vs && forall x :: x in rest ==> x in vs;
      ConcatAssociates(v.data, PrintAll(v.table, rest).data, tail);
      RoundTrip(lenient, t, vs[0], st, tail1);
      if st.depth + Height(vs[0]) <= MAX_NESTING_DEPTH {
        AllRoundTrip(lenient, v.table, acc + [Norm(vs[0])], rest, Decode(lenient, st).st, tail);
        assert acc + [Norm(vs[0])] + NormAll(rest) == acc + NormAll(vs);
      }
    }
  }

  /** Decoding a value is decoding what follows its marker, one level deeper. */
  lemma Entered(lenient: bool, marker: byte, body: bytes, st: State)
    requires st.buf == [marker] + body && st.depth < MAX_NESTING_DEPTH
    ensures var o := DecodeValue(lenient, marker, st.(buf := body, depth := st.depth + 1));
      Decode(lenient, st) == Out(o.r, o.st.(depth := o.st.depth - 1))
  {
    hide DecodeValue;
    assert st.buf[1..] == body;
  }

  /** The same as `Returned`, for what follows the marker. */
  ghost predicate ReturnedBody(v: AmfValue, p: Printed, st: State, tail: bytes, o: Out<AmfValue>) {
    if st.depth - 1 + Height(v) <= MAX_NESTING_DEPTH then
      && o.r == Ok(Norm(v))
      && o.st.buf == tail && o.st.depth == st.depth && Interned(p.table, o.st.strings)
    else
      o.r == Err(NestingTooDeep)
  }

  lemma {:induction false} RoundTrip(lenient: bool, t: Table, v: AmfValue, st: State, tail: bytes)
    requires Fits(v) && st.depth <= MAX_NESTING_DEPTH
    requires Interned(t, st.strings) && Room(Print(t, v))
    requires st.buf == Print(t, v).data + tail
    ensures Returned(Height(v), Norm(v), Print(t, v).table, st, tail, Decode(lenient, st))
    decreases v, 1
  {
    hide Fits, Norm, Interned, DecodeValue, Print;
    if st.depth < MAX_NESTING_DEPTH {
      var p := Print(t, v);
      var marker, body := p.data[0], p.data[1..];
      assert p.data == [marker] + body;
      ConcatAssociates([marker], body, tail);
      Entered(lenient, marker, body + tail, st);
      BodyRoundTrip(lenient, t, v, st.(buf := body + tail, depth := st.depth + 1), tail);
    }
  }

  lemma {:induction false} BodyRoundTrip(lenient: bool, t: Table, v: AmfValue, st: State, tail: bytes)
    requires Fits(v) && st.depth <= MAX_NESTING_DEPTH
    requires Interned(t, st.strings) && Room(Print(t, v))
    requires st.buf == Print(t, v).data[1..] + tail
    ensures ReturnedBody(v, Print(t, v), st, tail, DecodeValue(lenient, Print(t, v).data[0], st))
    decreases v, 0
  {
    hide DecodeValue, FitsString, DistinctKeys, NormProps, NormAll, HeightProps, HeightAll, FitsProps, FitsAll,
      IntToF64, PrintProps, PrintAll, PrintString, Interned, U29, Inline;
    NoName();
    match v
    case Object(props) => ObjectRoundTrip(lenient, t, [], props, st, tail);
    case EcmaArray(props) => ObjectRoundTrip(lenient, t, [], props, st, tail);
    case TypedObject(name, props) => ObjectRoundTrip(lenient, t, name, props, st, tail);
    case Array(elems) => ArrayRoundTrip(lenient, t, elems, st, tail);
    case String(s) => StringValue(lenient, t, s, st, tail);
    case Date(n) => FlatRoundTrip(lenient, t, v, st, tail);
    case Xml(s) => FlatRoundTrip(lenient, t, v, st, tail);
    case ByteArray(data) => FlatRoundTrip(lenient, t, v, st, tail);
    case _ => ScalarRoundTrip(lenient, t, v, st, tail);
  }

  lemma NoName()
    ensures FitsString([], LENGTH_LIMIT)
  {
  }

  predicate IsScalar(v: AmfValue) {
    v.Null? || v.Undefined? || v.Boolean? || v.Integer? || v.Number?
  }

  lemma SignExtension(i: i32)
    requires -TWO_TO_THE_28 <= i < TWO_TO_THE_28
    ensures var u := i % TWO_TO_THE_29;
      u < TWO_TO_THE_29 && i == if u >= TWO_TO_THE_28 then u - TWO_TO_THE_29 else u
  {
  }

  lemma DoubleRead(n: F64, tail: bytes)
    ensures (n + tail)[..8] == n && (n + tail)[8..] == tail
  {
  }

  lemma ScalarRoundTrip(lenient: bool, t: Table, v: AmfValue, st: State, tail: bytes)
    requires IsScalar(v) && Fits(v) && Interned(t, st.strings) && st.depth <= MAX_NESTING_DEPTH
    requires st.buf == Print(t, v).data[1..] + tail
    ensures ReturnedBody(v, Print(t, v), st, tail, DecodeValue(lenient, Print(t, v).data[0], st))
  {
    hide Interned, U29, ReadU29, IntToF64;
    match v
    case Integer(i) =>
      if -TWO_TO_THE_28 <= i < TWO_TO_THE_28 {
        SignExtension(i);
        assert Print(t, v).data[1..] == U29(i % TWO_TO_THE_29);
        U29RoundTrip(i % TWO_TO_THE_29, st, tail);
      } else {
        assert Print(t, v).data[1..] == IntToF64(i);
        DoubleRead(IntToF64(i), tail);
      }
    case Number(n) =>
      assert Print(t, v).data[1..] == n;
      DoubleRead(n, tail);
    case Null => assert st.buf == tail;
    case Undefined => assert st.buf == tail;
    case Boolean(_) => assert st.buf == tail;
  }

  lemma StringValue(lenient: bool, t: Table, s: bytes, st: State, tail: bytes)
    requires Fits(String(s)) && Interned(t, st.strings) && st.depth <= MAX_NESTING_DEPTH
    requires Room(Print(t, String(s))) && st.buf == Print(t, String(s)).data[1..] + tail
    ensures ReturnedBody(String(s), Print(t, String(s)), st, tail, DecodeValue(lenient, STRING, st))
  {
    hide Interned, PrintString, ReadString, ValidUtf8;
    assert Print(t, String(s)).data[1..] == PrintString(t, s).data;
    KeyRead(t, s, st, tail);
  }

  lemma FlatRoundTrip(lenient: bool, t: Table, v: AmfValue, st: State, tail: bytes)
    requires (v.Date? || v.Xml? || v.ByteArray?) && Fits(v)
    requires Interned(t, st.strings) && st.depth <= MAX_NESTING_DEPTH
    requires st.buf == Print(t, v).data[1..] + tail
    ensures ReturnedBody(v, Print(t, v), st, tail, DecodeValue(lenient, Print(t, v).data[0], st))
  {
    hide Interned, U29, ReadU29, ValidUtf8, Inline;
    var data := if v.Date? then v.n else if v.Xml? then v.s else v.data;
    var header := if v.Date? then 1 else Inline(|data|);
    InlineHeader(|data|);
    assert Print(t, v).data[1..] == U29(header) + data;
    ConcatAssociates(U29(header), data, tail);
    U29RoundTrip(header, st, data + tail);
    assert (data + tail)[..|data|] == data && (data + tail)[|data|..] == tail;
  }

  lemma {:induction false} ArrayRoundTrip(lenient: bool, t: Table, elems: seq<AmfValue>, st: State, tail: bytes)
    requires Fits(Array(elems)) && st.depth <= MAX_NESTING_DEPTH
    requires Interned(t, st.strings) && Room(Print(t, Array(elems)))
    requires st.buf == Print(t, Array(elems)).data[1..] + tail
    ensures ReturnedBody(Array(elems), Print(t, Array(elems)), st, tail, DecodeValue(lenient, ARRAY, st))
    decreases elems, 3
  {
    hide Interned, U29, ReadU29, Inline, DecodeElems, DecodeProps, PrintAll, FitsAll, NormAll, HeightAll;
    var items := PrintAll(t, elems).data;
    InlineHeader(|elems|);
    assert Print(t, Array(elems)).data[1..] == U29(Inline(|elems|)) + U29(1) + items;
    ConcatAssociatesTwice(U29(Inline(|elems|)), U29(1), items, tail);
    assert st.buf == U29(Inline(|elems|)) + (U29(1) + (items + tail)) by {
      assert U29(Inline(|elems|)) + U29(1) + items + tail == U29(Inline(|elems|)) + (U29(1) + (items + tail));
    }
    U29RoundTrip(Inline(|elems|), st, U29(1) + (items + tail));
    var st1 := st.(buf := U29(1) + (items + tail), objects := st.objects + [Null]);
    NoAssoc(lenient, st1, items + tail);
    var st2 := st1.(buf := items + tail);
    AllRoundTrip(lenient, t, [], elems, st2, tail);
    assert [] + NormAll(elems) == NormAll(elems);
  }

  lemma NoAssoc(lenient: bool, st: State, tail: bytes)
    requires st.buf == U29(1) + tail
    ensures DecodeProps(lenient, st, []) == Out(Ok([]), st.(buf := tail))
  {
    hide U29, ReadU29;
    U29RoundTrip(1, st, tail);
  }

  /** Inline traits of a dynamic class without sealed members. */
  lemma TraitRead(t: Table, name: bytes, st: State, tail: bytes)
    requires FitsString(name, LENGTH_LIMIT) && Interned(t, st.strings) && Room(PrintString(t, name))
    requires st.buf == PrintString(t, name).data + tail
    ensures var o := DecodeTrait(st, OBJECT_HEADER);
      && o.r == Ok(Trait(name, true, []))
      && o.st.buf == tail && o.st.depth == st.depth && Interned(PrintString(t, name).table, o.st.strings)
  {
    hide Interned, PrintString, ReadString, ValidUtf8;
    KeyRead(t, name, st, tail);
  }

  lemma {:induction false} ObjectRoundTrip(lenient: bool, t: Table, name: bytes, props: seq<Prop>,
                                           st: State, tail: bytes)
    requires FitsString(name, LENGTH_LIMIT) && DistinctKeys(props) && FitsProps(props)
    requires Interned(t, st.strings) && Room(PrintObject(t, name, props)) && st.depth <= MAX_NESTING_DEPTH
    requires st.buf == PrintObject(t, name, props).data[1..] + tail
    ensures var o := DecodeValue(lenient, OBJECT, st);
      if st.depth + HeightProps(props) <= MAX_NESTING_DEPTH then
        && o.r == Ok(Classed(name, NormProps(props)))
        && o.st.buf == tail && o.st.depth == st.depth
        && Interned(PrintObject(t, name, props).table, o.st.strings)
      else
        o.r == Err(NestingTooDeep)
    decreases props, 3
  {
    hide Interned, U29, ReadU29, PrintString, PrintProps, DecodeProps, DecodeTrait, NormProps, HeightProps, FitsProps,
      FitsString, DistinctKeys;
    var n := PrintString(t, name);
    var items := PrintProps(n.table, props).data;
    assert PrintObject(t, name, props).data[1..] == U29(OBJECT_HEADER) + n.data + items;
    Nested(U29(OBJECT_HEADER), n.data, items, tail);
    U29RoundTrip(OBJECT_HEADER, st, n.data + (items + tail));
    var st1 := st.(buf := n.data + (items + tail), objects := st.objects + [Null]);
    TraitRead(t, name, st1, items + tail);
    var st2 := DecodeTrait(st1, OBJECT_HEADER).st;
    assert [] + props == props;
    PropsRoundTrip(lenient, n.table, [], props, st2, tail);
    assert [] + NormProps(props) == NormProps(props);
    var o := DecodeValue(lenient, OBJECT, st);
    assert o == DecodeObject(lenient, st.(buf := n.data + (items + tail)), OBJECT_HEADER);
    assert DecodeSealed(lenient, st2, [], []) == Out(Ok([]), st2);
  }

  // ---- sessions ----

  /** All values of one encoder session, read in order by a fresh decoder: they come back
      normalised and no byte is left, unless one of them nests too deeply. The string tables
      are inverse to each other at the end, as they were after every value. */
  lemma SessionRoundTrip(lenient: bool, vs: seq<AmfValue>)
    requires FitsAll(vs) && Room(PrintAll(map[], vs))
    ensures var p := PrintAll(map[], vs);
      var o := DecodeElems(lenient, State(p.data, [], [], [], 0), |vs|, []);
      if HeightAll(vs) <= MAX_NESTING_DEPTH then
        o.r == Ok(NormAll(vs)) && o.st.buf == [] && Interned(p.table, o.st.strings)
      else
        o.r == Err(NestingTooDeep)
  {
    hide FitsAll, PrintAll, DecodeElems, NormAll, HeightAll;
    var data := PrintAll(map[], vs).data;
    assert data + [] == data && [] + NormAll(vs) == NormAll(vs);
    AllRoundTrip(lenient, map[], [], vs, State(data, [], [], [], 0), []);
  }

  lemma {:induction false} EmptyKeyBytes(t: Table, a: seq<Prop>, x: AmfValue, b: seq<Prop>)
    ensures PrintProps(t, a) .data <= PrintProps(t, a + [Prop([], x)] + b).data
    ensures |PrintProps(t, a).data| < |PrintProps(t, a + [Prop([], x)] + b).data|
    decreases a
  {
    var all := a + [Prop([], x)] + b;
    if a == [] {
      hide Print, PrintString;
      assert all[0] == Prop([], x) && all[1..] == b;
      var k := PrintString(t, []);
      assert PrintProps(t, all).data == k.data + Print(k.table, x).data + PrintProps(Print(k.table, x).table, b).data;
    } else {
      hide Print, PrintString;
      assert all[0] == a[0] && all[1..] == a[1..] + [Prop([], x)] + b;
      var k := PrintString(t, a[0].key);
      EmptyKeyBytes(Print(k.table, a[0].val).table, a[1..], x, b);
    }
  }

  /** What an empty key does, to an object of any class, anywhere in a session: it is written like
      the end of the object, so the object comes back without the entries from there on, which is never
      the value that was written, and their bytes are left in front of what follows. */
  lemma EmptyKeyCutsObject(lenient: bool, t: Table, name: bytes, a: seq<Prop>, x: AmfValue, b: seq<Prop>,
                           st: State, tail: bytes)
    requires FitsString(name, LENGTH_LIMIT) && DistinctKeys(a) && FitsProps(a) && Room(PrintObject(t, name, a))
    requires Interned(t, st.strings) && st.depth < MAX_NESTING_DEPTH
    requires st.buf == PrintObject(t, name, a + [Prop([], x)] + b).data + tail
    ensures var o := Decode(lenient, st);
      if st.depth + 1 + HeightProps(a) <= MAX_NESTING_DEPTH then
        && o.r == Ok(Classed(name, NormProps(a)))
        && o.r.value != Classed(name, NormProps(a + [Prop([], x)] + b))
        && |o.st.buf| > |tail| && o.st.buf[|o.st.buf| - |tail|..] == tail
      else
        o.r == Err(NestingTooDeep)
  {
    hide PrintProps, PrintString, FitsProps, HeightProps, DistinctKeys, DecodeValue, Interned, U29, FitsString;
    var props := a + [Prop([], x)] + b;
    var n := PrintString(t, name);
    var whole, cut := PrintProps(n.table, props).data, PrintProps(n.table, a).data;
    EmptyKeyBytes(n.table, a, x, b);
    var more := whole[|cut|..];
    assert whole == cut + more;
    var head := U29(OBJECT_HEADER) + n.data;
    var body := head + cut + (more + tail);
    assert st.buf == [OBJECT] + body;
    Entered(lenient, OBJECT, body, st);
    assert PrintObject(t, name, a).data[1..] == head + cut;
    ObjectRoundTrip(lenient, t, name, a, st.(buf := body, depth := st.depth + 1), more + tail);
    assert |NormProps(a)| < |NormProps(props)|;
  }
}
