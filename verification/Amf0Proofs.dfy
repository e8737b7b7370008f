/** What comes back when an encoded AMF0 value is decoded, from any decoder state. */
module Amf0Proofs {
  import opened Bytes
  import opened Amf
  import opened Amf0Model

  // ---- what a value becomes ----

  /** AMF0 has neither integers nor byte arrays. */
  function Norm(v: AmfValue): AmfValue
    decreases v, 0
  {
    match v
    case Integer(i) => Number(IntToF64(i))
    case ByteArray(_) => Null
    case Object(props) => Object(NormProps(props))
    case EcmaArray(props) => EcmaArray(NormProps(props))
    case TypedObject(name, props) => TypedObject(name, NormProps(props))
    case Array(elems) => Array(NormAll(elems))
    case _ => v
  }

  function NormProps(props: seq<Prop>): (r: seq<Prop>)
    ensures |r| == |props| && forall i :: 0 <= i < |r| ==> r[i].key == props[i].key
    decreases props, 1
  {
    if props == [] then [] else [Prop(props[0].key, Norm(props[0].val))] + NormProps(props[1..])
  }

  function NormAll(vs: seq<AmfValue>): (r: seq<AmfValue>)
    ensures |r| == |vs|
    decreases vs, 1
  {
    if vs == [] then [] else [Norm(vs[0])] + NormAll(vs[1..])
  }

  /** The containers in a value, itself included, in the order in which they are opened. */
  function Containers(v: AmfValue): seq<AmfValue>
    decreases v, 0
  {
    match v
    case Object(props) => [v] + ContainersProps(props)
    case EcmaArray(props) => [v] + ContainersProps(props)
    case TypedObject(_, props) => [v] + ContainersProps(props)
    case Array(elems) => [v] + ContainersAll(elems)
    case _ => []
  }

  function ContainersProps(props: seq<Prop>): seq<AmfValue>
    decreases props, 1
  {
    if props == [] then [] else Containers(props[0].val) + ContainersProps(props[1..])
  }

  function ContainersAll(vs: seq<AmfValue>): seq<AmfValue>
    decreases vs, 1
  {
    if vs == [] then [] else Containers(vs[0]) + ContainersAll(vs[1..])
  }

  // ---- which values the format can carry ----

  /** Strings are UTF-8 and keys distinct (always so in the program), keys are not empty,
      keys and class names have 16-bit lengths, everything else 32-bit lengths. */
  predicate Fits(v: AmfValue)
    decreases v, 0
  {
    match v
    case String(s) => FitsString(s, 0xFFFF_FFFF)
    case Xml(s) => FitsString(s, 0xFFFF_FFFF)
    case Object(props) => DistinctKeys(props) && FitsProps(props)
    case EcmaArray(props) => DistinctKeys(props) && FitsProps(props)
    case TypedObject(name, props) => FitsString(name, 0xFFFF) && DistinctKeys(props) && FitsProps(props)
    case Array(elems) => |elems| < TWO_TO_THE_32 && FitsAll(elems)
    case _ => true
  }

  predicate FitsProps(props: seq<Prop>)
    decreases props, 1
  {
    forall p :: p in props ==> p.key != [] && FitsString(p.key, 0xFFFF) && Fits(p.val)
  }

  predicate FitsAll(vs: seq<AmfValue>)
    decreases vs, 1
  {
    forall v :: v in vs ==> Fits(v)
  }

  // ---- round trip of strings ----

  lemma Utf8RoundTrip(s: bytes, st: State, tail: bytes)
    requires FitsString(s, 0xFFFF) && st.buf == Utf8(s) + tail
    ensures ReadUtf8(st) == Out(Ok(s), st.(buf := tail))
  {
    Be16Read(|s|, s + tail);
    ConcatAssociates(Be16(|s|), s, tail);
    assert s[..|s|] == s && (s + tail)[..|s|] == s && (s + tail)[|s|..] == tail;
  }

  lemma LongUtf8RoundTrip(s: bytes, st: State, tail: bytes)
    requires FitsString(s, 0xFFFF_FFFF) && st.buf == LongUtf8(s) + tail
    ensures ReadLongUtf8(st) == Out(Ok(s), st.(buf := tail))
  {
    hide ValidUtf8, Be32, U32At;
    Be32Read(|s|, s + tail);
    ConcatAssociates(Be32(|s|), s, tail);
    assert (s + tail)[..|s|] == s && (s + tail)[|s|..] == tail;
  }

  lemma Be16Read(v: u16, tail: bytes)
    ensures var b := Be16(v) + tail; |b| >= 2 && U16At(b, 0) == v && b[2..] == tail
  {
    Be16RoundTrip(v);
  }

  lemma Be32Read(v: u32, tail: bytes)
    ensures var b := Be32(v) + tail; |b| >= 4 && U32At(b, 0) == v && b[4..] == tail
  {
    Be32RoundTrip(v);
    var b := Be32(v) + tail;
    assert forall i :: 0 <= i < 4 ==> b[i] == Be32(v)[i];
  }

  // ---- round trip of values ----

  /** Decoding from `st` gives back `v`, leaves `tail`, and has appended the containers of the
      result to the reference table; or `v` nests too deeply from here, and decoding says so. */
  predicate Returns(v: AmfValue, st: State, tail: bytes, o: Out<AmfValue>) {
    if st.depth + Height(v) <= MAX_NESTING_DEPTH then
      o == Out(Ok(Norm(v)), State(tail, st.refs + Containers(Norm(v)), st.depth))
    else
      o.r == Err(NestingTooDeep)
  }

  predicate ReturnsProps(acc: seq<Prop>, props: seq<Prop>, st: State, tail: bytes, o: Out<seq<Prop>>) {
    if st.depth + HeightProps(props) <= MAX_NESTING_DEPTH then
      o == Out(Ok(acc + NormProps(props)), State(tail, st.refs + ContainersProps(NormProps(props)), st.depth))
    else
      o.r == Err(NestingTooDeep)
  }

  predicate ReturnsAll(acc: seq<AmfValue>, vs: seq<AmfValue>, st: State, tail: bytes, o: Out<seq<AmfValue>>) {
    if st.depth + HeightAll(vs) <= MAX_NESTING_DEPTH then
      o == Out(Ok(acc + NormAll(vs)), State(tail, st.refs + ContainersAll(NormAll(vs)), st.depth))
    else
      o.r == Err(NestingTooDeep)
  }

  lemma Nested(a: bytes, b: bytes, c: bytes, tail: bytes)
    ensures a + (b + c) + tail == a + (b + (c + tail))
  {
  }

  /** One entry of a map. */
  lemma PropStep(lenient: bool, acc: seq<Prop>, p: Prop, st: State, tail: bytes)
    requires p.key != [] && FitsString(p.key, 0xFFFF) && !HasKey(acc, p.key)
    requires st.buf == Utf8(p.key) + (Encode(p.val) + tail)
    requires var st1 := st.(buf := Encode(p.val) + tail);
      Returns(p.val, st1, tail, Decode(lenient, st1))
    ensures var o := DecodeProps(lenient, st, acc);
      if st.depth + Height(p.val) <= MAX_NESTING_DEPTH then
        o == DecodeProps(lenient, State(tail, st.refs + Containers(Norm(p.val)), st.depth),
                         acc + [Prop(p.key, Norm(p.val))])
      else
        o.r == Err(NestingTooDeep)
  {
    hide Decode, ReadUtf8, Containers, Norm, Height, Utf8, FitsString, HasKey;
    Utf8RoundTrip(p.key, st, Encode(p.val) + tail);
    PutNew(acc, p.key, Norm(p.val));
  }

  lemma {:induction false} PropsRoundTrip(lenient: bool, acc: seq<Prop>, props: seq<Prop>, st: State, tail: bytes)
    requires FitsProps(props) && DistinctKeys(acc + props) && st.depth <= MAX_NESTING_DEPTH
    requires st.buf == EncodeProps(props) + tail
    ensures ReturnsProps(acc, props, st, tail, DecodeProps(lenient, st, acc))
    decreases props, 1
  {
    hide Decode, Containers, Norm, Height, Fits, Utf8, FitsString, DistinctKeys, DecodeProps;
    if props == [] {
      EndOfProps(lenient, acc, st, tail);
    } else {
      var p, rest := props[0], props[1..];
      var tail1 := EncodeProps(rest) + tail;
      assert p in props;
      Nested(Utf8(p.key), Encode(p.val), EncodeProps(rest), tail);
      RoundTrip(lenient, p.val, st.(buf := Encode(p.val) + tail1), tail1);
      NewKey(acc, props);
      PropStep(lenient, acc, p, st, tail1);
      if st.depth + Height(p.val) <= MAX_NESTING_DEPTH {
        var next := Prop(p.key, Norm(p.val));
        ShiftKeys(acc, props, next);
        PropsRoundTrip(lenient, acc + [next], rest, State(tail1, st.refs + Containers(Norm(p.val)), st.depth), tail);
        Gathered(acc, next, NormProps(rest), st.refs);
      }
    }
  }

  lemma Gathered(acc: seq<Prop>, next: Prop, rest: seq<Prop>, refs: seq<AmfValue>)
    ensures acc + [next] + rest == acc + ([next] + rest)
    ensures refs + Containers(next.val) + ContainersProps(rest) == refs + ContainersProps([next] + rest)
  {
    hide Containers;
    assert ([next] + rest)[1..] == rest;
    assert refs + Containers(next.val) + ContainersProps(rest) == refs + (Containers(next.val) + ContainersProps(rest));
  }

  lemma EndOfProps(lenient: bool, acc: seq<Prop>, st: State, tail: bytes)
    requires st.buf == Be16(0) + [OBJECT_END] + tail
    ensures DecodeProps(lenient, st, acc) == Out(Ok(acc), st.(buf := tail))
    ensures acc + [] == acc && st.refs + [] == st.refs
  {
    assert st.buf[..0] == [] && st.buf[2..] == [OBJECT_END] + tail;
    assert st.buf[2..][..0] == [];
  }

  /** One element of a dense array. */
  lemma ElemStep(lenient: bool, acc: seq<AmfValue>, v: AmfValue, count: nat, st: State, tail: bytes)
    requires Returns(v, st, tail, Decode(lenient, st))
    ensures var o := DecodeElems(lenient, st, count + 1, acc);
      if st.depth + Height(v) <= MAX_NESTING_DEPTH then
        o == DecodeElems(lenient, State(tail, st.refs + Containers(Norm(v)), st.depth), count, acc + [Norm(v)])
      else
        o.r == Err(NestingTooDeep)
  {
    hide Decode, Containers, Norm, Height;
  }

  lemma {:induction false} AllRoundTrip(lenient: bool, acc: seq<AmfValue>, vs: seq<AmfValue>, st: State, tail: bytes)
    requires FitsAll(vs) && st.depth <= MAX_NESTING_DEPTH
    requires st.buf == EncodeAll(vs) + tail
    ensures ReturnsAll(acc, vs, st, tail, DecodeElems(lenient, st, |vs|, acc))
    decreases vs, 1
  {
    hide Decode, Containers, Norm, Height, Fits, DecodeElems;
    if vs == [] {
      NoElems(lenient, acc, st, tail);
    } else {
      var v, rest := vs[0], vs[1..];
      var tail1 := EncodeAll(rest) + tail;
      assert v in vs && forall x :: x in rest ==> x in vs;
      ConcatAssociates(Encode(v), EncodeAll(rest), tail);
      RoundTrip(lenient, v, st, tail1);
      ElemStep(lenient, acc, v, |rest|, st, tail1);
      if st.depth + Height(v) <= MAX_NESTING_DEPTH {
        AllRoundTrip(lenient, acc + [Norm(v)], rest, State(tail1, st.refs + Containers(Norm(v)), st.depth), tail);
        GatheredAll(acc, Norm(v), NormAll(rest), st.refs);
      }
    }
  }

  lemma NoElems(lenient: bool, acc: seq<AmfValue>, st: State, tail: bytes)
    requires st.buf == [] + tail
    ensures DecodeElems(lenient, st, 0, acc) == Out(Ok(acc), st.(buf := tail))
    ensures acc + [] == acc && st.refs + [] == st.refs
  {
  }

  lemma GatheredAll(acc: seq<AmfValue>, next: AmfValue, rest: seq<AmfValue>, refs: seq<AmfValue>)
    ensures acc + [next] + rest == acc + ([next] + rest)
    ensures refs + Containers(next) + ContainersAll(rest) == refs + ContainersAll([next] + rest)
  {
    hide Containers;
    assert ([next] + rest)[1..] == rest;
    assert refs + Containers(next) + ContainersAll(rest) == refs + (Containers(next) + ContainersAll(rest));
  }

  /** Decoding a value is decoding what follows its marker, one level deeper. */
  lemma Entered(lenient: bool, marker: byte, body: bytes, st: State)
    requires st.buf == [marker] + body && st.depth < MAX_NESTING_DEPTH
    ensures var o := DecodeValue(lenient, marker, State(body, st.refs, st.depth + 1));
      Decode(lenient, st) == Out(o.r, o.st.(depth := o.st.depth - 1))
  {
    hide DecodeValue;
    assert st.buf[1..] == body;
  }

  predicate IsLeaf(v: AmfValue) {
    !v.Object? && !v.EcmaArray? && !v.TypedObject? && !v.Array?
  }

  lemma NumberRead(n: F64, more: bytes, tail: bytes)
    ensures (n + more + tail)[..8] == n && (n + more + tail)[8 + |more|..] == tail
  {
  }

  lemma LeafRoundTrip(lenient: bool, v: AmfValue, st: State, tail: bytes)
    requires IsLeaf(v) && Fits(v) && st.buf == Encode(v)[1..] + tail
    ensures DecodeValue(lenient, Encode(v)[0], st) == Out(Ok(Norm(v)), st.(buf := tail))
  {
    hide FitsString, ReadUtf8, ReadLongUtf8, IntToF64, Utf8, LongUtf8;
    match v
    case String(s) =>
      if |s| > 0xFFFF {
        assert Encode(v)[1..] == LongUtf8(s);
        LongUtf8RoundTrip(s, st, tail);
      } else {
        assert Encode(v)[1..] == Utf8(s);
        Shorter(s);
        Utf8RoundTrip(s, st, tail);
      }
    case Xml(s) =>
      assert Encode(v)[1..] == LongUtf8(s);
      LongUtf8RoundTrip(s, st, tail);
    case Number(n) => NumberRead(n, [], tail); assert Encode(v)[1..] == n + [];
    case Integer(i) => NumberRead(IntToF64(i), [], tail); assert Encode(v)[1..] == IntToF64(i) + [];
    case Date(n) => NumberRead(n, Be16(0), tail); assert Encode(v)[1..] == n + Be16(0);
    case Boolean(b) => assert st.buf == [if b then 1 else 0] + tail; assert st.buf[1..] == tail;
    case Null => assert st.buf == tail;
    case Undefined => assert st.buf == tail;
    case ByteArray(_) => assert st.buf == tail;
  }

  lemma Shorter(s: bytes)
    requires FitsString(s, 0xFFFF_FFFF) && |s| <= 0xFFFF
    ensures FitsString(s, 0xFFFF)
  {
  }

  /** A container with entries: its reference slot holds the finished value. */
  lemma ObjectRoundTrip(lenient: bool, kind: Kind, props: seq<Prop>, st: State, tail: bytes)
    requires st.depth <= MAX_NESTING_DEPTH
    requires var inner := st.(refs := st.refs + [Null]);
      ReturnsProps([], props, inner, tail, DecodeProps(lenient, inner, []))
    ensures var o := DecodeObject(lenient, st, kind);
      var v := Make(kind, NormProps(props));
      if st.depth + HeightProps(props) <= MAX_NESTING_DEPTH then
        o == Out(Ok(v), State(tail, st.refs + ([v] + ContainersProps(NormProps(props))), st.depth))
      else
        o.r == Err(NestingTooDeep)
  {
    hide DecodeProps, ContainersProps;
    assert [] + NormProps(props) == NormProps(props);
    var v, kids := Make(kind, NormProps(props)), ContainersProps(NormProps(props));
    assert (st.refs + [Null] + kids)[|st.refs| := v] == st.refs + ([v] + kids);
  }

  lemma PropsOfValue(lenient: bool, props: seq<Prop>, st: State, tail: bytes)
    requires FitsProps(props) && DistinctKeys(props) && st.depth <= MAX_NESTING_DEPTH
    requires st.buf == EncodeProps(props) + tail
    ensures ReturnsProps([], props, st, tail, DecodeProps(lenient, st, []))
    decreases props, 2
  {
    assert [] + props == props;
    PropsRoundTrip(lenient, [], props, st, tail);
  }

  lemma CountRead(count: u32, body: bytes, st: State, tail: bytes)
    requires st.buf == Be32(count) + body + tail
    ensures |st.buf| >= 4 && U32At(st.buf, 0) == count && Skip(st, 4) == st.(buf := body + tail)
  {
    ConcatAssociates(Be32(count), body, tail);
    Be32Read(count, body + tail);
  }

  lemma ArrayRoundTrip(lenient: bool, elems: seq<AmfValue>, st: State, tail: bytes)
    requires |elems| < TWO_TO_THE_32 && st.depth <= MAX_NESTING_DEPTH
    requires st.buf == Be32(|elems|) + EncodeAll(elems) + tail
    requires var inner := State(EncodeAll(elems) + tail, st.refs + [Null], st.depth);
      ReturnsAll([], elems, inner, tail, DecodeElems(lenient, inner, |elems|, []))
    ensures var o := DecodeValue(lenient, STRICT_ARRAY, st);
      var v := Array(NormAll(elems));
      if st.depth + HeightAll(elems) <= MAX_NESTING_DEPTH then
        o == Out(Ok(v), State(tail, st.refs + ([v] + ContainersAll(NormAll(elems))), st.depth))
      else
        o.r == Err(NestingTooDeep)
  {
    hide DecodeElems, EncodeAll, ContainersAll;
    CountRead(|elems|, EncodeAll(elems), st, tail);
    assert [] + NormAll(elems) == NormAll(elems);
    var v, kids := Array(NormAll(elems)), ContainersAll(NormAll(elems));
    assert (st.refs + [Null] + kids)[|st.refs| := v] == st.refs + ([v] + kids);
  }

  /** The same as `Returns`, for what follows the marker of `v`. */
  predicate ReturnsBody(v: AmfValue, st: State, tail: bytes, o: Out<AmfValue>) {
    if st.depth - 1 + Height(v) <= MAX_NESTING_DEPTH then
      o == Out(Ok(Norm(v)), State(tail, st.refs + Containers(Norm(v)), st.depth))
    else
      o.r == Err(NestingTooDeep)
  }

  lemma EcmaRoundTrip(lenient: bool, props: seq<Prop>, st: State, tail: bytes)
    requires Fits(EcmaArray(props)) && st.depth <= MAX_NESTING_DEPTH
    requires st.buf == Be32(|props| % TWO_TO_THE_32) + EncodeProps(props) + tail
    ensures ReturnsBody(EcmaArray(props), st, tail, DecodeValue(lenient, ECMA_ARRAY, st))
    decreases props, 3
  {
    hide DecodeObject, DecodeProps, EncodeProps, NormProps, ContainersProps, HeightProps, DistinctKeys, FitsProps;
    CountRead(|props| % TWO_TO_THE_32, EncodeProps(props), st, tail);
    var st1 := st.(buf := EncodeProps(props) + tail);
    PropsOfValue(lenient, props, st1.(refs := st.refs + [Null]), tail);
    ObjectRoundTrip(lenient, Ecma, props, st1, tail);
  }

  lemma TypedRoundTrip(lenient: bool, name: bytes, props: seq<Prop>, st: State, tail: bytes)
    requires Fits(TypedObject(name, props)) && st.depth <= MAX_NESTING_DEPTH
    requires st.buf == Utf8(name) + EncodeProps(props) + tail
    ensures ReturnsBody(TypedObject(name, props), st, tail, DecodeValue(lenient, TYPED_OBJECT, st))
    decreases props, 3
  {
    hide DecodeObject, DecodeProps, EncodeProps, NormProps, ContainersProps, HeightProps, DistinctKeys, FitsProps,
      ReadUtf8, Utf8, FitsString;
    ConcatAssociates(Utf8(name), EncodeProps(props), tail);
    Utf8RoundTrip(name, st, EncodeProps(props) + tail);
    var st1 := st.(buf := EncodeProps(props) + tail);
    PropsOfValue(lenient, props, st1.(refs := st.refs + [Null]), tail);
    ObjectRoundTrip(lenient, Typed(name), props, st1, tail);
  }

  lemma BodyRoundTrip(lenient: bool, v: AmfValue, st: State, tail: bytes)
    requires Fits(v) && st.depth <= MAX_NESTING_DEPTH && st.buf == Encode(v)[1..] + tail
    ensures ReturnsBody(v, st, tail, DecodeValue(lenient, Encode(v)[0], st))
    decreases v, 0
  {
    hide DecodeValue, FitsString, DistinctKeys, Utf8, EncodeProps, EncodeAll, NormProps, NormAll, ContainersProps,
      ContainersAll, HeightProps, HeightAll, FitsProps, FitsAll, IntToF64, LongUtf8, DecodeProps, DecodeElems;
    match v
    case Object(props) =>
      assert Encode(v)[1..] == EncodeProps(props);
      PlainRoundTrip(lenient, props, st, tail);
    case EcmaArray(props) =>
      assert Encode(v)[1..] == Be32(|props| % TWO_TO_THE_32) + EncodeProps(props);
      EcmaRoundTrip(lenient, props, st, tail);
    case TypedObject(name, props) =>
      assert Encode(v)[1..] == Utf8(name) + EncodeProps(props);
      TypedRoundTrip(lenient, name, props, st, tail);
    case Array(elems) =>
      assert Encode(v)[1..] == Be32(|elems|) + EncodeAll(elems);
      AllRoundTrip(lenient, [], elems, State(EncodeAll(elems) + tail, st.refs + [Null], st.depth), tail);
      ArrayRoundTrip(lenient, elems, st, tail);
    case _ =>
      LeafRoundTrip(lenient, v, st, tail);
      assert st.refs + [] == st.refs;
  }

  lemma PlainRoundTrip(lenient: bool, props: seq<Prop>, st: State, tail: bytes)
    requires Fits(Object(props)) && st.depth <= MAX_NESTING_DEPTH && st.buf == EncodeProps(props) + tail
    ensures ReturnsBody(Object(props), st, tail, DecodeValue(lenient, OBJECT, st))
    decreases props, 3
  {
    hide DecodeObject, DecodeProps, EncodeProps, NormProps, ContainersProps, HeightProps, DistinctKeys, FitsProps;
    PropsOfValue(lenient, props, st.(refs := st.refs + [Null]), tail);
    ObjectRoundTrip(lenient, Plain, props, st, tail);
  }

  /** A value that fits the format comes back normalised if it nests no deeper than the limit
      allows from here, and is refused for its depth otherwise; bytes behind it are left alone. */
  lemma {:induction false} RoundTrip(lenient: bool, v: AmfValue, st: State, tail: bytes)
    requires Fits(v) && st.depth <= MAX_NESTING_DEPTH && st.buf == Encode(v) + tail
    ensures Returns(v, st, tail, Decode(lenient, st))
    decreases v, 1
  {
    hide Fits, Norm, Containers, DecodeValue;
    if st.depth < MAX_NESTING_DEPTH {
      var marker, body := Encode(v)[0], Encode(v)[1..];
      assert Encode(v) == [marker] + body;
      ConcatAssociates([marker], body, tail);
      Entered(lenient, marker, body + tail, st);
      BodyRoundTrip(lenient, v, State(body + tail, st.refs, st.depth + 1), tail);
    }
  }
}
