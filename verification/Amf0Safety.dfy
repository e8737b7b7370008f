/** Decoding of arbitrary AMF0 bytes, lenient or strict, and with it the exact
    set of values that survive a round trip. */
module Amf0Safety {
  import opened Bytes
  import opened Amf
  import opened Amf0Model
  import opened Amf0Proofs

  /** What any parsing function does to the decoder: it consumes from the front, it only
      appends to the reference table and puts fitting values there, and the depth comes back
      to what it was, except that a refusal for depth leaves it one too high. */
  predicate Sound<T>(st: State, o: Out<T>) {
    && IsSuffix(o.st.buf, st.buf)
    && st.refs <= o.st.refs
    && (FitsAll(st.refs) ==> FitsAll(o.st.refs))
    && o.st.depth == st.depth + (if o.r == Err(NestingTooDeep) then 1 else 0)
  }

  lemma SoundTrans<S, T>(st: State, a: Out<S>, b: Out<T>)
    requires Sound(st, a) && a.r.Ok? && Sound(a.st, b)
    ensures Sound(st, b)
  {
    hide FitsAll;
    SuffixTrans(b.st.buf, a.st.buf, st.buf);
  }

  lemma StringSound(st: State)
    ensures Sound(st, ReadUtf8(st))
    ensures ReadUtf8(st).r.Ok? ==> FitsString(ReadUtf8(st).r.value, 0xFFFF)
    ensures Sound(st, ReadLongUtf8(st))
    ensures ReadLongUtf8(st).r.Ok? ==> FitsString(ReadLongUtf8(st).r.value, 0xFFFF_FFFF)
  {
    hide FitsAll, ValidUtf8, TakeUtf8, Sound;
    if |st.buf| >= 2 {
      TakeSound(st, 2, U16At(st.buf, 0));
    }
    if |st.buf| >= 4 {
      TakeSound(st, 4, U32At(st.buf, 0));
    }
    TooShortSound(st);
  }

  lemma TooShortSound(st: State)
    ensures Sound<bytes>(st, Fail(UnexpectedEof, st))
  {
  }

  lemma TakeSound(st: State, skip: nat, len: nat)
    requires skip <= |st.buf|
    ensures Sound(st, TakeUtf8(Skip(st, skip), len))
    ensures TakeUtf8(Skip(st, skip), len).r.Ok? ==> FitsString(TakeUtf8(Skip(st, skip), len).r.value, len)
  {
    hide FitsAll, ValidUtf8;
    if |st.buf| >= skip + len {
      assert st.buf[skip..][len..] == st.buf[skip + len..];
    }
  }

  lemma PlaceholderFits(refs: seq<AmfValue>)
    requires FitsAll(refs)
    ensures FitsAll(refs + [Null])
  {
  }

  lemma SlotFilled(refs: seq<AmfValue>, later: seq<AmfValue>, v: AmfValue)
    requires refs + [Null] <= later
    ensures var r := later[|refs| := v];
      refs <= r && (FitsAll(later) && Fits(v) ==> FitsAll(r))
  {
    hide Fits;
    var r := later[|refs| := v];
    assert refs == (refs + [Null])[..|refs|] == later[..|refs|] == r[..|refs|];
    forall x | x in r && FitsAll(later) && Fits(v) ensures Fits(x) {
      assert x == v || x in later;
    }
  }

  lemma {:induction false} DecodeSound(lenient: bool, st: State)
    ensures var o := Decode(lenient, st);
      Sound(st, o) && (FitsAll(st.refs) && o.r.Ok? ==> Fits(o.r.value))
    decreases |st.buf|, 0
  {
    hide Fits, FitsAll, DecodeValue;
    if st.buf != [] && st.depth + 1 <= MAX_NESTING_DEPTH {
      var st1 := Skip(st, 1).(depth := st.depth + 1);
      ValueSound(lenient, st.buf[0], st1);
      SuffixTrans(DecodeValue(lenient, st.buf[0], st1).st.buf, st1.buf, st.buf);
    }
  }

  /** The markers whose values are read by a further parsing function. */
  predicate Opens(marker: byte) {
    marker == OBJECT || marker == ECMA_ARRAY || marker == TYPED_OBJECT || marker == STRICT_ARRAY
  }

  /** The same outcome as another parsing function, with a value made of its value. */
  lemma Retyped<S, T>(st: State, a: Out<S>, b: Out<T>)
    requires Sound(st, a) && a.st == b.st
    requires if a.r.Ok? then b.r.Ok? else b.r.Err? && a.r.error == b.r.error
    ensures Sound(st, b)
  {
  }

  lemma Taken<T>(st: State, n: nat, o: Out<T>)
    requires n <= |st.buf| && o.r != Err(NestingTooDeep) && o.st == (if n == 0 then st else Skip(st, n))
    ensures Sound(st, o)
  {
  }

  predicate HoldsString(marker: byte) {
    marker == STRING || marker == LONG_STRING || marker == XML_DOCUMENT
  }

  lemma StringValueSound(lenient: bool, marker: byte, st: State)
    requires HoldsString(marker)
    ensures var o := DecodeValue(lenient, marker, st);
      Sound(st, o) && (o.r.Ok? ==> Fits(o.r.value))
  {
    hide Sound, FitsString, ReadUtf8, ReadLongUtf8;
    var o := DecodeValue(lenient, marker, st);
    StringSound(st);
    if marker == STRING {
      ShortFits(st);
      Retyped(st, ReadUtf8(st), o);
    } else {
      Retyped(st, ReadLongUtf8(st), o);
    }
  }

  lemma LeafSound(lenient: bool, marker: byte, st: State)
    requires !Opens(marker) && marker != REFERENCE && !HoldsString(marker)
    ensures var o := DecodeValue(lenient, marker, st);
      Sound(st, o) && (o.r.Ok? ==> Fits(o.r.value))
  {
    hide Sound;
    var o := DecodeValue(lenient, marker, st);
    if o.r.Ok? && (marker == NUMBER || marker == BOOLEAN || marker == DATE) {
      Taken(st, if marker == NUMBER then 8 else if marker == BOOLEAN then 1 else 10, o);
    } else {
      Taken(st, 0, o);
    }
  }

  lemma OpenShort(lenient: bool, marker: byte, st: State)
    requires (marker == ECMA_ARRAY || marker == STRICT_ARRAY) && |st.buf| < 4
    ensures Sound(st, DecodeValue(lenient, marker, st)) && DecodeValue(lenient, marker, st).r.Err?
  {
    hide FitsAll;
  }

  lemma {:induction false} EntriesSound(lenient: bool, marker: byte, st: State)
    requires marker == OBJECT || marker == TYPED_OBJECT || (marker == ECMA_ARRAY && |st.buf| >= 4)
    ensures var o := DecodeValue(lenient, marker, st);
      Sound(st, o) && (FitsAll(st.refs) && o.r.Ok? ==> Fits(o.r.value))
    decreases |st.buf|, 1, 2
  {
    hide FitsAll, FitsString, DecodeObject, ReadUtf8, Fits;
    if marker == OBJECT {
      ObjectSound(lenient, st, Plain);
    } else if marker == ECMA_ARRAY {
      ObjectSound(lenient, Skip(st, 4), Ecma);
      SuffixTrans(DecodeObject(lenient, Skip(st, 4), Ecma).st.buf, Skip(st, 4).buf, st.buf);
    } else {
      StringSound(st);
      var name := ReadUtf8(st);
      if name.r.Ok? {
        ObjectSound(lenient, name.st, Typed(name.r.value));
        SoundTrans(st, name, DecodeObject(lenient, name.st, Typed(name.r.value)));
      }
    }
  }

  lemma {:induction false} ValueSound(lenient: bool, marker: byte, st: State)
    ensures var o := DecodeValue(lenient, marker, st);
      Sound(st, o) && (FitsAll(st.refs) && o.r.Ok? ==> Fits(o.r.value))
    decreases |st.buf|, 2
  {
    hide Sound, DecodeValue, Fits, FitsAll;
    if Opens(marker) {
      if marker == STRICT_ARRAY && |st.buf| >= 4 {
        ArraySound(lenient, st);
      } else if marker == STRICT_ARRAY || (marker == ECMA_ARRAY && |st.buf| < 4) {
        OpenShort(lenient, marker, st);
      } else {
        EntriesSound(lenient, marker, st);
      }
    } else if marker == REFERENCE {
      ReferenceSound(lenient, st);
    } else if HoldsString(marker) {
      StringValueSound(lenient, marker, st);
    } else {
      LeafSound(lenient, marker, st);
    }
  }

  lemma ShortFits(st: State)
    ensures forall s :: FitsString(s, 0xFFFF) ==> FitsString(s, 0xFFFF_FFFF)
  {
  }

  lemma ReferenceSound(lenient: bool, st: State)
    ensures var o := DecodeValue(lenient, REFERENCE, st);
      Sound(st, o) && (FitsAll(st.refs) && o.r.Ok? ==> Fits(o.r.value))
  {
    hide Fits;
  }

  lemma {:induction false} ArraySound(lenient: bool, st: State)
    requires |st.buf| >= 4
    ensures var o := DecodeValue(lenient, STRICT_ARRAY, st);
      Sound(st, o) && (FitsAll(st.refs) && o.r.Ok? ==> Fits(o.r.value))
    decreases |st.buf|, 1, 1
  {
    hide FitsAll, DecodeElems;
    var inner := Skip(st, 4).(refs := st.refs + [Null]);
    var o := DecodeElems(lenient, inner, U32At(st.buf, 0), []);
    ElemsSound(lenient, inner, U32At(st.buf, 0), []);
    SuffixTrans(o.st.buf, inner.buf, st.buf);
    NoElemsFit();
    if FitsAll(st.refs) {
      PlaceholderFits(st.refs);
    }
    if o.r.Ok? {
      SlotFilled(st.refs, o.st.refs, Array(o.r.value));
    }
  }

  lemma NoElemsFit()
    ensures FitsAll([])
  {
  }

  lemma MoreFit(elems: seq<AmfValue>, v: AmfValue)
    requires FitsAll(elems) && Fits(v)
    ensures FitsAll(elems + [v])
  {
    hide Fits;
  }

  lemma {:induction false} ElemsSound(lenient: bool, st: State, count: nat, elems: seq<AmfValue>)
    ensures var o := DecodeElems(lenient, st, count, elems);
      && Sound(st, o)
      && (FitsAll(st.refs) && FitsAll(elems) && o.r.Ok? ==> FitsAll(o.r.value))
      && (o.r.Ok? ==> |o.r.value| == |elems| + count)
    decreases |st.buf|, 1, 0
  {
    hide FitsAll, Decode;
    if count > 0 {
      var v := Decode(lenient, st);
      DecodeSound(lenient, st);
      if v.r.Ok? {
        if FitsAll(st.refs) && FitsAll(elems) {
          MoreFit(elems, v.r.value);
        }
        ElemsSound(lenient, v.st, count - 1, elems + [v.r.value]);
        SoundTrans(st, v, DecodeElems(lenient, v.st, count - 1, elems + [v.r.value]));
      }
    }
  }

  lemma {:induction false} ObjectSound(lenient: bool, st: State, kind: Kind)
    requires kind.Typed? ==> FitsString(kind.className, 0xFFFF)
    ensures var o := DecodeObject(lenient, st, kind);
      Sound(st, o) && (FitsAll(st.refs) && o.r.Ok? ==> Fits(o.r.value))
    decreases |st.buf|, 1, 1
  {
    hide FitsAll, DecodeProps, FitsProps, DistinctKeys;
    var inner := st.(refs := st.refs + [Null]);
    var o := DecodeProps(lenient, inner, []);
    NoProps();
    PropsSound(lenient, inner, []);
    if FitsAll(st.refs) {
      PlaceholderFits(st.refs);
    }
    if o.r.Ok? {
      SlotFilled(st.refs, o.st.refs, Make(kind, o.r.value));
    }
  }

  lemma NoProps()
    ensures FitsProps([]) && DistinctKeys([])
  {
  }

  lemma SameError<S, T>(st: State, a: Out<S>, b: Out<T>)
    requires Sound(st, a) && a.r.Err? && b.r.Err? && a.r.error == b.r.error && a.st == b.st
    ensures Sound(st, b)
  {
  }

  /** After a successful part the parser stops where it is, or one byte further. */
  lemma StopsSound<S, T>(st: State, a: Out<S>, b: Out<T>)
    requires Sound(st, a) && a.r.Ok? && b.r != Err(NestingTooDeep)
    requires b.st == a.st || (a.st.buf != [] && b.st == Skip(a.st, 1))
    ensures Sound(st, b)
  {
    hide FitsAll;
    SuffixTrans(b.st.buf, a.st.buf, st.buf);
  }

  lemma EmptyKeySound(lenient: bool, st: State, props: seq<Prop>)
    requires ReadUtf8(st).r == Ok([])
    ensures var o := DecodeProps(lenient, st, props);
      Sound(st, o) && (o.r.Ok? ==> o.r.value == props)
  {
    hide ReadUtf8, Sound;
    StringSound(st);
    StopsSound(st, ReadUtf8(st), DecodeProps(lenient, st, props));
  }

  lemma {:induction false} PropsSound(lenient: bool, st: State, props: seq<Prop>)
    ensures var o := DecodeProps(lenient, st, props);
      && Sound(st, o)
      && (FitsAll(st.refs) && FitsProps(props) && DistinctKeys(props) && o.r.Ok? ==>
            FitsProps(o.r.value) && DistinctKeys(o.r.value))
    decreases |st.buf|, 1, 0
  {
    hide Sound, FitsAll, FitsProps, DistinctKeys, Decode, ReadUtf8, FitsString;
    var k, o := ReadUtf8(st), DecodeProps(lenient, st, props);
    StringSound(st);
    if k.r.Err? {
      SameError(st, k, o);
    } else if k.r.value == [] {
      EmptyKeySound(lenient, st, props);
    } else {
      var v := Decode(lenient, k.st);
      DecodeSound(lenient, k.st);
      SoundTrans(st, k, v);
      if v.r.Err? {
        SameError(st, v, o);
      } else {
        var more := Put(props, k.r.value, v.r.value);
        FitsKept(st, k);
        FitsKept(st, v);
        if FitsAll(st.refs) && FitsProps(props) && DistinctKeys(props) {
          PutFits(props, k.r.value, v.r.value);
        }
        PropsSound(lenient, v.st, more);
        SoundTrans(st, v, DecodeProps(lenient, v.st, more));
      }
    }
  }

  lemma FitsKept<T>(st: State, o: Out<T>)
    requires Sound(st, o)
    ensures FitsAll(st.refs) ==> FitsAll(o.st.refs)
  {
    hide FitsAll;
  }

  lemma PutFits(props: seq<Prop>, key: bytes, val: AmfValue)
    requires FitsProps(props) && DistinctKeys(props)
    requires key != [] && FitsString(key, 0xFFFF) && Fits(val)
    ensures FitsProps(Put(props, key, val)) && DistinctKeys(Put(props, key, val))
  {
    hide Fits, FitsString, DistinctKeys;
    PutKeeps(props, key, val);
  }

  // ---- exactly what survives ----

  lemma {:induction false} NormFits(v: AmfValue)
    ensures Fits(Norm(v)) <==> Fits(v)
    decreases v, 0
  {
    hide FitsProps, FitsAll, NormProps, NormAll, FitsString, DistinctKeys, IntToF64;
    match v
    case Object(props) => NormPropsFit(props); SameKeys(props);
    case EcmaArray(props) => NormPropsFit(props); SameKeys(props);
    case TypedObject(_, props) => NormPropsFit(props); SameKeys(props);
    case Array(elems) => NormAllFit(elems);
    case _ =>
  }

  lemma {:induction false} NormPropsFit(props: seq<Prop>)
    ensures FitsProps(NormProps(props)) <==> FitsProps(props)
    decreases props, 1
  {
    hide Fits, Norm, FitsString, FitsProps;
    if props != [] {
      NormFits(props[0].val);
      NormPropsFit(props[1..]);
      HeadAndTail(Prop(props[0].key, Norm(props[0].val)), NormProps(props[1..]));
      HeadAndTail(props[0], props[1..]);
      assert [props[0]] + props[1..] == props;
    }
  }

  lemma SameKeys(props: seq<Prop>)
    ensures DistinctKeys(NormProps(props)) <==> DistinctKeys(props)
  {
    hide Norm;
  }

  lemma HeadAndTail(p: Prop, rest: seq<Prop>)
    ensures FitsProps([p] + rest) <==> p.key != [] && FitsString(p.key, 0xFFFF) && Fits(p.val) && FitsProps(rest)
  {
    hide Fits, FitsString;
    assert ([p] + rest)[0] == p;
    assert forall q :: q in rest ==> q in [p] + rest;
  }

  lemma {:induction false} NormAllFit(vs: seq<AmfValue>)
    ensures FitsAll(NormAll(vs)) <==> FitsAll(vs)
    decreases vs, 1
  {
    hide Fits, Norm;
    if vs != [] {
      var n := NormAll(vs);
      NormFits(vs[0]);
      NormAllFit(vs[1..]);
      assert n == [n[0]] + NormAll(vs[1..]) && vs == [vs[0]] + vs[1..];
      assert forall x :: x in vs <==> x == vs[0] || x in vs[1..];
      assert forall x :: x in n <==> x == n[0] || x in NormAll(vs[1..]);
    }
  }

  /** A value comes back normalised, with the bytes behind it untouched, exactly when the
      format can carry it and it does not nest more than 64 deep. */
  lemma ExactRoundTrip(lenient: bool, v: AmfValue, tail: bytes)
    ensures var o := Decode(lenient, State(Encode(v) + tail, [], 0));
      o.r == Ok(Norm(v)) && o.st.buf == tail <==> Fits(v) && Height(v) <= MAX_NESTING_DEPTH
  {
    hide Fits, Norm, Decode, Height, Encode;
    var st := State(Encode(v) + tail, [], 0);
    if Fits(v) {
      RoundTrip(lenient, v, st, tail);
    } else {
      NormFits(v);
      NoElemsFit();
      DecodeSound(lenient, st);
    }
  }

  /** A value that fits but nests too deeply is refused for that reason. */
  lemma TooDeepIsRefused(lenient: bool, v: AmfValue, tail: bytes)
    requires Fits(v) && Height(v) > MAX_NESTING_DEPTH
    ensures Decode(lenient, State(Encode(v) + tail, [], 0)).r == Err(NestingTooDeep)
  {
    hide Fits, Norm, Decode, Height, Encode;
    RoundTrip(lenient, v, State(Encode(v) + tail, [], 0), tail);
  }

  // ---- lists of values ----

  lemma {:induction false} ListRoundTrip(lenient: bool, acc: seq<AmfValue>, vs: seq<AmfValue>, st: State)
    requires FitsAll(vs) && st.depth <= MAX_NESTING_DEPTH && st.buf == EncodeAll(vs)
    requires st.depth + HeightAll(vs) <= MAX_NESTING_DEPTH
    ensures DecodeAll(lenient, st, acc)
         == Out(Ok(acc + NormAll(vs)), State([], st.refs + ContainersAll(NormAll(vs)), st.depth))
    decreases |vs|
  {
    hide Fits, Norm, Decode, Height, Encode, Containers;
    if vs == [] {
      assert acc + [] == acc && st.refs + [] == st.refs;
    } else {
      var v, rest := vs[0], vs[1..];
      assert v in vs && forall x :: x in rest ==> x in vs;
      RoundTrip(lenient, v, st, EncodeAll(rest));
      ListRoundTrip(lenient, acc + [Norm(v)], rest, State(EncodeAll(rest), st.refs + Containers(Norm(v)), st.depth));
      GatheredAll(acc, Norm(v), NormAll(rest), st.refs);
    }
  }

  /** A reference behind a value yields the finished container that was opened in that
      position while the value was read, and nothing else. */
  lemma ReferenceYieldsContainer(lenient: bool, v: AmfValue, i: u16)
    requires Fits(v) && Height(v) <= MAX_NESTING_DEPTH
    ensures var containers := Containers(Norm(v));
      DecodeAll(lenient, State(Encode(v) + ([REFERENCE] + Be16(i)), [], 0), []).r ==
        if i < |containers| then Ok([Norm(v), containers[i]]) else Err(InvalidReference(i))
  {
    hide Fits, Norm, Height, Encode, Containers;
    var tail := [REFERENCE] + Be16(i);
    var containers := Containers(Norm(v));
    RoundTrip(lenient, v, State(Encode(v) + tail, [], 0), tail);
    assert [] + containers == containers;
    var st := State(tail, containers, 0);
    Be16RoundTrip(i);
    Entered(lenient, REFERENCE, Be16(i), st);
    assert Be16(i)[2..] == [];
    assert [] + [Norm(v)] == [Norm(v)];
    if i < |containers| {
      assert Decode(lenient, st) == Out(Ok(containers[i]), State([], containers, 0));
      assert [Norm(v)] + [containers[i]] == [Norm(v), containers[i]];
      assert DecodeAll(lenient, State([], containers, 0), [Norm(v), containers[i]]).r == Ok([Norm(v), containers[i]]);
    } else {
      assert Decode(lenient, st).r == Err(InvalidReference(i));
    }
    assert DecodeAll(lenient, State(Encode(v) + tail, [], 0), []) == DecodeAll(lenient, st, [Norm(v)]);
  }
}
