/** Decoding of arbitrary AMF3 bytes. */
module Amf3Safety {
  import opened Bytes
  import opened Amf
  import opened Amf3Model

  /** What any parsing function does to the decoder: it consumes from the front, its three
      tables only grow at the end, and the depth comes back to what it was, except that a
      refusal for depth leaves it one too high. */
  predicate Sound<T>(st: State, o: Out<T>) {
    && |o.st.buf| <= |st.buf| && o.st.buf == st.buf[|st.buf| - |o.st.buf|..]
    && st.strings <= o.st.strings && st.objects <= o.st.objects && st.traits <= o.st.traits
    && o.st.depth == st.depth + (if o.r == Err(NestingTooDeep) then 1 else 0)
  }

  lemma SoundTrans<S, T>(st: State, a: Out<S>, b: Out<T>)
    requires Sound(st, a) && a.r.Ok? && Sound(a.st, b)
    ensures Sound(st, b)
  {
    var x, y, z := b.st.buf, a.st.buf, st.buf;
    assert z[|z| - |y|..][|y| - |x|..] == z[|z| - |x|..];
  }

  /** A step of the caller in front of a parsing function: bytes taken, a placeholder entered. */
  lemma SoundAfter<T>(st: State, st1: State, o: Out<T>)
    requires Sound(st1, o) && |st1.buf| <= |st.buf| && st1.buf == st.buf[|st.buf| - |st1.buf|..]
    requires st1.strings == st.strings && st.objects <= st1.objects && st1.traits == st.traits && st1.depth == st.depth
    ensures Sound(st, o)
  {
    var x, y, z := o.st.buf, st1.buf, st.buf;
    assert z[|z| - |y|..][|y| - |x|..] == z[|z| - |x|..];
  }

  lemma {:induction false} U29Sound(st: State, i: nat, value: nat)
    requires i <= 3 && value < (if i == 0 then 1 else if i == 1 then 0x80 else if i == 2 then 0x4000 else 0x20_0000)
    ensures Sound(st, U29From(st, i, value))
    decreases 3 - i
  {
    hide Sound;
    if st.buf == [] {
      NothingDone(st, U29From(st, i, value).r);
    } else if i == 3 || st.buf[0] < 0x80 {
      OneTaken(st, U29From(st, i, value));
    } else {
      U29Sound(Skip(st, 1), i + 1, value * 0x80 + st.buf[0] % 0x80);
      SoundAfter(st, Skip(st, 1), U29From(st, i, value));
    }
  }

  lemma OneTaken<T>(st: State, o: Out<T>)
    requires st.buf != [] && o.r.Ok? && o.st == Skip(st, 1)
    ensures Sound(st, o)
  {
  }

  lemma HeaderSound(st: State)
    ensures Sound(st, ReadU29(st))
  {
    U29Sound(st, 0, 0);
  }

  lemma StringSound(st: State)
    ensures Sound(st, ReadString(st))
  {
    hide ReadU29, ValidUtf8;
    HeaderSound(st);
    var h := ReadU29(st);
    if h.r.Ok? {
      var o := ReadString(st);
      assert Sound(h.st, o);
      SoundTrans(st, h, o);
    }
  }

  lemma {:induction false} StringsSound(st: State, count: nat, names: seq<bytes>)
    ensures Sound(st, ReadStrings(st, count, names))
    decreases count
  {
    hide ReadString, Sound;
    StringSound(st);
    if count == 0 {
      NothingDone(st, Ok(names));
    } else {
      var s := ReadString(st);
      if s.r.Ok? {
        StringsSound(s.st, count - 1, names + [s.r.value]);
        SoundTrans(st, s, ReadStrings(s.st, count - 1, names + [s.r.value]));
      } else {
        SameError(st, s, ReadStrings(st, count, names));
      }
    }
  }

  lemma NothingDone<T>(st: State, r: Result<T>)
    requires r != Err(NestingTooDeep)
    ensures Sound(st, Out(r, st))
  {
  }

  lemma SameError<S, T>(st: State, a: Out<S>, b: Out<T>)
    requires Sound(st, a) && a.r.Err? && b.r.Err? && a.r.error == b.r.error && a.st == b.st
    ensures Sound(st, b)
  {
  }

  lemma TraitSound(st: State, header: u32)
    ensures Sound(st, DecodeTrait(st, header))
  {
    hide ReadString, ReadStrings;
    if header / 2 % 2 == 1 {
      StringSound(st);
      var name := ReadString(st);
      if name.r.Ok? {
        StringsSound(name.st, header / 16, []);
        SoundTrans(st, name, ReadStrings(name.st, header / 16, []));
      }
    }
  }

  lemma {:induction false} DecodeSound(lenient: bool, st: State)
    ensures Sound(st, Decode(lenient, st))
    decreases |st.buf|, 0
  {
    hide DecodeValue;
    if st.buf != [] && st.depth + 1 <= MAX_NESTING_DEPTH {
      var st1 := Skip(st, 1).(depth := st.depth + 1);
      ValueSound(lenient, st.buf[0], st1);
      var o := DecodeValue(lenient, st.buf[0], st1);
      SoundAfter(st, Skip(st, 1), Out(o.r, o.st.(depth := o.st.depth - 1)));
    }
  }

  predicate Referable(marker: byte) {
    DATE <= marker <= BYTE_ARRAY || marker == XML_DOC
  }

  /** The same outcome as another parsing function, with a value made of its value. */
  lemma Retyped<S, T>(st: State, a: Out<S>, b: Out<T>)
    requires Sound(st, a) && a.st == b.st
    requires if a.r.Ok? then b.r.Ok? else b.r.Err? && a.r.error == b.r.error
    ensures Sound(st, b)
  {
  }

  lemma DoubleSound(lenient: bool, st: State)
    ensures Sound(st, DecodeValue(lenient, DOUBLE, st))
  {
    hide ReadU29, ReadString;
  }

  lemma ScalarSound(lenient: bool, marker: byte, st: State)
    requires !Referable(marker)
    ensures Sound(st, DecodeValue(lenient, marker, st))
  {
    hide ReadU29, ReadString, Sound;
    var o := DecodeValue(lenient, marker, st);
    if marker == INTEGER {
      HeaderSound(st);
      Retyped(st, ReadU29(st), o);
    } else if marker == STRING {
      StringSound(st);
      Retyped(st, ReadString(st), o);
    } else if marker == DOUBLE {
      DoubleSound(lenient, st);
    } else {
      NothingDone(st, o.r);
    }
  }

  lemma FlatSound(marker: byte, st: State, len: nat)
    ensures Sound(st, DecodeFlat(marker, st, len))
  {
    hide ValidUtf8;
  }

  lemma {:induction false} ValueSound(lenient: bool, marker: byte, st: State)
    ensures Sound(st, DecodeValue(lenient, marker, st))
    decreases |st.buf|, 4
  {
    hide ReadU29, DecodeArray, DecodeObject, DecodeFlat, Sound, ReadString;
    if Referable(marker) {
      HeaderSound(st);
      var h := ReadU29(st);
      var o := DecodeValue(lenient, marker, st);
      if h.r.Err? {
        SameError(st, h, o);
      } else {
        if h.r.value % 2 == 0 {
          NothingDone(h.st, o.r);
        } else if marker == ARRAY {
          ArraySound(lenient, h.st, h.r.value / 2);
        } else if marker == OBJECT {
          ObjectSound(lenient, h.st, h.r.value);
        } else {
          FlatSound(marker, h.st, h.r.value / 2);
        }
        SoundTrans(st, h, o);
      }
    } else {
      ScalarSound(lenient, marker, st);
    }
  }

  /** The finished value replaces the placeholder, which is behind everything that was there before. */
  lemma SlotFilled<S>(st: State, o: Out<S>, v: AmfValue)
    requires o.r.Ok? && Sound(st.(objects := st.objects + [Null]), o)
    ensures Sound(st, Out(Ok(v), o.st.(objects := o.st.objects[|st.objects| := v])))
  {
    var later := o.st.objects;
    assert st.objects == (st.objects + [Null])[..|st.objects|] == later[..|st.objects|];
    assert later[..|st.objects|] == later[|st.objects| := v][..|st.objects|];
  }

  lemma {:induction false} ArraySound(lenient: bool, st: State, count: nat)
    ensures Sound(st, DecodeArray(lenient, st, count))
    decreases |st.buf|, 3
  {
    hide DecodeProps, DecodeElems;
    var inner := st.(objects := st.objects + [Null]);
    PropsSound(lenient, inner, []);
    var a := DecodeProps(lenient, inner, []);
    if a.r.Ok? {
      ElemsSound(lenient, a.st, count, []);
      var d := DecodeElems(lenient, a.st, count, []);
      SoundTrans(inner, a, d);
      if d.r.Ok? {
        SlotFilled(st, d, DecodeArray(lenient, st, count).r.value);
      }
    }
  }

  lemma {:induction false} ObjectSound(lenient: bool, st: State, header: u32)
    ensures Sound(st, DecodeObject(lenient, st, header))
    decreases |st.buf|, 3
  {
    hide DecodeProps, DecodeSealed, DecodeTrait, Sound;
    var inner := st.(objects := st.objects + [Null]);
    var o := DecodeObject(lenient, st, header);
    TraitSound(inner, header);
    var t := DecodeTrait(inner, header);
    if t.r.Err? {
      SameError(inner, t, o);
      Placeholder(st, o);
    } else {
      SealedSound(lenient, t.st, t.r.value.properties, []);
      var sealed := DecodeSealed(lenient, t.st, t.r.value.properties, []);
      SoundTrans(inner, t, sealed);
      if sealed.r.Ok? {
        PropsSound(lenient, sealed.st, sealed.r.value);
        var p := if t.r.value.isDynamic then DecodeProps(lenient, sealed.st, sealed.r.value) else sealed;
        if t.r.value.isDynamic {
          SoundTrans(inner, sealed, p);
        }
        if p.r.Ok? {
          SlotFilled(st, p, o.r.value);
        } else {
          SameError(inner, p, o);
          Placeholder(st, o);
        }
      } else {
        SameError(inner, sealed, o);
        Placeholder(st, o);
      }
    }
  }

  lemma Placeholder<T>(st: State, o: Out<T>)
    requires Sound(st.(objects := st.objects + [Null]), o)
    ensures Sound(st, o)
  {
    SoundAfter(st, st.(objects := st.objects + [Null]), o);
  }

  lemma {:induction false} PropsSound(lenient: bool, st: State, props: seq<Prop>)
    ensures Sound(st, DecodeProps(lenient, st, props))
    decreases |st.buf|, 1
  {
    hide Decode, ReadString, Sound;
    var k, o := ReadString(st), DecodeProps(lenient, st, props);
    StringSound(st);
    if k.r.Err? {
      SameError(st, k, o);
    } else if k.r.value == [] {
      NothingDone(k.st, o.r);
      SoundTrans(st, k, o);
    } else {
      var v := Decode(lenient, k.st);
      DecodeSound(lenient, k.st);
      SoundTrans(st, k, v);
      if v.r.Err? {
        SameError(st, v, o);
      } else {
        PropsSound(lenient, v.st, Put(props, k.r.value, v.r.value));
        SoundTrans(st, v, o);
      }
    }
  }

  lemma {:induction false} ElemsSound(lenient: bool, st: State, count: nat, elems: seq<AmfValue>)
    ensures Sound(st, DecodeElems(lenient, st, count, elems))
    decreases |st.buf|, 1
  {
    hide Decode, Sound;
    var o := DecodeElems(lenient, st, count, elems);
    if count == 0 {
      NothingDone(st, o.r);
    } else {
      var v := Decode(lenient, st);
      DecodeSound(lenient, st);
      if v.r.Err? {
        SameError(st, v, o);
      } else {
        ElemsSound(lenient, v.st, count - 1, elems + [v.r.value]);
        SoundTrans(st, v, o);
      }
    }
  }

  lemma {:induction false} SealedSound(lenient: bool, st: State, names: seq<bytes>, props: seq<Prop>)
    ensures Sound(st, DecodeSealed(lenient, st, names, props))
    decreases |st.buf|, 2, |names|
  {
    hide Decode, Sound;
    var o := DecodeSealed(lenient, st, names, props);
    if names == [] {
      NothingDone(st, o.r);
    } else {
      var v := Decode(lenient, st);
      DecodeSound(lenient, st);
      if v.r.Err? {
        SameError(st, v, o);
      } else {
        SealedSound(lenient, v.st, names[1..], Put(props, names[0], v.r.value));
        SoundTrans(st, v, o);
      }
    }
  }
}
