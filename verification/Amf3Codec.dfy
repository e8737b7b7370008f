/** The AMF3 decoder and encoder as objects with their reference tables. */
module Amf3Codec {
  import opened Bytes
  import opened Amf
  import opened Amf3Model
  import opened Amf3Safety

  class Amf3Decoder {
    var stringRefs: seq<bytes>
    var objectRefs: seq<AmfValue>
    var traitRefs: seq<Trait>
    const lenient: bool
    var depth: nat

    function St(buf: ByteBuf): State
      reads this, buf
    {
      State(buf.data, stringRefs, objectRefs, traitRefs, depth)
    }

    constructor ()
      ensures stringRefs == [] && objectRefs == [] && traitRefs == [] && depth == 0 && lenient
    {
      stringRefs, objectRefs, traitRefs, depth := [], [], [], 0;
      lenient := true;
    }

    method Reset()
      modifies this
      ensures stringRefs == [] && objectRefs == [] && traitRefs == [] && depth == 0
    {
      stringRefs, objectRefs, traitRefs, depth := [], [], [], 0;
    }

    method Decode(buf: ByteBuf) returns (r: Result<AmfValue>)
      modifies this, buf
      ensures Out(r, St(buf)) == Amf3Model.Decode(lenient, old(St(buf)))
      decreases |buf.data|, 0
    {
      hide Amf3Model.DecodeValue;
      if buf.data == [] {
        return Err(UnexpectedEof);
      }
      depth := depth + 1;
      if depth > MAX_NESTING_DEPTH {
        return Err(NestingTooDeep);
      }
      var marker := buf.GetU8();
      ValueSound(lenient, marker, St(buf));
      r := DecodeValue(marker, buf);
      depth := depth - 1;
    }

    method DecodeValue(marker: byte, buf: ByteBuf) returns (r: Result<AmfValue>)
      modifies this, buf
      ensures Out(r, St(buf)) == Amf3Model.DecodeValue(lenient, marker, old(St(buf)))
      decreases |buf.data|, 4
    {
      hide Amf3Model.ReadU29, Amf3Model.ReadString, Amf3Model.DecodeArray, Amf3Model.DecodeObject, Amf3Model.DecodeFlat;
      if !Referable(marker) {
        r := DecodeScalar(marker, buf);
        return;
      }
      var header := ReadU29(buf);
      if header.Err? {
        return Err(header.error);
      }
      if header.value % 2 == 0 {
        var index := header.value / 2;
        return if index >= |objectRefs| then Err(InvalidReference(index % 0x1_0000)) else Ok(objectRefs[index]);
      }
      if marker == ARRAY {
        r := DecodeArray(buf, header.value / 2);
      } else if marker == OBJECT {
        r := DecodeObject(buf, header.value);
      } else {
        r := DecodeFlat(marker, buf, header.value / 2);
      }
    }

    method DecodeScalar(marker: byte, buf: ByteBuf) returns (r: Result<AmfValue>)
      requires !Referable(marker)
      modifies this, buf
      ensures Out(r, St(buf)) == Amf3Model.DecodeValue(lenient, marker, old(St(buf)))
    {
      hide Amf3Model.ReadU29, Amf3Model.ReadString;
      if marker == UNDEFINED {
        return Ok(Undefined);
      } else if marker == NULL {
        return Ok(Null);
      } else if marker == FALSE || marker == TRUE {
        return Ok(Boolean(marker == TRUE));
      } else if marker == INTEGER {
        var u := ReadU29(buf);
        if u.Err? {
          return Err(u.error);
        }
        var i: int := u.value;
        return Ok(Integer(if i >= TWO_TO_THE_28 then i - TWO_TO_THE_29 else i));
      } else if marker == DOUBLE {
        if |buf.data| < 8 {
          return Err(UnexpectedEof);
        }
        var n := buf.Take(8);
        return Ok(Number(n));
      } else if marker == STRING {
        var s := ReadString(buf);
        return if s.Ok? then Ok(String(s.value)) else Err(s.error);
      } else {
        return if lenient then Ok(Undefined) else Err(UnknownMarker(marker));
      }
    }

    /** Dates, XML and byte arrays, behind an inline header. */
    method DecodeFlat(marker: byte, buf: ByteBuf, len: nat) returns (r: Result<AmfValue>)
      modifies this, buf
      ensures Out(r, St(buf)) == Amf3Model.DecodeFlat(marker, old(St(buf)), len)
    {
      var n := if marker == DATE then 8 else len;
      if |buf.data| < n {
        return Err(UnexpectedEof);
      }
      var data := buf.Take(n);
      var value: AmfValue;
      if marker == DATE {
        value := Date(data);
      } else if marker == BYTE_ARRAY {
        value := ByteArray(data);
      } else {
        if (marker == XML || marker == XML_DOC) && !ValidUtf8(data) {
          return Err(InvalidUtf8);
        }
        value := Xml(data);
      }
      objectRefs := objectRefs + [value];
      return Ok(value);
    }

    method DecodeArray(buf: ByteBuf, denseCount: nat) returns (r: Result<AmfValue>)
      modifies this, buf
      ensures Out(r, St(buf)) == Amf3Model.DecodeArray(lenient, old(St(buf)), denseCount)
      decreases |buf.data|, 3
    {
      hide Amf3Model.DecodeProps, Amf3Model.DecodeElems, AddDense;
      var index := |objectRefs|;
      objectRefs := objectRefs + [Null];
      var assoc := DecodeProps(buf, []);
      if assoc.Err? {
        return Err(assoc.error);
      }
      var dense := DecodeElems(buf, denseCount);
      if dense.Err? {
        return Err(dense.error);
      }
      var value: AmfValue;
      if assoc.value == [] {
        value := Array(dense.value);
      } else {
        var mixed := InsertDense(assoc.value, dense.value);
        value := EcmaArray(mixed);
      }
      objectRefs := objectRefs[index := value];
      return Ok(value);
    }

    static method InsertDense(props: seq<Prop>, dense: seq<AmfValue>) returns (r: seq<Prop>)
      ensures r == AddDense(props, dense, 0)
    {
      r := props;
      for i := 0 to |dense|
        invariant AddDense(r, dense[i..], i) == AddDense(props, dense, 0)
      {
        assert dense[i..][1..] == dense[i + 1..];
        r := Put(r, Decimal(i), dense[i]);
      }
    }

    method DecodeObject(buf: ByteBuf, header: u32) returns (r: Result<AmfValue>)
      modifies this, buf
      ensures Out(r, St(buf)) == Amf3Model.DecodeObject(lenient, old(St(buf)), header)
      decreases |buf.data|, 3
    {
      hide Amf3Model.DecodeProps, Amf3Model.DecodeSealed, Amf3Model.DecodeTrait;
      var index := |objectRefs|;
      objectRefs := objectRefs + [Null];
      var traitDef := DecodeTrait(buf, header);
      if traitDef.Err? {
        return Err(traitDef.error);
      }
      var props := DecodeSealed(buf, traitDef.value.properties);
      if props.Err? {
        return Err(props.error);
      }
      if traitDef.value.isDynamic {
        props := DecodeProps(buf, props.value);
        if props.Err? {
          return Err(props.error);
        }
      }
      var value := if traitDef.value.className == [] then Object(props.value)
                   else TypedObject(traitDef.value.className, props.value);
      objectRefs := objectRefs[index := value];
      return Ok(value);
    }

    method DecodeTrait(buf: ByteBuf, header: u32) returns (r: Result<Trait>)
      modifies this, buf
      ensures Out(r, St(buf)) == Amf3Model.DecodeTrait(old(St(buf)), header)
    {
      hide Amf3Model.ReadString, Amf3Model.ReadStrings;
      if header / 2 % 2 == 0 {
        var index := header / 4;
        return if index >= |traitRefs| then Err(InvalidReference(index % 0x1_0000)) else Ok(traitRefs[index]);
      }
      var className := ReadString(buf);
      if className.Err? {
        return Err(className.error);
      }
      var names := ReadStrings(buf, header / 16);
      if names.Err? {
        return Err(names.error);
      }
      var traitDef := Trait(className.value, header / 8 % 2 == 1, names.value);
      traitRefs := traitRefs + [traitDef];
      return Ok(traitDef);
    }

    method ReadStrings(buf: ByteBuf, count: nat) returns (r: Result<seq<bytes>>)
      modifies this, buf
      ensures Out(r, St(buf)) == Amf3Model.ReadStrings(old(St(buf)), count, [])
    {
      hide Amf3Model.ReadString;
      var names := [];
      for i := 0 to count
        invariant Amf3Model.ReadStrings(St(buf), count - i, names) == Amf3Model.ReadStrings(old(St(buf)), count, [])
      {
        var s := ReadString(buf);
        if s.Err? {
          return Err(s.error);
        }
        names := names + [s.value];
      }
      return Ok(names);
    }

    method DecodeSealed(buf: ByteBuf, names: seq<bytes>) returns (r: Result<seq<Prop>>)
      modifies this, buf
      ensures Out(r, St(buf)) == Amf3Model.DecodeSealed(lenient, old(St(buf)), names, [])
      decreases |buf.data|, 2
    {
      hide Amf3Model.Decode;
      var props := [];
      for i := 0 to |names|
        invariant |buf.data| <= |old(buf.data)|
        invariant Amf3Model.DecodeSealed(lenient, St(buf), names[i..], props)
               == Amf3Model.DecodeSealed(lenient, old(St(buf)), names, [])
      {
        assert names[i..][1..] == names[i + 1..];
        var value := Decode(buf);
        if value.Err? {
          return Err(value.error);
        }
        props := Put(props, names[i], value.value);
      }
      return Ok(props);
    }

    method DecodeProps(buf: ByteBuf, start: seq<Prop>) returns (r: Result<seq<Prop>>)
      modifies this, buf
      ensures Out(r, St(buf)) == Amf3Model.DecodeProps(lenient, old(St(buf)), start)
      decreases |buf.data|, 1
    {
      hide Amf3Model.Decode, Amf3Model.ReadString;
      var props := start;
      while true
        invariant |buf.data| <= |old(buf.data)|
        invariant Amf3Model.DecodeProps(lenient, St(buf), props) == Amf3Model.DecodeProps(lenient, old(St(buf)), start)
        decreases |buf.data|
      {
        var key := ReadString(buf);
        if key.Err? {
          return Err(key.error);
        }
        if key.value == [] {
          return Ok(props);
        }
        var value := Decode(buf);
        if value.Err? {
          return Err(value.error);
        }
        props := Put(props, key.value, value.value);
      }
    }

    method DecodeElems(buf: ByteBuf, count: nat) returns (r: Result<seq<AmfValue>>)
      modifies this, buf
      ensures Out(r, St(buf)) == Amf3Model.DecodeElems(lenient, old(St(buf)), count, [])
      decreases |buf.data|, 1
    {
      hide Amf3Model.Decode;
      var elements := [];
      for i := 0 to count
        invariant |buf.data| <= |old(buf.data)|
        invariant Amf3Model.DecodeElems(lenient, St(buf), count - i, elements)
               == Amf3Model.DecodeElems(lenient, old(St(buf)), count, [])
      {
        var value := Decode(buf);
        if value.Err? {
          return Err(value.error);
        }
        elements := elements + [value.value];
      }
      return Ok(elements);
    }

    static lemma NextDigit(st: State, i: nat, value: nat)
      requires i <= 3 && value < (if i == 0 then 1 else if i == 1 then 0x80 else if i == 2 then 0x4000 else 0x20_0000)
      ensures U29From(st, i, value) ==
        if st.buf == [] then Fail(UnexpectedEof, st)
        else if i == 3 then Out(Ok(value * 0x100 + st.buf[0]), Skip(st, 1))
        else if st.buf[0] < 0x80 then Out(Ok(value * 0x80 + st.buf[0]), Skip(st, 1))
        else U29From(Skip(st, 1), i + 1, value * 0x80 + st.buf[0] % 0x80)
    {
    }

    method ReadU29(buf: ByteBuf) returns (r: Result<u32>)
      modifies buf
      ensures Out(r, St(buf)) == Amf3Model.ReadU29(old(St(buf)))
    {
      hide U29From;
      var value: nat := 0;
      for i := 0 to 3
        invariant value < (if i == 0 then 1 else if i == 1 then 0x80 else if i == 2 then 0x4000 else 0x20_0000)
        invariant U29From(St(buf), i, value) == Amf3Model.ReadU29(old(St(buf)))
      {
        NextDigit(St(buf), i, value);
        if buf.data == [] {
          return Err(UnexpectedEof);
        }
        var b := buf.GetU8();
        value := value * 0x80 + b % 0x80;
        if b < 0x80 {
          return Ok(value);
        }
      }
      NextDigit(St(buf), 3, value);
      if buf.data == [] {
        return Err(UnexpectedEof);
      }
      var b := buf.GetU8();
      return Ok(value * 0x100 + b);
    }

    method ReadString(buf: ByteBuf) returns (r: Result<bytes>)
      modifies this, buf
      ensures Out(r, St(buf)) == Amf3Model.ReadString(old(St(buf)))
    {
      hide Amf3Model.ReadU29;
      var header := ReadU29(buf);
      if header.Err? {
        return Err(header.error);
      }
      var n: nat := header.value / 2;
      if header.value % 2 == 0 {
        return if n >= |stringRefs| then Err(InvalidReference(n % 0x1_0000)) else Ok(stringRefs[n]);
      }
      if n == 0 {
        return Ok([]);
      }
      if |buf.data| < n {
        return Err(UnexpectedEof);
      }
      var s := buf.Take(n);
      if !ValidUtf8(s) {
        return Err(InvalidUtf8);
      }
      stringRefs := stringRefs + [s];
      return Ok(s);
    }
  }

  class Amf3Encoder {
    const buf: ByteBuf
    var stringRefs: Table

    constructor ()
      ensures fresh(buf) && buf.data == [] && stringRefs == map[]
    {
      buf := new ByteBuf([]);
      stringRefs := map[];
    }

    /** The encoded bytes so far; the session ends. */
    method Finish() returns (r: bytes)
      modifies this, buf
      ensures r == old(buf.data) && buf.data == [] && stringRefs == map[]
    {
      r := buf.data;
      stringRefs := map[];
      buf.data := [];
    }

    /** What a printing method does: it appends and leaves the table of `p`. */
    twostate predicate Wrote(p: Printed)
      reads this, buf
    {
      buf.data == old(buf.data) + p.data && stringRefs == p.table
    }

    method Encode(v: AmfValue)
      modifies this, buf
      ensures Wrote(Print(old(stringRefs), v))
      decreases v, 0
    {
      hide PrintProps, PrintAll, PrintString, PrintObject, U29, Inline, IntToF64;
      ghost var before := buf.data;
      match v
      case Undefined => buf.Put([UNDEFINED]);
      case Null => buf.Put([NULL]);
      case Boolean(b) => buf.Put([if b then TRUE else FALSE]);
      case Integer(i) =>
        if -TWO_TO_THE_28 <= i < TWO_TO_THE_28 {
          Write(INTEGER, U29(i % TWO_TO_THE_29));
        } else {
          Write(DOUBLE, IntToF64(i));
        }
      case Number(n) => Write(DOUBLE, n);
      case String(s) =>
        ConcatAssociates(before, [STRING], PrintString(stringRefs, s).data);
        buf.Put([STRING]);
        WriteString(s);
      case Array(elements) =>
        ConcatAssociates(before, [ARRAY] + (U29(Inline(|elements|)) + U29(1)), PrintAll(stringRefs, elements).data);
        Write(ARRAY, U29(Inline(|elements|)) + U29(1));
        EncodeAll(elements);
      case Object(props) => EncodeObject([], props);
      case EcmaArray(props) => EncodeObject([], props);
      case TypedObject(name, props) => EncodeObject(name, props);
      case Date(n) => Write(DATE, U29(1) + n);
      case Xml(s) => Write(XML, U29(Inline(|s|)) + s);
      case ByteArray(data) => Write(BYTE_ARRAY, U29(Inline(|data|)) + data);
    }

    method Write(marker: byte, body: bytes)
      modifies buf
      ensures buf.data == old(buf.data) + ([marker] + body)
    {
      ConcatAssociates(buf.data, [marker], body);
      buf.Put([marker]);
      buf.Put(body);
    }

    method EncodeObject(name: bytes, props: seq<Prop>)
      modifies this, buf
      ensures Wrote(PrintObject(old(stringRefs), name, props))
      decreases props, 2
    {
      hide PrintProps, PrintString, U29;
      ghost var before, n := buf.data, PrintString(stringRefs, name);
      ghost var head := [OBJECT] + (U29(OBJECT_HEADER) + n.data);
      ConcatAssociates(before, head, PrintProps(n.table, props).data);
      ConcatAssociatesHead(before, [OBJECT], U29(OBJECT_HEADER), n.data);
      Write(OBJECT, U29(OBJECT_HEADER));
      WriteString(name);
      assert buf.data == before + head;
      EncodeProps(props);
    }

    static lemma ConcatAssociatesHead(a: bytes, b: bytes, c: bytes, d: bytes)
      ensures a + (b + c) + d == a + (b + (c + d))
    {
    }

    method EncodeProps(props: seq<Prop>)
      modifies this, buf
      ensures Wrote(PrintProps(old(stringRefs), props))
      decreases props, 1
    {
      ghost var t0, before := stringRefs, buf.data;
      for i := 0 to |props|
        invariant Then(buf.data, PrintProps(stringRefs, props[i..])) == Then(before, PrintProps(t0, props))
      {
        hide Print, PrintString;
        assert props[i..][1..] == props[i + 1..];
        ghost var k := PrintString(stringRefs, props[i].key);
        ghost var v := Print(k.table, props[i].val);
        ghost var rest := PrintProps(v.table, props[i + 1..]);
        ConcatAssociates(buf.data, k.data + v.data, rest.data);
        ConcatAssociates(buf.data, k.data, v.data);
        WriteString(props[i].key);
        Encode(props[i].val);
      }
      hide PrintString;
      assert PrintProps(stringRefs, props[|props|..]) == PrintString(stringRefs, []);
      WriteString([]);
    }

    method EncodeAll(values: seq<AmfValue>)
      modifies this, buf
      ensures Wrote(PrintAll(old(stringRefs), values))
      decreases values, 1
    {
      ghost var t0, before := stringRefs, buf.data;
      for i := 0 to |values|
        invariant Then(buf.data, PrintAll(stringRefs, values[i..])) == Then(before, PrintAll(t0, values))
      {
        hide Print;
        assert values[i..][1..] == values[i + 1..];
        ghost var v := Print(stringRefs, values[i]);
        ConcatAssociates(buf.data, v.data, PrintAll(v.table, values[i + 1..]).data);
        Encode(values[i]);
      }
    }

    method WriteString(s: bytes)
      modifies this, buf
      ensures Wrote(PrintString(old(stringRefs), s))
    {
      hide U29;
      if s == [] {
        buf.Put(U29(1));
      } else if s in stringRefs {
        buf.Put(U29(stringRefs[s] * 2 % TWO_TO_THE_32));
      } else {
        ConcatAssociates(buf.data, U29(Inline(|s|)), s);
        stringRefs := stringRefs[s := |stringRefs|];
        buf.Put(U29(Inline(|s|)));
        buf.Put(s);
      }
    }
  }
}
