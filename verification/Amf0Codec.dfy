/** The AMF0 decoder and encoder as objects working on buffers in place. */
module Amf0Codec {
  import opened Bytes
  import opened Amf
  import opened Amf0Model
  import opened Amf0Safety

  class Amf0Decoder {
    var references: seq<AmfValue>
    const lenient: bool
    var depth: nat

    function St(buf: ByteBuf): State
      reads this, buf
    {
      State(buf.data, references, depth)
    }

    constructor (lenient: bool)
      ensures references == [] && depth == 0 && this.lenient == lenient
    {
      references, depth := [], 0;
      this.lenient := lenient;
    }

    method Reset()
      modifies this
      ensures references == [] && depth == 0
    {
      references, depth := [], 0;
    }

    method Decode(buf: ByteBuf) returns (r: Result<AmfValue>)
      modifies this, buf
      ensures Out(r, St(buf)) == Amf0Model.Decode(lenient, old(St(buf)))
      ensures r.Ok? ==> |buf.data| < |old(buf.data)|
      decreases |buf.data|, 0
    {
      hide Amf0Model.DecodeValue;
      if buf.data == [] {
        return Err(UnexpectedEof);
      }
      depth := depth + 1;
      if depth > MAX_NESTING_DEPTH {
        return Err(NestingTooDeep);
      }
      var marker := buf.GetU8();
      ValueSound(lenient, marker, St(buf));
      r := DecodeValue(marker, buf);
      depth := depth - 1;
    }

    method DecodeAll(buf: ByteBuf) returns (r: Result<seq<AmfValue>>)
      modifies this, buf
      ensures Out(r, St(buf)) == Amf0Model.DecodeAll(lenient, old(St(buf)), [])
    {
      hide Amf0Model.Decode;
      var values := [];
      while buf.data != []
        invariant Amf0Model.DecodeAll(lenient, St(buf), values) == Amf0Model.DecodeAll(lenient, old(St(buf)), [])
        decreases |buf.data|
      {
        var v := Decode(buf);
        if v.Err? {
          return Err(v.error);
        }
        values := values + [v.value];
      }
      return Ok(values);
    }

    method DecodeValue(marker: byte, buf: ByteBuf) returns (r: Result<AmfValue>)
      modifies this, buf
      ensures Out(r, St(buf)) == Amf0Model.DecodeValue(lenient, marker, old(St(buf)))
      decreases |buf.data|, 2
    {
      hide Amf0Model.DecodeObject, Amf0Model.DecodeElems, Amf0Model.ReadUtf8, Amf0Model.ReadLongUtf8;
      if marker == OBJECT {
        r := DecodeObject(buf, Plain);
      } else if marker == ECMA_ARRAY {
        if |buf.data| < 4 {
          return Err(UnexpectedEof);
        }
        var _ := buf.GetU32();
        r := DecodeObject(buf, Ecma);
      } else if marker == TYPED_OBJECT {
        var name := ReadUtf8(buf);
        if name.Err? {
          return Err(name.error);
        }
        r := DecodeObject(buf, Typed(name.value));
      } else if marker == STRICT_ARRAY {
        r := DecodeStrictArray(buf);
      } else {
        r := DecodeSimple(marker, buf);
      }
    }

    /** The values that hold no further values. */
    method DecodeSimple(marker: byte, buf: ByteBuf) returns (r: Result<AmfValue>)
      requires !Opens(marker)
      modifies this, buf
      ensures Out(r, St(buf)) == Amf0Model.DecodeValue(lenient, marker, old(St(buf)))
    {
      hide Amf0Model.DecodeObject, Amf0Model.DecodeElems, Amf0Model.ReadUtf8, Amf0Model.ReadLongUtf8;
      if marker == NUMBER {
        if |buf.data| < 8 {
          return Err(UnexpectedEof);
        }
        var n := buf.Take(8);
        return Ok(Number(n));
      } else if marker == BOOLEAN {
        if buf.data == [] {
          return Err(UnexpectedEof);
        }
        var b := buf.GetU8();
        return Ok(Boolean(b != 0));
      } else if marker == STRING {
        var s := ReadUtf8(buf);
        return if s.Ok? then Ok(String(s.value)) else Err(s.error);
      } else if marker == NULL || marker == AVMPLUS {
        return Ok(Null);
      } else if marker == UNDEFINED || marker == UNSUPPORTED {
        return Ok(Undefined);
      } else if marker == REFERENCE {
        if |buf.data| < 2 {
          return Err(UnexpectedEof);
        }
        var index := buf.GetU16();
        if index >= |references| {
          return Err(InvalidReference(index));
        }
        return Ok(references[index]);
      } else if marker == DATE {
        if |buf.data| < 10 {
          return Err(UnexpectedEof);
        }
        var n := buf.Take(8);
        var _ := buf.GetU16();
        return Ok(Date(n));
      } else if marker == LONG_STRING {
        var s := ReadLongUtf8(buf);
        return if s.Ok? then Ok(String(s.value)) else Err(s.error);
      } else if marker == XML_DOCUMENT {
        var s := ReadLongUtf8(buf);
        return if s.Ok? then Ok(Xml(s.value)) else Err(s.error);
      } else {
        return if lenient then Ok(Undefined) else Err(UnknownMarker(marker));
      }
    }

    method DecodeObject(buf: ByteBuf, kind: Kind) returns (r: Result<AmfValue>)
      modifies this, buf
      ensures Out(r, St(buf)) == Amf0Model.DecodeObject(lenient, old(St(buf)), kind)
      decreases |buf.data|, 1, 1
    {
      hide Amf0Model.DecodeProps;
      var index := |references|;
      references := references + [Null];
      ghost var inner := St(buf);
      var props := DecodeProps(buf);
      assert Goes(inner, Amf0Model.DecodeProps(lenient, inner, []));
      if props.Err? {
        return Err(props.error);
      }
      var obj := Make(kind, props.value);
      references := references[index := obj];
      return Ok(obj);
    }

    /** The loop over the entries, the same for all three containers. */
    method DecodeProps(buf: ByteBuf) returns (r: Result<seq<Prop>>)
      modifies this, buf
      ensures Out(r, St(buf)) == Amf0Model.DecodeProps(lenient, old(St(buf)), [])
      decreases |buf.data|, 1, 0
    {
      hide Amf0Model.Decode, Amf0Model.ReadUtf8;
      var props := [];
      while true
        invariant |buf.data| <= |old(buf.data)|
        invariant Amf0Model.DecodeProps(lenient, St(buf), props) == Amf0Model.DecodeProps(lenient, old(St(buf)), [])
        decreases |buf.data|
      {
        var key := ReadUtf8(buf);
        if key.Err? {
          return Err(key.error);
        }
        if key.value == [] {
          if buf.data == [] {
            return if lenient then Ok(props) else Err(UnexpectedEof);
          }
          var endMarker := buf.GetU8();
          return if endMarker == OBJECT_END || lenient then Ok(props) else Err(InvalidObjectEnd);
        }
        var value := Decode(buf);
        if value.Err? {
          return Err(value.error);
        }
        props := Put(props, key.value, value.value);
      }
    }

    method DecodeStrictArray(buf: ByteBuf) returns (r: Result<AmfValue>)
      modifies this, buf
      ensures Out(r, St(buf)) == Amf0Model.DecodeValue(lenient, STRICT_ARRAY, old(St(buf)))
      decreases |buf.data|, 1, 1
    {
      hide Amf0Model.DecodeElems;
      if |buf.data| < 4 {
        return Err(UnexpectedEof);
      }
      var count := buf.GetU32();
      var index := |references|;
      references := references + [Null];
      ghost var inner := St(buf);
      var elements := DecodeElems(buf, count);
      assert Goes(inner, Amf0Model.DecodeElems(lenient, inner, count, []));
      if elements.Err? {
        return Err(elements.error);
      }
      references := references[index := Array(elements.value)];
      return Ok(Array(elements.value));
    }

    method DecodeElems(buf: ByteBuf, count: nat) returns (r: Result<seq<AmfValue>>)
      modifies this, buf
      ensures Out(r, St(buf)) == Amf0Model.DecodeElems(lenient, old(St(buf)), count, [])
      decreases |buf.data|, 1, 0
    {
      hide Amf0Model.Decode;
      var elements := [];
      for i := 0 to count
        invariant |buf.data| <= |old(buf.data)|
        invariant Amf0Model.DecodeElems(lenient, St(buf), count - i, elements)
               == Amf0Model.DecodeElems(lenient, old(St(buf)), count, [])
      {
        var value := Decode(buf);
        if value.Err? {
          return Err(value.error);
        }
        elements := elements + [value.value];
      }
      return Ok(elements);
    }

    method ReadUtf8(buf: ByteBuf) returns (r: Result<bytes>)
      modifies buf
      ensures Out(r, St(buf)) == Amf0Model.ReadUtf8(old(St(buf)))
    {
      if |buf.data| < 2 {
        return Err(UnexpectedEof);
      }
      var len := buf.GetU16();
      if |buf.data| < len {
        return Err(UnexpectedEof);
      }
      var s := buf.Take(len);
      return if ValidUtf8(s) then Ok(s) else Err(InvalidUtf8);
    }

    method ReadLongUtf8(buf: ByteBuf) returns (r: Result<bytes>)
      modifies buf
      ensures Out(r, St(buf)) == Amf0Model.ReadLongUtf8(old(St(buf)))
    {
      if |buf.data| < 4 {
        return Err(UnexpectedEof);
      }
      var len := buf.GetU32();
      if |buf.data| < len {
        return Err(UnexpectedEof);
      }
      var s := buf.Take(len);
      return if ValidUtf8(s) then Ok(s) else Err(InvalidUtf8);
    }
  }

  class Amf0Encoder {
    const buf: ByteBuf

    constructor ()
      ensures fresh(buf) && buf.data == []
    {
      buf := new ByteBuf([]);
    }

    /** The encoded bytes so far; the encoder starts over. */
    method Finish() returns (r: bytes)
      modifies buf
      ensures r == old(buf.data) && buf.data == []
    {
      r := buf.data;
      buf.data := [];
    }

    method Encode(v: AmfValue)
      modifies buf
      ensures buf.data == old(buf.data) + Amf0Model.Encode(v)
      decreases v, 0
    {
      hide Utf8, Amf0Model.EncodeProps, Amf0Model.EncodeAll;
      ghost var before := buf.data;
      match v
      case Object(props) =>
        ConcatAssociates(before, [OBJECT], Amf0Model.EncodeProps(props));
        buf.Put([OBJECT]);
        EncodeProps(props);
      case EcmaArray(props) =>
        var count := Be32(|props| % TWO_TO_THE_32);
        ConcatAssociatesTwice(before, [ECMA_ARRAY], count, Amf0Model.EncodeProps(props));
        buf.Put([ECMA_ARRAY]);
        buf.Put(count);
        EncodeProps(props);
      case Array(elements) =>
        var count := Be32(|elements| % TWO_TO_THE_32);
        ConcatAssociatesTwice(before, [STRICT_ARRAY], count, Amf0Model.EncodeAll(elements));
        buf.Put([STRICT_ARRAY]);
        buf.Put(count);
        EncodeAll(elements);
      case TypedObject(name, props) =>
        ConcatAssociatesTwice(before, [TYPED_OBJECT], Utf8(name), Amf0Model.EncodeProps(props));
        buf.Put([TYPED_OBJECT]);
        WriteUtf8(name);
        EncodeProps(props);
      case _ =>
        EncodeSimple(v);
    }

    method EncodeSimple(v: AmfValue)
      requires Amf0Proofs.IsLeaf(v)
      modifies buf
      ensures buf.data == old(buf.data) + Amf0Model.Encode(v)
    {
      hide Utf8, LongUtf8, IntToF64;
      match v
      case Null => buf.Put([NULL]);
      case Undefined => buf.Put([UNDEFINED]);
      case Boolean(b) => Write(BOOLEAN, [if b then 1 else 0]);
      case Number(n) => Write(NUMBER, n);
      case Integer(i) => Write(NUMBER, IntToF64(i));
      case String(s) =>
        if |s| > 0xFFFF {
          ConcatAssociates(buf.data, [LONG_STRING], LongUtf8(s));
          buf.Put([LONG_STRING]);
          WriteLongUtf8(s);
        } else {
          ConcatAssociates(buf.data, [STRING], Utf8(s));
          buf.Put([STRING]);
          WriteUtf8(s);
        }
      case Date(n) => Write(DATE, n + Be16(0));
      case Xml(s) =>
        ConcatAssociates(buf.data, [XML_DOCUMENT], LongUtf8(s));
        buf.Put([XML_DOCUMENT]);
        WriteLongUtf8(s);
      case ByteArray(_) => buf.Put([NULL]);
    }

    method Write(marker: byte, body: bytes)
      modifies buf
      ensures buf.data == old(buf.data) + ([marker] + body)
    {
      ConcatAssociates(buf.data, [marker], body);
      buf.Put([marker]);
      buf.Put(body);
    }

    method EncodeAll(values: seq<AmfValue>)
      modifies buf
      ensures buf.data == old(buf.data) + Amf0Model.EncodeAll(values)
      decreases values, 1
    {
      for i := 0 to |values|
        invariant buf.data + Amf0Model.EncodeAll(values[i..]) == old(buf.data) + Amf0Model.EncodeAll(values)
      {
        hide Amf0Model.Encode;
        assert values[i..][1..] == values[i + 1..];
        ConcatAssociates(buf.data, Amf0Model.Encode(values[i]), Amf0Model.EncodeAll(values[i + 1..]));
        Encode(values[i]);
      }
    }

    method EncodeProps(props: seq<Prop>)
      modifies buf
      ensures buf.data == old(buf.data) + Amf0Model.EncodeProps(props)
      decreases props, 1
    {
      for i := 0 to |props|
        invariant buf.data + Amf0Model.EncodeProps(props[i..]) == old(buf.data) + Amf0Model.EncodeProps(props)
      {
        hide Amf0Model.Encode, Utf8;
        ghost var k, v := Utf8(props[i].key), Amf0Model.Encode(props[i].val);
        ghost var rest := Amf0Model.EncodeProps(props[i + 1..]);
        assert props[i..][1..] == props[i + 1..];
        ConcatAssociates(buf.data, k, v + rest);
        ConcatAssociates(buf.data + k, v, rest);
        WriteUtf8(props[i].key);
        Encode(props[i].val);
      }
      assert Amf0Model.EncodeProps(props[|props|..]) == Be16(0) + [OBJECT_END];
      ConcatAssociates(buf.data, Be16(0), [OBJECT_END]);
      buf.Put(Be16(0));
      buf.Put([OBJECT_END]);
    }

    method WriteUtf8(s: bytes)
      modifies buf
      ensures buf.data == old(buf.data) + Utf8(s)
    {
      var len := Min(|s|, 0xFFFF);
      buf.Put(Be16(len));
      buf.Put(s[..len]);
    }

    method WriteLongUtf8(s: bytes)
      modifies buf
      ensures buf.data == old(buf.data) + LongUtf8(s)
    {
      buf.Put(Be32(|s| % TWO_TO_THE_32));
      buf.Put(s);
    }
  }
}
