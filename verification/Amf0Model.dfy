/** AMF0 (AMF0 File Format Specification, sections 2.2 to 2.18) as functions:
    the printer, and the parser with its reference table and depth counter. */
module Amf0Model {
  import opened Bytes
  import opened Amf

  const NUMBER: byte := 0x00
  const BOOLEAN: byte := 0x01
  const STRING: byte := 0x02
  const OBJECT: byte := 0x03
  const NULL: byte := 0x05
  const UNDEFINED: byte := 0x06
  const REFERENCE: byte := 0x07
  const ECMA_ARRAY: byte := 0x08
  const OBJECT_END: byte := 0x09
  const STRICT_ARRAY: byte := 0x0A
  const DATE: byte := 0x0B
  const LONG_STRING: byte := 0x0C
  const UNSUPPORTED: byte := 0x0D
  const XML_DOCUMENT: byte := 0x0F
  const TYPED_OBJECT: byte := 0x10
  const AVMPLUS: byte := 0x11

  // ---- the printer ----

  /** A key or class name: at most 65535 bytes, cut off there. */
  function Utf8(s: bytes): (r: bytes)
    ensures |r| >= 2
  {
    var len := Min(|s|, 0xFFFF);
    Be16(len) + s[..len]
  }

  function LongUtf8(s: bytes): bytes {
    Be32(|s| % TWO_TO_THE_32) + s
  }

  function Encode(v: AmfValue): (r: bytes)
    ensures r != []
    decreases v, 0
  {
    match v
    case Null => [NULL]
    case Undefined => [UNDEFINED]
    case Boolean(b) => [BOOLEAN, if b then 1 else 0]
    case Number(n) => [NUMBER] + n
    case Integer(i) => [NUMBER] + IntToF64(i)
    case String(s) => if |s| > 0xFFFF then [LONG_STRING] + LongUtf8(s) else [STRING] + Utf8(s)
    case Object(props) => [OBJECT] + EncodeProps(props)
    case EcmaArray(props) => [ECMA_ARRAY] + (Be32(|props| % TWO_TO_THE_32) + EncodeProps(props))
    case Array(elems) => [STRICT_ARRAY] + (Be32(|elems| % TWO_TO_THE_32) + EncodeAll(elems))
    case Date(n) => [DATE] + (n + Be16(0))
    case Xml(s) => [XML_DOCUMENT] + LongUtf8(s)
    case TypedObject(name, props) => [TYPED_OBJECT] + (Utf8(name) + EncodeProps(props))
    case ByteArray(_) => [NULL]
  }

  /** The entries, then an empty key and the end marker. */
  function EncodeProps(props: seq<Prop>): bytes
    decreases props, 1
  {
    if props == [] then Be16(0) + [OBJECT_END]
    else Utf8(props[0].key) + (Encode(props[0].val) + EncodeProps(props[1..]))
  }

  function EncodeAll(vs: seq<AmfValue>): bytes
    decreases vs, 1
  {
    if vs == [] then [] else Encode(vs[0]) + EncodeAll(vs[1..])
  }

  // ---- the parser ----

  /** Unread bytes, reference table, current nesting depth. */
  datatype State = State(buf: bytes, refs: seq<AmfValue>, depth: int)

  datatype Out<+T> = Out(r: Result<T>, st: State)

  function Fail<T>(e: AmfError, st: State): Out<T> {
    Out(Err(e), st)
  }

  function Skip(st: State, n: nat): State
    requires n <= |st.buf|
  {
    st.(buf := st.buf[n..])
  }

  /** The three containers with entries. */
  datatype Kind = Plain | Ecma | Typed(className: bytes)

  function Make(kind: Kind, props: seq<Prop>): AmfValue {
    match kind
    case Plain => Object(props)
    case Ecma => EcmaArray(props)
    case Typed(name) => TypedObject(name, props)
  }

  /** `len` bytes that must be UTF-8; invalid bytes are consumed all the same. */
  function TakeUtf8(st: State, len: nat): (o: Out<bytes>)
    ensures |o.st.buf| <= |st.buf| && o.st.refs == st.refs && o.st.depth == st.depth
  {
    if |st.buf| < len then Fail(UnexpectedEof, st)
    else if ValidUtf8(st.buf[..len]) then Out(Ok(st.buf[..len]), Skip(st, len))
    else Fail(InvalidUtf8, Skip(st, len))
  }

  function ReadUtf8(st: State): (o: Out<bytes>)
    ensures |o.st.buf| <= |st.buf| && o.st.refs == st.refs && o.st.depth == st.depth
    ensures o.r.Ok? ==> |o.st.buf| + 2 <= |st.buf|
  {
    if |st.buf| < 2 then Fail(UnexpectedEof, st) else TakeUtf8(Skip(st, 2), U16At(st.buf, 0))
  }

  function ReadLongUtf8(st: State): (o: Out<bytes>)
    ensures |o.st.buf| <= |st.buf| && o.st.refs == st.refs && o.st.depth == st.depth
  {
    if |st.buf| < 4 then Fail(UnexpectedEof, st) else TakeUtf8(Skip(st, 4), U32At(st.buf, 0))
  }

  /** What every parsing function guarantees its caller while it is being defined. */
  ghost predicate Goes<T>(st: State, o: Out<T>) {
    |o.st.buf| <= |st.buf| && |st.refs| <= |o.st.refs|
  }

  function Decode(lenient: bool, st: State): (o: Out<AmfValue>)
    ensures Goes(st, o)
    ensures o.r.Ok? ==> |o.st.buf| < |st.buf|
    decreases |st.buf|, 0
  {
    if st.buf == [] then Fail(UnexpectedEof, st)
    else if st.depth + 1 > MAX_NESTING_DEPTH then Fail(NestingTooDeep, st.(depth := st.depth + 1))
    else
      var o := DecodeValue(lenient, st.buf[0], Skip(st, 1).(depth := st.depth + 1));
      Out(o.r, o.st.(depth := o.st.depth - 1))
  }

  function DecodeValue(lenient: bool, marker: byte, st: State): (o: Out<AmfValue>)
    ensures Goes(st, o)
    decreases |st.buf|, 2
  {
    if marker == NUMBER then
      if |st.buf| < 8 then Fail(UnexpectedEof, st) else Out(Ok(Number(st.buf[..8])), Skip(st, 8))
    else if marker == BOOLEAN then
      if st.buf == [] then Fail(UnexpectedEof, st) else Out(Ok(Boolean(st.buf[0] != 0)), Skip(st, 1))
    else if marker == STRING then
      var o := ReadUtf8(st);
      Out(if o.r.Ok? then Ok(String(o.r.value)) else Err(o.r.error), o.st)
    else if marker == OBJECT then
      DecodeObject(lenient, st, Plain)
    else if marker == NULL || marker == AVMPLUS then
      Out(Ok(Null), st)
    else if marker == UNDEFINED || marker == UNSUPPORTED then
      Out(Ok(Undefined), st)
    else if marker == REFERENCE then
      if |st.buf| < 2 then Fail(UnexpectedEof, st)
      else
        var i := U16At(st.buf, 0);
        if i >= |st.refs| then Fail(InvalidReference(i), Skip(st, 2)) else Out(Ok(st.refs[i]), Skip(st, 2))
    else if marker == ECMA_ARRAY then
      if |st.buf| < 4 then Fail(UnexpectedEof, st) else DecodeObject(lenient, Skip(st, 4), Ecma)
    else if marker == STRICT_ARRAY then
      if |st.buf| < 4 then Fail(UnexpectedEof, st)
      else
        var st1 := Skip(st, 4);
        var o := DecodeElems(lenient, st1.(refs := st1.refs + [Null]), U32At(st.buf, 0), []);
        if o.r.Err? then Fail(o.r.error, o.st)
        else Out(Ok(Array(o.r.value)), o.st.(refs := o.st.refs[|st.refs| := Array(o.r.value)]))
    else if marker == DATE then
      if |st.buf| < 10 then Fail(UnexpectedEof, st) else Out(Ok(Date(st.buf[..8])), Skip(st, 10))
    else if marker == LONG_STRING then
      var o := ReadLongUtf8(st);
      Out(if o.r.Ok? then Ok(String(o.r.value)) else Err(o.r.error), o.st)
    else if marker == XML_DOCUMENT then
      var o := ReadLongUtf8(st);
      Out(if o.r.Ok? then Ok(Xml(o.r.value)) else Err(o.r.error), o.st)
    else if marker == TYPED_OBJECT then
      var o := ReadUtf8(st);
      if o.r.Err? then Fail(o.r.error, o.st) else DecodeObject(lenient, o.st, Typed(o.r.value))
    else if lenient then
      Out(Ok(Undefined), st)
    else
      Fail(UnknownMarker(marker), st)
  }

  /** A container with entries: a placeholder in the reference table while the entries are read. */
  function DecodeObject(lenient: bool, st: State, kind: Kind): (o: Out<AmfValue>)
    ensures Goes(st, o)
    decreases |st.buf|, 1, 1
  {
    var o := DecodeProps(lenient, st.(refs := st.refs + [Null]), []);
    if o.r.Err? then Fail(o.r.error, o.st)
    else Out(Ok(Make(kind, o.r.value)), o.st.(refs := o.st.refs[|st.refs| := Make(kind, o.r.value)]))
  }

  /** Entries up to an empty key. The byte behind it should be the end marker; a lenient
      decoder takes whatever is there, or nothing at the end of the data. */
  function DecodeProps(lenient: bool, st: State, props: seq<Prop>): (o: Out<seq<Prop>>)
    ensures Goes(st, o)
    decreases |st.buf|, 1, 0
  {
    var k := ReadUtf8(st);
    if k.r.Err? then Fail(k.r.error, k.st)
    else if k.r.value == [] then
      if k.st.buf == [] then if lenient then Out(Ok(props), k.st) else Fail(UnexpectedEof, k.st)
      else if k.st.buf[0] == OBJECT_END || lenient then Out(Ok(props), Skip(k.st, 1))
      else Fail(InvalidObjectEnd, Skip(k.st, 1))
    else
      var v := Decode(lenient, k.st);
      if v.r.Err? then Fail(v.r.error, v.st)
      else DecodeProps(lenient, v.st, Put(props, k.r.value, v.r.value))
  }

  function DecodeElems(lenient: bool, st: State, count: nat, elems: seq<AmfValue>): (o: Out<seq<AmfValue>>)
    ensures Goes(st, o)
    decreases |st.buf|, 1, 0
  {
    if count == 0 then Out(Ok(elems), st)
    else
      var v := Decode(lenient, st);
      if v.r.Err? then Fail(v.r.error, v.st)
      else DecodeElems(lenient, v.st, count - 1, elems + [v.r.value])
  }

  /** All values up to the end of the data. */
  function DecodeAll(lenient: bool, st: State, values: seq<AmfValue>): (o: Out<seq<AmfValue>>)
    decreases |st.buf|
  {
    if st.buf == [] then Out(Ok(values), st)
    else
      var v := Decode(lenient, st);
      if v.r.Err? then Fail(v.r.error, v.st) else DecodeAll(lenient, v.st, values + [v.r.value])
  }
}
