/** AMF3 (AMF3 specification, sections 1.3.1 and 3.12) as functions: the printer
    with its table of strings already written, and the parser with its tables of
    strings, objects and traits. */
module Amf3Model {
  import opened Bytes
  import opened Amf

  const UNDEFINED: byte := 0x00
  const NULL: byte := 0x01
  const FALSE: byte := 0x02
  const TRUE: byte := 0x03
  const INTEGER: byte := 0x04
  const DOUBLE: byte := 0x05
  const STRING: byte := 0x06
  const XML_DOC: byte := 0x07
  const DATE: byte := 0x08
  const ARRAY: byte := 0x09
  const OBJECT: byte := 0x0A
  const XML: byte := 0x0B
  const BYTE_ARRAY: byte := 0x0C

  const TWO_TO_THE_28 := 0x1000_0000
  const TWO_TO_THE_29 := 0x2000_0000

  /** Inline dynamic object without sealed members; also sets the externalizable bit. */
  const OBJECT_HEADER: u32 := 0x0F

  // ---- the printer ----

  /** One to four bytes; only the low 29 bits are written. */
  function U29(value: u32): (r: bytes)
    ensures 1 <= |r| <= 4
  {
    var v := value % TWO_TO_THE_29;
    if v < 0x80 then [v]
    else if v < 0x4000 then [v / 0x80 % 0x80 + 0x80, v % 0x80]
    else if v < 0x20_0000 then [v / 0x4000 % 0x80 + 0x80, v / 0x80 % 0x80 + 0x80, v % 0x80]
    else [v / 0x40_0000 % 0x80 + 0x80, v / 0x8000 % 0x80 + 0x80, v / 0x100 % 0x80 + 0x80, v % 0x100]
  }

  /** A length with the inline bit, in 32-bit arithmetic. */
  function Inline(len: nat): u32 {
    len * 2 % TWO_TO_THE_32 + 1
  }

  type Table = map<bytes, nat>

  datatype Printed = Printed(data: bytes, table: Table)

  /** A string seen before is written as its index; the empty string is never entered. */
  function PrintString(t: Table, s: bytes): (p: Printed)
    ensures |t| <= |p.table|
  {
    if s == [] then Printed(U29(1), t)
    else if s in t then Printed(U29(t[s] * 2 % TWO_TO_THE_32), t)
    else Printed(U29(Inline(|s|)) + s, t[s := |t|])
  }

  /** `first`, then `next` printed with the table that `first` left. */
  function Then(first: bytes, next: Printed): Printed {
    next.(data := first + next.data)
  }

  function Print(t: Table, v: AmfValue): (p: Printed)
    ensures |t| <= |p.table| && p.data != []
    decreases v, 0
  {
    match v
    case Undefined => Printed([UNDEFINED], t)
    case Null => Printed([NULL], t)
    case Boolean(b) => Printed([if b then TRUE else FALSE], t)
    case Integer(i) =>
      if -TWO_TO_THE_28 <= i < TWO_TO_THE_28 then Printed([INTEGER] + U29(i % TWO_TO_THE_29), t)
      else Printed([DOUBLE] + IntToF64(i), t)
    case Number(n) => Printed([DOUBLE] + n, t)
    case String(s) => Then([STRING], PrintString(t, s))
    case Array(elems) => Then([ARRAY] + (U29(Inline(|elems|)) + U29(1)), PrintAll(t, elems))
    case Object(props) => PrintObject(t, [], props)
    case EcmaArray(props) => PrintObject(t, [], props)
    case TypedObject(name, props) => PrintObject(t, name, props)
    case Date(n) => Printed([DATE] + (U29(1) + n), t)
    case Xml(s) => Printed([XML] + (U29(Inline(|s|)) + s), t)
    case ByteArray(data) => Printed([BYTE_ARRAY] + (U29(Inline(|data|)) + data), t)
  }

  function PrintObject(t: Table, name: bytes, props: seq<Prop>): (p: Printed)
    ensures |t| <= |p.table| && p.data != []
    decreases props, 2
  {
    var n := PrintString(t, name);
    Then([OBJECT] + (U29(OBJECT_HEADER) + n.data), PrintProps(n.table, props))
  }

  function PrintProps(t: Table, props: seq<Prop>): (p: Printed)
    ensures |t| <= |p.table|
    decreases props, 1
  {
    if props == [] then PrintString(t, [])
    else
      var k := PrintString(t, props[0].key);
      var v := Print(k.table, props[0].val);
      Then(k.data + v.data, PrintProps(v.table, props[1..]))
  }

  function PrintAll(t: Table, vs: seq<AmfValue>): (p: Printed)
    ensures |t| <= |p.table|
    decreases vs, 1
  {
    if vs == [] then Printed([], t)
    else
      var v := Print(t, vs[0]);
      Then(v.data, PrintAll(v.table, vs[1..]))
  }

  // ---- the parser ----

  datatype Trait = Trait(className: bytes, isDynamic: bool, properties: seq<bytes>)

  datatype State = State(
    buf: bytes, strings: seq<bytes>, objects: seq<AmfValue>, traits: seq<Trait>, depth: int)

  datatype Out<+T> = Out(r: Result<T>, st: State)

  function Fail<T>(e: AmfError, st: State): Out<T> {
    Out(Err(e), st)
  }

  function Skip(st: State, n: nat): State
    requires n <= |st.buf|
  {
    st.(buf := st.buf[n..])
  }

  /** What every parsing function guarantees its caller while it is being defined. */
  ghost predicate Goes<T>(st: State, o: Out<T>) {
    |o.st.buf| <= |st.buf| && |st.objects| <= |o.st.objects|
  }

  /** Up to three bytes of seven bits while the top bit is set, then one of eight. */
  function ReadU29(st: State): (o: Out<u32>)
    ensures Goes(st, o) && (o.r.Ok? ==> |o.st.buf| < |st.buf| && o.r.value < TWO_TO_THE_29)
    ensures o.st == st.(buf := o.st.buf)
  {
    U29From(st, 0, 0)
  }

  function U29From(st: State, i: nat, value: nat): (o: Out<u32>)
    requires i <= 3 && value < (if i == 0 then 1 else if i == 1 then 0x80 else if i == 2 then 0x4000 else 0x20_0000)
    ensures Goes(st, o) && (o.r.Ok? ==> |o.st.buf| < |st.buf| && o.r.value < TWO_TO_THE_29)
    ensures o.st == st.(buf := o.st.buf)
    decreases 3 - i
  {
    if st.buf == [] then Fail(UnexpectedEof, st)
    else
      var b := st.buf[0];
      if i == 3 then Out(Ok(value * 0x100 + b), Skip(st, 1))
      else if b < 0x80 then Out(Ok(value * 0x80 + b), Skip(st, 1))
      else U29From(Skip(st, 1), i + 1, value * 0x80 + b % 0x80)
  }

  function ReadString(st: State): (o: Out<bytes>)
    ensures Goes(st, o) && (o.r.Ok? ==> |o.st.buf| < |st.buf|)
    ensures o.st.depth == st.depth
  {
    var h := ReadU29(st);
    if h.r.Err? then Fail(h.r.error, h.st)
    else
      var n: nat := h.r.value / 2;
      if h.r.value % 2 == 0 then
        if n >= |h.st.strings| then Fail(InvalidReference(n % 0x1_0000), h.st)
        else Out(Ok(h.st.strings[n]), h.st)
      else if n == 0 then Out(Ok([]), h.st)
      else if |h.st.buf| < n then Fail(UnexpectedEof, h.st)
      else
        var s := h.st.buf[..n];
        if !ValidUtf8(s) then Fail(InvalidUtf8, Skip(h.st, n))
        else Out(Ok(s), Skip(h.st, n).(strings := h.st.strings + [s]))
  }

  function Decode(lenient: bool, st: State): (o: Out<AmfValue>)
    ensures Goes(st, o) && (o.r.Ok? ==> |o.st.buf| < |st.buf|)
    decreases |st.buf|, 0
  {
    if st.buf == [] then Fail(UnexpectedEof, st)
    else if st.depth + 1 > MAX_NESTING_DEPTH then Fail(NestingTooDeep, st.(depth := st.depth + 1))
    else
      var o := DecodeValue(lenient, st.buf[0], Skip(st, 1).(depth := st.depth + 1));
      Out(o.r, o.st.(depth := o.st.depth - 1))
  }

  function DecodeValue(lenient: bool, marker: byte, st: State): (o: Out<AmfValue>)
    ensures Goes(st, o)
    decreases |st.buf|, 4
  {
    if marker == UNDEFINED then Out(Ok(Undefined), st)
    else if marker == NULL then Out(Ok(Null), st)
    else if marker == FALSE then Out(Ok(Boolean(false)), st)
    else if marker == TRUE then Out(Ok(Boolean(true)), st)
    else if marker == INTEGER then
      var u := ReadU29(st);
      if u.r.Err? then Fail(u.r.error, u.st)
      else Out(Ok(Integer(if u.r.value >= TWO_TO_THE_28 then u.r.value - TWO_TO_THE_29 else u.r.value)), u.st)
    else if marker == DOUBLE then
      if |st.buf| < 8 then Fail(UnexpectedEof, st) else Out(Ok(Number(st.buf[..8])), Skip(st, 8))
    else if marker == STRING then
      var s := ReadString(st);
      Out(if s.r.Ok? then Ok(String(s.r.value)) else Err(s.r.error), s.st)
    else if marker == DATE || marker == ARRAY || marker == OBJECT || marker == XML || marker == XML_DOC
         || marker == BYTE_ARRAY then
      var h := ReadU29(st);
      if h.r.Err? then Fail(h.r.error, h.st)
      else if h.r.value % 2 == 0 then
        var i := h.r.value / 2;
        if i >= |h.st.objects| then Fail(InvalidReference(i % 0x1_0000), h.st) else Out(Ok(h.st.objects[i]), h.st)
      else if marker == ARRAY then DecodeArray(lenient, h.st, h.r.value / 2)
      else if marker == OBJECT then DecodeObject(lenient, h.st, h.r.value)
      else DecodeFlat(marker, h.st, h.r.value / 2)
    else if lenient then Out(Ok(Undefined), st)
    else Fail(UnknownMarker(marker), st)
  }

  /** Dates, XML and byte arrays: referable values without values inside. */
  function DecodeFlat(marker: byte, st: State, len: nat): (o: Out<AmfValue>)
    ensures Goes(st, o)
  {
    var n := if marker == DATE then 8 else len;
    if |st.buf| < n then Fail(UnexpectedEof, st)
    else
      var data := st.buf[..n];
      if (marker == XML || marker == XML_DOC) && !ValidUtf8(data) then Fail(InvalidUtf8, Skip(st, n))
      else
        var v := if marker == DATE then Date(st.buf[..8])
                 else if marker == BYTE_ARRAY then ByteArray(data)
                 else Xml(data);
        Out(Ok(v), Skip(st, n).(objects := st.objects + [v]))
  }

  function Decimal(n: nat): (r: bytes)
    ensures r != []
  {
    if n < 10 then [48 + n] else Decimal(n / 10) + [48 + n % 10]
  }

  /** A mixed array keeps its dense part under decimal keys. */
  function AddDense(props: seq<Prop>, dense: seq<AmfValue>, i: nat): seq<Prop>
    decreases |dense|
  {
    if dense == [] then props else AddDense(Put(props, Decimal(i), dense[0]), dense[1..], i + 1)
  }

  function DecodeArray(lenient: bool, st: State, count: nat): (o: Out<AmfValue>)
    ensures Goes(st, o)
    decreases |st.buf|, 3
  {
    var a := DecodeProps(lenient, st.(objects := st.objects + [Null]), []);
    if a.r.Err? then Fail(a.r.error, a.st)
    else
      var d := DecodeElems(lenient, a.st, count, []);
      if d.r.Err? then Fail(d.r.error, d.st)
      else
        var v := if a.r.value == [] then Array(d.r.value) else EcmaArray(AddDense(a.r.value, d.r.value, 0));
        Out(Ok(v), d.st.(objects := d.st.objects[|st.objects| := v]))
  }

  /** Keys and values up to an empty key. */
  function DecodeProps(lenient: bool, st: State, props: seq<Prop>): (o: Out<seq<Prop>>)
    ensures Goes(st, o)
    decreases |st.buf|, 1
  {
    var k := ReadString(st);
    if k.r.Err? then Fail(k.r.error, k.st)
    else if k.r.value == [] then Out(Ok(props), k.st)
    else
      var v := Decode(lenient, k.st);
      if v.r.Err? then Fail(v.r.error, v.st)
      else DecodeProps(lenient, v.st, Put(props, k.r.value, v.r.value))
  }

  function DecodeElems(lenient: bool, st: State, count: nat, elems: seq<AmfValue>): (o: Out<seq<AmfValue>>)
    ensures Goes(st, o)
    decreases |st.buf|, 1
  {
    if count == 0 then Out(Ok(elems), st)
    else
      var v := Decode(lenient, st);
      if v.r.Err? then Fail(v.r.error, v.st)
      else DecodeElems(lenient, v.st, count - 1, elems + [v.r.value])
  }

  function ReadStrings(st: State, count: nat, names: seq<bytes>): (o: Out<seq<bytes>>)
    ensures Goes(st, o)
    ensures o.st.depth == st.depth
    decreases count
  {
    if count == 0 then Out(Ok(names), st)
    else
      var s := ReadString(st);
      if s.r.Err? then Fail(s.r.error, s.st) else ReadStrings(s.st, count - 1, names + [s.r.value])
  }

  /** The traits of an object: by reference, or inline and then entered into the table. */
  function DecodeTrait(st: State, header: u32): (o: Out<Trait>)
    ensures Goes(st, o)
    ensures o.st.depth == st.depth
  {
    if header / 2 % 2 == 0 then
      if header / 4 >= |st.traits| then Fail(InvalidReference(header / 4 % 0x1_0000), st)
      else Out(Ok(st.traits[header / 4]), st)
    else
      var name := ReadString(st);
      if name.r.Err? then Fail(name.r.error, name.st)
      else
        var names := ReadStrings(name.st, header / 16, []);
        if names.r.Err? then Fail(names.r.error, names.st)
        else
          var t := Trait(name.r.value, header / 8 % 2 == 1, names.r.value);
          Out(Ok(t), names.st.(traits := names.st.traits + [t]))
  }

  function DecodeObject(lenient: bool, st: State, header: u32): (o: Out<AmfValue>)
    ensures Goes(st, o)
    decreases |st.buf|, 3
  {
    var t := DecodeTrait(st.(objects := st.objects + [Null]), header);
    if t.r.Err? then Fail(t.r.error, t.st)
    else
      var sealed := DecodeSealed(lenient, t.st, t.r.value.properties, []);
      if sealed.r.Err? then Fail(sealed.r.error, sealed.st)
      else
        var p := if t.r.value.isDynamic then DecodeProps(lenient, sealed.st, sealed.r.value) else sealed;
        if p.r.Err? then Fail(p.r.error, p.st)
        else
          var v := if t.r.value.className == [] then Object(p.r.value)
                   else TypedObject(t.r.value.className, p.r.value);
          Out(Ok(v), p.st.(objects := p.st.objects[|st.objects| := v]))
  }

  function DecodeSealed(lenient: bool, st: State, names: seq<bytes>, props: seq<Prop>): (o: Out<seq<Prop>>)
    ensures Goes(st, o)
    decreases |st.buf|, 2, |names|
  {
    if names == [] then Out(Ok(props), st)
    else
      var v := Decode(lenient, st);
      if v.r.Err? then Fail(v.r.error, v.st)
      else DecodeSealed(lenient, v.st, names[1..], Put(props, names[0], v.r.value))
  }
}
