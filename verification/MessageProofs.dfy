/** Exactly which messages come back from their type id and payload, and as what. */
module MessageProofs {
  import opened Bytes
  import opened ChunkModel
  import opened Amf
  import opened MessageModel
  import opened Amf0Proofs
  import opened Amf0Safety

  // ---- what a message becomes ----

  function NormCommand(c: Command): Command {
    c.(commandObject := Norm(c.commandObject), arguments := NormAll(c.arguments))
  }

  function NormData(d: DataMessage): DataMessage {
    d.(values := NormAll(d.values))
  }

  function NormMessage(m: Message): Message {
    match m
    case CommandAmf0(cmd) => CommandAmf0(NormCommand(cmd))
    case CommandAmf3(cmd) => CommandAmf3(NormCommand(cmd))
    case DataAmf0(msg) => DataAmf0(NormData(msg))
    case DataAmf3(msg) => DataAmf3(NormData(msg))
    case _ => m
  }

  predicate CommandFits(c: Command) {
    && FitsString(c.name, 0xFFFF_FFFF)
    && Fits(c.commandObject) && Height(c.commandObject) <= MAX_NESTING_DEPTH
    && FitsAll(c.arguments) && HeightAll(c.arguments) <= MAX_NESTING_DEPTH
  }

  predicate DataFits(d: DataMessage) {
    FitsString(d.name, 0xFFFF_FFFF) && FitsAll(d.values) && HeightAll(d.values) <= MAX_NESTING_DEPTH
  }

  predicate KnownEvent(eventType: u16) {
    eventType <= UC_STREAM_IS_RECORDED || eventType == UC_PING_REQUEST || eventType == UC_PING_RESPONSE
  }

  predicate KnownType(t: byte) {
    t in {MSG_SET_CHUNK_SIZE, MSG_ABORT, MSG_ACKNOWLEDGEMENT, MSG_USER_CONTROL, MSG_WINDOW_ACK_SIZE,
          MSG_SET_PEER_BANDWIDTH, MSG_AUDIO, MSG_VIDEO, MSG_DATA_AMF3, MSG_COMMAND_AMF3, MSG_DATA_AMF0,
          MSG_COMMAND_AMF0, MSG_AGGREGATE}
  }

  /** The messages that their payload determines, given the time and the stream of the chunk:
      chunk sizes have 31 bits, an event or a message of no known type does not use the code
      of a known one, and an unknown event has at least four bytes of data. */
  predicate Representable(m: Message, timestamp: u32, streamId: u32) {
    match m
    case SetChunkSize(size) => size < 0x8000_0000
    case UserControl(UnknownEvent(eventType, data)) => !KnownEvent(eventType) && |data| >= 4
    case Audio(time, _) => time == timestamp
    case Video(time, _) => time == timestamp
    case CommandAmf0(cmd) => CommandFits(cmd) && cmd.streamId == streamId
    case CommandAmf3(cmd) => CommandFits(cmd) && cmd.streamId == streamId
    case DataAmf0(msg) => DataFits(msg) && msg.streamId == streamId
    case DataAmf3(msg) => DataFits(msg) && msg.streamId == streamId
    case UnknownMessage(typeId, _) => !KnownType(typeId)
    case _ => true
  }

  /** The message as it is handed to the chunk encoder. */
  function ToChunk(m: Message, csid: u32, timestamp: u32, streamId: u32): RtmpChunk {
    RtmpChunk(csid, timestamp, MessageModel.Encode(m).0, streamId, MessageModel.Encode(m).1)
  }

  // ---- values one after the other ----

  /** One value at the front: it comes back exactly when it fits and is not too deep. */
  lemma DecodeExact(v: AmfValue, st: Amf0.State, tail: bytes)
    requires st.depth == 0 && FitsAll(st.refs) && st.buf == Amf0.Encode(v) + tail
    ensures var o := Amf0.Decode(true, st);
      && (o.r == Ok(Norm(v)) <==> Fits(v) && Height(v) <= MAX_NESTING_DEPTH)
      && (o.r == Ok(Norm(v)) ==> o.st.buf == tail && o.st.depth == 0 && FitsAll(o.st.refs))
  {
    hide Fits, FitsAll, Norm, Amf0.Decode, Height, Amf0.Encode, Containers;
    DecodeSound(true, st);
    NormFits(v);
    if Fits(v) {
      RoundTrip(true, v, st, tail);
    }
  }

  lemma {:induction false} RestExtends(st: Amf0.State, values: seq<AmfValue>)
    ensures ParseRest(st, values).Parsed? ==> values <= ParseRest(st, values).value
    decreases |st.buf|
  {
    hide Amf0.Decode;
    if st.buf != [] {
      var v := Amf0.Decode(true, st);
      if v.r.Ok? {
        RestExtends(v.st, values + [v.r.value]);
      }
    }
  }

  lemma {:induction false} RestExact(st: Amf0.State, values: seq<AmfValue>, vs: seq<AmfValue>)
    requires st.depth == 0 && FitsAll(st.refs) && st.buf == Amf0.EncodeAll(vs)
    ensures ParseRest(st, values) == Parsed(values + NormAll(vs)) <==>
            FitsAll(vs) && HeightAll(vs) <= MAX_NESTING_DEPTH
    decreases |vs|
  {
    hide Fits, FitsAll, Norm, Amf0.Decode, Height, Amf0.Encode;
    if vs == [] {
      NoElemsFit();
      assert values + [] == values;
    } else {
      var v, rest := vs[0], vs[1..];
      HeadFits(v, rest);
      assert vs == [v] + rest;
      DecodeExact(v, st, Amf0.EncodeAll(rest));
      var o := Amf0.Decode(true, st);
      assert values + ([Norm(v)] + NormAll(rest)) == values + [Norm(v)] + NormAll(rest);
      if o.r == Ok(Norm(v)) {
        RestExact(o.st, values + [Norm(v)], rest);
      } else if o.r.Ok? {
        RestExtends(o.st, values + [o.r.value]);
        assert (values + NormAll(vs))[|values|] == Norm(v);
      } else {
        assert |values + NormAll(vs)| > |values|;
      }
    }
  }

  lemma HeadFits(v: AmfValue, rest: seq<AmfValue>)
    ensures FitsAll([v] + rest) <==> Fits(v) && FitsAll(rest)
  {
    hide Fits;
    assert ([v] + rest)[0] == v;
    assert forall x :: x in rest ==> x in [v] + rest;
  }

  // ---- commands and data ----

  lemma Layout(v: AmfValue, rest: seq<AmfValue>)
    ensures Amf0.EncodeAll([v] + rest) == Amf0.Encode(v) + Amf0.EncodeAll(rest)
  {
    assert ([v] + rest)[1..] == rest;
  }

  lemma CommandLayout(c: Command)
    ensures CommandBytes(c) == Amf0.Encode(String(c.name)) + (Amf0.Encode(Number(c.transactionId))
                               + (Amf0.Encode(c.commandObject) + Amf0.EncodeAll(c.arguments)))
  {
    hide Amf0.Encode;
    var id := Number(c.transactionId);
    assert [String(c.name), id, c.commandObject] + c.arguments
        == [String(c.name)] + ([id] + ([c.commandObject] + c.arguments));
    Layout(String(c.name), [id] + ([c.commandObject] + c.arguments));
    Layout(id, [c.commandObject] + c.arguments);
    Layout(c.commandObject, c.arguments);
  }

  lemma NumberIsPlain(n: F64)
    ensures Norm(Number(n)) == Number(n) && Fits(Number(n)) && Height(Number(n)) == 1
  {
  }

  lemma StringIsPlain(s: bytes)
    ensures Norm(String(s)) == String(s) && (Fits(String(s)) <==> FitsString(s, 0xFFFF_FFFF)) && Height(String(s)) == 1
  {
  }

  lemma CommandExact(c: Command)
    ensures ParseCommand(CommandBytes(c), c.streamId) == Parsed(NormCommand(c)) <==> CommandFits(c)
  {
    hide Fits, FitsAll, Norm, NormAll, Amf0.Decode, Height, HeightAll, Amf0.EncodeAll, FitsString, ParseRest;
    CommandLayout(c);
    var afterObject := Amf0.EncodeAll(c.arguments);
    var afterId := Amf0.Encode(c.commandObject) + afterObject;
    var afterName := Amf0.Encode(Number(c.transactionId)) + afterId;
    hide Amf0.Encode, CommandBytes;
    StringIsPlain(c.name);
    NumberIsPlain(c.transactionId);
    NoElemsFit();
    var name := Amf0.Decode(true, FreshState(CommandBytes(c)));
    DecodeExact(String(c.name), FreshState(CommandBytes(c)), afterName);
    if name.r == Ok(String(c.name)) {
      DecodeExact(Number(c.transactionId), name.st, afterId);
      var id := Amf0.Decode(true, name.st);
      DecodeExact(c.commandObject, id.st, afterObject);
      var commandObject := Amf0.Decode(true, id.st);
      if commandObject.r == Ok(Norm(c.commandObject)) {
        RestExact(commandObject.st, [], c.arguments);
        assert [] + NormAll(c.arguments) == NormAll(c.arguments);
      }
    }
  }

  lemma EmptyFits()
    ensures FitsString([], 0xFFFF_FFFF)
  {
  }

  lemma DataExact(d: DataMessage)
    ensures ParseData(DataBytes(d), d.streamId) == Parsed(NormData(d)) <==> DataFits(d)
  {
    hide Fits, FitsAll, Norm, NormAll, Amf0.Decode, Height, HeightAll, Amf0.EncodeAll, FitsString, ParseRest,
      Amf0.Encode;
    Layout(String(d.name), d.values);
    StringIsPlain(d.name);
    EmptyFits();
    NoElemsFit();
    DecodeExact(String(d.name), FreshState(DataBytes(d)), Amf0.EncodeAll(d.values));
    var name := Amf0.Decode(true, FreshState(DataBytes(d)));
    if name.r == Ok(String(d.name)) {
      RestExact(name.st, [], d.values);
      assert [] + NormAll(d.values) == NormAll(d.values);
    }
  }

  // ---- every message ----

  lemma Be32Alone(v: u32)
    ensures |Be32(v)| == 4 && U32At(Be32(v), 0) == v
  {
    Be32RoundTrip(v);
  }

  lemma ControlExact(m: Message, csid: u32, timestamp: u32, streamId: u32)
    requires m.SetChunkSize? || m.Abort? || m.Acknowledgement? || m.WindowAckSize? || m.SetPeerBandwidth?
    ensures Parse(ToChunk(m, csid, timestamp, streamId)) == Parsed(NormMessage(m)) <==>
            Representable(m, timestamp, streamId)
  {
    hide Be32, U32At, ParseCommand, ParseData, ParseUserControl;
    match m
    case SetChunkSize(size) => Be32Alone(size);
    case Abort(c) => Be32Alone(c);
    case Acknowledgement(sequence) => Be32Alone(sequence);
    case WindowAckSize(size) => Be32Alone(size);
    case SetPeerBandwidth(size, limitType) => Be32Read(size, [limitType]); Be32Front(size, [limitType]);
  }

  lemma Be32Front(v: u32, tail: bytes)
    ensures |Be32(v) + tail| == 4 + |tail| && forall i :: 0 <= i < |tail| ==> (Be32(v) + tail)[4 + i] == tail[i]
  {
  }

  lemma EventRead(eventType: u16, v: u32, tail: bytes)
    ensures var p := Be16(eventType) + (Be32(v) + tail);
      |p| == 6 + |tail| && U16At(p, 0) == eventType && U32At(p, 2) == v && p[6..] == tail
  {
    hide Be32;
    var p := Be16(eventType) + (Be32(v) + tail);
    Be16Read(eventType, Be32(v) + tail);
    Be32RoundTrip(v);
    assert forall i :: 0 <= i < 4 ==> p[2 + i] == Be32(v)[i];
  }

  lemma SecondRead(eventType: u16, v: u32, w: u32)
    ensures var p := Be16(eventType) + (Be32(v) + Be32(w));
      |p| == 10 && U32At(p, 6) == w
  {
    hide Be32;
    var p := Be16(eventType) + (Be32(v) + Be32(w));
    Be32RoundTrip(w);
    assert forall i :: 0 <= i < 4 ==> p[6 + i] == Be32(w)[i];
  }

  lemma SimpleEvent(eventType: u16, v: u32)
    ensures var p := Be16(eventType) + Be32(v);
      |p| == 6 && U16At(p, 0) == eventType && U32At(p, 2) == v
  {
    hide Be32, Be16, U32At, U16At;
    EventRead(eventType, v, []);
    assert Be32(v) + [] == Be32(v);
  }

  lemma EventExact(e: UserControlEvent)
    ensures ParseUserControl(EventBytes(e)) == Parsed(UserControl(e)) <==>
            (e.UnknownEvent? ==> !KnownEvent(e.eventType) && |e.data| >= 4)
  {
    hide Be32, Be16, U32At, U16At;
    match e
    case StreamBegin(id) => SimpleEvent(UC_STREAM_BEGIN, id);
    case StreamEof(id) => SimpleEvent(UC_STREAM_EOF, id);
    case StreamDry(id) => SimpleEvent(UC_STREAM_DRY, id);
    case SetBufferLength(id, ms) =>
      EventRead(UC_SET_BUFFER_LENGTH, id, Be32(ms));
      SecondRead(UC_SET_BUFFER_LENGTH, id, ms);
    case StreamIsRecorded(id) => SimpleEvent(UC_STREAM_IS_RECORDED, id);
    case PingRequest(time) => SimpleEvent(UC_PING_REQUEST, time);
    case PingResponse(time) => SimpleEvent(UC_PING_RESPONSE, time);
    case UnknownEvent(eventType, data) => Be16Read(eventType, data); Be16Length(eventType, data);
  }

  lemma Be16Length(v: u16, tail: bytes)
    ensures |Be16(v) + tail| == 2 + |tail|
  {
  }

  lemma AmfExact(m: Message, csid: u32, timestamp: u32, streamId: u32)
    requires m.CommandAmf0? || m.CommandAmf3? || m.DataAmf0? || m.DataAmf3?
    ensures Parse(ToChunk(m, csid, timestamp, streamId)) == Parsed(NormMessage(m)) <==>
            Representable(m, timestamp, streamId)
  {
    hide ParseUserControl, CommandBytes, DataBytes, CommandFits, DataFits, Amf0.Decode, ParseRest, NormAll, Norm;
    match m
    case CommandAmf0(cmd) => CommandExact(cmd);
    case CommandAmf3(cmd) => CommandExact(cmd); assert ([0] + CommandBytes(cmd))[1..] == CommandBytes(cmd);
    case DataAmf0(msg) => DataExact(msg);
    case DataAmf3(msg) => DataExact(msg); assert ([0] + DataBytes(msg))[1..] == DataBytes(msg);
  }

  lemma MediaExact(m: Message, csid: u32, timestamp: u32, streamId: u32)
    requires m.Audio? || m.Video? || m.Aggregate? || m.UnknownMessage?
    ensures Parse(ToChunk(m, csid, timestamp, streamId)) == Parsed(NormMessage(m)) <==>
            Representable(m, timestamp, streamId)
  {
    hide ParseCommand, ParseData, U32At;
  }

  /** A message comes back from its payload, up to AMF0 normalisation, exactly when it is
      representable. */
  lemma MessageExact(m: Message, csid: u32, timestamp: u32, streamId: u32)
    ensures Parse(ToChunk(m, csid, timestamp, streamId)) == Parsed(NormMessage(m)) <==>
            Representable(m, timestamp, streamId)
  {
    hide Parse, ParseUserControl, ToChunk, EventBytes;
    if m.UserControl? {
      EventExact(m.event);
      UserControlPayload(m.event, csid, timestamp, streamId);
    } else if m.CommandAmf0? || m.CommandAmf3? || m.DataAmf0? || m.DataAmf3? {
      AmfExact(m, csid, timestamp, streamId);
    } else if m.Audio? || m.Video? || m.Aggregate? || m.UnknownMessage? {
      MediaExact(m, csid, timestamp, streamId);
    } else {
      ControlExact(m, csid, timestamp, streamId);
    }
  }

  lemma UserControlPayload(e: UserControlEvent, csid: u32, timestamp: u32, streamId: u32)
    ensures Parse(ToChunk(UserControl(e), csid, timestamp, streamId)) == ParseUserControl(EventBytes(e))
  {
    hide ParseUserControl, EventBytes;
  }
}
