/** Message parsing and writing as it runs: cursors over payloads, loops over values. */
module MessageCodec {
  import opened Bytes
  import opened ChunkModel
  import opened Amf
  import opened MessageModel
  import opened Amf0Codec
  import MessageProofs

  method FromChunk(chunk: RtmpChunk) returns (r: Parsed<Message>)
    ensures r == Parse(chunk)
  {
    hide MessageModel.ParseCommand, MessageModel.ParseData, MessageModel.ParseUserControl;
    var payload := new ByteBuf(chunk.payload);
    match chunk.msgType {
      case 1 =>
        if |payload.data| < 4 {
          return Rejected(InvalidChunkHeader);
        }
        var size := payload.GetU32();
        return Parsed(SetChunkSize(size % 0x8000_0000));
      case 2 =>
        if |payload.data| < 4 {
          return Rejected(InvalidChunkHeader);
        }
        var csid := payload.GetU32();
        return Parsed(Abort(csid));
      case 3 =>
        if |payload.data| < 4 {
          return Rejected(InvalidChunkHeader);
        }
        var sequence := payload.GetU32();
        return Parsed(Acknowledgement(sequence));
      case 4 =>
        r := ParseUserControl(payload);
      case 5 =>
        if |payload.data| < 4 {
          return Rejected(InvalidChunkHeader);
        }
        var size := payload.GetU32();
        return Parsed(WindowAckSize(size));
      case 6 =>
        if |payload.data| < 5 {
          return Rejected(InvalidChunkHeader);
        }
        var size := payload.GetU32();
        var limitType := payload.GetU8();
        return Parsed(SetPeerBandwidth(size, limitType));
      case 8 =>
        return Parsed(Audio(chunk.timestamp, payload.data));
      case 9 =>
        return Parsed(Video(chunk.timestamp, payload.data));
      case 20 =>
        var cmd := ParseCommand(payload, chunk.streamId);
        return if cmd.Parsed? then Parsed(CommandAmf0(cmd.value)) else Rejected(cmd.error);
      case 17 =>
        if payload.data != [] && payload.data[0] == 0 {
          payload.Advance(1);
        }
        var cmd := ParseCommand(payload, chunk.streamId);
        return if cmd.Parsed? then Parsed(CommandAmf3(cmd.value)) else Rejected(cmd.error);
      case 18 =>
        var msg := ParseData(payload, chunk.streamId);
        return if msg.Parsed? then Parsed(DataAmf0(msg.value)) else Rejected(msg.error);
      case 15 =>
        if payload.data != [] && payload.data[0] == 0 {
          payload.Advance(1);
        }
        var msg := ParseData(payload, chunk.streamId);
        return if msg.Parsed? then Parsed(DataAmf3(msg.value)) else Rejected(msg.error);
      case 22 =>
        return Parsed(Aggregate(payload.data));
      case other =>
        return Parsed(UnknownMessage(other, payload.data));
    }
  }

  lemma Shifted(data: bytes, i: nat, k: nat)
    requires i + k + 4 <= |data|
    ensures U32At(data[i..], k) == U32At(data, i + k)
  {
  }

  method ParseUserControl(payload: ByteBuf) returns (r: Parsed<Message>)
    modifies payload
    ensures r == MessageModel.ParseUserControl(old(payload.data))
  {
    hide U32At;
    if |payload.data| < 6 {
      return Rejected(InvalidChunkHeader);
    }
    Shifted(payload.data, 2, 0);
    var eventType := payload.GetU16();
    if eventType == UC_SET_BUFFER_LENGTH && |payload.data| < 8 {
      return Rejected(InvalidChunkHeader);
    }
    var value := U32At(payload.data, 0);
    match eventType {
      case 0 => return Parsed(UserControl(StreamBegin(value)));
      case 1 => return Parsed(UserControl(StreamEof(value)));
      case 2 => return Parsed(UserControl(StreamDry(value)));
      case 3 =>
        Shifted(old(payload.data), 2, 4);
        Shifted(payload.data, 4, 0);
        var streamId := payload.GetU32();
        var bufferMs := payload.GetU32();
        return Parsed(UserControl(SetBufferLength(streamId, bufferMs)));
      case 4 => return Parsed(UserControl(StreamIsRecorded(value)));
      case 6 => return Parsed(UserControl(PingRequest(value)));
      case 7 => return Parsed(UserControl(PingResponse(value)));
      case _ => return Parsed(UserControl(UnknownEvent(eventType, payload.data)));
    }
  }

  method ParseCommand(payload: ByteBuf, streamId: u32) returns (r: Parsed<Command>)
    modifies payload
    ensures r == MessageModel.ParseCommand(old(payload.data), streamId)
  {
    hide Amf0.Decode, MessageModel.ParseRest;
    var decoder := new Amf0Decoder(true);
    var name := decoder.Decode(payload);
    if name.Err? {
      return Rejected(Amf(name.error));
    }
    if !name.value.String? {
      return Rejected(InvalidCommand);
    }
    var id := decoder.Decode(payload);
    if id.Err? {
      return Rejected(Amf(id.error));
    }
    var transactionId := if id.value.Number? then id.value.n else ZERO;
    if payload.data == [] {
      return Parsed(Command(name.value.s, transactionId, Null, [], streamId));
    }
    var commandObject := decoder.Decode(payload);
    if commandObject.Err? {
      return Rejected(Amf(commandObject.error));
    }
    var arguments := ParseRest(decoder, payload);
    if arguments.Rejected? {
      return Rejected(arguments.error);
    }
    return Parsed(Command(name.value.s, transactionId, commandObject.value, arguments.value, streamId));
  }

  method ParseData(payload: ByteBuf, streamId: u32) returns (r: Parsed<DataMessage>)
    modifies payload
    ensures r == MessageModel.ParseData(old(payload.data), streamId)
  {
    hide Amf0.Decode, MessageModel.ParseRest;
    var decoder := new Amf0Decoder(true);
    var name := decoder.Decode(payload);
    if name.Err? {
      return Rejected(Amf(name.error));
    }
    var values := ParseRest(decoder, payload);
    if values.Rejected? {
      return Rejected(values.error);
    }
    return Parsed(DataMessage(if name.value.String? then name.value.s else [], values.value, streamId));
  }

  /** The loop that ends both parsers. */
  method ParseRest(decoder: Amf0Decoder, payload: ByteBuf) returns (r: Parsed<seq<AmfValue>>)
    requires decoder.lenient
    modifies decoder, payload
    ensures r == MessageModel.ParseRest(old(decoder.St(payload)), [])
  {
    hide Amf0.Decode;
    var values := [];
    while payload.data != []
      invariant MessageModel.ParseRest(decoder.St(payload), values)
             == MessageModel.ParseRest(old(decoder.St(payload)), [])
      decreases |payload.data|
    {
      var v := decoder.Decode(payload);
      if v.Ok? {
        values := values + [v.value];
      } else if v.error == UnexpectedEof {
        break;
      } else {
        return Rejected(Amf(v.error));
      }
    }
    return Parsed(values);
  }

  method EncodeMessage(m: Message) returns (msgType: byte, payload: bytes)
    ensures (msgType, payload) == MessageModel.Encode(m)
  {
    hide MessageModel.CommandBytes, MessageModel.DataBytes, EventBytes;
    var buf := new ByteBuf([]);
    assert forall b: bytes :: buf.data + b == b;
    match m {
      case SetChunkSize(size) =>
        buf.Put(Be32(size));
        return MSG_SET_CHUNK_SIZE, buf.data;
      case Abort(csid) =>
        buf.Put(Be32(csid));
        return MSG_ABORT, buf.data;
      case Acknowledgement(sequence) =>
        buf.Put(Be32(sequence));
        return MSG_ACKNOWLEDGEMENT, buf.data;
      case WindowAckSize(size) =>
        buf.Put(Be32(size));
        return MSG_WINDOW_ACK_SIZE, buf.data;
      case SetPeerBandwidth(size, limitType) =>
        buf.Put(Be32(size));
        buf.Put([limitType]);
        return MSG_SET_PEER_BANDWIDTH, buf.data;
      case UserControl(event) =>
        EncodeEvent(event, buf);
        return MSG_USER_CONTROL, buf.data;
      case Audio(_, data) =>
        return MSG_AUDIO, data;
      case Video(_, data) =>
        return MSG_VIDEO, data;
      case CommandAmf0(cmd) =>
        payload := EncodeCommand(cmd);
        return MSG_COMMAND_AMF0, payload;
      case CommandAmf3(cmd) =>
        buf.Put([0]);
        payload := EncodeCommand(cmd);
        buf.Put(payload);
        return MSG_COMMAND_AMF3, buf.data;
      case DataAmf0(msg) =>
        payload := EncodeData(msg);
        return MSG_DATA_AMF0, payload;
      case DataAmf3(msg) =>
        buf.Put([0]);
        payload := EncodeData(msg);
        buf.Put(payload);
        return MSG_DATA_AMF3, buf.data;
      case Aggregate(data) =>
        return MSG_AGGREGATE, data;
      case UnknownMessage(typeId, data) =>
        return typeId, data;
    }
  }

  method EncodeEvent(e: UserControlEvent, buf: ByteBuf)
    modifies buf
    ensures buf.data == old(buf.data) + EventBytes(e)
  {
    hide Be32, Be16;
    match e {
      case StreamBegin(id) => PutEvent(UC_STREAM_BEGIN, Be32(id), buf);
      case StreamEof(id) => PutEvent(UC_STREAM_EOF, Be32(id), buf);
      case StreamDry(id) => PutEvent(UC_STREAM_DRY, Be32(id), buf);
      case SetBufferLength(id, ms) => PutEvent(UC_SET_BUFFER_LENGTH, Be32(id) + Be32(ms), buf);
      case StreamIsRecorded(id) => PutEvent(UC_STREAM_IS_RECORDED, Be32(id), buf);
      case PingRequest(time) => PutEvent(UC_PING_REQUEST, Be32(time), buf);
      case PingResponse(time) => PutEvent(UC_PING_RESPONSE, Be32(time), buf);
      case UnknownEvent(eventType, data) => PutEvent(eventType, data, buf);
    }
  }

  method PutEvent(eventType: u16, data: bytes, buf: ByteBuf)
    modifies buf
    ensures buf.data == old(buf.data) + (Be16(eventType) + data)
  {
    ConcatAssociates(buf.data, Be16(eventType), data);
    buf.Put(Be16(eventType));
    buf.Put(data);
  }

  method EncodeCommand(cmd: Command) returns (payload: bytes)
    ensures payload == CommandBytes(cmd)
  {
    var encoder := new Amf0Encoder();
    encoder.Encode(String(cmd.name));
    encoder.Encode(Number(cmd.transactionId));
    encoder.Encode(cmd.commandObject);
    EncodeRest(encoder, cmd.arguments);
    CommandInOrder(cmd);
    payload := encoder.Finish();
  }

  method EncodeData(msg: DataMessage) returns (payload: bytes)
    ensures payload == DataBytes(msg)
  {
    var encoder := new Amf0Encoder();
    encoder.Encode(String(msg.name));
    EncodeRest(encoder, msg.values);
    DataInOrder(msg);
    payload := encoder.Finish();
  }

  method EncodeRest(encoder: Amf0Encoder, values: seq<AmfValue>)
    modifies encoder.buf
    ensures encoder.buf.data == old(encoder.buf.data) + Amf0.EncodeAll(values)
  {
    hide Amf0.Encode;
    for i := 0 to |values|
      invariant encoder.buf.data + Amf0.EncodeAll(values[i..]) == old(encoder.buf.data) + Amf0.EncodeAll(values)
    {
      assert values[i..][1..] == values[i + 1..];
      ConcatAssociates(encoder.buf.data, Amf0.Encode(values[i]), Amf0.EncodeAll(values[i + 1..]));
      encoder.Encode(values[i]);
    }
    assert Amf0.EncodeAll(values[|values|..]) == [];
  }

  lemma CommandInOrder(c: Command)
    ensures [] + Amf0.Encode(String(c.name)) + Amf0.Encode(Number(c.transactionId)) + Amf0.Encode(c.commandObject)
            + Amf0.EncodeAll(c.arguments) == CommandBytes(c)
  {
    hide Amf0.Encode, Amf0.EncodeAll;
    MessageProofs.CommandLayout(c);
    hide CommandBytes;
    var a, b, d, e := Amf0.Encode(String(c.name)), Amf0.Encode(Number(c.transactionId)),
      Amf0.Encode(c.commandObject), Amf0.EncodeAll(c.arguments);
    assert [] + a == a;
    ConcatAssociatesTwice(a, b, d, e);
  }

  lemma DataInOrder(d: DataMessage)
    ensures [] + Amf0.Encode(String(d.name)) + Amf0.EncodeAll(d.values) == DataBytes(d)
  {
    hide Amf0.Encode, Amf0.EncodeAll;
    MessageProofs.Layout(String(d.name), d.values);
    assert [] + Amf0.Encode(String(d.name)) == Amf0.Encode(String(d.name));
  }
}
