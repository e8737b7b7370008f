/** RTMP messages, how they are written as a payload and how a payload is parsed
    (section 5.4 of the RTMP 1.0 specification). */
module MessageModel {
  import opened Bytes
  import opened ChunkModel
  import opened Amf
  import Amf0 = Amf0Model

  const MSG_ACKNOWLEDGEMENT: byte := 3
  const MSG_USER_CONTROL: byte := 4
  const MSG_SET_PEER_BANDWIDTH: byte := 6
  const MSG_AUDIO: byte := 8
  const MSG_VIDEO: byte := 9
  const MSG_DATA_AMF3: byte := 15
  const MSG_COMMAND_AMF3: byte := 17
  const MSG_DATA_AMF0: byte := 18
  const MSG_COMMAND_AMF0: byte := 20
  const MSG_AGGREGATE: byte := 22

  const UC_STREAM_BEGIN: u16 := 0
  const UC_STREAM_EOF: u16 := 1
  const UC_STREAM_DRY: u16 := 2
  const UC_SET_BUFFER_LENGTH: u16 := 3
  const UC_STREAM_IS_RECORDED: u16 := 4
  const UC_PING_REQUEST: u16 := 6
  const UC_PING_RESPONSE: u16 := 7

  datatype UserControlEvent =
    | StreamBegin(id: u32)
    | StreamEof(id: u32)
    | StreamDry(id: u32)
    | SetBufferLength(id: u32, bufferMs: u32)
    | StreamIsRecorded(id: u32)
    | PingRequest(time: u32)
    | PingResponse(time: u32)
    | UnknownEvent(eventType: u16, data: bytes)

  datatype Command =
    Command(name: bytes, transactionId: F64, commandObject: AmfValue, arguments: seq<AmfValue>, streamId: u32)

  datatype DataMessage = DataMessage(name: bytes, values: seq<AmfValue>, streamId: u32)

  datatype Message =
    | SetChunkSize(size: u32)
    | Abort(csid: u32)
    | Acknowledgement(sequence: u32)
    | UserControl(event: UserControlEvent)
    | WindowAckSize(size: u32)
    | SetPeerBandwidth(size: u32, limitType: byte)
    | Audio(timestamp: u32, data: bytes)
    | Video(timestamp: u32, data: bytes)
    | CommandAmf0(cmd: Command)
    | DataAmf0(msg: DataMessage)
    | CommandAmf3(cmd: Command)
    | DataAmf3(msg: DataMessage)
    | Aggregate(data: bytes)
    | UnknownMessage(typeId: byte, data: bytes)

  datatype ParseError = InvalidChunkHeader | InvalidCommand | Amf(error: AmfError)

  datatype Parsed<+T> = Parsed(value: T) | Rejected(error: ParseError)

  // ---- writing ----

  function EventBytes(e: UserControlEvent): bytes {
    match e
    case StreamBegin(id) => Be16(UC_STREAM_BEGIN) + Be32(id)
    case StreamEof(id) => Be16(UC_STREAM_EOF) + Be32(id)
    case StreamDry(id) => Be16(UC_STREAM_DRY) + Be32(id)
    case SetBufferLength(id, ms) => Be16(UC_SET_BUFFER_LENGTH) + (Be32(id) + Be32(ms))
    case StreamIsRecorded(id) => Be16(UC_STREAM_IS_RECORDED) + Be32(id)
    case PingRequest(time) => Be16(UC_PING_REQUEST) + Be32(time)
    case PingResponse(time) => Be16(UC_PING_RESPONSE) + Be32(time)
    case UnknownEvent(eventType, data) => Be16(eventType) + data
  }

  function CommandBytes(c: Command): bytes {
    Amf0.EncodeAll([String(c.name), Number(c.transactionId), c.commandObject] + c.arguments)
  }

  function DataBytes(d: DataMessage): bytes {
    Amf0.EncodeAll([String(d.name)] + d.values)
  }

  /** Message type and payload. */
  function Encode(m: Message): (byte, bytes) {
    match m
    case SetChunkSize(size) => (MSG_SET_CHUNK_SIZE, Be32(size))
    case Abort(csid) => (MSG_ABORT, Be32(csid))
    case Acknowledgement(sequence) => (MSG_ACKNOWLEDGEMENT, Be32(sequence))
    case WindowAckSize(size) => (MSG_WINDOW_ACK_SIZE, Be32(size))
    case SetPeerBandwidth(size, limitType) => (MSG_SET_PEER_BANDWIDTH, Be32(size) + [limitType])
    case UserControl(event) => (MSG_USER_CONTROL, EventBytes(event))
    case Audio(_, data) => (MSG_AUDIO, data)
    case Video(_, data) => (MSG_VIDEO, data)
    case CommandAmf0(cmd) => (MSG_COMMAND_AMF0, CommandBytes(cmd))
    case CommandAmf3(cmd) => (MSG_COMMAND_AMF3, [0] + CommandBytes(cmd))
    case DataAmf0(msg) => (MSG_DATA_AMF0, DataBytes(msg))
    case DataAmf3(msg) => (MSG_DATA_AMF3, [0] + DataBytes(msg))
    case Aggregate(data) => (MSG_AGGREGATE, data)
    case UnknownMessage(typeId, data) => (typeId, data)
  }

  // ---- parsing ----

  function ParseUserControl(payload: bytes): Parsed<Message> {
    if |payload| < 6 then Rejected(InvalidChunkHeader)
    else
      var eventType := U16At(payload, 0);
      if eventType == UC_STREAM_BEGIN then Parsed(UserControl(StreamBegin(U32At(payload, 2))))
      else if eventType == UC_STREAM_EOF then Parsed(UserControl(StreamEof(U32At(payload, 2))))
      else if eventType == UC_STREAM_DRY then Parsed(UserControl(StreamDry(U32At(payload, 2))))
      else if eventType == UC_SET_BUFFER_LENGTH then
        if |payload| < 10 then Rejected(InvalidChunkHeader)
        else Parsed(UserControl(SetBufferLength(U32At(payload, 2), U32At(payload, 6))))
      else if eventType == UC_STREAM_IS_RECORDED then Parsed(UserControl(StreamIsRecorded(U32At(payload, 2))))
      else if eventType == UC_PING_REQUEST then Parsed(UserControl(PingRequest(U32At(payload, 2))))
      else if eventType == UC_PING_RESPONSE then Parsed(UserControl(PingResponse(U32At(payload, 2))))
      else Parsed(UserControl(UnknownEvent(eventType, payload[2..])))
  }

  /** AMF0 values to the end of the payload; one that is cut off ends the list. */
  function ParseRest(st: Amf0.State, values: seq<AmfValue>): Parsed<seq<AmfValue>>
    decreases |st.buf|
  {
    if st.buf == [] then Parsed(values)
    else
      var v := Amf0.Decode(true, st);
      if v.r.Ok? then ParseRest(v.st, values + [v.r.value])
      else if v.r.error == UnexpectedEof then Parsed(values)
      else Rejected(Amf(v.r.error))
  }

  function FreshState(payload: bytes): Amf0.State {
    Amf0.State(payload, [], 0)
  }

  /** The name must be a string; a transaction id that is no number counts as 0; the
      command object may be missing. */
  function ParseCommand(payload: bytes, streamId: u32): Parsed<Command> {
    var name := Amf0.Decode(true, FreshState(payload));
    if name.r.Err? then Rejected(Amf(name.r.error))
    else if !name.r.value.String? then Rejected(InvalidCommand)
    else
      var id := Amf0.Decode(true, name.st);
      if id.r.Err? then Rejected(Amf(id.r.error))
      else
        var transactionId := if id.r.value.Number? then id.r.value.n else ZERO;
        if id.st.buf == [] then Parsed(Command(name.r.value.s, transactionId, Null, [], streamId))
        else
          var commandObject := Amf0.Decode(true, id.st);
          if commandObject.r.Err? then Rejected(Amf(commandObject.r.error))
          else
            var arguments := ParseRest(commandObject.st, []);
            if arguments.Rejected? then Rejected(arguments.error)
            else Parsed(Command(name.r.value.s, transactionId, commandObject.r.value, arguments.value, streamId))
  }

  /** A name that is no string counts as empty. */
  function ParseData(payload: bytes, streamId: u32): Parsed<DataMessage> {
    var name := Amf0.Decode(true, FreshState(payload));
    if name.r.Err? then Rejected(Amf(name.r.error))
    else
      var values := ParseRest(name.st, []);
      if values.Rejected? then Rejected(values.error)
      else Parsed(DataMessage(if name.r.value.String? then name.r.value.s else [], values.value, streamId))
  }

  /** The AMF3 message types carry AMF0 behind a zero byte, which may be missing. */
  function SkipZero(payload: bytes): bytes {
    if payload != [] && payload[0] == 0 then payload[1..] else payload
  }

  function Wrap<A, B>(p: Parsed<A>, f: A -> B): Parsed<B> {
    match p
    case Parsed(a) => Parsed(f(a))
    case Rejected(error) => Rejected(error)
  }

  function Parse(c: RtmpChunk): Parsed<Message> {
    var p := c.payload;
    if c.msgType == MSG_SET_CHUNK_SIZE then
      if |p| < 4 then Rejected(InvalidChunkHeader) else Parsed(SetChunkSize(U32At(p, 0) % 0x8000_0000))
    else if c.msgType == MSG_ABORT then
      if |p| < 4 then Rejected(InvalidChunkHeader) else Parsed(Abort(U32At(p, 0)))
    else if c.msgType == MSG_ACKNOWLEDGEMENT then
      if |p| < 4 then Rejected(InvalidChunkHeader) else Parsed(Acknowledgement(U32At(p, 0)))
    else if c.msgType == MSG_USER_CONTROL then ParseUserControl(p)
    else if c.msgType == MSG_WINDOW_ACK_SIZE then
      if |p| < 4 then Rejected(InvalidChunkHeader) else Parsed(WindowAckSize(U32At(p, 0)))
    else if c.msgType == MSG_SET_PEER_BANDWIDTH then
      if |p| < 5 then Rejected(InvalidChunkHeader) else Parsed(SetPeerBandwidth(U32At(p, 0), p[4]))
    else if c.msgType == MSG_AUDIO then Parsed(Audio(c.timestamp, p))
    else if c.msgType == MSG_VIDEO then Parsed(Video(c.timestamp, p))
    else if c.msgType == MSG_COMMAND_AMF0 then
      Wrap(ParseCommand(p, c.streamId), (cmd: Command) => CommandAmf0(cmd))
    else if c.msgType == MSG_COMMAND_AMF3 then
      Wrap(ParseCommand(SkipZero(p), c.streamId), (cmd: Command) => CommandAmf3(cmd))
    else if c.msgType == MSG_DATA_AMF0 then
      Wrap(ParseData(p, c.streamId), (msg: DataMessage) => DataAmf0(msg))
    else if c.msgType == MSG_DATA_AMF3 then
      Wrap(ParseData(SkipZero(p), c.streamId), (msg: DataMessage) => DataAmf3(msg))
    else if c.msgType == MSG_AGGREGATE then Parsed(Aggregate(p))
    else Parsed(UnknownMessage(c.msgType, p))
  }
}
