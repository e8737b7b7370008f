/** The chunk stream format (RTMP 1.0, sections 5.3.1.1 to 5.3.1.3) as functions
    on values: what one decoding step and one encoding do to the per-stream
    header state and to the bytes. */
module ChunkModel {
  import opened Bytes

  const DEFAULT_CHUNK_SIZE: u32 := 128
  const MAX_CHUNK_SIZE: u32 := 0xFF_FFFF
  const MAX_MESSAGE_SIZE: u32 := 16 * 1024 * 1024
  const EXTENDED_TIMESTAMP: u32 := 0xFF_FFFF

  /** The message types that act on the connection below the messages. */
  const MSG_SET_CHUNK_SIZE: byte := 1
  const MSG_ABORT: byte := 2
  const MSG_WINDOW_ACK_SIZE: byte := 5

  datatype RtmpChunk = RtmpChunk(csid: u32, timestamp: u32, msgType: byte, streamId: u32, payload: bytes)

  /** Header memory of one chunk stream, on either side. */
  datatype ChunkState = ChunkState(
    timestamp: u32, delta: u32, length: u32, msgType: byte, streamId: u32,
    hasExtended: bool, partial: bytes, expected: u32)

  const DEFAULT_STATE := ChunkState(0, 0, 0, 0, 0, false, [], 0)

  function StateOf(streams: map<u32, ChunkState>, csid: u32): ChunkState {
    if csid in streams then streams[csid] else DEFAULT_STATE
  }

  // ---- decoding ----

  datatype Decoder = Decoder(chunkSize: u32, maxMessageSize: u32, streams: map<u32, ChunkState>)

  datatype Outcome = Pending | Complete(chunk: RtmpChunk) | TooLarge(size: u32)

  datatype Decoded = Decoded(outcome: Outcome, dec: Decoder, rest: bytes)

  datatype BasicHeader = BasicHeader(fmt: nat, csid: u32, size: nat)

  function ParseBasicHeader(buf: bytes): (r: Option<BasicHeader>)
    ensures r.Some? ==>
      r.value.fmt <= 3 && 1 <= r.value.size <= 3 && r.value.size <= |buf| && 2 <= r.value.csid <= 65599
  {
    if buf == [] then None
    else
      var fmt := buf[0] / 64;
      var low := buf[0] % 64;
      if low == 0 then
        if |buf| < 2 then None else Some(BasicHeader(fmt, 64 + At(buf, 1), 2))
      else if low == 1 then
        if |buf| < 3 then None else Some(BasicHeader(fmt, 64 + At(buf, 1) + At(buf, 2) * 256, 3))
      else
        Some(BasicHeader(fmt, low, 1))
  }

  function MessageHeaderSize(fmt: nat): nat {
    if fmt == 0 then 11 else if fmt == 1 then 7 else if fmt == 2 then 3 else 0
  }

  /** Whether a four-byte extended timestamp follows the message header that `b` starts with. */
  predicate Extended(st: ChunkState, fmt: nat, b: bytes) {
    if fmt == 3 then st.hasExtended else |b| >= 3 && U24At(b, 0) >= EXTENDED_TIMESTAMP
  }

  function HeaderSize(st: ChunkState, fmt: nat, b: bytes): nat {
    MessageHeaderSize(fmt) + if Extended(st, fmt, b) then 4 else 0
  }

  datatype Fields = Fields(time: u32, length: u32, msgType: byte, streamId: u32)

  function FieldsOf(st: ChunkState, fmt: nat, b: bytes): Fields
    requires MessageHeaderSize(fmt) <= |b|
  {
    if fmt == 0 then Fields(U24At(b, 0), U24At(b, 3), b[6], U32LeAt(b, 7))
    else if fmt == 1 then Fields(U24At(b, 0), U24At(b, 3), b[6], st.streamId)
    else if fmt == 2 then Fields(U24At(b, 0), st.length, st.msgType, st.streamId)
    else Fields(st.delta, st.length, st.msgType, st.streamId)
  }

  /** How many payload bytes the chunk starting with message header `b` carries. */
  function DataLength(chunkSize: u32, st: ChunkState, fmt: nat, b: bytes): nat
    requires MessageHeaderSize(fmt) <= |b|
  {
    var total := if fmt <= 1 then U24At(b, 3) else if st.partial == [] then st.length else st.expected;
    if total <= |st.partial| then 0 else Min(total - |st.partial|, chunkSize)
  }

  /** All bytes of the chunk after its basic header, or None while the message header is incomplete. */
  function ChunkSize(chunkSize: u32, st: ChunkState, fmt: nat, b: bytes): Option<nat> {
    var h := HeaderSize(st, fmt, b);
    if |b| < h then None else Some(h + DataLength(chunkSize, st, fmt, b))
  }

  /** The header state after the header of a chunk has been taken over. */
  function TakeHeader(st: ChunkState, fmt: nat, b: bytes): ChunkState
    requires HeaderSize(st, fmt, b) <= |b|
  {
    var f := FieldsOf(st, fmt, b);
    var ext := Extended(st, fmt, b);
    var time := if ext then U32At(b, MessageHeaderSize(fmt)) else f.time;
    var absolute :=
      if fmt == 0 then time
      else if fmt == 3 && st.partial != [] then st.timestamp
      else (st.timestamp + time) % TWO_TO_THE_32;
    st.(timestamp := absolute, delta := time, length := f.length, msgType := f.msgType, streamId := f.streamId,
        hasExtended := ext)
  }

  /** Append chunk data to the message under assembly; complete it when it has its full length. */
  function TakeData(csid: u32, st: ChunkState, data: bytes): (ChunkState, Outcome) {
    var expected := if st.partial == [] then st.length else st.expected;
    var whole := st.partial + data;
    if |whole| >= expected then
      (st.(partial := [], expected := 0),
       Complete(RtmpChunk(csid, st.timestamp, st.msgType, st.streamId, whole)))
    else
      (st.(partial := whole, expected := expected), Pending)
  }

  datatype StreamStep = StreamStep(state: ChunkState, outcome: Outcome, used: nat)

  /** One chunk's effect on its own stream; None until all of the chunk is there.
      `b` starts after the basic header. An oversize message is refused after its header. */
  function StepStream(chunkSize: u32, maxMessageSize: u32, csid: u32, st: ChunkState, fmt: nat, b: bytes)
    : (r: Option<StreamStep>)
    ensures r.Some? ==> r.value.used <= |b|
  {
    var size := ChunkSize(chunkSize, st, fmt, b);
    if size.None? || |b| < size.value then None
    else
      var h := HeaderSize(st, fmt, b);
      var st1 := TakeHeader(st, fmt, b);
      if st1.length > maxMessageSize then Some(StreamStep(st1, TooLarge(st1.length), h))
      else
        var (st2, outcome) := TakeData(csid, st1, b[h..size.value]);
        Some(StreamStep(st2, outcome, size.value))
  }

  /** Asking for a stream creates its state, even when the chunk is not complete yet. */
  function Decode(d: Decoder, buf: bytes): (r: Decoded)
    ensures |r.rest| <= |buf|
    ensures !r.outcome.Pending? ==> |r.rest| < |buf|
  {
    var basic := ParseBasicHeader(buf);
    if basic.None? then Decoded(Pending, d, buf)
    else
      var BasicHeader(fmt, csid, n) := basic.value;
      var st := StateOf(d.streams, csid);
      var step := StepStream(d.chunkSize, d.maxMessageSize, csid, st, fmt, buf[n..]);
      if step.None? then Decoded(Pending, d.(streams := d.streams[csid := st]), buf)
      else
        Decoded(step.value.outcome, d.(streams := d.streams[csid := step.value.state]), buf[n + step.value.used..])
  }

  function AbortStream(d: Decoder, csid: u32): Decoder {
    if csid in d.streams then
      d.(streams := d.streams[csid := d.streams[csid].(partial := [], expected := 0)])
    else d
  }

  /** What holds of a stream's state whatever bytes arrived: an open message is
      short of its length, that length is within the limit, and a header without
      extended timestamp left a 24-bit time behind. */
  predicate StreamInv(st: ChunkState, maxMessageSize: u32) {
    && (st.partial == [] || |st.partial| < st.expected <= maxMessageSize)
    && (!st.hasExtended ==> st.delta < EXTENDED_TIMESTAMP)
  }

  ghost predicate DecoderInv(d: Decoder) {
    forall csid: u32 :: StreamInv(StateOf(d.streams, csid), d.maxMessageSize)
  }

  // ---- encoding ----

  function SelectFormat(m: RtmpChunk, e: ChunkState): (fmt: nat)
    ensures fmt <= 3
  {
    if e.msgType == 0 && e.streamId == 0 then 0
    else if m.streamId != e.streamId then 0
    else if m.msgType != e.msgType || |m.payload| % TWO_TO_THE_32 != e.length then 1
    else if TimeDelta(m, e) == e.delta then 3
    else 2
  }

  function TimeDelta(m: RtmpChunk, e: ChunkState): u32 {
    (m.timestamp - e.timestamp) % TWO_TO_THE_32
  }

  predicate NeedsExtended(m: RtmpChunk) {
    m.timestamp >= EXTENDED_TIMESTAMP
  }

  function BasicHeaderBytes(csid: u32, fmt: nat): (r: bytes)
    requires fmt <= 3
    ensures 1 <= |r| <= 3
  {
    if csid >= 320 then [fmt * 64 + 1, (csid - 64) % 256, (csid - 64) / 256 % 256]
    else if csid >= 64 then [fmt * 64, csid - 64]
    else [fmt * 64 + csid]
  }

  function FullHeader(time: u32, len: u32, msgType: byte, streamId: u32): (r: bytes)
    ensures |r| == 11
  {
    Be24(time) + Be24(len) + [msgType] + Le32(streamId)
  }

  function DeltaHeader(delta: u32, len: u32, msgType: byte): (r: bytes)
    ensures |r| == 7
  {
    Be24(delta) + Be24(len) + [msgType]
  }

  function TimeField(m: RtmpChunk): u32 {
    if NeedsExtended(m) then EXTENDED_TIMESTAMP else m.timestamp
  }

  function DeltaField(m: RtmpChunk, e: ChunkState): u32 {
    if NeedsExtended(m) then EXTENDED_TIMESTAMP else TimeDelta(m, e)
  }

  function MessageHeaderBytes(m: RtmpChunk, e: ChunkState, fmt: nat): (r: bytes)
    ensures |r| == MessageHeaderSize(fmt)
  {
    var len: u32 := |m.payload| % TWO_TO_THE_32;
    if fmt == 0 then FullHeader(TimeField(m), len, m.msgType, m.streamId)
    else if fmt == 1 then DeltaHeader(DeltaField(m, e), len, m.msgType)
    else if fmt == 2 then Be24(DeltaField(m, e))
    else []
  }

  /** The header of the chunk at payload offset `offset`; `e` is the stream state before the message. */
  function ChunkHeader(m: RtmpChunk, e: ChunkState, offset: nat): bytes {
    var fmt := SelectFormat(m, e);
    var ext := if NeedsExtended(m) && (offset == 0 || e.hasExtended) then Be32(m.timestamp) else [];
    if offset == 0 then BasicHeaderBytes(m.csid, fmt) + MessageHeaderBytes(m, e, fmt) + ext
    else BasicHeaderBytes(m.csid, 3) + ext
  }

  function NextOffset(m: RtmpChunk, size: u32, offset: nat): (r: nat)
    requires size >= 1 && offset < |m.payload|
    ensures offset < r <= |m.payload|
  {
    offset + Min(|m.payload| - offset, size)
  }

  function ChunkAt(m: RtmpChunk, e: ChunkState, size: u32, offset: nat): bytes
    requires size >= 1 && offset < |m.payload|
  {
    ChunkHeader(m, e, offset) + m.payload[offset..NextOffset(m, size, offset)]
  }

  function ChunksFrom(m: RtmpChunk, e: ChunkState, size: u32, offset: nat): seq<bytes>
    requires size >= 1
    decreases |m.payload| - offset
  {
    if offset >= |m.payload| then []
    else [ChunkAt(m, e, size, offset)] + ChunksFrom(m, e, size, NextOffset(m, size, offset))
  }

  /** The stream state after a message; it is updated even when the payload is empty. */
  function NextState(m: RtmpChunk, e: ChunkState): ChunkState {
    e.(timestamp := m.timestamp, delta := TimeDelta(m, e), length := |m.payload| % TWO_TO_THE_32,
       msgType := m.msgType, streamId := m.streamId, hasExtended := NeedsExtended(m))
  }

  datatype Encoder = Encoder(chunkSize: u32, streams: map<u32, ChunkState>)

  function Encode(enc: Encoder, m: RtmpChunk): (Encoder, bytes)
    requires enc.chunkSize >= 1
  {
    var e := StateOf(enc.streams, m.csid);
    (enc.(streams := enc.streams[m.csid := NextState(m, e)]), Flatten(ChunksFrom(m, e, enc.chunkSize, 0)))
  }

  lemma FirstThenRest(m: RtmpChunk, e: ChunkState, size: u32, offset: nat, before: bytes)
    requires size >= 1 && offset < |m.payload|
    ensures before + Flatten(ChunksFrom(m, e, size, offset))
         == before + ChunkHeader(m, e, offset) + m.payload[offset..NextOffset(m, size, offset)]
          + Flatten(ChunksFrom(m, e, size, NextOffset(m, size, offset)))
  {
    var data := m.payload[offset..NextOffset(m, size, offset)];
    var rest := Flatten(ChunksFrom(m, e, size, NextOffset(m, size, offset)));
    ConcatAssociates(before, ChunkHeader(m, e, offset) + data, rest);
    ConcatAssociates(before, ChunkHeader(m, e, offset), data);
  }
}
