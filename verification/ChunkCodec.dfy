/** The chunk decoder and encoder as the objects that keep per-stream state and
    work on byte buffers in place. Each method is tied to the function of
    `ChunkModel` that says what it does to the state and to the bytes. */
module ChunkCodec {
  import opened Bytes
  import opened ChunkModel
  import ChunkSafety

  class ChunkDecoder {
    var chunkSize: u32
    var streams: map<u32, ChunkState>
    var maxMessageSize: u32

    function Value(): Decoder
      reads this
    {
      Decoder(chunkSize, maxMessageSize, streams)
    }

    ghost predicate Valid()
      reads this
    {
      DecoderInv(Value())
    }

    constructor ()
      ensures Valid() && Value() == Decoder(DEFAULT_CHUNK_SIZE, MAX_MESSAGE_SIZE, map[])
    {
      chunkSize, streams, maxMessageSize := DEFAULT_CHUNK_SIZE, map[], MAX_MESSAGE_SIZE;
    }

    method SetChunkSize(size: u32)
      requires Valid()
      modifies this`chunkSize
      ensures Valid() && chunkSize == Min(size, MAX_CHUNK_SIZE)
    {
      chunkSize := Min(size, MAX_CHUNK_SIZE);
    }

    /** The size of the chunk behind a basic header of `headerLen` bytes, from a look
        at its message header and at the stream's state; None if the header is incomplete. */
    method PeekChunkSize(buf: ByteBuf, headerLen: nat, fmt: nat, state: ChunkState) returns (r: Option<nat>)
      requires headerLen <= |buf.data| && fmt <= 3
      ensures r == ChunkSize(chunkSize, state, fmt, buf.data[headerLen..])
    {
      ghost var b := buf.data[headerLen..];
      var needsExtended := false;
      if fmt == 3 {
        needsExtended := state.hasExtended;
      } else if |buf.data| > headerLen + 2 {
        needsExtended := U24At(buf.data, headerLen) >= EXTENDED_TIMESTAMP;
        assert U24At(b, 0) == U24At(buf.data, headerLen);
      }
      var totalHeaderSize := headerLen + MessageHeaderSize(fmt) + if needsExtended then 4 else 0;
      if |buf.data| < totalHeaderSize {
        return None;
      }
      var peekedExpected: u32 :=
        if fmt <= 1 then U24At(buf.data, headerLen + 3)
        else if state.partial == [] then state.length
        else state.expected;
      assert fmt <= 1 ==> peekedExpected == U24At(b, 3);
      var remaining := if peekedExpected <= |state.partial| then 0 else peekedExpected - |state.partial|;
      var chunkDataLen := Min(remaining, chunkSize);
      return Some(totalHeaderSize - headerLen + chunkDataLen);
    }

    /** Consume the message header and the extended timestamp. The four-byte read
        stays inside the bytes that were checked for, because a stream whose last
        header had no extended timestamp holds a 24-bit delta. */
    static method ReadHeader(buf: ByteBuf, fmt: nat, st: ChunkState) returns (state: ChunkState)
      requires fmt <= 3 && HeaderSize(st, fmt, buf.data) <= |buf.data|
      requires !st.hasExtended ==> st.delta < EXTENDED_TIMESTAMP
      modifies buf
      ensures state == TakeHeader(st, fmt, old(buf.data))
      ensures buf.data == old(buf.data)[HeaderSize(st, fmt, old(buf.data))..]
    {
      ghost var b := buf.data;
      var field, length, msgType, streamId := st.delta, st.length, st.msgType, st.streamId;
      if fmt <= 2 {
        field := buf.GetU24();
      }
      if fmt <= 1 {
        length := buf.GetU24();
        msgType := buf.GetU8();
      }
      if fmt == 0 {
        streamId := buf.GetU32Le();
      }
      assert Fields(field, length, msgType, streamId) == FieldsOf(st, fmt, b);
      assert buf.data == b[MessageHeaderSize(fmt)..];

      var timestamp := field;
      var hasExtended := field >= EXTENDED_TIMESTAMP || (fmt == 3 && st.hasExtended);
      if hasExtended {
        timestamp := buf.GetU32();
      }
      var absolute :=
        if fmt == 0 then timestamp
        else if fmt == 3 && st.partial != [] then st.timestamp
        else (st.timestamp + timestamp) % TWO_TO_THE_32;
      state := st.(timestamp := absolute, delta := timestamp, length := length, msgType := msgType,
                   streamId := streamId, hasExtended := hasExtended);
    }

    /** Consume a chunk that is known to be complete; the caller has checked its `size`. */
    static method ConsumeChunk(buf: ByteBuf, max: u32, ghost chunkSize: u32, csid: u32, fmt: nat,
                               st: ChunkState, size: nat)
        returns (r: Outcome, state: ChunkState)
      requires fmt <= 3 && size <= |buf.data| && Some(size) == ChunkSize(chunkSize, st, fmt, buf.data)
      requires StreamInv(st, max)
      modifies buf
      ensures var s := StepStream(chunkSize, max, csid, st, fmt, old(buf.data));
        s.Some? && s.value.outcome == r && s.value.state == state && buf.data == old(buf.data)[s.value.used..]
    {
      ghost var b := buf.data;
      ghost var h := HeaderSize(st, fmt, b);
      var available := |buf.data|;
      state := ReadHeader(buf, fmt, st);
      var headerSize := available - |buf.data|;
      if state.length > max {
        return TooLarge(state.length), state;
      }
      if state.partial == [] {
        state := state.(expected := state.length);
      }
      var chunkDataLen := size - headerSize;
      var data := buf.Take(chunkDataLen);
      assert data == b[h..size] && buf.data == b[size..];
      state := state.(partial := state.partial + data);
      if |state.partial| >= state.expected {
        r := Complete(RtmpChunk(csid, state.timestamp, state.msgType, state.streamId, state.partial));
        state := state.(partial := [], expected := 0);
      } else {
        r := Pending;
      }
    }

    /** Look at a whole chunk before taking any of it; then consume it. */
    method Decode(buf: ByteBuf) returns (r: Outcome)
      requires Valid()
      modifies this`streams, buf
      ensures Valid()
      ensures Decoded(r, Value(), buf.data) == ChunkModel.Decode(old(Value()), old(buf.data))
    {
      hide TakeData, TakeHeader, HeaderSize, ParseBasicHeader;
      ghost var all, d := buf.data, Value();
      ChunkSafety.DecodeKeepsInv(d, all);
      var basic := ParseBasicHeader(buf.data);
      if basic.None? {
        return Pending;
      }
      var BasicHeader(fmt, csid, headerLen) := basic.value;
      var state := StateOf(streams, csid);
      assert StreamInv(state, maxMessageSize);
      streams := streams[csid := state];
      var size := PeekChunkSize(buf, headerLen, fmt, state);
      if size.None? || |buf.data| < headerLen + size.value {
        return Pending;
      }
      buf.Advance(headerLen);
      r, state := ConsumeChunk(buf, maxMessageSize, chunkSize, csid, fmt, state, size.value);
      streams := streams[csid := state];
      assert streams == d.streams[csid := state];
    }

    method Abort(csid: u32)
      requires Valid()
      modifies this`streams
      ensures Valid() && Value() == AbortStream(old(Value()), csid)
    {
      ChunkSafety.AbortKeepsInv(Value(), csid);
      if csid in streams {
        streams := streams[csid := streams[csid].(partial := [], expected := 0)];
      }
    }
  }

  class ChunkEncoder {
    var chunkSize: u32
    var streams: map<u32, ChunkState>

    function Value(): Encoder
      reads this
    {
      Encoder(chunkSize, streams)
    }

    constructor ()
      ensures Value() == Encoder(DEFAULT_CHUNK_SIZE, map[])
    {
      chunkSize, streams := DEFAULT_CHUNK_SIZE, map[];
    }

    method SetChunkSize(size: u32)
      modifies this`chunkSize
      ensures chunkSize == Min(size, MAX_CHUNK_SIZE)
    {
      chunkSize := Min(size, MAX_CHUNK_SIZE);
    }

    method Reset()
      modifies this`streams
      ensures Value() == old(Value()).(streams := map[])
    {
      streams := map[];
    }

    /** With chunk size 0 the fragmentation loop makes no progress, so callers must have set a positive size. */
    method Encode(chunk: RtmpChunk, buf: ByteBuf)
      requires chunkSize >= 1
      modifies this`streams, buf
      ensures Value() == ChunkModel.Encode(old(Value()), chunk).0
      ensures buf.data == old(buf.data) + ChunkModel.Encode(old(Value()), chunk).1
    {
      var state := StateOf(streams, chunk.csid);
      var e := state;
      state := state.(timestamp := chunk.timestamp, delta := (chunk.timestamp - state.timestamp) % TWO_TO_THE_32,
                      length := |chunk.payload| % TWO_TO_THE_32, msgType := chunk.msgType,
                      streamId := chunk.streamId, hasExtended := chunk.timestamp >= EXTENDED_TIMESTAMP);
      streams := streams[chunk.csid := state];
      WriteChunks(chunk, e, chunkSize, buf);
    }

    /** The fragmentation loop: a first chunk with the selected header, then continuation chunks. */
    static method WriteChunks(chunk: RtmpChunk, e: ChunkState, size: u32, buf: ByteBuf)
      requires size >= 1
      modifies buf
      ensures buf.data == old(buf.data) + Flatten(ChunksFrom(chunk, e, size, 0))
    {
      hide ChunkHeader, SelectFormat;
      var offset := 0;
      while offset < |chunk.payload|
        invariant 0 <= offset <= |chunk.payload|
        invariant buf.data + Flatten(ChunksFrom(chunk, e, size, offset))
               == old(buf.data) + Flatten(ChunksFrom(chunk, e, size, 0))
      {
        FirstThenRest(chunk, e, size, offset, buf.data);
        var chunkDataLen := Min(|chunk.payload| - offset, size);
        WriteChunkHeader(chunk, e, offset == 0, offset, buf);
        buf.Put(chunk.payload[offset..offset + chunkDataLen]);
        offset := offset + chunkDataLen;
      }
    }

    /** Basic header, message header of a first chunk, extended timestamp; `e` is the state before the message. */
    static method WriteChunkHeader(chunk: RtmpChunk, e: ChunkState, firstChunk: bool, ghost offset: nat, buf: ByteBuf)
      requires firstChunk <==> offset == 0
      modifies buf
      ensures buf.data == old(buf.data) + ChunkHeader(chunk, e, offset)
    {
      hide SelectFormat, BasicHeaderBytes, MessageHeaderBytes, Be32;
      var fmt := SelectFormat(chunk, e);
      var needsExtended := chunk.timestamp >= EXTENDED_TIMESTAMP;
      buf.Put(BasicHeaderBytes(chunk.csid, if firstChunk then fmt else 3));
      if firstChunk {
        WriteMessageHeader(chunk, e, fmt, buf);
      }
      if needsExtended && (firstChunk || e.hasExtended) {
        buf.Put(Be32(chunk.timestamp));
      }
    }

    /** The 11, 7, 3 or 0 bytes between the basic header and the extended timestamp of a first chunk. */
    static method WriteMessageHeader(chunk: RtmpChunk, e: ChunkState, fmt: nat, buf: ByteBuf)
      modifies buf
      ensures buf.data == old(buf.data) + MessageHeaderBytes(chunk, e, fmt)
    {
      var needsExtended := chunk.timestamp >= EXTENDED_TIMESTAMP;
      var timestampDelta: u32 := (chunk.timestamp - e.timestamp) % TWO_TO_THE_32;
      var timestampField := if needsExtended then EXTENDED_TIMESTAMP else chunk.timestamp;
      var deltaField := if needsExtended then EXTENDED_TIMESTAMP else timestampDelta;
      var payloadLen: u32 := |chunk.payload| % TWO_TO_THE_32;
      ghost var before := buf.data;
      if fmt == 0 {
        buf.Put(Be24(timestampField));
        buf.Put(Be24(payloadLen));
        buf.Put([chunk.msgType]);
        buf.Put(Le32(chunk.streamId));
        assert buf.data == before + FullHeader(timestampField, payloadLen, chunk.msgType, chunk.streamId);
      } else if fmt == 1 {
        buf.Put(Be24(deltaField));
        buf.Put(Be24(payloadLen));
        buf.Put([chunk.msgType]);
        assert buf.data == before + DeltaHeader(deltaField, payloadLen, chunk.msgType);
      } else if fmt == 2 {
        buf.Put(Be24(deltaField));
      }
    }
  }
}
