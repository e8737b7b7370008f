/** How one encoded message looks to the decoder. The two sides keep their own
    copy of a stream's header state; this module says when the copies agree, what
    each kind of chunk does to the decoder's copy, and exactly which messages come
    through. */
module ChunkMirror {
  import opened Bytes
  import opened ChunkModel

  predicate ValidCsid(csid: u32) {
    2 <= csid <= 65599
  }

  /** A state the encoder answers with a full header whatever the message is. */
  predicate Fresh(e: ChunkState) {
    e.msgType == 0 && e.streamId == 0
  }

  predicate EncoderInv(e: ChunkState) {
    e.hasExtended <==> e.timestamp >= EXTENDED_TIMESTAMP
  }

  /** The decoder's state holds what the encoder relies on when it leaves header fields out, but
      for the times: the two clocks may differ. */
  predicate Agrees(e: ChunkState, s: ChunkState) {
    || Fresh(e)
    || (s.length == e.length && s.msgType == e.msgType && s.streamId == e.streamId && s.hasExtended == e.hasExtended)
  }

  /** They agree on the clock, too. The time delta is not included: on that the two sides do not
      always agree. */
  predicate Mirrors(e: ChunkState, s: ChunkState) {
    Agrees(e, s) && (Fresh(e) || s.timestamp == e.timestamp)
  }

  /** The delta the decoder is left with: after a full header it is the absolute time. */
  function PeerDelta(m: RtmpChunk, e: ChunkState): u32 {
    if SelectFormat(m, e) == 0 then m.timestamp else TimeDelta(m, e)
  }

  /** The first chunk's header brings the right time across. */
  predicate HeaderSurvives(m: RtmpChunk, e: ChunkState, peerDelta: u32) {
    var fmt := SelectFormat(m, e);
    if fmt == 0 then true
    else if fmt == 3 then !NeedsExtended(m) && !e.hasExtended && TimeDelta(m, e) == peerDelta
    else if NeedsExtended(m) then e.timestamp == 0
    else TimeDelta(m, e) < EXTENDED_TIMESTAMP
  }

  /** Checkable by the sender: there is something to send, the header is right, and
      continuation chunks repeat the extended timestamp when the receiver expects it. */
  predicate Survives(m: RtmpChunk, e: ChunkState, peerDelta: u32, size: u32) {
    && m.payload != []
    && HeaderSurvives(m, e, peerDelta)
    && (|m.payload| <= size || !NeedsExtended(m) || e.hasExtended)
  }

  // ---- headers ----

  lemma BasicHeaderRoundTrip(csid: u32, fmt: nat, tail: bytes)
    requires ValidCsid(csid) && fmt <= 3
    ensures var b := BasicHeaderBytes(csid, fmt);
      ParseBasicHeader(b + tail) == Some(BasicHeader(fmt, csid, |b|)) && (b + tail)[|b|..] == tail
  {
  }

  /** The three-byte time field of a first chunk. */
  function WireTime(m: RtmpChunk, e: ChunkState, fmt: nat): u32 {
    (if fmt == 0 then TimeField(m) else DeltaField(m, e)) % TWO_TO_THE_24
  }

  lemma FullFields(time: u32, len: u32, msgType: byte, streamId: u32, tail: bytes)
    ensures var b := FullHeader(time, len, msgType, streamId) + tail;
      && U24At(b, 0) == time % TWO_TO_THE_24 && U24At(b, 3) == len % TWO_TO_THE_24
      && b[6] == msgType && U32LeAt(b, 7) == streamId
  {
    var b := FullHeader(time, len, msgType, streamId) + tail;
    assert b[0..3] == Be24(time) && b[3..6] == Be24(len) && b[7..11] == Le32(streamId);
    SliceReads(b, 0);
    SliceReads(b, 3);
    SliceReads(b, 7);
    Be24RoundTrip(time);
    Be24RoundTrip(len);
    Le32RoundTrip(streamId);
  }

  lemma PartialFields(delta: u32, len: u32, msgType: byte, tail: bytes)
    ensures var b := DeltaHeader(delta, len, msgType) + tail;
      && U24At(b, 0) == delta % TWO_TO_THE_24 && U24At(b, 3) == len % TWO_TO_THE_24 && b[6] == msgType
  {
    var b := DeltaHeader(delta, len, msgType) + tail;
    assert b[0..3] == Be24(delta) && b[3..6] == Be24(len);
    SliceReads(b, 0);
    SliceReads(b, 3);
    Be24RoundTrip(delta);
    Be24RoundTrip(len);
  }

  lemma LoneDelta(delta: u32, tail: bytes)
    ensures U24At(Be24(delta) + tail, 0) == delta % TWO_TO_THE_24
  {
    var b := Be24(delta) + tail;
    assert b[0..3] == Be24(delta);
    SliceReads(b, 0);
    Be24RoundTrip(delta);
  }

  lemma SliceReads(b: bytes, i: nat)
    ensures i + 3 <= |b| ==> U24At(b[i..i + 3], 0) == U24At(b, i)
    ensures i + 4 <= |b| ==> U32At(b[i..i + 4], 0) == U32At(b, i)
    ensures i + 4 <= |b| ==> U32LeAt(b[i..i + 4], 0) == U32LeAt(b, i)
  {
  }

  /** `b` starts with the message header of `m`: the fields read are the fields written. */
  predicate HeaderArrives(m: RtmpChunk, e: ChunkState, fmt: nat, b: bytes) {
    && MessageHeaderSize(fmt) <= |b|
    && (fmt <= 2 ==> U24At(b, 0) == WireTime(m, e, fmt))
    && (fmt <= 1 ==> U24At(b, 3) == |m.payload| && b[6] == m.msgType)
    && (fmt == 0 ==> U32LeAt(b, 7) == m.streamId)
  }

  lemma SmallLength(n: nat)
    requires n < TWO_TO_THE_24
    ensures n % TWO_TO_THE_32 == n && n % TWO_TO_THE_24 == n
  {
  }

  lemma HeaderRoundTrip(m: RtmpChunk, e: ChunkState, fmt: nat, tail: bytes)
    requires |m.payload| < TWO_TO_THE_24 && fmt <= 3
    ensures HeaderArrives(m, e, fmt, MessageHeaderBytes(m, e, fmt) + tail)
  {
    SmallLength(|m.payload|);
    if fmt == 0 {
      FullFields(TimeField(m), |m.payload|, m.msgType, m.streamId, tail);
    } else if fmt == 1 {
      PartialFields(DeltaField(m, e), |m.payload|, m.msgType, tail);
    } else if fmt == 2 {
      LoneDelta(DeltaField(m, e), tail);
    }
  }

  lemma ExtendedField(header: bytes, v: u32, data: bytes)
    ensures U32At(header + (Be32(v) + data), |header|) == v
    ensures (header + (Be32(v) + data))[|header| + 4..] == data
  {
    var b := header + (Be32(v) + data);
    assert b[|header|..|header| + 4] == Be32(v);
    SliceReads(b, |header|);
    Be32RoundTrip(v);
  }

  predicate ReadsExtended(m: RtmpChunk, e: ChunkState, s: ChunkState) {
    var fmt := SelectFormat(m, e);
    if fmt == 3 then s.hasExtended else WireTime(m, e, fmt) >= EXTENDED_TIMESTAMP
  }

  function FirstDelta(m: RtmpChunk, e: ChunkState, s: ChunkState): u32 {
    var fmt := SelectFormat(m, e);
    if NeedsExtended(m) then m.timestamp
    else if fmt == 3 then s.delta
    else WireTime(m, e, fmt)
  }

  /** The decoder's state after the header of a first chunk that it parses as the encoder meant it. */
  function FirstHeader(m: RtmpChunk, e: ChunkState, s: ChunkState): ChunkState {
    var delta := FirstDelta(m, e, s);
    s.(timestamp := if SelectFormat(m, e) == 0 then delta else (s.timestamp + delta) % TWO_TO_THE_32,
       delta := delta, length := |m.payload| % TWO_TO_THE_32, msgType := m.msgType, streamId := m.streamId,
       hasExtended := NeedsExtended(m))
  }

  // ---- the first chunk of a message ----

  /** Between messages the decoder holds no data of the stream. */
  ghost predicate Ready(m: RtmpChunk, e: ChunkState, s: ChunkState) {
    && 0 < |m.payload| < TWO_TO_THE_24
    && s.partial == []
    && Agrees(e, s)
  }

  function ExtendedBytes(m: RtmpChunk): bytes {
    if NeedsExtended(m) then Be32(m.timestamp) else []
  }

  /** The first chunk without its basic header. */
  function FirstBody(m: RtmpChunk, e: ChunkState, data: bytes): bytes {
    MessageHeaderBytes(m, e, SelectFormat(m, e)) + (ExtendedBytes(m) + data)
  }

  lemma FirstLayout(m: RtmpChunk, e: ChunkState, s: ChunkState, size: u32, data: bytes)
    requires Ready(m, e, s) && |data| == Min(|m.payload|, size)
    ensures var fmt, b := SelectFormat(m, e), FirstBody(m, e, data);
      && HeaderArrives(m, e, fmt, b)
      && Extended(s, fmt, b) == ReadsExtended(m, e, s)
      && DataLength(size, s, fmt, b) == |data|
  {
    HeaderRoundTrip(m, e, SelectFormat(m, e), ExtendedBytes(m) + data);
    SmallLength(|m.payload|);
  }

  lemma FirstHeaderTaken(m: RtmpChunk, e: ChunkState, s: ChunkState, data: bytes)
    requires Ready(m, e, s) && ReadsExtended(m, e, s) == NeedsExtended(m)
    ensures var fmt, b := SelectFormat(m, e), FirstBody(m, e, data);
      && HeaderSize(s, fmt, b) == MessageHeaderSize(fmt) + |ExtendedBytes(m)|
      && TakeHeader(s, fmt, b) == FirstHeader(m, e, s)
      && b[HeaderSize(s, fmt, b)..] == data
  {
    var fmt, b := SelectFormat(m, e), FirstBody(m, e, data);
    HeaderRoundTrip(m, e, fmt, ExtendedBytes(m) + data);
    SmallLength(|m.payload|);
    if NeedsExtended(m) {
      ExtendedField(MessageHeaderBytes(m, e, fmt), m.timestamp, data);
    }
  }

  /** When both sides agree on the extended timestamp the chunk is consumed exactly;
      otherwise the decoder waits for four bytes too many, or leaves four behind. */
  lemma FirstStep(m: RtmpChunk, e: ChunkState, s: ChunkState, size: u32, data: bytes)
    requires Ready(m, e, s) && |data| == Min(|m.payload|, size)
    ensures var fmt, b := SelectFormat(m, e), FirstBody(m, e, data);
      var step := StepStream(size, MAX_MESSAGE_SIZE, m.csid, s, fmt, b);
      if ReadsExtended(m, e, s) == NeedsExtended(m) then
        var (s', outcome) := TakeData(m.csid, FirstHeader(m, e, s), data);
        step == Some(StreamStep(s', outcome, |b|))
      else
        step.None? || step.value.used < |b|
  {
    var fmt, b := SelectFormat(m, e), FirstBody(m, e, data);
    hide Agrees, ReadsExtended, FirstDelta, TakeData, MessageHeaderBytes;
    FirstLayout(m, e, s, size, data);
    SmallLength(|m.payload|);
    if ReadsExtended(m, e, s) == NeedsExtended(m) {
      FirstHeaderTaken(m, e, s, data);
      assert b[HeaderSize(s, fmt, b)..|b|] == data;
    }
  }

  // ---- continuation chunks ----

  /** The decoder is inside message `m`, holding its first `offset` bytes. */
  predicate Inside(m: RtmpChunk, s: ChunkState, offset: nat) {
    && 0 < offset < |m.payload| < TWO_TO_THE_24
    && s.partial == m.payload[..offset]
    && s.expected == s.length == |m.payload|
    && s.msgType == m.msgType
    && s.streamId == m.streamId
  }

  function ContinuationExtended(m: RtmpChunk, e: ChunkState): bytes {
    if NeedsExtended(m) && e.hasExtended then Be32(m.timestamp) else []
  }

  /** A continuation keeps the message's time, whatever an extended timestamp says. */
  function ContinuationHeader(m: RtmpChunk, s: ChunkState): ChunkState {
    if s.hasExtended then s.(delta := m.timestamp) else s
  }

  lemma ContinuationStep(m: RtmpChunk, e: ChunkState, s: ChunkState, size: u32, offset: nat, data: bytes)
    requires Inside(m, s, offset) && |data| == Min(|m.payload| - offset, size)
    ensures var b := ContinuationExtended(m, e) + data;
      var step := StepStream(size, MAX_MESSAGE_SIZE, m.csid, s, 3, b);
      if s.hasExtended == (NeedsExtended(m) && e.hasExtended) then
        var (s', outcome) := TakeData(m.csid, ContinuationHeader(m, s), data);
        step == Some(StreamStep(s', outcome, |b|))
      else
        step.None? || step.value.used < |b|
  {
    var b := ContinuationExtended(m, e) + data;
    if s.hasExtended && NeedsExtended(m) && e.hasExtended {
      ExtendedField([], m.timestamp, data);
      assert b == [] + (Be32(m.timestamp) + data);
      assert b[4..|b|] == data;
    } else if !s.hasExtended && !(NeedsExtended(m) && e.hasExtended) {
      assert b[0..|b|] == data;
    }
  }

  // ---- which headers survive ----

  /** The header arithmetic comes out right exactly for the messages the sender's test names. */
  lemma SurvivingHeaders(m: RtmpChunk, e: ChunkState, s: ChunkState)
    requires Ready(m, e, s) && Mirrors(e, s) && EncoderInv(e)
    ensures HeaderSurvives(m, e, s.delta)
       <==> ReadsExtended(m, e, s) == NeedsExtended(m) && FirstHeader(m, e, s).timestamp == m.timestamp
  {
  }

  // ---- whole chunks at the decoder ----

  /** A decoder with the initial message limit, whose chunk size is the sender's. */
  predicate Listening(d: Decoder, size: u32) {
    d.chunkSize == size >= 1 && d.maxMessageSize == MAX_MESSAGE_SIZE
  }

  function WithStream(d: Decoder, csid: u32, s: ChunkState): Decoder {
    d.(streams := d.streams[csid := s])
  }

  lemma FirstChunkBytes(m: RtmpChunk, e: ChunkState, data: bytes)
    ensures ChunkHeader(m, e, 0) + data
         == BasicHeaderBytes(m.csid, SelectFormat(m, e)) + FirstBody(m, e, data)
  {
  }

  lemma NextChunkBytes(m: RtmpChunk, e: ChunkState, offset: nat, data: bytes)
    requires offset > 0
    ensures ChunkHeader(m, e, offset) + data == BasicHeaderBytes(m.csid, 3) + (ContinuationExtended(m, e) + data)
  {
  }

  lemma DecodeFirst(d: Decoder, m: RtmpChunk, e: ChunkState, size: u32)
    requires Listening(d, size) && ValidCsid(m.csid)
    requires Ready(m, e, StateOf(d.streams, m.csid))
    ensures var s := StateOf(d.streams, m.csid);
      var r := Decode(d, ChunkAt(m, e, size, 0));
      if ReadsExtended(m, e, s) == NeedsExtended(m) then
        var (s', outcome) := TakeData(m.csid, FirstHeader(m, e, s), m.payload[..NextOffset(m, size, 0)]);
        r == Decoded(outcome, WithStream(d, m.csid, s'), [])
      else
        r.rest != []
  {
    hide TakeData, FirstHeader, ReadsExtended, Agrees, SelectFormat, ParseBasicHeader, BasicHeaderBytes, FirstBody,
      ChunkHeader;
    var s, data := StateOf(d.streams, m.csid), m.payload[..NextOffset(m, size, 0)];
    var fmt, b := SelectFormat(m, e), FirstBody(m, e, data);
    assert m.payload[0..NextOffset(m, size, 0)] == data;
    FirstChunkBytes(m, e, data);
    BasicHeaderRoundTrip(m.csid, fmt, b);
    FirstStep(m, e, s, size, data);
  }

  lemma DecodeNext(d: Decoder, m: RtmpChunk, e: ChunkState, size: u32, offset: nat)
    requires Listening(d, size) && ValidCsid(m.csid)
    requires Inside(m, StateOf(d.streams, m.csid), offset)
    ensures var s := StateOf(d.streams, m.csid);
      var r := Decode(d, ChunkAt(m, e, size, offset));
      if s.hasExtended == (NeedsExtended(m) && e.hasExtended) then
        var (s', outcome) := TakeData(m.csid, ContinuationHeader(m, s), m.payload[offset..NextOffset(m, size, offset)]);
        r == Decoded(outcome, WithStream(d, m.csid, s'), [])
      else
        r.rest != []
  {
    var s, data := StateOf(d.streams, m.csid), m.payload[offset..NextOffset(m, size, offset)];
    NextChunkBytes(m, e, offset, data);
    BasicHeaderRoundTrip(m.csid, 3, ContinuationExtended(m, e) + data);
    ContinuationStep(m, e, s, size, offset, data);
  }

  /** Feed the chunks one by one to an empty buffer. None if a chunk is not consumed
      exactly or refused; otherwise the decoder afterwards and the messages completed. */
  function InStep(d: Decoder, chunks: seq<bytes>): Option<(Decoder, seq<RtmpChunk>)>
    decreases |chunks|
  {
    if chunks == [] then Some((d, []))
    else
      var r := Decode(d, chunks[0]);
      if r.rest != [] || r.outcome.TooLarge? then None
      else
        var rest := InStep(r.dec, chunks[1..]);
        if rest.None? then None
        else Some((rest.value.0, (if r.outcome.Complete? then [r.outcome.chunk] else []) + rest.value.1))
  }

  /** How feeding `chunk` first goes on, by what the decoder says to it. */
  lemma InStepCons(d: Decoder, chunk: bytes, chunks: seq<bytes>)
    ensures var r := Decode(d, chunk);
      && (r.rest != [] ==> InStep(d, [chunk] + chunks) == None)
      && (r.rest == [] && r.outcome.Pending? ==> InStep(d, [chunk] + chunks) == InStep(r.dec, chunks))
      && (r.rest == [] && r.outcome.Complete? && chunks == [] ==>
            InStep(d, [chunk] + chunks) == Some((r.dec, [r.outcome.chunk])))
  {
    assert ([chunk] + chunks)[1..] == chunks;
    var none: seq<RtmpChunk> := [];
    var rest := InStep(Decode(d, chunk).dec, chunks);
    if rest.Some? {
      assert none + rest.value.1 == rest.value.1;
      if chunks == [] && Decode(d, chunk).outcome.Complete? {
        var one := [Decode(d, chunk).outcome.chunk];
        assert rest.value.1 == none && one + none == one;
      }
    }
  }

  /** The decoder's copy of the stream once message `m` is complete. */
  function DoneState(m: RtmpChunk, s: ChunkState): ChunkState {
    ContinuationHeader(m, s).(partial := [], expected := 0)
  }

  lemma InsideAgain(m: RtmpChunk, s: ChunkState, size: u32, offset: nat)
    requires Inside(m, s, offset) && size >= 1
    ensures var next := NextOffset(m, size, offset);
      var (s', outcome) := TakeData(m.csid, ContinuationHeader(m, s), m.payload[offset..next]);
      if next < |m.payload| then
        outcome == Pending && Inside(m, s', next) && s'.timestamp == s.timestamp
        && s'.hasExtended == s.hasExtended && DoneState(m, s') == DoneState(m, s)
      else
        s' == DoneState(m, s) && outcome == Complete(m.(timestamp := s.timestamp))
  {
    var next := NextOffset(m, size, offset);
    assert m.payload[..offset] + m.payload[offset..next] == m.payload[..next];
    assert m.payload[..|m.payload|] == m.payload;
  }

  lemma {:induction false} RestInStep(d: Decoder, m: RtmpChunk, e: ChunkState, size: u32, offset: nat)
    requires Listening(d, size) && ValidCsid(m.csid)
    requires Inside(m, StateOf(d.streams, m.csid), offset)
    ensures var s := StateOf(d.streams, m.csid);
      InStep(d, ChunksFrom(m, e, size, offset)) ==
        if s.hasExtended == (NeedsExtended(m) && e.hasExtended)
        then Some((WithStream(d, m.csid, DoneState(m, s)), [m.(timestamp := s.timestamp)]))
        else None
    decreases |m.payload| - offset
  {
    var s := StateOf(d.streams, m.csid);
    var next := NextOffset(m, size, offset);
    DecodeNext(d, m, e, size, offset);
    InStepCons(d, ChunkAt(m, e, size, offset), ChunksFrom(m, e, size, next));
    if s.hasExtended == (NeedsExtended(m) && e.hasExtended) {
      InsideAgain(m, s, size, offset);
      if next < |m.payload| {
        var s' := TakeData(m.csid, ContinuationHeader(m, s), m.payload[offset..next]).0;
        RestInStep(WithStream(d, m.csid, s'), m, e, size, next);
        WithStreamTwice(d, m.csid, s', DoneState(m, s));
      }
    }
  }

  lemma WithStreamTwice(d: Decoder, csid: u32, s: ChunkState, s': ChunkState)
    ensures WithStream(WithStream(d, csid, s), csid, s') == WithStream(d, csid, s')
    ensures StateOf(WithStream(d, csid, s).streams, csid) == s
  {
  }

  // ---- one message, exactly ----

  /** The decoder's copy of the stream after a surviving message. */
  function ArrivedState(m: RtmpChunk, e: ChunkState, s: ChunkState): ChunkState {
    FirstHeader(m, e, s).(partial := [], expected := 0)
  }

  /** Continuation chunks repeat the extended timestamp when the decoder expects it. */
  predicate RepeatsExtended(m: RtmpChunk, e: ChunkState, size: u32) {
    |m.payload| <= size || !NeedsExtended(m) || e.hasExtended
  }

  /** What the decoder makes of a message's chunks, for any message: it comes whole, at the time its
      first header conveys, or the bytes of some header are taken wrongly. */
  lemma WhatArrives(d: Decoder, m: RtmpChunk, e: ChunkState, size: u32)
    requires Listening(d, size) && ValidCsid(m.csid) && Ready(m, e, StateOf(d.streams, m.csid))
    ensures var s := StateOf(d.streams, m.csid);
      InStep(d, ChunksFrom(m, e, size, 0)) ==
        if ReadsExtended(m, e, s) == NeedsExtended(m) && RepeatsExtended(m, e, size)
        then Some((WithStream(d, m.csid, ArrivedState(m, e, s)), [m.(timestamp := FirstHeader(m, e, s).timestamp)]))
        else None
  {
    hide ReadsExtended, NeedsExtended, FirstHeader, Agrees, TakeData;
    var s := StateOf(d.streams, m.csid);
    var next := NextOffset(m, size, 0);
    var chunks := ChunksFrom(m, e, size, next);
    DecodeFirst(d, m, e, size);
    InStepCons(d, ChunkAt(m, e, size, 0), chunks);
    FirstTaken(m, e, s, size);
    if ReadsExtended(m, e, s) == NeedsExtended(m) && next < |m.payload| {
      var s' := TakeData(m.csid, FirstHeader(m, e, s), m.payload[..next]).0;
      WithStreamTwice(d, m.csid, s', DoneState(m, s'));
      RestInStep(WithStream(d, m.csid, s'), m, e, size, next);
    }
  }

  /** A message comes through chunk by chunk, on time and without bytes left over, exactly
      when the sender's test passes; the decoder's copy is then as the sender expects. */
  lemma MessageArrives(d: Decoder, m: RtmpChunk, e: ChunkState, size: u32)
    requires Listening(d, size) && ValidCsid(m.csid) && |m.payload| < TWO_TO_THE_24
    requires EncoderInv(e) && StateOf(d.streams, m.csid).partial == [] && Mirrors(e, StateOf(d.streams, m.csid))
    ensures var s := StateOf(d.streams, m.csid);
      var r := InStep(d, ChunksFrom(m, e, size, 0));
      && (Survives(m, e, s.delta, size) <==> r.Some? && r.value.1 == [m])
      && (r.Some? && r.value.1 == [m] ==> r.value.0 == WithStream(d, m.csid, ArrivedState(m, e, s)))
  {
    if m.payload != [] {
      SurvivingHeaders(m, e, StateOf(d.streams, m.csid));
      WhatArrives(d, m, e, size);
    }
  }

  lemma FirstTaken(m: RtmpChunk, e: ChunkState, s: ChunkState, size: u32)
    requires Ready(m, e, s) && size >= 1
    ensures var next := NextOffset(m, size, 0);
      var h := FirstHeader(m, e, s);
      var (s', outcome) := TakeData(m.csid, h, m.payload[..next]);
      && (next < |m.payload| <==> size < |m.payload|)
      && if next < |m.payload| then
           && outcome == Pending && Inside(m, s', next) && s'.timestamp == h.timestamp
           && s'.hasExtended == NeedsExtended(m) && DoneState(m, s') == ArrivedState(m, e, s)
         else
           s' == ArrivedState(m, e, s) && outcome == Complete(m.(timestamp := h.timestamp))
  {
    SmallLength(|m.payload|);
    assert m.payload[..|m.payload|] == m.payload;
    var none: bytes := [];
    assert none + m.payload[..NextOffset(m, size, 0)] == m.payload[..NextOffset(m, size, 0)];
  }

  lemma ArrivedDelta(m: RtmpChunk, e: ChunkState, s: ChunkState)
    requires HeaderSurvives(m, e, s.delta)
    ensures FirstDelta(m, e, s) == PeerDelta(m, e)
  {
  }

  /** After a surviving message the two copies agree again, but for the delta the sender can predict. */
  lemma ArrivedMirrors(m: RtmpChunk, e: ChunkState, s: ChunkState)
    requires Ready(m, e, s) && Mirrors(e, s) && EncoderInv(e) && HeaderSurvives(m, e, s.delta)
    ensures EncoderInv(NextState(m, e))
    ensures Mirrors(NextState(m, e), ArrivedState(m, e, s))
    ensures ArrivedState(m, e, s).delta == PeerDelta(m, e)
    ensures ArrivedState(m, e, s).timestamp == m.timestamp
  {
    hide HeaderSurvives, FirstDelta, PeerDelta, SelectFormat, TimeDelta;
    SurvivingHeaders(m, e, s);
    ArrivedDelta(m, e, s);
  }

  // ---- two ways in which the sides come to disagree ----

  lemma FullHeaderState(m: RtmpChunk, e: ChunkState, s: ChunkState)
    requires SelectFormat(m, e) == 0 && !NeedsExtended(m)
    ensures ArrivedState(m, e, s).timestamp == ArrivedState(m, e, s).delta == m.timestamp
    ensures !ArrivedState(m, e, s).hasExtended
    ensures !ReadsExtended(m, e, s)
  {
  }

  lemma NoHeaderState(m: RtmpChunk, e: ChunkState, s: ChunkState)
    requires SelectFormat(m, e) == 3 && !NeedsExtended(m) && !s.hasExtended
    ensures FirstHeader(m, e, s).timestamp == (s.timestamp + s.delta) % TWO_TO_THE_32
    ensures !ReadsExtended(m, e, s)
  {
  }

  /** Two messages in one rhythm on a message stream that their chunk stream just went over to. */
  predicate Switches(first: RtmpChunk, second: RtmpChunk, e: ChunkState) {
    && !Fresh(e) && first.streamId != e.streamId && first.msgType != 0
    && second.csid == first.csid && second.streamId == first.streamId && second.msgType == first.msgType
    && 0 < |second.payload| == |first.payload| < TWO_TO_THE_24
    && !NeedsExtended(first) && !NeedsExtended(second)
    && TimeDelta(second, NextState(first, e)) == TimeDelta(first, e)
  }

  lemma SwitchFormats(first: RtmpChunk, second: RtmpChunk, e: ChunkState)
    requires Switches(first, second, e)
    ensures SelectFormat(first, e) == 0 && SelectFormat(second, NextState(first, e)) == 3
    ensures (first.timestamp + first.timestamp) % TWO_TO_THE_32 == 2 * first.timestamp < 0x1_0000_0000
    ensures second.timestamp == 2 * first.timestamp <==> e.timestamp == 0
  {
  }

  lemma FirstOfSwitch(d: Decoder, m: RtmpChunk, e: ChunkState, size: u32)
    requires Listening(d, size) && ValidCsid(m.csid) && Ready(m, e, StateOf(d.streams, m.csid))
    requires Mirrors(e, StateOf(d.streams, m.csid)) && EncoderInv(e) && SelectFormat(m, e) == 0 && !NeedsExtended(m)
    ensures InStep(d, ChunksFrom(m, e, size, 0))
         == Some((WithStream(d, m.csid, ArrivedState(m, e, StateOf(d.streams, m.csid))), [m]))
  {
    hide InStep, ChunksFrom, SelectFormat, Mirrors;
    MessageArrives(d, m, e, size);
  }

  lemma SecondOfSwitch(d: Decoder, m: RtmpChunk, e: ChunkState, size: u32, time: u32)
    requires Listening(d, size) && ValidCsid(m.csid) && Ready(m, e, StateOf(d.streams, m.csid))
    requires SelectFormat(m, e) == 3 && !NeedsExtended(m) && !StateOf(d.streams, m.csid).hasExtended
    requires var s := StateOf(d.streams, m.csid); (s.timestamp + s.delta) % TWO_TO_THE_32 == time
    ensures var r := InStep(d, ChunksFrom(m, e, size, 0)); r.Some? && r.value.1 == [m.(timestamp := time)]
  {
    hide InStep, ChunksFrom, SelectFormat, Agrees, FirstHeader, ReadsExtended;
    WhatArrives(d, m, e, size);
    NoHeaderState(m, e, StateOf(d.streams, m.csid));
  }

  /** A chunk stream that goes over to another message stream sends a full header, after which
      the two sides disagree on the delta. A further message in the same rhythm arrives whole, but
      stamped with twice the time of the one before; that is its own time exactly if the switch
      was made after time 0. */
  lemma SwitchOfStream(d: Decoder, first: RtmpChunk, second: RtmpChunk, e: ChunkState, size: u32)
    requires Listening(d, size) && ValidCsid(first.csid) && Switches(first, second, e) && EncoderInv(e)
    requires StateOf(d.streams, first.csid).partial == [] && Mirrors(e, StateOf(d.streams, first.csid))
    ensures var r := InStep(d, ChunksFrom(first, e, size, 0));
      && r.Some? && r.value.1 == [first]
      && var r2 := InStep(r.value.0, ChunksFrom(second, NextState(first, e), size, 0));
        && r2.Some? && r2.value.1 == [second.(timestamp := 2 * first.timestamp)]
        && (r2.value.1 == [second] <==> e.timestamp == 0)
  {
    hide *;
    SwitchFormats(first, second, e);
    AfterSwitch(d, first, second, e, size);
    FirstOfSwitch(d, first, e, size);
    var d2 := WithStream(d, first.csid, ArrivedState(first, e, StateOf(d.streams, first.csid)));
    SecondOfSwitch(d2, second, NextState(first, e), size, 2 * first.timestamp);
    assert [second.(timestamp := 2 * first.timestamp)] == [second] <==> 2 * first.timestamp == second.timestamp;
  }

  lemma AfterSwitch(d: Decoder, first: RtmpChunk, second: RtmpChunk, e: ChunkState, size: u32)
    requires Listening(d, size) && ValidCsid(first.csid) && Switches(first, second, e) && EncoderInv(e)
    requires StateOf(d.streams, first.csid).partial == [] && Mirrors(e, StateOf(d.streams, first.csid))
    ensures Ready(first, e, StateOf(d.streams, first.csid)) && !NeedsExtended(first) && !NeedsExtended(second)
    ensures var d2 := WithStream(d, first.csid, ArrivedState(first, e, StateOf(d.streams, first.csid)));
      var s2 := StateOf(d2.streams, second.csid);
      && Listening(d2, size) && ValidCsid(second.csid) && Ready(second, NextState(first, e), s2)
      && !s2.hasExtended && (s2.timestamp + s2.delta) % TWO_TO_THE_32 == 2 * first.timestamp
  {
    hide SelectFormat, TimeDelta, Agrees, ArrivedState, HeaderSurvives, NextState, PeerDelta, EncoderInv, Fresh;
    var s := StateOf(d.streams, first.csid);
    SwitchFormats(first, second, e);
    FullHeaderState(first, e, s);
    FullHeaderSurvives(first, e, s);
    ArrivedMirrors(first, e, s);
    WithStreamTwice(d, first.csid, ArrivedState(first, e, s), ArrivedState(first, e, s));
  }

  lemma FullHeaderSurvives(m: RtmpChunk, e: ChunkState, s: ChunkState)
    requires SelectFormat(m, e) == 0
    ensures HeaderSurvives(m, e, s.delta) && ArrivedState(m, e, s).partial == []
  {
  }

  lemma OneChunkMessage(d: Decoder, m: RtmpChunk, e: ChunkState, size: u32)
    requires Listening(d, size) && ValidCsid(m.csid) && |m.payload| <= size
    requires Ready(m, e, StateOf(d.streams, m.csid))
    ensures var s := StateOf(d.streams, m.csid);
      ReadsExtended(m, e, s) == NeedsExtended(m) ==>
        Decode(d, ChunkAt(m, e, size, 0)) == Decoded(Complete(m.(timestamp := FirstHeader(m, e, s).timestamp)),
                                                     WithStream(d, m.csid, ArrivedState(m, e, s)), [])
  {
    hide Decode, TakeData, ReadsExtended, FirstHeader, Ready;
    DecodeFirst(d, m, e, size);
    FirstTaken(m, e, StateOf(d.streams, m.csid), size);
  }

  /** For example, messages at 10 ms on stream 1 and then at 20 and 30 ms on stream 2: a decoder
      from its start takes the third whole and leaves nothing, but says 40 ms. */
  lemma SwitchShiftsTime(size: u32)
    requires size >= 1
    ensures var a, b, c := RtmpChunk(4, 10, 8, 1, [0]), RtmpChunk(4, 20, 8, 2, [0]), RtmpChunk(4, 30, 8, 2, [0]);
      var e1 := NextState(a, DEFAULT_STATE);
      var e2 := NextState(b, e1);
      var r1 := Decode(Decoder(size, MAX_MESSAGE_SIZE, map[]), ChunkAt(a, DEFAULT_STATE, size, 0));
      var r2 := Decode(r1.dec, ChunkAt(b, e1, size, 0));
      var r3 := Decode(r2.dec, ChunkAt(c, e2, size, 0));
      && r1.outcome == Complete(a) && r1.rest == []
      && r2.outcome == Complete(b) && r2.rest == []
      && r3.outcome == Complete(c.(timestamp := 40)) && r3.rest == []
  {
    hide Decode, ChunkAt;
    var a, b, c := RtmpChunk(4, 10, 8, 1, [0]), RtmpChunk(4, 20, 8, 2, [0]), RtmpChunk(4, 30, 8, 2, [0]);
    var e1 := NextState(a, DEFAULT_STATE);
    var e2 := NextState(b, e1);
    var d0 := Decoder(size, MAX_MESSAGE_SIZE, map[]);
    OneChunkMessage(d0, a, DEFAULT_STATE, size);
    var d1 := Decode(d0, ChunkAt(a, DEFAULT_STATE, size, 0)).dec;
    OneChunkMessage(d1, b, e1, size);
    OneChunkMessage(Decode(d1, ChunkAt(b, e1, size, 0)).dec, c, e2, size);
  }

  /** The first message of a chunk stream at an extended timestamp comes through exactly if
      it needs no second chunk: continuation chunks leave out the field the decoder expects. */
  lemma ExtendedStart(m: RtmpChunk, peerDelta: u32, size: u32)
    requires NeedsExtended(m) && m.payload != []
    ensures Survives(m, DEFAULT_STATE, peerDelta, size) <==> |m.payload| <= size
  {
  }
}
