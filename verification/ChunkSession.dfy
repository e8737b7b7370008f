/** Whole sessions. A sender interleaves the chunks of messages on any number of
    chunk streams, changes the chunk size and aborts messages by sending the
    control messages for it, and resets its encoder; the receiver's drain loop
    reads the resulting bytes. One invariant links the two sides at every step. */
module ChunkSession {
  import opened Bytes
  import opened ChunkModel
  import opened ChunkMirror

  /** A message under way: the encoder state before it, and how much of its payload is out. */
  datatype Open = Open(m: RtmpChunk, e: ChunkState, offset: nat)

  /** `peerDelta` is the sender's own record of the last delta each header conveyed. */
  datatype Sender = Sender(size: u32, enc: map<u32, ChunkState>, peerDelta: map<u32, u32>, open: map<u32, Open>)

  datatype Step = Start(m: RtmpChunk) | Continue(csid: u32) | Reset

  function DeltaOf(s: Sender, csid: u32): u32 {
    if csid in s.peerDelta then s.peerDelta[csid] else 0
  }

  function OpenAt(s: Sender, csid: u32): Option<Open> {
    if csid in s.open then Some(s.open[csid]) else None
  }

  predicate IsControl(m: RtmpChunk) {
    m.msgType == MSG_SET_CHUNK_SIZE || m.msgType == MSG_ABORT
  }

  /** The receiver drops the top bit of an announced size; sender and receiver still
      mean the same size when that bit is clear or both sides hit the maximum. */
  predicate SizeAgrees(n: u32) {
    1 <= n % 0x8000_0000 && (n < 0x8000_0000 || n % 0x8000_0000 >= MAX_CHUNK_SIZE)
  }

  predicate ControlLegal(m: RtmpChunk) {
    IsControl(m) ==> |m.payload| >= 4 && (m.msgType == MSG_SET_CHUNK_SIZE ==> SizeAgrees(U32At(m.payload, 0)))
  }

  /** What sending message `m` to its end does to the sender itself. */
  function Control(s: Sender, m: RtmpChunk): Sender {
    if |m.payload| < 4 then s
    else if m.msgType == MSG_SET_CHUNK_SIZE then s.(size := Min(U32At(m.payload, 0), MAX_CHUNK_SIZE))
    else if m.msgType == MSG_ABORT then s.(open := s.open - {U32At(m.payload, 0)})
    else s
  }

  predicate Legal(s: Sender, step: Step) {
    match step
    case Start(m) =>
      && s.size >= 1 && ValidCsid(m.csid) && m.csid !in s.open && |m.payload| < TWO_TO_THE_24
      && Survives(m, StateOf(s.enc, m.csid), DeltaOf(s, m.csid), s.size)
      && ControlLegal(m)
    case Continue(csid) =>
      s.size >= 1 && csid in s.open && s.open[csid].offset < |s.open[csid].m.payload| && ControlLegal(s.open[csid].m)
    case Reset => true
  }

  /** The message, its encoder state and the offset of the chunk that a step emits. */
  function Emits(s: Sender, step: Step): Open
    requires Legal(s, step) && !step.Reset?
  {
    match step
    case Start(m) => Open(m, StateOf(s.enc, m.csid), 0)
    case Continue(csid) => s.open[csid]
  }

  function Wire(s: Sender, step: Step): bytes
    requires Legal(s, step)
  {
    if step.Reset? then [] else var o := Emits(s, step); ChunkAt(o.m, o.e, s.size, o.offset)
  }

  /** The message a step brings to its end, if any. */
  function Ends(s: Sender, step: Step): seq<RtmpChunk>
    requires Legal(s, step)
  {
    if step.Reset? then []
    else var o := Emits(s, step); if NextOffset(o.m, s.size, o.offset) == |o.m.payload| then [o.m] else []
  }

  /** The sender after a chunk, before a completed control message takes effect. */
  function Emitted(s: Sender, step: Step): Sender
    requires Legal(s, step) && !step.Reset?
  {
    var o := Emits(s, step);
    var csid := if step.Start? then o.m.csid else step.csid;
    var s1 := if step.Continue? then s else
      s.(enc := s.enc[csid := NextState(o.m, o.e)], peerDelta := s.peerDelta[csid := PeerDelta(o.m, o.e)]);
    var next := NextOffset(o.m, s.size, o.offset);
    s1.(open := if next == |o.m.payload| then s1.open - {csid} else s1.open[csid := o.(offset := next)])
  }

  function Next(s: Sender, step: Step): Sender
    requires Legal(s, step)
  {
    if step.Reset? then s.(enc := map[])
    else if Ends(s, step) == [] then Emitted(s, step)
    else Control(Emitted(s, step), Emits(s, step).m)
  }

  // ---- the invariant ----

  /** The decoder is inside an open message, at the right time, and will read the
      extended timestamps that its remaining chunks carry. */
  predicate LinkedOpen(o: Open, csid: u32, st: ChunkState) {
    && o.m.csid == csid && ValidCsid(csid) && ControlLegal(o.m)
    && Inside(o.m, st, o.offset)
    && st.timestamp == o.m.timestamp
    && st.hasExtended == NeedsExtended(o.m)
    && (NeedsExtended(o.m) ==> o.e.hasExtended && st.delta == o.m.timestamp)
  }

  predicate LinkedState(csid: u32, e: ChunkState, st: ChunkState, delta: u32, open: Option<Open>) {
    && EncoderInv(e) && Mirrors(e, st) && st.delta == delta
    && match open
       case None => st.partial == []
       case Some(o) => LinkedOpen(o, csid, st)
  }

  predicate LinkedAt(s: Sender, streams: map<u32, ChunkState>, csid: u32) {
    LinkedState(csid, StateOf(s.enc, csid), StateOf(streams, csid), DeltaOf(s, csid), OpenAt(s, csid))
  }

  ghost predicate Linked(s: Sender, d: Decoder) {
    Listening(d, s.size) && forall csid: u32 :: LinkedAt(s, d.streams, csid)
  }

  const FRESH_SENDER := Sender(DEFAULT_CHUNK_SIZE, map[], map[], map[])
  const FRESH_DECODER := Decoder(DEFAULT_CHUNK_SIZE, MAX_MESSAGE_SIZE, map[])

  lemma FreshLinked()
    ensures Linked(FRESH_SENDER, FRESH_DECODER)
  {
  }

  /** The decoder took exactly the chunk of this step, and its stream is linked again. */
  ghost predicate ChunkTaken(s: Sender, step: Step, d: Decoder, r: Decoded)
    requires Legal(s, step) && !step.Reset?
  {
    var o, s' := Emits(s, step), Emitted(s, step);
    && r.rest == []
    && r.outcome == (if Ends(s, step) != [] then Complete(o.m) else Pending)
    && r.dec == WithStream(d, o.m.csid, StateOf(r.dec.streams, o.m.csid))
    && LinkedAt(s', r.dec.streams, o.m.csid)
  }

  lemma {:induction false} StartTaken(s: Sender, m: RtmpChunk, d: Decoder)
    requires Linked(s, d) && Legal(s, Start(m))
    ensures ChunkTaken(s, Start(m), d, Decode(d, Wire(s, Start(m))))
  {
    var e, st := StateOf(s.enc, m.csid), StateOf(d.streams, m.csid);
    assert LinkedAt(s, d.streams, m.csid);
    SurvivingHeaders(m, e, st);
    DecodeFirst(d, m, e, s.size);
    FirstTaken(m, e, st, s.size);
    ArrivedMirrors(m, e, st);
  }

  lemma {:induction false} ContinueTaken(s: Sender, csid: u32, d: Decoder)
    requires Linked(s, d) && Legal(s, Continue(csid))
    ensures s.open[csid].m.csid == csid
    ensures ChunkTaken(s, Continue(csid), d, Decode(d, Wire(s, Continue(csid))))
  {
    var o, st := s.open[csid], StateOf(d.streams, csid);
    assert LinkedAt(s, d.streams, csid);
    DecodeNext(d, o.m, o.e, s.size, o.offset);
    InsideAgain(o.m, st, s.size, o.offset);
  }

  /** Streams that a step does not touch stay linked. */
  lemma {:induction false} OtherStreams(s: Sender, step: Step, d: Decoder, st: ChunkState, csid: u32)
    requires Legal(s, step) && !step.Reset? && Linked(s, d)
    requires csid != Emits(s, step).m.csid && (step.Continue? ==> step.csid == Emits(s, step).m.csid)
    ensures LinkedAt(Emitted(s, step), WithStream(d, Emits(s, step).m.csid, st).streams, csid)
  {
    hide LinkedState;
    assert LinkedAt(s, d.streams, csid);
  }
}
