/** Chunks as a decoder sees them that does not follow its sender in everything: its
    chunk size may be another one, and on some chunk streams it may still hold data
    that the sender took back. */
module ClientChunks {
  import opened Bytes
  import opened ChunkModel
  import opened ChunkMirror
  import opened ChunkSafety
  import opened ChunkRuns
  import opened ChunkSession

  /** What of message `o` is still to come with the chunk that starts at its offset. */
  function Left(o: Open): int {
    |o.m.payload| - o.offset
  }

  /** A chunk of which some bytes may have arrived, but not all. */
  ghost predicate CutOff(s: Sender, tail: bytes, aborted: set<u32>) {
    tail == [] ||
    exists step :: Legal(s, step) && !step.Reset? && Emits(s, step).m.csid !in aborted && tail < Wire(s, step)
  }

  // ---- a client beside a decoder that obeys everything ----

  /** The client's decoder `d` differs from an obedient one in its chunk size and in the streams
      on which it ignored an abort. */
  ghost predicate Beside(d: Decoder, obedient: Decoder, aborted: set<u32>) {
    && d.chunkSize >= 1 && d.maxMessageSize == obedient.maxMessageSize
    && forall csid: u32 :: csid !in aborted ==> StateOf(d.streams, csid) == StateOf(obedient.streams, csid)
  }

  /** A call looks at the state of its own chunk stream only. */
  lemma DecodeOwn(d: Decoder, e: Decoder, buf: bytes)
    requires d.chunkSize == e.chunkSize && d.maxMessageSize == e.maxMessageSize
    requires var basic := ParseBasicHeader(buf);
      basic.Some? && StateOf(d.streams, basic.value.csid) == StateOf(e.streams, basic.value.csid)
    ensures var r, q, csid := Decode(d, buf), Decode(e, buf), ParseBasicHeader(buf).value.csid;
      r.outcome == q.outcome && r.rest == q.rest && StateOf(r.dec.streams, csid) == StateOf(q.dec.streams, csid)
  {
    hide StepStream, ParseBasicHeader;
  }

  /** The chunk of a step as a client of chunk size `size` would want it: with all of the rest, or
      cut at its own size; whatever the data is. */
  function AsCut(o: Open, data: bytes): bytes {
    ChunkHeader(o.m, o.e, o.offset) + data
  }

  lemma SameHeader(o: Open, m: RtmpChunk)
    requires m == o.m.(payload := m.payload) && |m.payload| == |o.m.payload|
    ensures ChunkHeader(m, o.e, o.offset) == ChunkHeader(o.m, o.e, o.offset)
    ensures SelectFormat(m, o.e) == SelectFormat(o.m, o.e)
    ensures forall delta: u32 :: HeaderSurvives(m, o.e, delta) == HeaderSurvives(o.m, o.e, delta)
  {
    hide BasicHeaderBytes, FullHeader, DeltaHeader;
  }

  lemma SameArrival(o: Open, m: RtmpChunk, st: ChunkState)
    requires m == o.m.(payload := m.payload) && |m.payload| == |o.m.payload|
    ensures ArrivedState(m, o.e, st) == ArrivedState(o.m, o.e, st)
    ensures FirstHeader(m, o.e, st).timestamp == FirstHeader(o.m, o.e, st).timestamp
    ensures ReadsExtended(m, o.e, st) == ReadsExtended(o.m, o.e, st)
  {
  }

  /** The state of the stream once the message is complete. */
  function DoneOf(o: Open, st: ChunkState): ChunkState {
    if o.offset == 0 then ArrivedState(o.m, o.e, st) else DoneState(o.m, st)
  }

  /** The message of a step with other data in this chunk. */
  function WithData(o: Open, data: bytes): RtmpChunk
    requires o.offset + |data| <= |o.m.payload|
  {
    o.m.(payload := o.m.payload[..o.offset] + data + o.m.payload[o.offset + |data|..])
  }

  predicate Cuts(o: Open, size: u32, data: bytes) {
    0 <= o.offset < |o.m.payload| && size >= 1 && |data| == Min(Left(o), size)
  }

  lemma DataIsCut(o: Open, size: u32, data: bytes)
    requires Cuts(o, size, data)
    ensures var m := WithData(o, data);
      && m.payload[..o.offset] == o.m.payload[..o.offset] && |m.payload| == |o.m.payload|
      && m.payload[o.offset..NextOffset(m, size, o.offset)] == data
      && ChunkAt(m, o.e, size, o.offset) == AsCut(o, data)
      && (Left(o) <= size ==> m.payload == o.m.payload[..o.offset] + data)
  {
    hide ChunkHeader;
    SameHeader(o, WithData(o, data));
  }

  /** What the decoder says to a chunk that is cut as it wants it. */
  predicate CutTaken(o: Open, size: u32, data: bytes, st: ChunkState, r: Decoded)
    requires Cuts(o, size, data)
  {
    && r.rest == []
    && r.outcome == (if Left(o) <= size then Complete(WithData(o, data)) else Pending)
    && (Left(o) <= size ==> StateOf(r.dec.streams, o.m.csid) == DoneOf(o, st))
  }

  lemma FirstCutTaken(s: Sender, step: Step, d: Decoder, size: u32, data: bytes)
    requires Legal(s, step) && step.Start? && Linked(s, d) && Cuts(Emits(s, step), size, data)
    ensures var o := Emits(s, step);
      CutTaken(o, size, data, StateOf(d.streams, o.m.csid), Decode(d.(chunkSize := size), AsCut(o, data)))
  {
    hide Decode, AsCut, ChunkHeader, TakeData, SelectFormat, HeaderSurvives, ArrivedState, FirstHeader, TimeDelta,
      ReadsExtended;
    var o := Emits(s, step);
    var m, e, st := WithData(o, data), o.e, StateOf(d.streams, o.m.csid);
    assert LinkedAt(s, d.streams, m.csid);
    DataIsCut(o, size, data);
    SameHeader(o, m);
    SameArrival(o, m, st);
    SurvivingHeaders(m, e, st);
    DecodeFirst(d.(chunkSize := size), m, e, size);
    FirstTaken(m, e, st, size);
  }

  lemma NextCutTaken(s: Sender, step: Step, d: Decoder, size: u32, data: bytes)
    requires Legal(s, step) && step.Continue? && Linked(s, d) && Cuts(Emits(s, step), size, data)
    ensures var o := Emits(s, step);
      CutTaken(o, size, data, StateOf(d.streams, o.m.csid), Decode(d.(chunkSize := size), AsCut(o, data)))
  {
    hide Decode, AsCut, ChunkHeader, TakeData, SelectFormat;
    var o := Emits(s, step);
    var m, st := WithData(o, data), StateOf(d.streams, step.csid);
    assert LinkedAt(s, d.streams, step.csid);
    DataIsCut(o, size, data);
    DecodeNext(d.(chunkSize := size), m, o.e, size, o.offset);
    InsideAgain(m, st, size, o.offset);
  }

  lemma CutIsTaken(s: Sender, step: Step, d: Decoder, size: u32, data: bytes)
    requires Legal(s, step) && !step.Reset? && Linked(s, d) && Cuts(Emits(s, step), size, data)
    ensures var o := Emits(s, step);
      CutTaken(o, size, data, StateOf(d.streams, o.m.csid), Decode(d.(chunkSize := size), AsCut(o, data)))
  {
    hide CutTaken, Linked, Legal, Decode, AsCut, Emits;
    if step.Start? {
      FirstCutTaken(s, step, d, size, data);
    } else {
      NextCutTaken(s, step, d, size, data);
    }
  }

  // ---- one chunk in the buffer ----

  lemma PrefixWaits(d: Decoder, chunk: bytes, b: bytes)
    requires Decode(d, chunk).rest == [] && b < chunk
    ensures Decode(d, b).outcome.Pending?
  {
    hide Decode;
    var missing := chunk[|b|..];
    assert chunk == b + missing;
    DecodeStable(d, b, missing);
    DecodeIsLocal(d, b);
  }

  lemma StepCsid(s: Sender, step: Step, d: Decoder)
    requires Legal(s, step) && !step.Reset? && Linked(s, d)
    ensures ValidCsid(Emits(s, step).m.csid) && (step.Continue? ==> step.csid == Emits(s, step).m.csid)
    ensures Emits(s, step).offset < |Emits(s, step).m.payload|
  {
    if step.Continue? {
      assert LinkedAt(s, d.streams, step.csid);
    }
  }

  lemma CutHasCsid(o: Open, data: bytes)
    requires ValidCsid(o.m.csid)
    ensures var basic := ParseBasicHeader(AsCut(o, data)); basic.Some? && basic.value.csid == o.m.csid
  {
    hide MessageHeaderBytes, ParseBasicHeader, BasicHeaderBytes, SelectFormat;
    if o.offset == 0 {
      FirstChunkBytes(o.m, o.e, data);
      BasicHeaderRoundTrip(o.m.csid, SelectFormat(o.m, o.e), FirstBody(o.m, o.e, data));
    } else {
      NextChunkBytes(o.m, o.e, o.offset, data);
      BasicHeaderRoundTrip(o.m.csid, 3, ContinuationExtended(o.m, o.e) + data);
    }
  }

  /** With the header of a chunk and `rest` behind it in the buffer: the client takes as much as
      its own chunk size makes of it, whatever these bytes are, or waits for it. */
  lemma LooksAt(s: Sender, step: Step, obedient: Decoder, d: Decoder, aborted: set<u32>, rest: bytes)
    requires Legal(s, step) && !step.Reset? && Linked(s, obedient) && Beside(d, obedient, aborted)
    requires Emits(s, step).m.csid !in aborted
    ensures var o := Emits(s, step);
      var n, r := Min(Left(o), d.chunkSize), Decode(d, AsCut(o, rest));
      && 0 < n && o.offset + n <= |o.m.payload|
      && if |rest| < n then r.outcome.Pending?
         else
           && r.rest == rest[n..]
           && r.outcome == (if Left(o) <= d.chunkSize then Complete(WithData(o, rest[..n])) else Pending)
           && (Left(o) <= d.chunkSize ==>
                 StateOf(r.dec.streams, o.m.csid) == DoneOf(o, StateOf(obedient.streams, o.m.csid)))
  {
    hide Decode, LinkedState, Legal, Emits, ChunkHeader, DoneOf, ParseBasicHeader;
    StepCsid(s, step, obedient);
    var o, q := Emits(s, step), obedient.(chunkSize := d.chunkSize);
    var n, buf := Min(Left(o), d.chunkSize), AsCut(o, rest);
    var data := if |rest| < n then rest + seq(n - |rest|, _ => 0) else rest[..n];
    CutIsTaken(s, step, obedient, d.chunkSize, data);
    CutHasCsid(o, rest);
    DecodeOwn(d, q, buf);
    if |rest| < n {
      assert AsCut(o, data) == buf + seq(n - |rest|, _ => 0);
      PrefixWaits(q, AsCut(o, data), buf);
    } else {
      assert rest == data + rest[n..];
      assert buf == AsCut(o, data) + rest[n..];
      DecodeStable(q, AsCut(o, data), rest[n..]);
      assert [] + rest[n..] == rest[n..];
    }
  }

  lemma WireIsCut(s: Sender, step: Step)
    requires Legal(s, step) && !step.Reset?
    ensures var o := Emits(s, step);
      && o.offset < |o.m.payload| && s.size >= 1
      && Wire(s, step) == AsCut(o, o.m.payload[o.offset..NextOffset(o.m, s.size, o.offset)])
      && (Ends(s, step) == if Left(o) <= s.size then [o.m] else [])
  {
    hide ChunkHeader;
  }

  /** Part of a chunk keeps the client waiting, also one that it would cut shorter. */
  lemma CutOffWaits(s: Sender, tail: bytes, aborted: set<u32>, d: Decoder, obedient: Decoder)
    requires Linked(s, obedient) && Beside(d, obedient, aborted) && CutOff(s, tail, aborted)
    ensures Decode(d, tail).outcome.Pending?
  {
    hide Linked, Decode, Legal, Wire, Emits, ChunkHeader, ParseBasicHeader;
    if tail == [] {
      NothingThere(d);
    } else {
      var step :| Legal(s, step) && !step.Reset? && Emits(s, step).m.csid !in aborted && tail < Wire(s, step);
      var o := Emits(s, step);
      WireIsCut(s, step);
      var header, data := ChunkHeader(o.m, o.e, o.offset), o.m.payload[o.offset..NextOffset(o.m, s.size, o.offset)];
      if |header| <= |tail| {
        assert tail == AsCut(o, tail[|header|..]);
        LooksAt(s, step, obedient, d, aborted, tail[|header|..]);
      } else {
        HeaderWaits(s, step, obedient, d, aborted, tail);
      }
    }
  }

  lemma HeaderWaits(s: Sender, step: Step, obedient: Decoder, d: Decoder, aborted: set<u32>, tail: bytes)
    requires Legal(s, step) && !step.Reset? && Linked(s, obedient) && Beside(d, obedient, aborted)
    requires Emits(s, step).m.csid !in aborted
    requires var o := Emits(s, step); tail < ChunkHeader(o.m, o.e, o.offset)
    ensures Decode(d, tail).outcome.Pending?
  {
    hide LinkedState, Decode, Legal, Emits, ChunkHeader, ParseBasicHeader;
    StepCsid(s, step, obedient);
    var o, q := Emits(s, step), obedient.(chunkSize := d.chunkSize);
    var data := seq(Min(Left(o), d.chunkSize), _ => 0);
    CutIsTaken(s, step, obedient, d.chunkSize, data);
    PrefixWaits(q, AsCut(o, data), tail);
    if ParseBasicHeader(tail).None? {
      NoBasicHeader(d, tail);
    } else {
      CutHasCsid(o, data);
      assert AsCut(o, data) == tail + AsCut(o, data)[|tail|..];
      BasicHeaderStable(tail, AsCut(o, data)[|tail|..]);
      DecodeOwn(d, q, tail);
    }
  }

  lemma NoBasicHeader(d: Decoder, buf: bytes)
    requires ParseBasicHeader(buf).None?
    ensures Decode(d, buf).outcome.Pending?
  {
  }

  lemma NothingThere(d: Decoder)
    ensures Decode(d, []).outcome.Pending?
  {
  }

  // ---- a message that ends ----

  lemma EndsTaken(s: Sender, step: Step, obedient: Decoder, d: Decoder, aborted: set<u32>, later: bytes)
    requires Legal(s, step) && !step.Reset? && Linked(s, obedient) && Beside(d, obedient, aborted)
    requires var o := Emits(s, step); o.m.csid !in aborted && Left(o) <= d.chunkSize && Left(o) <= s.size
    ensures var r, q := Decode(d, Wire(s, step) + later), Decode(obedient, Wire(s, step));
      && r.outcome == Complete(Emits(s, step).m) && r.rest == later && r.dec.chunkSize == d.chunkSize
      && Beside(r.dec, q.dec, aborted) && Linked(Emitted(s, step), q.dec)
  {
    hide Decode, LinkedState, Legal, Emits, Emitted, ChunkHeader, DoneOf, ParseBasicHeader;
    var o := Emits(s, step);
    StepCsid(s, step, obedient);
    WireIsCut(s, step);
    var data := o.m.payload[o.offset..];
    assert data == o.m.payload[o.offset..NextOffset(o.m, s.size, o.offset)];
    assert AsCut(o, data + later) == Wire(s, step) + later;
    assert (data + later)[..|data|] == data && (data + later)[|data|..] == later;
    LooksAt(s, step, obedient, d, aborted, data + later);
    assert WithData(o, data) == o.m by { assert o.m.payload[..o.offset] + data + [] == o.m.payload; }
    StepTaken(s, step, obedient);
    ChunkLinks(s, step, obedient, Decode(obedient, Wire(s, step)));
    CutIsTaken(s, step, obedient, s.size, data);
    assert obedient.(chunkSize := s.size) == obedient;
    StaysBeside(d, obedient, aborted, o, data, later);
  }

  lemma StaysBeside(d: Decoder, obedient: Decoder, aborted: set<u32>, o: Open, data: bytes, later: bytes)
    requires Beside(d, obedient, aborted) && ValidCsid(o.m.csid)
    requires var r, q := Decode(d, AsCut(o, data + later)), Decode(obedient, AsCut(o, data));
      StateOf(r.dec.streams, o.m.csid) == StateOf(q.dec.streams, o.m.csid)
    ensures var r, q := Decode(d, AsCut(o, data + later)), Decode(obedient, AsCut(o, data));
      Beside(r.dec, q.dec, aborted) && r.dec.chunkSize == d.chunkSize
  {
    hide Decode, AsCut, ParseBasicHeader;
    CutHasCsid(o, data + later);
    CutHasCsid(o, data);
    DecodeIsLocal(d, AsCut(o, data + later));
    DecodeIsLocal(obedient, AsCut(o, data));
    var r, q := Decode(d, AsCut(o, data + later)), Decode(obedient, AsCut(o, data));
    forall csid: u32 | csid !in aborted ensures StateOf(r.dec.streams, csid) == StateOf(q.dec.streams, csid) {
      if csid != o.m.csid {
        assert StateOf(d.streams, csid) == StateOf(obedient.streams, csid);
      }
    }
  }

  lemma CutOffStays(s: Sender, tail: bytes, d: Decoder)
    requires Linked(s, d) && CutOff(s, tail, {})
    ensures Decode(d, tail).outcome.Pending? && Decode(d, tail).rest == tail
  {
    hide Linked, Decode, Legal, Emitted, Wire, Emits;
    if tail == [] {
      NothingThere(d);
    } else {
      var step :| Legal(s, step) && !step.Reset? && tail < Wire(s, step);
      var missing := Wire(s, step)[|tail|..];
      assert Wire(s, step) == tail + missing;
      StepTaken(s, step, d);
      DecodeStable(d, tail, missing);
      DecodeIsLocal(d, tail);
    }
  }
}
