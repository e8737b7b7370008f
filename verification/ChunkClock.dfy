/** What times a receiver sees when times on a chunk stream run backwards. The
    header carries the low 24 bits of the difference, so every step back puts the
    receiver's clock on that stream 2^24 ms ahead, for good; a step back by one
    millisecond looks like an extended timestamp, and the stream is lost. */
module ChunkClock {
  import opened Bytes
  import opened ChunkModel
  import opened ChunkMirror
  import opened ChunkRuns
  import opened ChunkSession
  import opened EncoderSession
  import opened Reading

  function LastOn(last: map<u32, Last>, csid: u32): Option<Last> {
    if csid in last then Some(last[csid]) else None
  }

  function ShiftOn(shift: map<u32, u32>, csid: u32): u32 {
    if csid in shift then shift[csid] else 0
  }

  /** How far the receiver's clock is ahead after message `m`; a full header sets it right. */
  function ShiftAfter(last: Option<Last>, shift: u32, m: RtmpChunk): u32 {
    if last.None? || m.streamId != last.value.streamId then 0
    else if m.timestamp < last.value.timestamp then (shift + TWO_TO_THE_24) % TWO_TO_THE_32
    else shift
  }

  /** The one step back that a header cannot carry. */
  predicate OneBack(last: Option<Last>, m: RtmpChunk) {
    last.Some? && m.streamId == last.value.streamId && m.timestamp + 1 == last.value.timestamp
  }

  /** The two copies of a stream agree but for the clock, which is `shift` ahead at the receiver. */
  predicate Tracks(last: Option<Last>, shift: u32, e: ChunkState, s: ChunkState) {
    && s.partial == []
    && match last
       case None => e == DEFAULT_STATE
       case Some(l) =>
         && e.timestamp == l.timestamp < EXTENDED_TIMESTAMP && e.streamId == l.streamId
         && e.msgType != 0 && !e.hasExtended && Agrees(e, s)
         && s.timestamp == (e.timestamp + shift) % TWO_TO_THE_32
         && s.delta == e.delta % TWO_TO_THE_24 < EXTENDED_TIMESTAMP
  }

  /** What `PlainShape` says to the chunk stream of a message. */
  predicate PlainOn(last: Option<Last>, m: RtmpChunk) {
    && ValidCsid(m.csid) && 0 < |m.payload| < TWO_TO_THE_24 && m.msgType != 0 && m.timestamp < EXTENDED_TIMESTAMP
    && (last.Some? ==> m.streamId == last.value.streamId || last.value.timestamp == 0)
  }

  // ---- one message ----

  lemma DeltaOnWire(m: RtmpChunk, e: ChunkState, last: Last)
    requires m.timestamp < EXTENDED_TIMESTAMP && e.timestamp == last.timestamp < EXTENDED_TIMESTAMP
    ensures TimeDelta(m, e) % TWO_TO_THE_24
         == m.timestamp - last.timestamp + if m.timestamp < last.timestamp then TWO_TO_THE_24 else 0
  {
    if m.timestamp < last.timestamp {
      assert TimeDelta(m, e) == 255 * TWO_TO_THE_24 + (m.timestamp - last.timestamp + TWO_TO_THE_24);
    }
  }

  lemma ClockMoves(clock: u32, from: u32, to: u32, shift: u32, delta: nat, ahead: nat)
    requires clock == (from + shift) % TWO_TO_THE_32 && delta == to - from + ahead
    ensures var shift' := if ahead == 0 then shift else (shift + ahead) % TWO_TO_THE_32;
      (clock + delta) % TWO_TO_THE_32 == (to + shift') % TWO_TO_THE_32
  {
  }

  lemma FullHeaderHeard(m: RtmpChunk, e: ChunkState, s: ChunkState, last: Option<Last>, shift: u32)
    requires Tracks(last, shift, e, s) && PlainOn(last, m)
    requires last.None? || m.streamId != last.value.streamId
    ensures !ReadsExtended(m, e, s) && !OneBack(last, m) && ShiftAfter(last, shift, m) == 0
    ensures FirstHeader(m, e, s).timestamp == FirstHeader(m, e, s).delta == TimeDelta(m, e) == m.timestamp
  {
    assert SelectFormat(m, e) == 0;
  }

  lemma DeltaHeard(m: RtmpChunk, e: ChunkState, s: ChunkState, last: Last, shift: u32)
    requires Tracks(Some(last), shift, e, s) && PlainOn(Some(last), m) && m.streamId == last.streamId
    ensures ReadsExtended(m, e, s) <==> TimeDelta(m, e) % TWO_TO_THE_24 == EXTENDED_TIMESTAMP
    ensures var delta := TimeDelta(m, e) % TWO_TO_THE_24;
      !ReadsExtended(m, e, s) ==>
        && FirstHeader(m, e, s).delta == delta
        && FirstHeader(m, e, s).timestamp == (s.timestamp + delta) % TWO_TO_THE_32
  {
  }

  /** What the first header conveys, in every format. */
  lemma HeaderHeard(m: RtmpChunk, e: ChunkState, s: ChunkState, last: Option<Last>, shift: u32)
    requires Tracks(last, shift, e, s) && PlainOn(last, m)
    ensures ReadsExtended(m, e, s) <==> OneBack(last, m)
    ensures !OneBack(last, m) ==>
      && FirstHeader(m, e, s).timestamp == (m.timestamp + ShiftAfter(last, shift, m)) % TWO_TO_THE_32
      && FirstHeader(m, e, s).delta == TimeDelta(m, e) % TWO_TO_THE_24 < EXTENDED_TIMESTAMP
  {
    if last.None? || m.streamId != last.value.streamId {
      hide TimeDelta, FirstHeader, ReadsExtended, Agrees;
      FullHeaderHeard(m, e, s, last, shift);
    } else {
      hide TimeDelta, FirstHeader, ReadsExtended, Agrees;
      DeltaHeard(m, e, s, last.value, shift);
      DeltaOnWire(m, e, last.value);
      ClockMoves(s.timestamp, e.timestamp, m.timestamp, shift, TimeDelta(m, e) % TWO_TO_THE_24,
                 if m.timestamp < e.timestamp then TWO_TO_THE_24 else 0);
    }
  }

  lemma StillTracks(m: RtmpChunk, e: ChunkState, s: ChunkState, last: Option<Last>, shift: u32)
    requires Tracks(last, shift, e, s) && PlainOn(last, m) && !OneBack(last, m)
    ensures Tracks(Some(Last(m.timestamp, m.streamId)), ShiftAfter(last, shift, m), NextState(m, e),
                   ArrivedState(m, e, s))
  {
    HeaderHeard(m, e, s, last, shift);
    hide TimeDelta, FirstDelta, SelectFormat, ShiftAfter;
  }

  /** Any message that keeps the plain conditions but for the order of times: it is heard at its
      time plus the shift, or, one millisecond back, not heard at all. */
  lemma MessageHeard(d: Decoder, m: RtmpChunk, e: ChunkState, size: u32, last: Option<Last>, shift: u32)
    requires Listening(d, size) && PlainOn(last, m) && Tracks(last, shift, e, StateOf(d.streams, m.csid))
    ensures var r, shift' := InStep(d, ChunksFrom(m, e, size, 0)), ShiftAfter(last, shift, m);
      if OneBack(last, m) then r == None
      else
        && r == Some((WithStream(d, m.csid, ArrivedState(m, e, StateOf(d.streams, m.csid))),
                      [m.(timestamp := (m.timestamp + shift') % TWO_TO_THE_32)]))
        && Tracks(Some(Last(m.timestamp, m.streamId)), shift', NextState(m, e),
                  ArrivedState(m, e, StateOf(d.streams, m.csid)))
  {
    hide Tracks, PlainOn, OneBack, ReadsExtended, FirstHeader, InStep, ChunksFrom, Agrees, ShiftAfter, ArrivedState;
    var s := StateOf(d.streams, m.csid);
    ReadyToHear(m, e, s, last, shift);
    HeaderHeard(m, e, s, last, shift);
    WhatArrives(d, m, e, size);
    if !OneBack(last, m) {
      StillTracks(m, e, s, last, shift);
    }
  }

  lemma ReadyToHear(m: RtmpChunk, e: ChunkState, s: ChunkState, last: Option<Last>, shift: u32)
    requires PlainOn(last, m) && Tracks(last, shift, e, s)
    ensures Ready(m, e, s) && ValidCsid(m.csid) && !NeedsExtended(m)
  {
  }

  // ---- chunk by chunk is byte by byte ----

  /** What is fed chunk by chunk comes out the same when the bytes are read in one piece. */
  lemma {:induction false} InStepDrains(d: Decoder, chunks: seq<bytes>, log: seq<RtmpChunk>, accept: Handler)
    requires InStep(d, chunks).Some?
    requires forall m :: m in InStep(d, chunks).value.1 ==> !IsControl(m)
    requires AcceptsAll(accept, log, InStep(d, chunks).value.1)
    ensures var (d', ms) := InStep(d, chunks).value;
      Drain(Feed(Idle(d, log), Flatten(chunks)), accept) == Idle(d', log + ms)
    decreases |chunks|
  {
    hide Drain, Decode, AcceptsAll;
    if chunks == [] {
      NothingToRead(d, log, accept);
      assert log + [] == log;
    } else {
      var r, rest := Decode(d, chunks[0]), Flatten(chunks[1..]);
      var first := if r.outcome.Complete? then [r.outcome.chunk] else [];
      var later := InStep(r.dec, chunks[1..]).value.1;
      assert forall m :: m in later ==> m in first + later;
      AcceptsSplit(accept, log, first, later);
      ChunkRead(d, chunks[0], log, accept, first);
      InStepDrains(r.dec, chunks[1..], log + first, accept);
      DrainThenFeed(Feed(Idle(d, log), chunks[0]), rest, accept);
      FeedTwice(Idle(d, log), chunks[0], rest);
      assert [] + rest == rest;
      ConcatAssociates(log, first, later);
    }
  }

  lemma ChunkRead(d: Decoder, chunk: bytes, log: seq<RtmpChunk>, accept: Handler, first: seq<RtmpChunk>)
    requires var r := Decode(d, chunk);
      r.rest == [] && !r.outcome.TooLarge? && first == if r.outcome.Complete? then [r.outcome.chunk] else []
    requires forall m :: m in first ==> !IsControl(m)
    requires AcceptsAll(accept, log, first)
    ensures Drain(Feed(Idle(d, log), chunk), accept) == Idle(Decode(d, chunk).dec, log + first)
  {
    hide Drain, Decode;
    var r := Decode(d, chunk);
    assert [] + chunk == chunk;
    assert log + [] == log;
    if first != [] {
      assert first[..0] == [] && first[0] == r.outcome.chunk && first[0] in first;
    }
    if chunk == [] {
      NothingToRead(d, log, accept);
      NothingDecoded(d);
    } else {
      OneChunk(d, log, chunk, accept);
    }
  }

  lemma NothingDecoded(d: Decoder)
    ensures Decode(d, []) == Decoded(Pending, d, [])
  {
  }

  // ---- runs of messages ----

  /** What the encoder appends for messages one after the other. */
  function Written(enc: Encoder, ms: seq<RtmpChunk>): bytes
    requires enc.chunkSize >= 1
    decreases |ms|
  {
    if ms == [] then [] else Encode(enc, ms[0]).1 + Written(Encode(enc, ms[0]).0, ms[1..])
  }

  function AfterMessageShift(last: map<u32, Last>, shift: map<u32, u32>, m: RtmpChunk): map<u32, u32> {
    shift[m.csid := ShiftAfter(LastOn(last, m.csid), ShiftOn(shift, m.csid), m)]
  }

  function Next(last: map<u32, Last>, m: RtmpChunk): map<u32, Last> {
    AfterPlain(last, Send(m))
  }

  /** The messages with the times the receiver sees. */
  function Heard(last: map<u32, Last>, shift: map<u32, u32>, ms: seq<RtmpChunk>): seq<RtmpChunk>
    decreases |ms|
  {
    if ms == [] then []
    else
      var m, shift' := ms[0], AfterMessageShift(last, shift, ms[0]);
      [m.(timestamp := (m.timestamp + shift'[m.csid]) % TWO_TO_THE_32)] + Heard(Next(last, m), shift', ms[1..])
  }

  predicate Plain(last: map<u32, Last>, m: RtmpChunk) {
    PlainOn(LastOn(last, m.csid), m) && !IsControl(m)
  }

  /** The plain conditions on media and notices, but for the order of times. */
  predicate AllPlain(last: map<u32, Last>, ms: seq<RtmpChunk>)
    decreases |ms|
  {
    ms == [] || (Plain(last, ms[0]) && AllPlain(Next(last, ms[0]), ms[1..]))
  }

  predicate NoOneBack(last: map<u32, Last>, ms: seq<RtmpChunk>)
    decreases |ms|
  {
    ms == [] || (!OneBack(LastOn(last, ms[0].csid), ms[0]) && NoOneBack(Next(last, ms[0]), ms[1..]))
  }

  predicate TracksAt(last: map<u32, Last>, shift: map<u32, u32>, enc: map<u32, ChunkState>, dec: map<u32, ChunkState>,
                     csid: u32) {
    Tracks(LastOn(last, csid), ShiftOn(shift, csid), StateOf(enc, csid), StateOf(dec, csid))
  }

  ghost predicate TracksAll(last: map<u32, Last>, shift: map<u32, u32>, enc: Encoder, d: Decoder) {
    Listening(d, enc.chunkSize) && forall csid: u32 :: TracksAt(last, shift, enc.streams, d.streams, csid)
  }

  lemma {:induction false} OneHeard(last: map<u32, Last>, shift: map<u32, u32>, enc: Encoder, d: Decoder, m: RtmpChunk,
                                    log: seq<RtmpChunk>, accept: Handler)
    requires TracksAll(last, shift, enc, d) && Plain(last, m) && !OneBack(LastOn(last, m.csid), m)
    requires AcceptsAll(accept, log, Heard(last, shift, [m]))
    ensures var c := Drain(Feed(Idle(d, log), Encode(enc, m).1), accept);
      && c == Idle(c.dec, log + Heard(last, shift, [m]))
      && TracksAll(Next(last, m), AfterMessageShift(last, shift, m), Encode(enc, m).0, c.dec)
  {
    hide Tracks, PlainOn, OneBack, InStep, ChunksFrom, Drain, NextState, ShiftAfter, AcceptsAll;
    assert TracksAt(last, shift, enc.streams, d.streams, m.csid);
    var e, s := StateOf(enc.streams, m.csid), StateOf(d.streams, m.csid);
    MessageHeard(d, m, e, enc.chunkSize, LastOn(last, m.csid), ShiftOn(shift, m.csid));
    var chunks := ChunksFrom(m, e, enc.chunkSize, 0);
    var d' := InStep(d, chunks).value.0;
    assert Heard(last, shift, [m]) == InStep(d, chunks).value.1;
    InStepDrains(d, chunks, log, accept);
    var last', shift', enc' := Next(last, m), AfterMessageShift(last, shift, m), Encode(enc, m).0;
    forall csid: u32 ensures TracksAt(last', shift', enc'.streams, d'.streams, csid) {
      if csid != m.csid {
        assert TracksAt(last, shift, enc.streams, d.streams, csid);
      }
    }
  }

  /** Every run of plain messages in which no time steps back by exactly one millisecond: the
      receiver has all of them, each at its time plus 2^24 for every step back so far on its chunk
      stream since the last full header. */
  lemma {:induction false} RunHeard(last: map<u32, Last>, shift: map<u32, u32>, enc: Encoder, d: Decoder,
                                    ms: seq<RtmpChunk>, log: seq<RtmpChunk>, accept: Handler)
    requires TracksAll(last, shift, enc, d) && AllPlain(last, ms) && NoOneBack(last, ms)
    requires AcceptsAll(accept, log, Heard(last, shift, ms))
    ensures var c := Drain(Feed(Idle(d, log), Written(enc, ms)), accept);
      c == Idle(c.dec, log + Heard(last, shift, ms))
    decreases |ms|
  {
    assert enc.chunkSize >= 1;
    hide TracksAll, Plain, OneBack, Drain, AcceptsAll, Encode, AfterMessageShift, Next;
    if ms == [] {
      NothingToRead(d, log, accept);
      assert log + [] == log;
    } else {
      var m, one := ms[0], Heard(last, shift, [ms[0]]);
      var last', shift', enc' := Next(last, m), AfterMessageShift(last, shift, m), Encode(enc, m).0;
      var later := Heard(last', shift', ms[1..]);
      HeardOne(last, shift, ms);
      AcceptsSplit(accept, log, one, later);
      OneHeard(last, shift, enc, d, m, log, accept);
      var c := Drain(Feed(Idle(d, log), Encode(enc, m).1), accept);
      SizeStays(enc, m);
      RunHeard(last', shift', enc', c.dec, ms[1..], log + one, accept);
      DrainThenFeed(Feed(Idle(d, log), Encode(enc, m).1), Written(enc', ms[1..]), accept);
      FeedTwice(Idle(d, log), Encode(enc, m).1, Written(enc', ms[1..]));
      assert Feed(c, Written(enc', ms[1..])) == Feed(Idle(c.dec, log + one), Written(enc', ms[1..]));
      ConcatAssociates(log, one, later);
    }
  }

  lemma HeardOne(last: map<u32, Last>, shift: map<u32, u32>, ms: seq<RtmpChunk>)
    requires ms != []
    ensures Heard(last, shift, ms)
         == Heard(last, shift, [ms[0]]) + Heard(Next(last, ms[0]), AfterMessageShift(last, shift, ms[0]), ms[1..])
  {
    hide AfterMessageShift, Next;
    assert Heard(Next(last, ms[0]), AfterMessageShift(last, shift, ms[0]), [ms[0]][1..]) == [];
  }

  lemma SizeStays(enc: Encoder, m: RtmpChunk)
    requires enc.chunkSize >= 1
    ensures Encode(enc, m).0.chunkSize == enc.chunkSize
  {
  }

  // ---- when all times are right ----

  predicate InOrder(last: Option<Last>, m: RtmpChunk) {
    last.Some? ==> last.value.timestamp <= m.timestamp
  }

  predicate NeverBack(last: map<u32, Last>, ms: seq<RtmpChunk>)
    decreases |ms|
  {
    ms == [] || (InOrder(LastOn(last, ms[0].csid), ms[0]) && NeverBack(Next(last, ms[0]), ms[1..]))
  }

  /** From clocks that are right, all messages are heard as they were sent exactly if no time on
      any chunk stream ever steps back. */
  lemma {:induction false} HeardAsSent(last: map<u32, Last>, shift: map<u32, u32>, ms: seq<RtmpChunk>)
    requires AllPlain(last, ms) && forall csid :: csid in shift ==> shift[csid] == 0
    ensures Heard(last, shift, ms) == ms <==> NeverBack(last, ms)
    ensures NeverBack(last, ms) ==> NoOneBack(last, ms)
    decreases |ms|
  {
    hide IsControl, ValidCsid;
    if ms != [] {
      var m, shift' := ms[0], AfterMessageShift(last, shift, ms[0]);
      var heard := Heard(last, shift, ms);
      assert heard[0] == m.(timestamp := (m.timestamp + shift'[m.csid]) % TWO_TO_THE_32);
      assert heard[1..] == Heard(Next(last, m), shift', ms[1..]);
      if InOrder(LastOn(last, m.csid), m) {
        HeardAsSent(Next(last, m), shift', ms[1..]);
        assert ms == [m] + ms[1..] && heard == [heard[0]] + heard[1..];
      }
    }
  }

  function Sends(ms: seq<RtmpChunk>): seq<Call> {
    if ms == [] then [] else [Send(ms[0])] + Sends(ms[1..])
  }

  /** So the plain conditions of whole calls are exact. */
  lemma {:induction false} PlainIsExact(last: map<u32, Last>, ms: seq<RtmpChunk>)
    requires AllPlain(last, ms)
    ensures PlainCalls(last, Sends(ms)) <==> NeverBack(last, ms)
    decreases |ms|
  {
    hide AfterPlain;
    if ms != [] {
      PlainIsExact(Next(last, ms[0]), ms[1..]);
      assert Sends(ms)[1..] == Sends(ms[1..]);
    }
  }

  // ---- once ahead, always ahead ----

  /** On one chunk stream: no step back, and no change of message stream. */
  predicate Steady(last: map<u32, Last>, ms: seq<RtmpChunk>, csid: u32)
    decreases |ms|
  {
    ms == [] ||
    (&& (ms[0].csid == csid ==> InOrder(LastOn(last, csid), ms[0])
                                && (csid in last ==> ms[0].streamId == last[csid].streamId))
     && Steady(Next(last, ms[0]), ms[1..], csid))
  }

  lemma {:induction false} SteadyShift(last: map<u32, Last>, shift: map<u32, u32>, ms: seq<RtmpChunk>, csid: u32,
                                       k: nat)
    requires csid in last && csid in shift && Steady(last, ms, csid) && k < |ms| && ms[k].csid == csid
    ensures |Heard(last, shift, ms)| == |ms|
    ensures Heard(last, shift, ms)[k] == ms[k].(timestamp := (ms[k].timestamp + shift[csid]) % TWO_TO_THE_32)
    decreases |ms|
  {
    hide Steady;
    var last', shift' := Next(last, ms[0]), AfterMessageShift(last, shift, ms[0]);
    SteadyStep(last, shift, ms, csid);
    HeardLength(last', shift', ms[1..]);
    if k > 0 {
      SteadyShift(last', shift', ms[1..], csid, k - 1);
    }
  }

  lemma SteadyStep(last: map<u32, Last>, shift: map<u32, u32>, ms: seq<RtmpChunk>, csid: u32)
    requires csid in last && csid in shift && ms != [] && Steady(last, ms, csid)
    ensures var last', shift' := Next(last, ms[0]), AfterMessageShift(last, shift, ms[0]);
      csid in last' && csid in shift' && shift'[csid] == shift[csid] && Steady(last', ms[1..], csid)
  {
  }

  lemma {:induction false} HeardLength(last: map<u32, Last>, shift: map<u32, u32>, ms: seq<RtmpChunk>)
    ensures |Heard(last, shift, ms)| == |ms|
    decreases |ms|
  {
    if ms != [] {
      HeardLength(Next(last, ms[0]), AfterMessageShift(last, shift, ms[0]), ms[1..]);
    }
  }

  /** A message that steps back is heard 2^24 ms late, and with it everything after it on its
      chunk stream. */
  lemma AheadForGood(last: map<u32, Last>, shift: map<u32, u32>, ms: seq<RtmpChunk>, k: nat)
    requires k < |ms| && ms[k].csid == ms[0].csid && ms[0].csid in last
    requires ms[0].streamId == last[ms[0].csid].streamId && ms[0].timestamp < last[ms[0].csid].timestamp
    requires Steady(Next(last, ms[0]), ms[1..], ms[0].csid)
    ensures |Heard(last, shift, ms)| == |ms|
    ensures Heard(last, shift, ms)[k].timestamp
         == (ms[k].timestamp + (ShiftOn(shift, ms[0].csid) + TWO_TO_THE_24) % TWO_TO_THE_32) % TWO_TO_THE_32
  {
    hide Steady;
    var last', shift' := Next(last, ms[0]), AfterMessageShift(last, shift, ms[0]);
    HeardLength(last', shift', ms[1..]);
    if k > 0 {
      SteadyShift(last', shift', ms[1..], ms[0].csid, k - 1);
    }
  }

  // ---- after a session ----

  lemma TracksOne(last: map<u32, Last>, x: Side, d: Decoder, csid: u32)
    requires PlainState(last, x, csid) && LinkedAt(SenderOf(x), d.streams, csid)
    ensures TracksAt(last, map[], x.enc.streams, d.streams, csid)
  {
  }

  /** Plain calls leave both sides in step, with right clocks. */
  lemma PlainTracks(last: map<u32, Last>, x: Side, d: Decoder)
    requires PlainSide(last, x) && Linked(SenderOf(x), d)
    ensures TracksAll(last, map[], x.enc, d)
  {
    hide PlainState, LinkedState, Tracks;
    forall csid: u32 ensures TracksAt(last, map[], x.enc.streams, d.streams, csid) {
      assert PlainState(last, x, csid);
      assert LinkedAt(SenderOf(x), d.streams, csid);
      TracksOne(last, x, d, csid);
    }
  }

  /** A whole connection: plain calls, then messages whose times go as they like but for a step back
      of one millisecond, read in any fragments. */
  lemma SessionHeard(calls: seq<Call>, ms: seq<RtmpChunk>, fragments: seq<bytes>, accept: Handler)
    requires PlainCalls(map[], calls) && LegalCalls(FRESH_SIDE, calls)
    requires var last := AfterAllPlain(map[], calls); AllPlain(last, ms) && NoOneBack(last, ms)
    requires AfterCalls(FRESH_SIDE, calls).enc.chunkSize >= 1
    requires Flatten(fragments) == Transmit(FRESH_SIDE, calls) + Written(AfterCalls(FRESH_SIDE, calls).enc, ms)
    requires AcceptsAll(accept, [], Sent(calls) + Heard(AfterAllPlain(map[], calls), map[], ms))
    ensures var c := ReadAll(Idle(FRESH_DECODER, []), fragments, accept);
      c.log == Sent(calls) + Heard(AfterAllPlain(map[], calls), map[], ms) && c.buf == [] && c.error == None
  {
    hide AllPlain, NoOneBack, AcceptsAll, Drain, ReadAll, PlainCalls, LegalCalls, Linked, PlainSide, TracksAll,
      LegalRun, WireOf, LogOf, Final, AllSteps;
    var x, last := AfterCalls(FRESH_SIDE, calls), AfterAllPlain(map[], calls);
    var first, later := Transmit(FRESH_SIDE, calls), Written(x.enc, ms);
    var heard := Heard(last, map[], ms);
    FreshPlain();
    PlainCallsAreLegal(map[], FRESH_SIDE, calls);
    CallsAreRun(FRESH_SIDE, calls);
    FreshLinked();
    AcceptsSplit(accept, [], Sent(calls), heard);
    assert [] + Sent(calls) == Sent(calls);
    var start := Idle(FRESH_DECODER, []);
    RunArrives(FRESH_SENDER, AllSteps(FRESH_SIDE, calls), FRESH_DECODER, [], accept);
    var c := Drain(Feed(start, first), accept);
    PlainTracks(last, x, c.dec);
    RunHeard(last, map[], x.enc, c.dec, ms, Sent(calls), accept);
    DrainThenFeed(Feed(start, first), later, accept);
    FeedTwice(start, first, later);
    assert Feed(c, later) == Feed(Idle(c.dec, Sent(calls)), later);
    FragmentationIndependence(start, fragments, accept);
  }

  lemma FreshPlain()
    ensures PlainSide(map[], FRESH_SIDE) && SenderOf(FRESH_SIDE) == FRESH_SENDER
  {
  }
}
