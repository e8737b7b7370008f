/** Sessions made of whole calls of the encoder object: messages sent one after the
    other, announced chunk sizes put into force, resets. They are runs of the
    sender of `ChunkSession`, so everything proved there holds of them. */
module EncoderSession {
  import opened Bytes
  import opened ChunkModel
  import opened ChunkMirror
  import opened ChunkRuns
  import opened ChunkSession
  import opened Reading

  datatype Call = Send(m: RtmpChunk) | ResetEncoder

  /** An encoder, and the record of deltas its peer holds. */
  datatype Side = Side(enc: Encoder, peerDelta: map<u32, u32>)

  const FRESH_SIDE := Side(Encoder(DEFAULT_CHUNK_SIZE, map[]), map[])

  function SenderOf(x: Side): Sender {
    Sender(x.enc.chunkSize, x.enc.streams, x.peerDelta, map[])
  }

  predicate LegalCall(x: Side, call: Call) {
    call.Send? ==> Legal(SenderOf(x), Start(call.m))
  }

  /** After a SetChunkSize message is out, the sender puts the size into force. */
  function AfterCall(x: Side, call: Call): Side
    requires LegalCall(x, call)
  {
    match call
    case ResetEncoder => x.(enc := x.enc.(streams := map[]))
    case Send(m) =>
      var enc := Encode(x.enc, m).0;
      Side(if m.msgType == MSG_SET_CHUNK_SIZE then enc.(chunkSize := Min(U32At(m.payload, 0), MAX_CHUNK_SIZE)) else enc,
           x.peerDelta[m.csid := PeerDelta(m, StateOf(x.enc.streams, m.csid))])
  }

  predicate LegalCalls(x: Side, calls: seq<Call>)
    decreases |calls|
  {
    calls == [] || (LegalCall(x, calls[0]) && LegalCalls(AfterCall(x, calls[0]), calls[1..]))
  }

  function AfterCalls(x: Side, calls: seq<Call>): Side
    requires LegalCalls(x, calls)
    decreases |calls|
  {
    if calls == [] then x else AfterCalls(AfterCall(x, calls[0]), calls[1..])
  }

  /** The bytes the encoder calls append. */
  function Transmit(x: Side, calls: seq<Call>): bytes
    requires LegalCalls(x, calls)
    decreases |calls|
  {
    if calls == [] then []
    else
      (if calls[0].Send? then Encode(x.enc, calls[0].m).1 else [])
      + Transmit(AfterCall(x, calls[0]), calls[1..])
  }

  function Sent(calls: seq<Call>): seq<RtmpChunk> {
    if calls == [] then [] else (if calls[0].Send? then [calls[0].m] else []) + Sent(calls[1..])
  }

  // ---- a call is a run of chunk steps ----

  function Finish(m: RtmpChunk, size: u32, offset: nat): seq<Step>
    requires size >= 1
    decreases |m.payload| - offset
  {
    if offset >= |m.payload| then [] else [Continue(m.csid)] + Finish(m, size, NextOffset(m, size, offset))
  }

  function StepsOf(x: Side, call: Call): seq<Step>
    requires LegalCall(x, call)
  {
    match call
    case ResetEncoder => [Reset]
    case Send(m) => [Start(m)] + Finish(m, x.enc.chunkSize, NextOffset(m, x.enc.chunkSize, 0))
  }

  lemma RunCons(s: Sender, step: Step, steps: seq<Step>)
    requires Legal(s, step) && LegalRun(Next(s, step), steps)
    ensures LegalRun(s, [step] + steps)
    ensures WireOf(s, [step] + steps) == Wire(s, step) + WireOf(Next(s, step), steps)
    ensures LogOf(s, [step] + steps) == Ends(s, step) + LogOf(Next(s, step), steps)
    ensures Final(s, [step] + steps) == Final(Next(s, step), steps)
  {
    hide Legal, Next, Wire, Ends;
    assert ([step] + steps)[0] == step && ([step] + steps)[1..] == steps;
  }

  lemma {:induction false} RunConcat(s: Sender, a: seq<Step>, b: seq<Step>)
    requires LegalRun(s, a) && LegalRun(Final(s, a), b)
    ensures LegalRun(s, a + b)
    ensures WireOf(s, a + b) == WireOf(s, a) + WireOf(Final(s, a), b)
    ensures LogOf(s, a + b) == LogOf(s, a) + LogOf(Final(s, a), b)
    ensures Final(s, a + b) == Final(Final(s, a), b)
    decreases |a|
  {
    hide Legal, Next, Wire, Ends;
    if a == [] {
      assert a + b == b;
    } else {
      RunConcat(Next(s, a[0]), a[1..], b);
      RunCons(s, a[0], a[1..] + b);
      assert a + b == [a[0]] + (a[1..] + b);
      ConcatAssociates(Wire(s, a[0]), WireOf(Next(s, a[0]), a[1..]), WireOf(Final(s, a), b));
    }
  }

  lemma {:induction false} FinishIsRun(s: Sender, o: Open)
    requires s.size >= 1 && o.m.csid in s.open && s.open[o.m.csid] == o
    requires o.offset < |o.m.payload| && ControlLegal(o.m)
    ensures var steps := Finish(o.m, s.size, o.offset);
      && LegalRun(s, steps)
      && WireOf(s, steps) == Flatten(ChunksFrom(o.m, o.e, s.size, o.offset))
      && LogOf(s, steps) == [o.m]
      && Final(s, steps) == Control(s.(open := s.open - {o.m.csid}), o.m)
    decreases |o.m.payload| - o.offset
  {
    var step, next := Continue(o.m.csid), NextOffset(o.m, s.size, o.offset);
    assert Legal(s, step) && Emits(s, step) == o;
    var s' := Next(s, step);
    if next < |o.m.payload| {
      var o' := o.(offset := next);
      assert s' == s.(open := s.open[o.m.csid := o']);
      FinishIsRun(s', o');
      ReopenThenClose(s, o.m.csid, o');
    } else {
      assert Finish(o.m, s.size, next) == [];
    }
    RunCons(s, step, Finish(o.m, s.size, next));
  }

  lemma ReopenThenClose(s: Sender, csid: u32, o: Open)
    ensures s.open[csid := o] - {csid} == s.open - {csid}
  {
  }

  lemma CallIsRun(x: Side, call: Call)
    requires LegalCall(x, call)
    ensures var s, steps := SenderOf(x), StepsOf(x, call);
      && LegalRun(s, steps)
      && WireOf(s, steps) == (if call.Send? then Encode(x.enc, call.m).1 else [])
      && LogOf(s, steps) == Sent([call])
      && Final(s, steps) == SenderOf(AfterCall(x, call))
  {
    match call
    case Send(m) => SendIsRun(x, m);
    case ResetEncoder =>
      assert [Reset] + [] == [Reset];
      RunCons(SenderOf(x), Reset, []);
      EmptyRun(Next(SenderOf(x), Reset));
  }

  lemma SendIsRun(x: Side, m: RtmpChunk)
    requires LegalCall(x, Send(m))
    ensures var s, steps := SenderOf(x), StepsOf(x, Send(m));
      && LegalRun(s, steps)
      && WireOf(s, steps) == Encode(x.enc, m).1
      && LogOf(s, steps) == [m]
      && Final(s, steps) == SenderOf(AfterCall(x, Send(m)))
  {
    var s, size, e := SenderOf(x), x.enc.chunkSize, StateOf(x.enc.streams, m.csid);
    var next := NextOffset(m, size, 0);
    var s', rest := Next(s, Start(m)), Finish(m, size, next);
    assert s.open - {m.csid} == map[];
    EmptyControl(s.(enc := s.enc[m.csid := NextState(m, e)], peerDelta := s.peerDelta[m.csid := PeerDelta(m, e)]), m);
    if next < |m.payload| {
      FinishIsRun(s', Open(m, e, next));
      assert s'.open - {m.csid} == map[];
    } else {
      EmptyRun(s');
      assert rest == [] && ChunksFrom(m, e, size, next) == [];
    }
    assert Flatten(ChunksFrom(m, e, size, 0)) == ChunkAt(m, e, size, 0) + Flatten(ChunksFrom(m, e, size, next));
    RunCons(s, Start(m), rest);
  }

  lemma EmptyControl(s: Sender, m: RtmpChunk)
    requires s.open == map[] && ControlLegal(m)
    ensures Control(s, m) ==
      if m.msgType == MSG_SET_CHUNK_SIZE then s.(size := Min(U32At(m.payload, 0), MAX_CHUNK_SIZE)) else s
  {
  }

  function AllSteps(x: Side, calls: seq<Call>): seq<Step>
    requires LegalCalls(x, calls)
    decreases |calls|
  {
    if calls == [] then [] else StepsOf(x, calls[0]) + AllSteps(AfterCall(x, calls[0]), calls[1..])
  }

  lemma {:induction false} CallsAreRun(x: Side, calls: seq<Call>)
    requires LegalCalls(x, calls)
    ensures var s, steps := SenderOf(x), AllSteps(x, calls);
      && LegalRun(s, steps)
      && WireOf(s, steps) == Transmit(x, calls)
      && LogOf(s, steps) == Sent(calls)
      && Final(s, steps) == SenderOf(AfterCalls(x, calls))
    decreases |calls|
  {
    hide StepsOf, AfterCall, LegalCall, LegalRun, WireOf, LogOf, Final, SenderOf, Encode;
    if calls == [] {
      EmptyRun(SenderOf(x));
    } else {
      var x' := AfterCall(x, calls[0]);
      CallIsRun(x, calls[0]);
      CallsAreRun(x', calls[1..]);
      RunConcat(SenderOf(x), StepsOf(x, calls[0]), AllSteps(x', calls[1..]));
      SentOne(calls[0]);
    }
  }

  lemma EmptyRun(s: Sender)
    ensures LegalRun(s, []) && WireOf(s, []) == [] && LogOf(s, []) == [] && Final(s, []) == s
  {
  }

  lemma SentOne(call: Call)
    ensures Sent([call]) == if call.Send? then [call.m] else []
  {
  }

  /** Round trip of a session: the server's reading loop, fed the encoder's bytes in any
      fragments, logs exactly the messages sent, in order, and is left with no bytes. */
  lemma SessionRoundTrip(calls: seq<Call>, fragments: seq<bytes>, accept: Handler)
    requires LegalCalls(FRESH_SIDE, calls) && Flatten(fragments) == Transmit(FRESH_SIDE, calls)
    requires AcceptsAll(accept, [], Sent(calls))
    ensures var c := ReadAll(Idle(FRESH_DECODER, []), fragments, accept);
      c.log == Sent(calls) && c.buf == [] && c.error == None
  {
    CallsAreRun(FRESH_SIDE, calls);
    SessionArrives(AllSteps(FRESH_SIDE, calls), fragments, accept);
  }

  // ---- sessions that need no bookkeeping ----

  /** What an application keeps in mind per chunk stream: time and stream id of its last message. */
  datatype Last = Last(timestamp: u32, streamId: u32)

  function AfterPlain(last: map<u32, Last>, call: Call): map<u32, Last> {
    if call.Send? then last[call.m.csid := Last(call.m.timestamp, call.m.streamId)] else map[]
  }

  /** Times stay below the extended range; a chunk stream changes its message stream only after
      a message at time 0. */
  predicate PlainShape(last: map<u32, Last>, m: RtmpChunk) {
    && ValidCsid(m.csid) && 0 < |m.payload| < TWO_TO_THE_24 && m.msgType != 0 && ControlLegal(m)
    && m.timestamp < EXTENDED_TIMESTAMP
    && (m.csid in last ==> m.streamId == last[m.csid].streamId || last[m.csid].timestamp == 0)
  }

  /** And times never run backwards on a stream. */
  predicate PlainCall(last: map<u32, Last>, call: Call) {
    call.Send? ==>
      && PlainShape(last, call.m)
      && (call.m.csid in last ==> last[call.m.csid].timestamp <= call.m.timestamp)
  }

  predicate PlainCalls(last: map<u32, Last>, calls: seq<Call>)
    decreases |calls|
  {
    calls == [] || (PlainCall(last, calls[0]) && PlainCalls(AfterPlain(last, calls[0]), calls[1..]))
  }

  predicate PlainState(last: map<u32, Last>, x: Side, csid: u32) {
    var e := StateOf(x.enc.streams, csid);
    if csid in last then
      && e.timestamp == last[csid].timestamp < EXTENDED_TIMESTAMP && e.streamId == last[csid].streamId
      && !e.hasExtended && e.msgType != 0 && csid in x.peerDelta && x.peerDelta[csid] == e.delta < EXTENDED_TIMESTAMP
    else
      e == DEFAULT_STATE
  }

  ghost predicate PlainSide(last: map<u32, Last>, x: Side) {
    x.enc.chunkSize >= 1 && forall csid: u32 :: PlainState(last, x, csid)
  }

  lemma PlainIsLegal(last: map<u32, Last>, x: Side, m: RtmpChunk)
    requires x.enc.chunkSize >= 1 && PlainState(last, x, m.csid) && PlainCall(last, Send(m))
    ensures LegalCall(x, Send(m))
    ensures PeerDelta(m, StateOf(x.enc.streams, m.csid)) == TimeDelta(m, StateOf(x.enc.streams, m.csid))
    ensures TimeDelta(m, StateOf(x.enc.streams, m.csid)) < EXTENDED_TIMESTAMP
  {
  }

  lemma PlainStateKept(last: map<u32, Last>, x: Side, call: Call, csid: u32)
    requires PlainState(last, x, csid) && PlainCall(last, call) && LegalCall(x, call)
    requires call.Send? && call.m.csid == csid ==>
      PeerDelta(call.m, StateOf(x.enc.streams, csid)) == TimeDelta(call.m, StateOf(x.enc.streams, csid))
        < EXTENDED_TIMESTAMP
    ensures PlainState(AfterPlain(last, call), AfterCall(x, call), csid)
  {
    hide PeerDelta, TimeDelta, Legal;
  }

  lemma PlainStep(last: map<u32, Last>, x: Side, call: Call)
    requires PlainSide(last, x) && PlainCall(last, call)
    ensures LegalCall(x, call) && PlainSide(AfterPlain(last, call), AfterCall(x, call))
  {
    hide PlainState, PlainCall, PeerDelta, TimeDelta, AfterPlain, Legal;
    if call.Send? {
      assert PlainState(last, x, call.m.csid);
      PlainIsLegal(last, x, call.m);
    }
    forall csid: u32 ensures PlainState(AfterPlain(last, call), AfterCall(x, call), csid) {
      assert PlainState(last, x, csid);
      PlainStateKept(last, x, call, csid);
    }
    PositiveSize(x, call);
  }

  lemma PositiveSize(x: Side, call: Call)
    requires x.enc.chunkSize >= 1 && LegalCall(x, call)
    ensures AfterCall(x, call).enc.chunkSize >= 1
  {
  }

  function AfterAllPlain(last: map<u32, Last>, calls: seq<Call>): map<u32, Last>
    decreases |calls|
  {
    if calls == [] then last else AfterAllPlain(AfterPlain(last, calls[0]), calls[1..])
  }

  lemma {:induction false} PlainCallsAreLegal(last: map<u32, Last>, x: Side, calls: seq<Call>)
    requires PlainSide(last, x) && PlainCalls(last, calls)
    ensures LegalCalls(x, calls) && PlainSide(AfterAllPlain(last, calls), AfterCalls(x, calls))
    decreases |calls|
  {
    hide PlainSide, PlainCall, LegalCall, AfterCall;
    if calls != [] {
      PlainStep(last, x, calls[0]);
      PlainCallsAreLegal(AfterPlain(last, calls[0]), AfterCall(x, calls[0]), calls[1..]);
    }
  }

  lemma PlainSessionRoundTrip(calls: seq<Call>, fragments: seq<bytes>, accept: Handler)
    requires PlainCalls(map[], calls)
    ensures LegalCalls(FRESH_SIDE, calls)
    ensures Flatten(fragments) == Transmit(FRESH_SIDE, calls) && AcceptsAll(accept, [], Sent(calls)) ==>
      var c := ReadAll(Idle(FRESH_DECODER, []), fragments, accept);
      c.log == Sent(calls) && c.buf == [] && c.error == None
  {
    PlainCallsAreLegal(map[], FRESH_SIDE, calls);
    if Flatten(fragments) == Transmit(FRESH_SIDE, calls) && AcceptsAll(accept, [], Sent(calls)) {
      SessionRoundTrip(calls, fragments, accept);
    }
  }
}
