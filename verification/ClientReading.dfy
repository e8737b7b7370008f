/** The client's reading loop. It decodes once and waits for the socket unless that
    call completed a message, where the server's loop decodes until nothing moves. */
module ClientReading {
  import opened Bytes
  import opened ChunkModel
  import opened ChunkRuns
  import opened ChunkSession
  import opened ClientChunks
  import opened EncoderSession
  import opened Reading

  /** Who calls `read_message`: while connecting or publishing starts the client obeys SetChunkSize,
      while it plays it does not. It never obeys Abort. */
  datatype Caller = Connecting | Playing

  function Obeyed(caller: Caller, d: Decoder, m: RtmpChunk): Decoder {
    if caller == Connecting && m.msgType == MSG_SET_CHUNK_SIZE && |m.payload| >= 4
    then d.(chunkSize := AnnouncedSize(m)) else d
  }

  /** The messages a client takes from what is in its buffer before it waits for more. Each is parsed
      then; that a parse error ends the reading is not followed here. */
  function ClientReads(caller: Caller, d: Decoder, buf: bytes): seq<RtmpChunk>
    decreases |buf|
  {
    var r := Decode(d, buf);
    if r.outcome.Complete? then [r.outcome.chunk] + ClientReads(caller, Obeyed(caller, r.dec, r.outcome.chunk), r.rest)
    else []
  }

  // ---- the same, said about the sender's run ----

  /** The messages in front of the first chunk that does not end its message. */
  function Leading(s: Sender, steps: seq<Step>): seq<RtmpChunk>
    requires LegalRun(s, steps)
    decreases |steps|
  {
    if steps == [] then []
    else if steps[0].Reset? then Leading(Next(s, steps[0]), steps[1..])
    else if Ends(s, steps[0]) == [] then []
    else Ends(s, steps[0]) + Leading(Next(s, steps[0]), steps[1..])
  }

  /** The messages that end behind that chunk. */
  function Behind(s: Sender, steps: seq<Step>): seq<RtmpChunk>
    requires LegalRun(s, steps)
    decreases |steps|
  {
    if steps == [] then []
    else if steps[0].Reset? || Ends(s, steps[0]) != [] then Behind(Next(s, steps[0]), steps[1..])
    else LogOf(s, steps)
  }

  lemma {:induction false} LeadingAndBehind(s: Sender, steps: seq<Step>)
    requires LegalRun(s, steps)
    ensures LogOf(s, steps) == Leading(s, steps) + Behind(s, steps)
    decreases |steps|
  {
    hide Legal, Next, Ends;
    if steps != [] {
      assert [] + LogOf(s, steps) == LogOf(s, steps);
      if steps[0].Reset? {
        LeadingAndBehind(Next(s, steps[0]), steps[1..]);
        NoEnd(s);
        assert [] + LogOf(Next(s, steps[0]), steps[1..]) == LogOf(Next(s, steps[0]), steps[1..]);
      } else if Ends(s, steps[0]) != [] {
        var s', rest := Next(s, steps[0]), steps[1..];
        LeadingAndBehind(s', rest);
        ConcatAssociates(Ends(s, steps[0]), Leading(s', rest), Behind(s', rest));
      }
    }
  }

  lemma NoEnd(s: Sender)
    ensures Legal(s, Reset) && Ends(s, Reset) == []
  {
  }

  // ---- control messages that the client does not obey ----

  /** The client's chunk size after message `m`. */
  function SizeAfter(caller: Caller, size: u32, m: RtmpChunk): u32 {
    if caller == Connecting && m.msgType == MSG_SET_CHUNK_SIZE && |m.payload| >= 4 then AnnouncedSize(m) else size
  }

  /** The chunk streams on which the client still holds data that the sender took back. */
  function AbortedAfter(aborted: set<u32>, s: Sender, m: RtmpChunk): set<u32> {
    if m.msgType == MSG_ABORT && |m.payload| >= 4 && U32At(m.payload, 0) in s.open
    then aborted + {U32At(m.payload, 0)}
    else aborted
  }

  /** `front` is what the client takes as it was sent; `garbled` is what it takes next, if it takes
      bytes of the following chunks for those of a message. */
  datatype Taking = Taking(front: seq<RtmpChunk>, garbled: Option<RtmpChunk>)

  /** The message as a client sees it that takes all of the rest for one chunk. */
  function Garbled(o: Open, size: u32, later: bytes): RtmpChunk
    requires o.offset + size <= |o.m.payload| && Left(o) - size <= |later|
  {
    o.m.(payload := o.m.payload[..o.offset + size] + later[..Left(o) - size])
  }

  /** What a client with chunk size `size` makes of a run and `tail` behind it. A chunk that it cuts
      shorter than the sender leaves it waiting. */
  function Takes(caller: Caller, size: u32, s: Sender, steps: seq<Step>, tail: bytes): Taking
    requires LegalRun(s, steps)
    decreases |steps|
  {
    if steps == [] then Taking([], None)
    else
      var s', rest := Next(s, steps[0]), steps[1..];
      if steps[0].Reset? then Takes(caller, size, s', rest, tail)
      else
        var o, later := Emits(s, steps[0]), WireOf(s', rest) + tail;
        if Left(o) > size then Taking([], None)
        else if Left(o) > s.size then
          Taking([], if |later| < Left(o) - s.size then None else Some(Garbled(o, s.size, later)))
        else
          var t := Takes(caller, SizeAfter(caller, size, o.m), s', rest, tail);
          t.(front := [o.m] + t.front)
  }

  /** No chunk that the client looks at belongs to a stream on which it ignored an abort. */
  ghost predicate Unaborted(s: Sender, steps: seq<Step>, tail: bytes, aborted: set<u32>)
    requires LegalRun(s, steps)
    decreases |steps|
  {
    if steps == [] then CutOff(s, tail, aborted)
    else if steps[0].Reset? then Unaborted(Next(s, steps[0]), steps[1..], tail, aborted)
    else
      var m := Emits(s, steps[0]).m;
      && m.csid !in aborted
      && (Ends(s, steps[0]) == [] ||
          Unaborted(Next(s, steps[0]), steps[1..], tail, AbortedAfter(aborted, Emitted(s, steps[0]), m)))
  }

  // ---- what a message does ----

  /** What the obedient decoder does with a message; an abort with nothing to take back needs nothing. */
  function Obey(s: Sender, q: Decoder, m: RtmpChunk): Decoder {
    if m.msgType == MSG_ABORT && |m.payload| >= 4 && U32At(m.payload, 0) !in s.open then q
    else AfterMessage(q, [], m, (_, _) => true).0
  }

  lemma ControlBeside(caller: Caller, s: Sender, q: Decoder, d: Decoder, aborted: set<u32>, m: RtmpChunk)
    requires Linked(s, q) && Beside(d, q, aborted) && ControlLegal(m)
    ensures Linked(Control(s, m), Obey(s, q, m))
    ensures Beside(Obeyed(caller, d, m), Obey(s, q, m), AbortedAfter(aborted, s, m))
    ensures Obeyed(caller, d, m).chunkSize == SizeAfter(caller, d.chunkSize, m)
  {
    ControlLinks(s, q, m, [], (_, _) => true);
    hide Linked, LinkedState;
    if m.msgType == MSG_ABORT && |m.payload| >= 4 && U32At(m.payload, 0) !in s.open {
      assert Control(s, m).open == s.open;
    }
  }

  // ---- runs ----

  lemma OneRead(caller: Caller, d: Decoder, buf: bytes)
    ensures var r := Decode(d, buf);
      ClientReads(caller, d, buf) ==
        if r.outcome.Complete?
        then [r.outcome.chunk] + ClientReads(caller, Obeyed(caller, r.dec, r.outcome.chunk), r.rest) else []
  {
    hide Decode;
  }

  /** The first chunk that the client does not take as the sender cut it. */
  lemma OtherCut(caller: Caller, s: Sender, step: Step, obedient: Decoder, d: Decoder, aborted: set<u32>, later: bytes)
    requires Legal(s, step) && !step.Reset? && Linked(s, obedient) && Beside(d, obedient, aborted)
    requires var o := Emits(s, step); o.m.csid !in aborted && (Left(o) > d.chunkSize || Left(o) > s.size)
    ensures var o, taken := Emits(s, step), ClientReads(caller, d, Wire(s, step) + later);
      if Left(o) > d.chunkSize || |later| < Left(o) - s.size then taken == []
      else
        && o.offset + s.size <= |o.m.payload| && Left(o) - s.size <= |later|
        && [Garbled(o, s.size, later)] <= taken
  {
    hide Decode, LinkedState, Legal, Emits, ChunkHeader, DoneOf;
    var o := Emits(s, step);
    WireIsCut(s, step);
    var data := o.m.payload[o.offset..NextOffset(o.m, s.size, o.offset)];
    assert AsCut(o, data + later) == Wire(s, step) + later;
    LooksAt(s, step, obedient, d, aborted, data + later);
    OneRead(caller, d, Wire(s, step) + later);
    if Left(o) <= d.chunkSize && |later| >= Left(o) - s.size {
      GarbledIs(o, s.size, data, later);
    }
  }

  lemma GarbledIs(o: Open, size: u32, data: bytes, later: bytes)
    requires size < Left(o) && data == o.m.payload[o.offset..o.offset + size] && |later| >= Left(o) - size
    ensures WithData(o, (data + later)[..Left(o)]) == Garbled(o, size, later)
  {
    var all, part := (data + later)[..Left(o)], later[..Left(o) - size];
    assert all == data + part;
    assert o.m.payload[..o.offset] + data == o.m.payload[..o.offset + size];
    ConcatAssociates(o.m.payload[..o.offset], data, part);
    assert o.m.payload[o.offset + |all|..] == [];
  }

  /** What a client takes from any legal run of chunks with part of another behind it, beginning in
      step with the sender: `Takes` says it, for the chunk size it goes by, and if it takes bytes of
      other chunks into a message, what message that is. */
  lemma {:induction false} ClientTakes(caller: Caller, s: Sender, steps: seq<Step>, tail: bytes, d: Decoder,
                                       obedient: Decoder, aborted: set<u32>)
    requires Linked(s, obedient) && Beside(d, obedient, aborted)
    requires LegalRun(s, steps) && Unaborted(s, steps, tail, aborted)
    ensures var t, taken := Takes(caller, d.chunkSize, s, steps, tail), ClientReads(caller, d, WireOf(s, steps) + tail);
      if t.garbled.None? then taken == t.front else t.front + [t.garbled.value] <= taken
    decreases |steps|
  {
    hide Linked, Decode, Emitted, Control, Legal, CutOff, Wire, Emits, Beside, ClientReads;
    if steps == [] {
      assert [] + tail == tail;
      CutOffWaits(s, tail, aborted, d, obedient);
      OneRead(caller, d, tail);
    } else if steps[0].Reset? {
      ResetLinks(s, obedient);
      ClientTakes(caller, Next(s, Reset), steps[1..], tail, d, obedient, aborted);
      ResetIsSilent(s);
      assert [] + WireOf(Next(s, Reset), steps[1..]) == WireOf(Next(s, Reset), steps[1..]);
    } else {
      var o, s', rest := Emits(s, steps[0]), Next(s, steps[0]), steps[1..];
      var later := WireOf(s', rest) + tail;
      ConcatAssociates(Wire(s, steps[0]), WireOf(s', rest), tail);
      if Left(o) > d.chunkSize || Left(o) > s.size {
        OtherCut(caller, s, steps[0], obedient, d, aborted, later);
      } else {
        EndsTaken(s, steps[0], obedient, d, aborted, later);
        WireIsCut(s, steps[0]);
        EndedIsLegal(s, steps[0]);
        var r, q := Decode(d, Wire(s, steps[0]) + later), Decode(obedient, Wire(s, steps[0]));
        ControlBeside(caller, Emitted(s, steps[0]), q.dec, r.dec, aborted, o.m);
        OneRead(caller, d, Wire(s, steps[0]) + later);
        ClientTakes(caller, s', rest, tail, Obeyed(caller, r.dec, o.m), Obey(Emitted(s, steps[0]), q.dec, o.m),
                    AbortedAfter(aborted, Emitted(s, steps[0]), o.m));
      }
    }
  }

  lemma ResetIsSilent(s: Sender)
    ensures Legal(s, Reset) && Wire(s, Reset) == []
  {
  }

  lemma EndedIsLegal(s: Sender, step: Step)
    requires Legal(s, step) && !step.Reset?
    ensures ControlLegal(Emits(s, step).m)
    ensures Ends(s, step) != [] ==>
      Ends(s, step) == [Emits(s, step).m] && Next(s, step) == Control(Emitted(s, step), Emits(s, step).m)
  {
  }

  // ---- the laws ----

  /** In any linked session, with the bytes of any legal run of chunks in the buffer and part of a
      further chunk behind them: the client takes the messages in front of the first chunk that does
      not end its message, or of the first that its own chunk size would cut shorter, and waits
      then, however many whole messages follow; unless it takes the bytes behind a chunk into the
      message because its chunk size is the larger one. */
  lemma ClientReadsRun(caller: Caller, s: Sender, steps: seq<Step>, tail: bytes, d: Decoder)
    requires Linked(s, d) && LegalRun(s, steps) && Unaborted(s, steps, tail, {})
    ensures var t := Takes(caller, s.size, s, steps, tail);
      var taken := ClientReads(caller, d, WireOf(s, steps) + tail);
      if t.garbled.None? then taken == t.front else t.front + [t.garbled.value] <= taken
  {
    hide Unaborted, Takes, WireOf, ClientReads, LegalRun, LinkedState;
    ClientTakes(caller, s, steps, tail, d, d, {});
  }

  /** The client's size makes no difference to the chunks that it looks at. */
  predicate CutAlike(caller: Caller, size: u32, s: Sender, steps: seq<Step>, tail: bytes)
    requires LegalRun(s, steps)
    decreases |steps|
  {
    steps == [] ||
    var s', rest := Next(s, steps[0]), steps[1..];
    if steps[0].Reset? then CutAlike(caller, size, s', rest, tail)
    else
      var o := Emits(s, steps[0]);
      if Ends(s, steps[0]) == [] then Left(o) > size || |WireOf(s', rest) + tail| < Left(o) - s.size
      else Left(o) <= size && CutAlike(caller, SizeAfter(caller, size, o.m), s', rest, tail)
  }

  /** Exactly then it takes what a client would take that obeys every SetChunkSize. */
  lemma {:induction false} TakesLeading(caller: Caller, size: u32, s: Sender, steps: seq<Step>, tail: bytes)
    requires LegalRun(s, steps)
    ensures var t := Takes(caller, size, s, steps, tail);
      && t.front <= Leading(s, steps)
      && (t == Taking(Leading(s, steps), None) <==> CutAlike(caller, size, s, steps, tail))
    decreases |steps|
  {
    hide Legal, Next, Emits, Wire, Ends, Control, Emitted;
    if steps != [] {
      var s', rest := Next(s, steps[0]), steps[1..];
      if steps[0].Reset? {
        TakesLeading(caller, size, s', rest, tail);
      } else {
        WireIsCut(s, steps[0]);
        var o := Emits(s, steps[0]);
        TakesLeading(caller, SizeAfter(caller, size, o.m), s', rest, tail);
        var t := Takes(caller, SizeAfter(caller, size, o.m), s', rest, tail);
        OneMore(o.m, t.front, Leading(s', rest));
      }
    }
  }

  lemma OneMore<T>(x: T, a: seq<T>, b: seq<T>)
    ensures [x] + a <= [x] + b <==> a <= b
    ensures [x] + a == [x] + b <==> a == b
  {
    assert ([x] + a)[1..] == a && ([x] + b)[1..] == b;
  }

  /** Every announced size among the leading messages is obeyed or is the one in force. */
  predicate SizesObeyed(caller: Caller, s: Sender, steps: seq<Step>)
    requires LegalRun(s, steps)
    decreases |steps|
  {
    steps == [] || (!steps[0].Reset? && Ends(s, steps[0]) == []) ||
    (&& (steps[0].Reset? || SizeAfter(caller, s.size, Emits(s, steps[0]).m) == Next(s, steps[0]).size)
     && SizesObeyed(caller, Next(s, steps[0]), steps[1..]))
  }

  lemma {:induction false} ObeyedIsAlike(caller: Caller, s: Sender, steps: seq<Step>, tail: bytes)
    requires LegalRun(s, steps) && SizesObeyed(caller, s, steps)
    ensures CutAlike(caller, s.size, s, steps, tail)
    decreases |steps|
  {
    hide Legal, Next, Emits, Wire, Ends, Control, Emitted;
    if steps != [] {
      if steps[0].Reset? {
        ResetKeepsSize(s);
        ObeyedIsAlike(caller, Next(s, Reset), steps[1..], tail);
      } else {
        WireIsCut(s, steps[0]);
        if Ends(s, steps[0]) != [] {
          ObeyedIsAlike(caller, Next(s, steps[0]), steps[1..], tail);
        }
      }
    }
  }

  lemma ResetKeepsSize(s: Sender)
    ensures Legal(s, Reset) && Next(s, Reset).size == s.size
  {
  }

  /** What a client holds of a message that was taken back stays in front of whatever message it
      completes on that chunk stream. */
  lemma AbortedDataStays(d: Decoder, buf: bytes)
    requires Decode(d, buf).outcome.Complete?
    ensures var m := Decode(d, buf).outcome.chunk; StateOf(d.streams, m.csid).partial <= m.payload
  {
    hide ParseBasicHeader, StepStream;
    var BasicHeader(fmt, csid, n) := ParseBasicHeader(buf).value;
    StepKeepsData(d, csid, StateOf(d.streams, csid), fmt, buf[n..]);
  }

  lemma StepKeepsData(d: Decoder, csid: u32, st: ChunkState, fmt: nat, b: bytes)
    ensures var r := StepStream(d.chunkSize, d.maxMessageSize, csid, st, fmt, b);
      r.Some? && r.value.outcome.Complete? ==>
        r.value.outcome.chunk.csid == csid && st.partial <= r.value.outcome.chunk.payload
  {
    hide FieldsOf, Extended, ChunkSize;
  }

  /** The server takes every message of the run. */
  lemma ServerReadsAll(s: Sender, steps: seq<Step>, tail: bytes, d: Decoder, log: seq<RtmpChunk>, accept: Handler)
    requires Linked(s, d) && LegalRun(s, steps) && CutOff(Final(s, steps), tail, {})
    requires AcceptsAll(accept, log, LogOf(s, steps))
    ensures Drain(Feed(Idle(d, log), WireOf(s, steps) + tail), accept).log == log + LogOf(s, steps)
  {
    hide Linked, LegalRun, AcceptsAll, LogOf, WireOf, CutOff, Final, Decode;
    RunArrives(s, steps, d, log, accept);
    var wire := WireOf(s, steps);
    var c := Drain(Feed(Idle(d, log), wire), accept);
    DrainThenFeed(Feed(Idle(d, log), wire), tail, accept);
    FeedTwice(Idle(d, log), wire, tail);
    CutOffStays(Final(s, steps), tail, c.dec);
    assert Feed(c, tail).buf == tail;
    assert Drain(Feed(c, tail), accept) == Reading.Step(Feed(c, tail), accept);
  }

  /** Side by side: the server takes every message. The client, if it takes no bytes for others,
      takes them all exactly if its size cuts the leading chunks alike and no message ends behind
      the first chunk that does not end its own; else it waits with whole messages in its buffer. */
  lemma ClientMayWait(caller: Caller, s: Sender, steps: seq<Step>, tail: bytes, d: Decoder,
                      log: seq<RtmpChunk>, accept: Handler)
    requires Linked(s, d) && LegalRun(s, steps) && Unaborted(s, steps, tail, {}) && CutOff(Final(s, steps), tail, {})
    requires AcceptsAll(accept, log, LogOf(s, steps))
    requires Takes(caller, s.size, s, steps, tail).garbled.None?
    ensures var taken := ClientReads(caller, d, WireOf(s, steps) + tail);
      && Drain(Feed(Idle(d, log), WireOf(s, steps) + tail), accept).log == log + LogOf(s, steps)
      && taken <= Leading(s, steps) <= LogOf(s, steps) == Leading(s, steps) + Behind(s, steps)
      && (taken == LogOf(s, steps) <==> CutAlike(caller, s.size, s, steps, tail) && Behind(s, steps) == [])
  {
    hide Linked, LegalRun, Unaborted, AcceptsAll, LogOf, WireOf, Drain, Leading, Behind, ClientReads, CutOff,
      Final, Takes, CutAlike;
    ClientReadsRun(caller, s, steps, tail, d);
    TakesLeading(caller, s.size, s, steps, tail);
    ServerReadsAll(s, steps, tail, d, log, accept);
    LeadingAndBehind(s, steps);
    var taken, leading, behind := Takes(caller, s.size, s, steps, tail).front, Leading(s, steps), Behind(s, steps);
    if behind == [] {
      assert leading + behind == leading;
    } else {
      assert |taken| <= |leading| < |leading + behind|;
    }
  }

  /** With the bytes of one message in the buffer, the client finds it exactly if it fits one chunk. */
  lemma OneMessage(caller: Caller, x: Side, m: RtmpChunk, d: Decoder)
    requires LegalCall(x, Send(m)) && Linked(SenderOf(x), d)
    ensures ClientReads(caller, d, Encode(x.enc, m).1) == if |m.payload| <= x.enc.chunkSize then [m] else []
  {
    hide Linked, LegalRun, LogOf, WireOf, ClientReads, Finish, Control, Emitted, Unaborted, Takes, CutAlike;
    var s, steps := SenderOf(x), StepsOf(x, Send(m));
    CallIsRun(x, Send(m));
    FirstStepOf(caller, x, m);
    ClientReadsRun(caller, s, steps, [], d);
    TakesLeading(caller, s.size, s, steps, []);
    assert WireOf(s, steps) + [] == WireOf(s, steps);
  }

  lemma FirstStepOf(caller: Caller, x: Side, m: RtmpChunk)
    requires LegalCall(x, Send(m)) && LegalRun(SenderOf(x), StepsOf(x, Send(m)))
    ensures var s, steps := SenderOf(x), StepsOf(x, Send(m));
      && Unaborted(s, steps, [], {}) && CutAlike(caller, s.size, s, steps, [])
      && Leading(s, steps) == if |m.payload| <= x.enc.chunkSize then [m] else []
  {
    hide Control, Emitted;
    var steps := StepsOf(x, Send(m));
    var ends := Ends(SenderOf(x), steps[0]);
    if ends != [] {
      assert steps == [Start(m)] && steps[1..] == [];
      assert ends + [] == ends;
    }
  }
}
