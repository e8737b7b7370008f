/** Every step of a session keeps the two sides linked, and over whole runs the
    receiver logs exactly what the sender brought to its end. */
module ChunkRuns {
  import opened Bytes
  import opened ChunkModel
  import opened ChunkSession
  import opened Reading

  lemma {:induction false} StepTaken(s: Sender, step: Step, d: Decoder)
    requires Legal(s, step) && !step.Reset? && Linked(s, d)
    ensures step.Continue? ==> step.csid == Emits(s, step).m.csid
    ensures ChunkTaken(s, step, d, Decode(d, Wire(s, step)))
  {
    hide LinkedState, Decode, Wire, Emitted, ChunkTaken;
    if step.Start? {
      StartTaken(s, step.m, d);
    } else {
      ContinueTaken(s, step.csid, d);
    }
  }

  lemma {:induction false} ChunkLinks(s: Sender, step: Step, d: Decoder, r: Decoded)
    requires Legal(s, step) && !step.Reset? && Linked(s, d) && ChunkTaken(s, step, d, r)
    requires step.Continue? ==> step.csid == Emits(s, step).m.csid
    ensures Linked(Emitted(s, step), r.dec)
  {
    hide LinkedState, Decode, Wire, Emitted;
    var csid := Emits(s, step).m.csid;
    forall c: u32 ensures LinkedAt(Emitted(s, step), r.dec.streams, c) {
      if c != csid {
        OtherStreams(s, step, d, StateOf(r.dec.streams, csid), c);
      }
    }
    EmittedSize(s, step);
  }

  lemma EmittedSize(s: Sender, step: Step)
    requires Legal(s, step) && !step.Reset?
    ensures Emitted(s, step).size == s.size
  {
  }

  lemma AbortLinks(s: Sender, d: Decoder, aborted: u32, csid: u32)
    requires LinkedAt(s, d.streams, csid)
    ensures LinkedAt(s.(open := s.open - {aborted}), AbortStream(d, aborted).streams, csid)
  {
  }

  lemma {:induction false} ControlLinks(s: Sender, d: Decoder, m: RtmpChunk, log: seq<RtmpChunk>, accept: Handler)
    requires Linked(s, d) && ControlLegal(m)
    requires IsControl(m) || accept(log, m)
    ensures var (d', error) := AfterMessage(d, log, m, accept);
      error == None && Linked(Control(s, m), d')
  {
    hide LinkedState;
    var (d', error) := AfterMessage(d, log, m, accept);
    forall c: u32 ensures LinkedAt(Control(s, m), d'.streams, c) {
      assert LinkedAt(s, d.streams, c);
      if m.msgType == MSG_ABORT {
        AbortLinks(s, d, U32At(m.payload, 0), c);
      }
    }
  }

  // ---- runs ----

  /** The rest of the receiver takes every message that is not handled by the chunk layer. */
  ghost predicate AcceptsAll(accept: Handler, log: seq<RtmpChunk>, ms: seq<RtmpChunk>) {
    forall i :: 0 <= i < |ms| ==> IsControl(ms[i]) || accept(log + ms[..i], ms[i])
  }

  /** A receiver that has read everything so far. */
  function Idle(d: Decoder, log: seq<RtmpChunk>): Conn {
    Conn(d, log, [], None)
  }

  lemma {:induction false} OneChunk(d: Decoder, log: seq<RtmpChunk>, chunk: bytes, accept: Handler)
    ensures var c := Feed(Idle(d, log), chunk);
      chunk != [] && Decode(d, chunk).rest == [] && Reading.Step(c, accept).error.None? ==>
        Drain(c, accept) == Reading.Step(c, accept)
  {
    var c := Feed(Idle(d, log), chunk);
    var next := Reading.Step(c, accept);
    assert c.buf == chunk;
    if chunk != [] && Decode(d, chunk).rest == [] && next.error.None? {
      assert next.buf == [];
      assert Reading.Step(next, accept) == next;
    }
  }

  lemma {:induction false} ResetLinks(s: Sender, d: Decoder)
    requires Linked(s, d)
    ensures Linked(Next(s, Reset), d)
  {
    forall c: u32 ensures LinkedAt(Next(s, Reset), d.streams, c) {
      assert LinkedAt(s, d.streams, c);
    }
  }

  /** Reading what one step sent completes the message that the step ended, and keeps the sides linked. */
  lemma {:induction false} StepArrives(s: Sender, step: Step, d: Decoder, log: seq<RtmpChunk>, accept: Handler)
    requires Legal(s, step) && Linked(s, d)
    requires AcceptsAll(accept, log, Ends(s, step))
    ensures var c := Drain(Feed(Idle(d, log), Wire(s, step)), accept);
      c == Idle(c.dec, log + Ends(s, step)) && Linked(Next(s, step), c.dec)
  {
    hide LinkedState, Decode, Emitted, Control;
    if step.Reset? {
      ResetLinks(s, d);
      NothingToRead(d, log, accept);
      assert log + Ends(s, step) == log;
    } else {
      ChunkArrives(s, step, d, log, accept);
    }
  }

  lemma NothingToRead(d: Decoder, log: seq<RtmpChunk>, accept: Handler)
    ensures Drain(Feed(Idle(d, log), []), accept) == Idle(d, log)
  {
  }

  lemma {:induction false} ChunkArrives(s: Sender, step: Step, d: Decoder, log: seq<RtmpChunk>, accept: Handler)
    requires Legal(s, step) && !step.Reset? && Linked(s, d)
    requires AcceptsAll(accept, log, Ends(s, step))
    ensures var c := Drain(Feed(Idle(d, log), Wire(s, step)), accept);
      c == Idle(c.dec, log + Ends(s, step)) && Linked(Next(s, step), c.dec)
  {
    hide LinkedState, Decode, Emitted, Control, Drain;
    var chunk := Wire(s, step);
    StepTaken(s, step, d);
    var r := Decode(d, chunk);
    ChunkLinks(s, step, d, r);
    assert Feed(Idle(d, log), chunk).buf == chunk;
    if Ends(s, step) != [] {
      var m := Emits(s, step).m;
      assert log + [m][..0] == log && [m][0] == m;
      assert Ends(s, step) == [m];
      ControlLinks(Emitted(s, step), r.dec, m, log, accept);
    } else {
      assert log + Ends(s, step) == log;
    }
    OneChunk(d, log, chunk, accept);
  }

  predicate LegalRun(s: Sender, steps: seq<Step>)
    decreases |steps|
  {
    steps == [] || (Legal(s, steps[0]) && LegalRun(Next(s, steps[0]), steps[1..]))
  }

  function Final(s: Sender, steps: seq<Step>): Sender
    requires LegalRun(s, steps)
    decreases |steps|
  {
    if steps == [] then s else Final(Next(s, steps[0]), steps[1..])
  }

  function WireOf(s: Sender, steps: seq<Step>): bytes
    requires LegalRun(s, steps)
    decreases |steps|
  {
    if steps == [] then [] else Wire(s, steps[0]) + WireOf(Next(s, steps[0]), steps[1..])
  }

  /** The messages brought to their end, in the order of their last chunks. */
  function LogOf(s: Sender, steps: seq<Step>): seq<RtmpChunk>
    requires LegalRun(s, steps)
    decreases |steps|
  {
    if steps == [] then [] else Ends(s, steps[0]) + LogOf(Next(s, steps[0]), steps[1..])
  }

  lemma {:induction false} AcceptsSplit(accept: Handler, log: seq<RtmpChunk>, a: seq<RtmpChunk>, b: seq<RtmpChunk>)
    requires AcceptsAll(accept, log, a + b)
    ensures AcceptsAll(accept, log, a) && AcceptsAll(accept, log + a, b)
  {
    forall i | 0 <= i < |a| ensures IsControl(a[i]) || accept(log + a[..i], a[i]) {
      assert (a + b)[i] == a[i] && (a + b)[..i] == a[..i];
    }
    forall i | 0 <= i < |b| ensures IsControl(b[i]) || accept(log + a + b[..i], b[i]) {
      assert (a + b)[|a| + i] == b[i];
      assert log + (a + b)[..|a| + i] == log + a + b[..i];
    }
  }

  /** Over a whole run the receiver's log is exactly what the sender brought to its end,
      nothing is left in its buffer, and the two sides stay linked. */
  lemma {:induction false} RunArrives(s: Sender, steps: seq<Step>, d: Decoder, log: seq<RtmpChunk>, accept: Handler)
    requires Linked(s, d) && LegalRun(s, steps)
    requires AcceptsAll(accept, log, LogOf(s, steps))
    ensures var c := Drain(Feed(Idle(d, log), WireOf(s, steps)), accept);
      c == Idle(c.dec, log + LogOf(s, steps)) && Linked(Final(s, steps), c.dec)
    decreases |steps|
  {
    hide Drain, Linked, AcceptsAll, Next, Wire, Ends, Legal;
    if steps == [] {
      NothingToRead(d, log, accept);
      assert log + LogOf(s, steps) == log;
    } else {
      var s', w, ends := Next(s, steps[0]), Wire(s, steps[0]), Ends(s, steps[0]);
      var later := LogOf(s', steps[1..]);
      AcceptsSplit(accept, log, ends, later);
      StepArrives(s, steps[0], d, log, accept);
      var c := Drain(Feed(Idle(d, log), w), accept);
      RunArrives(s', steps[1..], c.dec, log + ends, accept);
      DrainThenFeed(Feed(Idle(d, log), w), WireOf(s', steps[1..]), accept);
      FeedTwice(Idle(d, log), w, WireOf(s', steps[1..]));
      assert log + ends + later == log + (ends + later);
    }
  }

  /** The same however the bytes are cut into reads. */
  lemma {:induction false} SessionArrives(steps: seq<Step>, fragments: seq<bytes>, accept: Handler)
    requires LegalRun(FRESH_SENDER, steps) && Flatten(fragments) == WireOf(FRESH_SENDER, steps)
    requires AcceptsAll(accept, [], LogOf(FRESH_SENDER, steps))
    ensures var c := ReadAll(Idle(FRESH_DECODER, []), fragments, accept);
      c == Idle(c.dec, LogOf(FRESH_SENDER, steps)) && Linked(Final(FRESH_SENDER, steps), c.dec)
  {
    hide Drain, Linked, AcceptsAll, LegalRun, LogOf, WireOf, Final, ReadAll;
    FreshLinked();
    RunArrives(FRESH_SENDER, steps, FRESH_DECODER, [], accept);
    FragmentationIndependence(Idle(FRESH_DECODER, []), fragments, accept);
    var none: seq<RtmpChunk> := [];
    assert none + LogOf(FRESH_SENDER, steps) == LogOf(FRESH_SENDER, steps);
  }
}
