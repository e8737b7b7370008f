/** The server's reading side: the loops that take messages out of the read
    buffer, and the control messages that change the decoder between messages. */
module Reading {
  import opened Bytes
  import opened ChunkModel
  import opened ChunkSafety

  datatype Failure = MessageTooLarge(size: u32) | InvalidControl | Refused

  /** What the rest of the server says to a message, given the messages before it:
      false when handling it fails, which closes the connection. */
  type Handler = (seq<RtmpChunk>, RtmpChunk) -> bool

  datatype Conn = Conn(dec: Decoder, log: seq<RtmpChunk>, buf: bytes, error: Option<Failure>)

  /** SetChunkSize ignores the top bit of its argument. */
  function AnnouncedSize(m: RtmpChunk): u32
    requires |m.payload| >= 4
  {
    Min(U32At(m.payload, 0) % 0x8000_0000, MAX_CHUNK_SIZE)
  }

  function AfterMessage(d: Decoder, log: seq<RtmpChunk>, m: RtmpChunk, accept: Handler): (Decoder, Option<Failure>) {
    if m.msgType == MSG_SET_CHUNK_SIZE then
      if |m.payload| < 4 then (d, Some(InvalidControl))
      else (d.(chunkSize := AnnouncedSize(m)), None)
    else if m.msgType == MSG_ABORT then
      if |m.payload| < 4 then (d, Some(InvalidControl))
      else (AbortStream(d, U32At(m.payload, 0)), None)
    else
      (d, if accept(log, m) then None else Some(Refused))
  }

  /** One call of the decoder, with a completed message handled. */
  function Step(c: Conn, accept: Handler): (r: Conn)
    ensures |r.buf| <= |c.buf|
  {
    var r := Decode(c.dec, c.buf);
    match r.outcome
    case Pending => c.(dec := r.dec, buf := r.rest)
    case TooLarge(size) => c.(dec := r.dec, buf := r.rest, error := Some(MessageTooLarge(size)))
    case Complete(m) =>
      var (d, error) := AfterMessage(r.dec, c.log, m, accept);
      Conn(d, c.log + [m], r.rest, error)
  }

  /** Decode until no further progress is possible. */
  function Drain(c: Conn, accept: Handler): (r: Conn)
    decreases |c.buf|
  {
    if c.error.Some? then c
    else
      var next := Step(c, accept);
      if |next.buf| < |c.buf| then Drain(next, accept) else next
  }

  /** Decode until a call completes no message, even if it took a chunk. */
  function DrainMessages(c: Conn, accept: Handler): (r: Conn)
    decreases |c.buf|
  {
    if c.error.Some? then c
    else
      var next := Step(c, accept);
      if Decode(c.dec, c.buf).outcome.Complete? then DrainMessages(next, accept) else next
  }

  function Feed(c: Conn, more: bytes): Conn {
    c.(buf := c.buf + more)
  }

  /** One read of the socket between two drains; after an error nothing is read any more. */
  function ReadStep(c: Conn, fragment: bytes, accept: Handler): Conn {
    var c1 := Drain(c, accept);
    if c1.error.Some? then c1 else DrainMessages(Feed(c1, fragment), accept)
  }

  /** Reads of the given fragments, then the drain that precedes the next read. */
  function ReadAll(c: Conn, fragments: seq<bytes>, accept: Handler): Conn
    decreases |fragments|
  {
    if fragments == [] then Drain(c, accept)
    else ReadAll(ReadStep(c, fragments[0], accept), fragments[1..], accept)
  }

  // ---- fragmentation independence ----

  lemma StepStable(c: Conn, more: bytes, accept: Handler)
    requires c.error.None?
    ensures var next := Step(c, accept);
      if |next.buf| < |c.buf| then Step(Feed(c, more), accept) == Feed(next, more)
      else next == c.(dec := next.dec) && Step(Feed(next, more), accept) == Step(Feed(c, more), accept)
  {
    DecodeStable(c.dec, c.buf, more);
    DecodeIsLocal(c.dec, c.buf);
  }

  lemma {:induction false} DrainThenFeed(c: Conn, more: bytes, accept: Handler)
    ensures Drain(Feed(Drain(c, accept), more), accept) == Drain(Feed(c, more), accept)
    decreases |c.buf|
  {
    if c.error.None? {
      StepStable(c, more, accept);
      var next := Step(c, accept);
      if |next.buf| < |c.buf| {
        DrainThenFeed(next, more, accept);
      }
    }
  }

  lemma DrainTwice(c: Conn, accept: Handler)
    ensures Drain(Drain(c, accept), accept) == Drain(c, accept)
  {
    DrainThenFeed(c, [], accept);
    assert Feed(c, []) == c && Feed(Drain(c, accept), []) == Drain(c, accept);
  }

  lemma {:induction false} DrainAfterMessages(c: Conn, accept: Handler)
    ensures Drain(DrainMessages(c, accept), accept) == Drain(c, accept)
    decreases |c.buf|
  {
    if c.error.None? {
      var next := Step(c, accept);
      if Decode(c.dec, c.buf).outcome.Complete? {
        DrainAfterMessages(next, accept);
      } else if |next.buf| == |c.buf| {
        assert next == Drain(c, accept);
        DrainTwice(c, accept);
      }
    }
  }

  /** The same messages, decoder state and error; the same unprocessed bytes, except
      that after an error bytes not yet read stay unread. */
  predicate SameReading(a: Conn, b: Conn) {
    && a.dec == b.dec && a.log == b.log && a.error == b.error
    && (if a.error.None? then a.buf == b.buf else a.buf <= b.buf)
  }

  lemma MessagesThenFeed(c: Conn, later: bytes, accept: Handler)
    ensures Drain(Feed(DrainMessages(c, accept), later), accept) == Drain(Feed(c, later), accept)
  {
    DrainAfterMessages(c, accept);
    DrainThenFeed(c, later, accept);
    DrainThenFeed(DrainMessages(c, accept), later, accept);
  }

  lemma StoppedDrain(c: Conn, more: bytes, accept: Handler)
    requires c.error.Some?
    ensures SameReading(c, Drain(Feed(c, more), accept))
  {
  }

  lemma FeedTwice(c: Conn, a: bytes, b: bytes)
    ensures Feed(Feed(c, a), b) == Feed(c, a + b)
  {
    assert c.buf + a + b == c.buf + (a + b);
  }

  lemma ReadStepIsDrain(c: Conn, fragment: bytes, later: bytes, accept: Handler)
    ensures var next := ReadStep(c, fragment, accept);
      && (next.error.None? ==> Drain(Feed(next, later), accept) == Drain(Feed(c, fragment + later), accept))
      && (next.error.Some? ==> SameReading(next, Drain(Feed(c, fragment + later), accept)))
  {
    var c1 := Drain(c, accept);
    var next := ReadStep(c, fragment, accept);
    DrainThenFeed(c, fragment + later, accept);
    if c1.error.Some? {
      StoppedDrain(c1, fragment + later, accept);
    } else {
      MessagesThenFeed(Feed(c1, fragment), later, accept);
      FeedTwice(c1, fragment, later);
      if next.error.Some? {
        StoppedDrain(next, later, accept);
      }
    }
  }

  lemma {:induction false} StoppedReading(c: Conn, fragments: seq<bytes>, accept: Handler)
    requires c.error.Some?
    ensures ReadAll(c, fragments, accept) == c
    decreases |fragments|
  {
    if fragments != [] {
      StoppedReading(c, fragments[1..], accept);
    }
  }

  lemma {:induction false} FragmentationIndependence(c: Conn, fragments: seq<bytes>, accept: Handler)
    ensures SameReading(ReadAll(c, fragments, accept), Drain(Feed(c, Flatten(fragments)), accept))
    decreases |fragments|
  {
    if fragments == [] {
      assert Feed(c, []) == c;
    } else {
      var next := ReadStep(c, fragments[0], accept);
      ReadStepIsDrain(c, fragments[0], Flatten(fragments[1..]), accept);
      if next.error.Some? {
        StoppedReading(next, fragments[1..], accept);
      } else {
        FragmentationIndependence(next, fragments[1..], accept);
      }
    }
  }

  /** A read that brings nothing only drains. */
  lemma NothingRead(c: Conn, accept: Handler)
    ensures ReadStep(c, [], accept) == Drain(c, accept)
  {
    var c1 := Drain(c, accept);
    DrainTwice(c, accept);
    assert Feed(c1, []) == c1;
    if c1.error.None? {
      var next := Step(c1, accept);
      if |next.buf| < |c1.buf| {
        DrainShrinks(next, accept);
      }
      assert next == c1;
    }
  }

  lemma {:induction false} DrainShrinks(c: Conn, accept: Handler)
    ensures |Drain(c, accept).buf| <= |c.buf|
    decreases |c.buf|
  {
    if c.error.None? && |Step(c, accept).buf| < |c.buf| {
      DrainShrinks(Step(c, accept), accept);
    }
  }

  // ---- no refusal for size ----

  /** The decoder of a connection that was opened with the program's limit. */
  ghost predicate Unlimited(c: Conn) {
    && ShortLengths(c.dec) && c.dec.maxMessageSize == MAX_MESSAGE_SIZE
    && (c.error.Some? ==> !c.error.value.MessageTooLarge?)
  }

  lemma StepUnlimited(c: Conn, accept: Handler)
    requires Unlimited(c) && c.error.None?
    ensures Unlimited(Step(c, accept))
  {
    hide Decode;
    LengthsStayShort(c.dec, c.buf);
    DecodeIsLocal(c.dec, c.buf);
    var r := Decode(c.dec, c.buf);
    if r.outcome.Complete? && r.outcome.chunk.msgType == MSG_ABORT && |r.outcome.chunk.payload| >= 4 {
      AbortKeepsLengths(r.dec, U32At(r.outcome.chunk.payload, 0));
    }
  }

  lemma AbortKeepsLengths(d: Decoder, csid: u32)
    requires ShortLengths(d)
    ensures ShortLengths(AbortStream(d, csid))
  {
    forall c: u32 ensures StateOf(AbortStream(d, csid).streams, c).length < TWO_TO_THE_24 {
      assert StateOf(d.streams, c).length < TWO_TO_THE_24;
    }
  }

  lemma {:induction false} DrainUnlimited(c: Conn, accept: Handler)
    requires Unlimited(c)
    ensures Unlimited(Drain(c, accept))
    decreases |c.buf|
  {
    hide Unlimited, Step;
    if c.error.None? {
      StepUnlimited(c, accept);
      var next := Step(c, accept);
      if |next.buf| < |c.buf| {
        DrainUnlimited(next, accept);
      }
    }
  }

  /** Whatever is sent to a connection, in whatever pieces, it is never closed for the size of a message. */
  lemma NeverTooLarge(c: Conn, fragments: seq<bytes>, accept: Handler)
    requires Unlimited(c)
    ensures Unlimited(ReadAll(c, fragments, accept))
  {
    hide Drain, ReadAll, ShortLengths;
    DrainUnlimited(Feed(c, Flatten(fragments)), accept);
    FragmentationIndependence(c, fragments, accept);
  }
}
