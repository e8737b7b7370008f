/** One pass of the server's main loop: drain, read, drain again, acknowledge. What
    an acknowledgement promises the peer, and the connection object that does it. */
module ServerConnection {
  import opened Bytes
  import opened ChunkModel
  import opened ChunkCodec
  import opened Reading

  const INITIAL_WINDOW: u32 := 2_500_000

  /** `received` counts the bytes read since the handshake, `acked` those reported in the last
      acknowledgement, and `acks` holds what the acknowledgements said. */
  datatype Link = Link(conn: Conn, received: nat, acked: nat, acks: seq<u32>, closed: bool)

  /** The window the peer announced last. */
  function Window(log: seq<RtmpChunk>): u32 {
    if log == [] then INITIAL_WINDOW
    else
      var m := log[|log| - 1];
      if m.msgType == MSG_WINDOW_ACK_SIZE && |m.payload| >= 4 then U32At(m.payload, 0)
      else Window(log[..|log| - 1])
  }

  /** The program keeps the reported count, and the difference, in 32 bits. */
  function Unreported(received: nat, acked: nat): u32 {
    (received % TWO_TO_THE_32 - acked % TWO_TO_THE_32) % TWO_TO_THE_32
  }

  /** Reading nothing means that the peer has closed. The window is the one known before the new
      bytes are looked at, and after an error no acknowledgement is sent. */
  function Pass(l: Link, fragment: bytes, accept: Handler): Link {
    var c1 := Drain(l.conn, accept);
    if c1.error.Some? then l.(conn := c1)
    else if fragment == [] then l.(conn := c1, closed := true)
    else
      var n := l.received + |fragment|;
      var c2 := DrainMessages(Feed(c1, fragment), accept);
      if c2.error.Some? || Unreported(n, l.acked) < Window(c1.log) then l.(conn := c2, received := n)
      else l.(conn := c2, received := n, acked := n, acks := l.acks + [n % TWO_TO_THE_32])
  }

  predicate Running(l: Link) {
    l.conn.error.None? && !l.closed
  }

  function Passes(l: Link, fragments: seq<bytes>, accept: Handler): Link
    decreases |fragments|
  {
    if fragments == [] || !Running(l) then l else Passes(Pass(l, fragments[0], accept), fragments[1..], accept)
  }

  // ---- what the messages see of it ----

  lemma PassReads(l: Link, fragment: bytes, accept: Handler)
    ensures Pass(l, fragment, accept).conn == ReadStep(l.conn, fragment, accept)
  {
    if fragment == [] {
      NothingRead(l.conn, accept);
    }
  }

  /** Acknowledging does not touch what is read: as long as the peer does not close, the passes
      deal with messages as the reading loop does. */
  lemma {:induction false} PassesRead(l: Link, fragments: seq<bytes>, accept: Handler)
    requires !l.closed && forall i :: 0 <= i < |fragments| ==> fragments[i] != []
    ensures Drain(Passes(l, fragments, accept).conn, accept) == ReadAll(l.conn, fragments, accept)
    decreases |fragments|
  {
    hide Pass, ReadStep, Drain;
    if l.conn.error.Some? {
      StoppedReading(l.conn, fragments, accept);
      StoppedStays(l.conn, accept);
    } else if fragments != [] {
      PassReads(l, fragments[0], accept);
      StaysOpen(l, fragments[0], accept);
      PassesRead(Pass(l, fragments[0], accept), fragments[1..], accept);
    }
  }

  lemma StoppedStays(c: Conn, accept: Handler)
    requires c.error.Some?
    ensures Drain(c, accept) == c
  {
  }

  lemma StaysOpen(l: Link, fragment: bytes, accept: Handler)
    requires !l.closed && fragment != []
    ensures !Pass(l, fragment, accept).closed
  {
  }

  // ---- what the peer can rely on ----

  lemma UnreportedIsDifference(received: nat, acked: nat)
    requires acked <= received
    ensures Unreported(received, acked) == (received - acked) % TWO_TO_THE_32
  {
  }

  /** The program computes the difference of the two 32-bit counts with a plain subtraction. It is
      negative exactly when the count has passed a multiple of 2^32 since the last acknowledgement. */
  lemma PlainSubtraction(received: nat, acked: nat)
    requires acked <= received < acked + TWO_TO_THE_32
    ensures received % TWO_TO_THE_32 < acked % TWO_TO_THE_32
       <==> received / TWO_TO_THE_32 != acked / TWO_TO_THE_32
  {
  }

  ghost predicate Counts(l: Link) {
    l.acked <= l.received && (l.acks == [] ==> l.acked == 0)
    && (l.acks != [] ==> l.acks[|l.acks| - 1] == l.acked % TWO_TO_THE_32)
  }

  /** After every pass that goes well the peer has been told of all bytes but fewer than the window
      it had announced before the pass; so a peer that waits for an acknowledgement once it has sent
      a window is never left waiting. With a window of 0 everything is reported. */
  lemma AcknowledgedInTime(l: Link, fragment: bytes, accept: Handler)
    requires Counts(l) && l.received - l.acked + |fragment| < TWO_TO_THE_32
    ensures var l' := Pass(l, fragment, accept);
      && Counts(l') && l.acks <= l'.acks
      && (Running(l') ==>
            && l'.received == l.received + |fragment|
            && (l'.received - l'.acked < Window(Drain(l.conn, accept).log) || l'.acked == l'.received))
  {
    hide Drain, DrainMessages, Window, Unreported;
    UnreportedIsDifference(l.received + |fragment|, l.acked);
  }

  lemma {:induction false} LogGrows(c: Conn, accept: Handler)
    ensures c.log <= Drain(c, accept).log && c.log <= DrainMessages(c, accept).log
    decreases |c.buf|
  {
    hide Decode;
    if c.error.None? {
      var next := Reading.Step(c, accept);
      StepGrows(c, accept);
      if |next.buf| < |c.buf| {
        LogGrows(next, accept);
      }
    }
  }

  lemma StepGrows(c: Conn, accept: Handler)
    ensures c.log <= Reading.Step(c, accept).log
    ensures Decode(c.dec, c.buf).outcome.Complete? ==> |Reading.Step(c, accept).buf| < |c.buf|
  {
    hide Decode, AfterMessage;
  }

  lemma PassGrows(l: Link, fragment: bytes, accept: Handler)
    ensures l.conn.log <= Drain(l.conn, accept).log <= Pass(l, fragment, accept).conn.log
  {
    hide Drain, DrainMessages, Window, Unreported;
    LogGrows(l.conn, accept);
    LogGrows(Feed(Drain(l.conn, accept), fragment), accept);
  }

  lemma {:induction false} PassesGrow(l: Link, fragments: seq<bytes>, accept: Handler)
    ensures l.conn.log <= Passes(l, fragments, accept).conn.log
    decreases |fragments|
  {
    hide Pass, Drain;
    if fragments != [] && Running(l) {
      PassGrows(l, fragments[0], accept);
      PassesGrow(Pass(l, fragments[0], accept), fragments[1..], accept);
    }
  }

  /** No window announced in the course of `log` is larger. */
  ghost predicate WindowsWithin(log: seq<RtmpChunk>, window: u32) {
    forall n :: 0 <= n <= |log| ==> Window(log[..n]) <= window
  }

  lemma WithinPrefix(a: seq<RtmpChunk>, b: seq<RtmpChunk>, window: u32)
    requires a <= b && WindowsWithin(b, window)
    ensures Window(a) <= window
  {
    assert b[..|a|] == a;
  }

  /** Over a whole run in any pieces: at most one window is unreported at its end, whenever that
      is; all bytes read are counted, and the last acknowledgement said how many they were then. */
  lemma {:induction false} AcknowledgedAlways(l: Link, fragments: seq<bytes>, accept: Handler, window: u32)
    requires Counts(l) && l.received - l.acked <= window
    requires forall i :: 0 <= i < |fragments| ==> |fragments[i]| + window < TWO_TO_THE_32
    requires Running(Passes(l, fragments, accept))
    requires WindowsWithin(Passes(l, fragments, accept).conn.log, window)
    ensures var l' := Passes(l, fragments, accept);
      && Counts(l') && l.acks <= l'.acks
      && l'.received == l.received + |Flatten(fragments)|
      && l'.received - l'.acked <= window
    decreases |fragments|
  {
    hide Pass, Drain, Window, WindowsWithin, Counts;
    if fragments != [] {
      var next := Pass(l, fragments[0], accept);
      AcknowledgedInTime(l, fragments[0], accept);
      PassGrows(l, fragments[0], accept);
      PassesGrow(next, fragments[1..], accept);
      WithinPrefix(Drain(l.conn, accept).log, Passes(l, fragments, accept).conn.log, window);
      AcknowledgedAlways(next, fragments[1..], accept, window);
    }
  }

  // ---- the connection object ----

  class Connection {
    const decoder: ChunkDecoder
    const readBuf: ByteBuf
    const accept: Handler
    var log: seq<RtmpChunk>
    var bytesReceived: nat
    var lastAckSequence: u32
    var windowAckSize: u32
    /** What was handed to the writer as acknowledgements. */
    var sentAcks: seq<u32>
    /** The count behind `lastAckSequence`. */
    ghost var acked: nat

    ghost predicate Valid()
      reads this, decoder
    {
      decoder.Valid() && windowAckSize == Window(log) && lastAckSequence == acked % TWO_TO_THE_32
    }

    ghost function LinkValue(error: Option<Failure>, closed: bool): Link
      reads this, decoder, readBuf
    {
      Link(Value(error), bytesReceived, acked, sentAcks, closed)
    }

    ghost function Value(error: Option<Failure>): Conn
      reads this, decoder, readBuf
    {
      Conn(decoder.Value(), log, readBuf.data, error)
    }

    constructor (accept: Handler)
      ensures Valid() && fresh(decoder) && fresh(readBuf)
      ensures LinkValue(None, false)
           == Link(Conn(Decoder(DEFAULT_CHUNK_SIZE, MAX_MESSAGE_SIZE, map[]), [], [], None), 0, 0, [], false)
    {
      this.accept := accept;
      bytesReceived, lastAckSequence, windowAckSize, sentAcks, acked := 0, 0, INITIAL_WINDOW, [], 0;
      decoder := new ChunkDecoder();
      readBuf := new ByteBuf([]);
      log := [];
    }

    method HandleChunk(m: RtmpChunk) returns (error: Option<Failure>)
      requires Valid()
      modifies this`log, this`windowAckSize, decoder
      ensures Valid() && log == old(log) + [m]
      ensures (decoder.Value(), error) == AfterMessage(old(decoder.Value()), old(log), m, accept)
    {
      error := None;
      if m.msgType == MSG_SET_CHUNK_SIZE {
        if |m.payload| < 4 {
          error := Some(InvalidControl);
        } else {
          decoder.SetChunkSize(U32At(m.payload, 0) % 0x8000_0000);
        }
      } else if m.msgType == MSG_ABORT {
        if |m.payload| < 4 {
          error := Some(InvalidControl);
        } else {
          decoder.Abort(U32At(m.payload, 0));
        }
      } else {
        if m.msgType == MSG_WINDOW_ACK_SIZE && |m.payload| >= 4 {
          windowAckSize := U32At(m.payload, 0);
        }
        if !accept(log, m) {
          error := Some(Refused);
        }
      }
      log := log + [m];
    }

    /** The loop terminates because every round takes at least one byte from the buffer. */
    method DrainBuffer() returns (error: Option<Failure>)
      requires Valid()
      modifies this`log, this`windowAckSize, decoder, readBuf
      ensures Valid() && Value(error) == Drain(old(Value(None)), accept)
    {
      while true
        invariant Valid()
        invariant Drain(Value(None), accept) == Drain(old(Value(None)), accept)
        decreases |readBuf.data|
      {
        var before := |readBuf.data|;
        var outcome := decoder.Decode(readBuf);
        match outcome
        case TooLarge(size) =>
          return Some(MessageTooLarge(size));
        case Complete(m) =>
          error := HandleChunk(m);
          if error.Some? {
            return;
          }
        case Pending =>
          if |readBuf.data| == before {
            return None;
          }
      }
    }

    /** The loop behind a read: it ends with the first call that completes no message. */
    method TakeMessages() returns (error: Option<Failure>)
      requires Valid()
      modifies this`log, this`windowAckSize, decoder, readBuf
      ensures Valid() && Value(error) == DrainMessages(old(Value(None)), accept)
    {
      while true
        invariant Valid()
        invariant DrainMessages(Value(None), accept) == DrainMessages(old(Value(None)), accept)
        decreases |readBuf.data|
      {
        var outcome := decoder.Decode(readBuf);
        match outcome
        case TooLarge(size) =>
          return Some(MessageTooLarge(size));
        case Pending =>
          return None;
        case Complete(m) =>
          error := HandleChunk(m);
          if error.Some? {
            return;
          }
      }
    }

    /** Drain, read one fragment from the socket, take the messages that are complete now and
        acknowledge if it is time. An empty fragment is the end of the connection. */
    method ReadAndProcess(fragment: bytes) returns (open: bool, error: Option<Failure>)
      requires Valid()
      modifies this, decoder, readBuf
      ensures Valid() && LinkValue(error, !open && error.None?) == Pass(old(LinkValue(None, false)), fragment, accept)
    {
      hide Drain, DrainMessages, Window;
      open := true;
      error := DrainBuffer();
      if error.Some? {
        return;
      }
      if fragment == [] {
        return false, None;
      }
      readBuf.Put(fragment);
      var needsAck := AddBytesReceived(|fragment|);
      error := TakeMessages();
      if error.Some? {
        return;
      }
      if needsAck {
        SendAcknowledgement();
      }
    }

    method AddBytesReceived(n: nat) returns (needsAck: bool)
      modifies this`bytesReceived
      ensures bytesReceived == old(bytesReceived) + n
      ensures needsAck <==> (bytesReceived - lastAckSequence) % TWO_TO_THE_32 >= windowAckSize
    {
      bytesReceived := bytesReceived + n;
      var delta := (bytesReceived % TWO_TO_THE_32 - lastAckSequence) % TWO_TO_THE_32;
      return delta >= windowAckSize;
    }

    method SendAcknowledgement()
      modifies this`sentAcks, this`lastAckSequence, this`acked
      ensures acked == bytesReceived
      ensures lastAckSequence == bytesReceived % TWO_TO_THE_32 && sentAcks == old(sentAcks) + [lastAckSequence]
    {
      sentAcks := sentAcks + [bytesReceived % TWO_TO_THE_32];
      lastAckSequence := bytesReceived % TWO_TO_THE_32;
      acked := bytesReceived;
    }
  }
}
