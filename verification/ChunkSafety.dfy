/** Decoding of arbitrary bytes: what every step keeps, that it either leaves
    everything alone or makes progress, and that bytes arriving later never
    change what earlier bytes already decided. */
module ChunkSafety {
  import opened Bytes
  import opened ChunkModel

  lemma StepKeepsInv(chunkSize: u32, max: u32, csid: u32, st: ChunkState, fmt: nat, b: bytes)
    requires StreamInv(st, max) && fmt <= 3
    ensures var r := StepStream(chunkSize, max, csid, st, fmt, b);
      r.Some? ==>
        && StreamInv(r.value.state, max)
        && (r.value.outcome.Complete? ==> |r.value.outcome.chunk.payload| <= max)
        && (r.value.outcome.TooLarge? ==> r.value.outcome.size > max)
  {
  }

  lemma DecodeKeepsInv(d: Decoder, buf: bytes)
    requires DecoderInv(d)
    ensures DecoderInv(Decode(d, buf).dec)
  {
    var basic := ParseBasicHeader(buf);
    if basic.Some? {
      var BasicHeader(fmt, csid, n) := basic.value;
      var st := StateOf(d.streams, csid);
      assert StreamInv(st, d.maxMessageSize);
      StepKeepsInv(d.chunkSize, d.maxMessageSize, csid, st, fmt, buf[n..]);
      var r := Decode(d, buf).dec;
      forall c: u32 ensures StreamInv(StateOf(r.streams, c), r.maxMessageSize) {
        if c != csid {
          assert StreamInv(StateOf(d.streams, c), d.maxMessageSize);
        }
      }
    }
  }

  lemma AbortKeepsInv(d: Decoder, csid: u32)
    requires DecoderInv(d)
    ensures DecoderInv(AbortStream(d, csid))
  {
    forall c: u32 ensures StreamInv(StateOf(AbortStream(d, csid).streams, c), d.maxMessageSize) {
      assert StreamInv(StateOf(d.streams, c), d.maxMessageSize);
    }
  }

  /** No emitted message exceeds the limit, although a header in mid-message may announce a new length. */
  lemma EmittedWithinLimit(d: Decoder, buf: bytes)
    requires DecoderInv(d)
    ensures var r := Decode(d, buf);
      && (r.outcome.Complete? ==> |r.outcome.chunk.payload| <= d.maxMessageSize)
      && (r.outcome.TooLarge? ==> r.outcome.size > d.maxMessageSize)
  {
    var basic := ParseBasicHeader(buf);
    if basic.Some? {
      var BasicHeader(fmt, csid, n) := basic.value;
      assert StreamInv(StateOf(d.streams, csid), d.maxMessageSize);
      StepKeepsInv(d.chunkSize, d.maxMessageSize, csid, StateOf(d.streams, csid), fmt, buf[n..]);
    }
  }

  /** Every length in a header is a 24-bit field, and so is every length remembered. */
  ghost predicate ShortLengths(d: Decoder) {
    forall csid: u32 :: StateOf(d.streams, csid).length < TWO_TO_THE_24
  }

  lemma StepKeepsLength(chunkSize: u32, max: u32, csid: u32, st: ChunkState, fmt: nat, b: bytes)
    requires st.length < TWO_TO_THE_24 && fmt <= 3
    ensures var r := StepStream(chunkSize, max, csid, st, fmt, b);
      r.Some? ==>
        && r.value.state.length < TWO_TO_THE_24
        && (r.value.outcome.TooLarge? ==> max < r.value.outcome.size < TWO_TO_THE_24)
  {
  }

  lemma LengthsStayShort(d: Decoder, buf: bytes)
    requires ShortLengths(d)
    ensures var r := Decode(d, buf);
      && ShortLengths(r.dec)
      && (r.outcome.TooLarge? ==> d.maxMessageSize < r.outcome.size < TWO_TO_THE_24)
  {
    hide StepStream;
    var basic := ParseBasicHeader(buf);
    if basic.Some? {
      var BasicHeader(fmt, csid, n) := basic.value;
      StepKeepsLength(d.chunkSize, d.maxMessageSize, csid, StateOf(d.streams, csid), fmt, buf[n..]);
      var r := Decode(d, buf).dec;
      forall c: u32 ensures StateOf(r.streams, c).length < TWO_TO_THE_24 {
        assert StateOf(d.streams, c).length < TWO_TO_THE_24;
      }
    }
  }

  /** The longest message a header can announce, at time 0, with all of its data. */
  function LongestMessage(): bytes {
    [3] + FullHeader(0, TWO_TO_THE_24 - 1, 9, 1) + seq(TWO_TO_THE_24 - 1, _ => 0)
  }

  lemma LongestIsRefused(d: Decoder)
    requires StateOf(d.streams, 3).partial == [] && d.maxMessageSize < TWO_TO_THE_24 - 1
    ensures Decode(d, LongestMessage()).outcome == TooLarge(TWO_TO_THE_24 - 1)
  {
    hide StepStream;
    var header, data: bytes := FullHeader(0, TWO_TO_THE_24 - 1, 9, 1), seq(TWO_TO_THE_24 - 1, _ => 0);
    assert LongestMessage()[1..] == header + data;
    LongestStep(d.chunkSize, d.maxMessageSize, StateOf(d.streams, 3), header + data);
  }

  lemma LongestStep(chunkSize: u32, max: u32, st: ChunkState, b: bytes)
    requires st.partial == [] && max < TWO_TO_THE_24 - 1 && |b| >= 11 + (TWO_TO_THE_24 - 1)
    requires U24At(b, 0) == 0 && U24At(b, 3) == TWO_TO_THE_24 - 1
    ensures var r := StepStream(chunkSize, max, 3, st, 0, b);
      r.Some? && r.value.outcome == TooLarge(TWO_TO_THE_24 - 1)
  {
    hide TakeData, U24At;
  }

  /** The size check can only act under a limit below the largest 24-bit number. The program's limit
      is above it, so there no bytes are ever refused for their size. */
  lemma SizeCheckIsDead(d: Decoder)
    requires ShortLengths(d) && StateOf(d.streams, 3).partial == []
    ensures (exists buf :: Decode(d, buf).outcome.TooLarge?) <==> d.maxMessageSize < TWO_TO_THE_24 - 1
    ensures MAX_MESSAGE_SIZE >= TWO_TO_THE_24 - 1
  {
    hide Decode;
    if d.maxMessageSize < TWO_TO_THE_24 - 1 {
      LongestIsRefused(d);
    }
    forall buf | Decode(d, buf).outcome.TooLarge? ensures d.maxMessageSize < TWO_TO_THE_24 - 1 {
      LengthsStayShort(d, buf);
    }
  }

  /** A step that takes no bytes changes no stream state; one that takes bytes
      takes them from the front and changes the state of the chunk's own stream only. */
  lemma DecodeIsLocal(d: Decoder, buf: bytes)
    ensures var r := Decode(d, buf);
      var basic := ParseBasicHeader(buf);
      && r.dec.chunkSize == d.chunkSize
      && r.dec.maxMessageSize == d.maxMessageSize
      && (|r.rest| == |buf| ==>
            && r.outcome == Pending
            && r.rest == buf
            && (forall c: u32 :: StateOf(r.dec.streams, c) == StateOf(d.streams, c)))
      && (|r.rest| < |buf| ==>
            && basic.Some?
            && r.rest == buf[|buf| - |r.rest|..]
            && (r.outcome.Complete? ==> r.outcome.chunk.csid == basic.value.csid)
            && (forall c: u32 :: c != basic.value.csid ==> StateOf(r.dec.streams, c) == StateOf(d.streams, c)))
  {
  }

  // ---- bytes that arrive later ----

  lemma FieldsStable(st: ChunkState, fmt: nat, b: bytes, later: bytes)
    requires fmt <= 3 && HeaderSize(st, fmt, b) <= |b|
    ensures HeaderSize(st, fmt, b + later) == HeaderSize(st, fmt, b)
    ensures FieldsOf(st, fmt, b + later) == FieldsOf(st, fmt, b)
    ensures TakeHeader(st, fmt, b + later) == TakeHeader(st, fmt, b)
  {
    assert forall i :: 0 <= i < |b| ==> (b + later)[i] == b[i];
  }

  lemma HeaderStable(chunkSize: u32, st: ChunkState, fmt: nat, b: bytes, later: bytes)
    requires fmt <= 3 && ChunkSize(chunkSize, st, fmt, b).Some?
    ensures HeaderSize(st, fmt, b + later) == HeaderSize(st, fmt, b)
    ensures ChunkSize(chunkSize, st, fmt, b + later) == ChunkSize(chunkSize, st, fmt, b)
    ensures TakeHeader(st, fmt, b + later) == TakeHeader(st, fmt, b)
  {
    hide TakeHeader, FieldsOf, Extended;
    FieldsStable(st, fmt, b, later);
  }

  lemma StepStable(chunkSize: u32, max: u32, csid: u32, st: ChunkState, fmt: nat, b: bytes, later: bytes)
    requires fmt <= 3
    requires StepStream(chunkSize, max, csid, st, fmt, b).Some?
    ensures StepStream(chunkSize, max, csid, st, fmt, b + later) == StepStream(chunkSize, max, csid, st, fmt, b)
  {
    hide TakeData, TakeHeader, HeaderSize;
    var size := ChunkSize(chunkSize, st, fmt, b).value;
    var h := HeaderSize(st, fmt, b);
    HeaderStable(chunkSize, st, fmt, b, later);
    assert (b + later)[h..size] == b[h..size];
  }

  lemma BasicHeaderStable(buf: bytes, later: bytes)
    requires ParseBasicHeader(buf).Some?
    ensures ParseBasicHeader(buf + later) == ParseBasicHeader(buf)
  {
  }

  /** What a step decides from the bytes it has, it decides the same with more bytes behind them. */
  lemma DecodeStable(d: Decoder, buf: bytes, later: bytes)
    ensures var r := Decode(d, buf);
      if |r.rest| < |buf| then Decode(d, buf + later) == r.(rest := r.rest + later)
      else Decode(r.dec, buf + later) == Decode(d, buf + later)
  {
    hide ParseBasicHeader, StepStream;
    var basic := ParseBasicHeader(buf);
    if basic.Some? {
      BasicHeaderStable(buf, later);
      var BasicHeader(fmt, csid, n) := basic.value;
      var st := StateOf(d.streams, csid);
      assert (buf + later)[n..] == buf[n..] + later;
      var step := StepStream(d.chunkSize, d.maxMessageSize, csid, st, fmt, buf[n..]);
      if step.Some? {
        StepStable(d.chunkSize, d.maxMessageSize, csid, st, fmt, buf[n..], later);
        assert (buf + later)[n + step.value.used..] == buf[n + step.value.used..] + later;
      } else {
        MapUpdateTwice(d.streams, csid, st);
      }
    }
  }

  lemma MapUpdateTwice(m: map<u32, ChunkState>, c: u32, st: ChunkState)
    ensures forall x: ChunkState {:trigger m[c := x]} :: m[c := st][c := x] == m[c := x]
  {
  }
}
