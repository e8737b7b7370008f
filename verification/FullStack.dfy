/** From messages to messages: payloads, chunks, any fragmentation on the way,
    reassembly and parsing. */
module FullStack {
  import opened Bytes
  import opened ChunkModel
  import opened ChunkRuns
  import opened ChunkSession
  import opened EncoderSession
  import opened Reading
  import opened MessageProofs
  import M = MessageModel

  datatype Action = Post(m: M.Message, csid: u32, timestamp: u32, streamId: u32) | ResetEncoder

  function CallOf(a: Action): Call {
    match a
    case Post(m, csid, timestamp, streamId) => Send(ToChunk(m, csid, timestamp, streamId))
    case ResetEncoder => EncoderSession.ResetEncoder
  }

  function CallsOf(actions: seq<Action>): seq<Call> {
    if actions == [] then [] else [CallOf(actions[0])] + CallsOf(actions[1..])
  }

  predicate AllRepresentable(actions: seq<Action>) {
    forall a :: a in actions && a.Post? ==> Representable(a.m, a.timestamp, a.streamId)
  }

  /** What the peer should see: the messages posted, normalised. */
  function Expected(actions: seq<Action>): seq<M.Parsed<M.Message>> {
    if actions == [] then []
    else (if actions[0].Post? then [M.Parsed(NormMessage(actions[0].m))] else []) + Expected(actions[1..])
  }

  function ParsedAll(log: seq<RtmpChunk>): seq<M.Parsed<M.Message>> {
    if log == [] then [] else [M.Parse(log[0])] + ParsedAll(log[1..])
  }

  // ---- how the server treats a reassembled message ----

  /** Every chunk is parsed; `handle` stands for what the server does with a message that is
      neither SetChunkSize nor Abort. */
  function Dispatcher(handle: M.Message -> bool): Handler {
    (log, c) => M.Parse(c).Parsed? && handle(M.Parse(c).value)
  }

  /** The reading loop's treatment of a message is the one its parsed form calls for. */
  lemma ControlAgrees(d: Decoder, log: seq<RtmpChunk>, c: RtmpChunk, handle: M.Message -> bool)
    ensures var (after, failure) := AfterMessage(d, log, c, Dispatcher(handle));
      match M.Parse(c)
      case Rejected(_) => after == d && failure.Some?
      case Parsed(SetChunkSize(size)) => after == d.(chunkSize := Min(size, MAX_CHUNK_SIZE)) && failure.None?
      case Parsed(Abort(csid)) => after == AbortStream(d, csid) && failure.None?
      case Parsed(m) => after == d && (failure.None? <==> handle(m))
  {
    hide M.ParseUserControl, M.ParseCommand, M.ParseData, AbortStream, U32At;
    NoControlFromOthers(c);
  }

  lemma NoControlFromOthers(c: RtmpChunk)
    ensures var p := M.Parse(c);
      && (p.Parsed? && p.value.SetChunkSize? ==> c.msgType == MSG_SET_CHUNK_SIZE)
      && (p.Parsed? && p.value.Abort? ==> c.msgType == MSG_ABORT)
  {
    hide M.ParseCommand, M.ParseData, U32At;
  }

  // ---- the whole stack ----

  /** The rest of the server takes every message as it will see it. */
  predicate AllHandled(actions: seq<Action>, handle: M.Message -> bool) {
    forall a :: a in actions && a.Post? ==> handle(NormMessage(a.m))
  }

  lemma {:induction false} ParsedAsExpected(actions: seq<Action>, handle: M.Message -> bool)
    requires AllRepresentable(actions) && AllHandled(actions, handle)
    ensures ParsedAll(Sent(CallsOf(actions))) == Expected(actions)
    ensures forall c :: c in Sent(CallsOf(actions)) ==> M.Parse(c).Parsed? && handle(M.Parse(c).value)
  {
    hide M.Parse, Representable, NormMessage, ToChunk;
    if actions != [] {
      var a, rest := actions[0], actions[1..];
      assert a in actions && forall x :: x in rest ==> x in actions;
      ParsedAsExpected(rest, handle);
      assert CallsOf(actions)[1..] == CallsOf(rest);
      if a.Post? {
        var c := ToChunk(a.m, a.csid, a.timestamp, a.streamId);
        MessageExact(a.m, a.csid, a.timestamp, a.streamId);
        assert Sent(CallsOf(actions)) == [c] + Sent(CallsOf(rest));
        assert ParsedAll([c] + Sent(CallsOf(rest))) == [M.Parse(c)] + ParsedAll(Sent(CallsOf(rest))) by {
          assert ([c] + Sent(CallsOf(rest)))[1..] == Sent(CallsOf(rest));
        }
      } else {
        assert Sent(CallsOf(actions)) == Sent(CallsOf(rest));
      }
    }
  }

  /** Representable messages, posted with encoder resets in between and cut into chunks, come
      out of the server's reading loop and parser as they went in, up to AMF0 normalisation,
      in order, whatever pieces the bytes arrive in, and no byte is left over. */
  lemma StackRoundTrip(actions: seq<Action>, fragments: seq<bytes>, handle: M.Message -> bool)
    requires AllRepresentable(actions) && AllHandled(actions, handle) && LegalCalls(FRESH_SIDE, CallsOf(actions))
    requires Flatten(fragments) == Transmit(FRESH_SIDE, CallsOf(actions))
    ensures var c := ReadAll(Idle(FRESH_DECODER, []), fragments, Dispatcher(handle));
      ParsedAll(c.log) == Expected(actions) && c.buf == [] && c.error == None
  {
    hide ReadAll, LegalCalls, Transmit, AllRepresentable, AllHandled, M.Parse;
    ParsedAsExpected(actions, handle);
    SessionRoundTrip(CallsOf(actions), fragments, Dispatcher(handle));
  }

  /** The same for an application that keeps to plain timestamps. */
  lemma PlainStackRoundTrip(actions: seq<Action>, fragments: seq<bytes>, handle: M.Message -> bool)
    requires AllRepresentable(actions) && AllHandled(actions, handle) && PlainCalls(map[], CallsOf(actions))
    ensures LegalCalls(FRESH_SIDE, CallsOf(actions))
    ensures Flatten(fragments) == Transmit(FRESH_SIDE, CallsOf(actions)) ==>
      var c := ReadAll(Idle(FRESH_DECODER, []), fragments, Dispatcher(handle));
      ParsedAll(c.log) == Expected(actions) && c.buf == [] && c.error == None
  {
    hide ReadAll, LegalCalls, Transmit, AllRepresentable, AllHandled, M.Parse, PlainCalls;
    PlainSessionRoundTrip(CallsOf(actions), fragments, Dispatcher(handle));
    if Flatten(fragments) == Transmit(FRESH_SIDE, CallsOf(actions)) {
      StackRoundTrip(actions, fragments, handle);
    }
  }
}
