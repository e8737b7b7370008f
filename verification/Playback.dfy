/** From a subscriber's events to what its player sees: the frames that the delivery
    filter lets through and the notices around a pause, as messages on their chunk
    streams, through the encoder and any fragmentation. All is well exactly until a
    resumption sends a cached header again that is older than what was sent since. */
module Playback {
  import opened Bytes
  import opened ChunkModel
  import opened ChunkRuns
  import opened ChunkSession
  import opened ChunkClock
  import opened EncoderSession
  import opened Reading
  import D = Delivery
  import M = MessageModel
  import R = RegistryModel

  const CSID_PROTOCOL_CONTROL: u32 := 2
  const CSID_COMMAND: u32 := 3
  const CSID_AUDIO: u32 := 4
  const CSID_VIDEO: u32 := 6

  /** A playing session: its message stream, the status commands it sends, and the payload that
      stands in for metadata without content. */
  datatype Player = Player(streamId: u32, paused: M.Command, resumed: M.Command, noMetadata: M.DataMessage)

  function FrameMessage(p: Player, f: R.Frame): RtmpChunk {
    match f.frameType
    case Video => RtmpChunk(CSID_VIDEO, f.timestamp, M.MSG_VIDEO, p.streamId, f.data)
    case Audio => RtmpChunk(CSID_AUDIO, f.timestamp, M.MSG_AUDIO, p.streamId, f.data)
    case Metadata =>
      RtmpChunk(CSID_COMMAND, 0, M.MSG_DATA_AMF0, p.streamId,
                if f.data == [] then M.DataBytes(p.noMetadata) else f.data)
  }

  function CommandMessage(p: Player, c: M.Command): RtmpChunk {
    RtmpChunk(CSID_COMMAND, 0, M.MSG_COMMAND_AMF0, p.streamId, M.CommandBytes(c))
  }

  function EventMessage(e: M.UserControlEvent): RtmpChunk {
    RtmpChunk(CSID_PROTOCOL_CONTROL, 0, M.MSG_USER_CONTROL, 0, M.EventBytes(e))
  }

  function MessageOf(p: Player, item: D.Item): RtmpChunk {
    match item
    case Media(f) => FrameMessage(p, f)
    case Notify(notice) =>
      match notice
      case PauseNotify => CommandMessage(p, p.paused)
      case StreamDry => EventMessage(M.StreamDry(p.streamId))
      case UnpauseNotify => CommandMessage(p, p.resumed)
      case StreamBegin => EventMessage(M.StreamBegin(p.streamId))
  }

  function Messages(p: Player, items: seq<D.Item>): (ms: seq<RtmpChunk>)
    ensures |ms| == |items|
  {
    if items == [] then [] else [MessageOf(p, items[0])] + Messages(p, items[1..])
  }

  // ---- the conditions ----

  predicate FitsMessage(payload: bytes) {
    0 < |payload| < TWO_TO_THE_24
  }

  predicate ValidPlayer(p: Player) {
    FitsMessage(M.CommandBytes(p.paused)) && FitsMessage(M.CommandBytes(p.resumed))
    && FitsMessage(M.DataBytes(p.noMetadata))
  }

  /** Media below the extended times. */
  predicate PlainFrame(f: R.Frame) {
    if f.frameType == R.Metadata then |f.data| < TWO_TO_THE_24
    else FitsMessage(f.data) && f.timestamp < EXTENDED_TIMESTAMP
  }

  predicate PlainItem(item: D.Item) {
    item.Media? ==> PlainFrame(item.frame)
  }

  /** What a session has sent before it plays: nothing on the media streams, or only for the same
      message stream, and nothing but time 0 on the others. */
  predicate Prepared(p: Player, last: map<u32, Last>) {
    && (forall csid :: csid in {CSID_PROTOCOL_CONTROL, CSID_COMMAND} && csid in last ==> last[csid].timestamp == 0)
    && (forall csid :: csid in {CSID_AUDIO, CSID_VIDEO} && csid in last ==> last[csid].streamId == p.streamId)
  }

  lemma ItemIsPlain(p: Player, last: map<u32, Last>, item: D.Item)
    requires ValidPlayer(p) && Prepared(p, last) && PlainItem(item)
    ensures Plain(last, MessageOf(p, item)) && Prepared(p, ChunkClock.Next(last, MessageOf(p, item)))
  {
    hide M.CommandBytes, M.DataBytes;
  }

  lemma {:induction false} ItemsArePlain(p: Player, last: map<u32, Last>, items: seq<D.Item>)
    requires ValidPlayer(p) && Prepared(p, last) && forall i :: 0 <= i < |items| ==> PlainItem(items[i])
    ensures AllPlain(last, Messages(p, items))
    decreases |items|
  {
    hide Plain, Prepared, ValidPlayer, PlainItem, MessageOf, ChunkClock.Next;
    if items != [] {
      ItemIsPlain(p, last, items[0]);
      ItemsArePlain(p, ChunkClock.Next(last, MessageOf(p, items[0])), items[1..]);
    }
  }

  // ---- times in order ----

  function ChunkStream(item: D.Item): u32 {
    match item
    case Media(f) =>
      if f.frameType == R.Video then CSID_VIDEO else if f.frameType == R.Audio then CSID_AUDIO else CSID_COMMAND
    case Notify(notice) =>
      if notice == D.PauseNotify || notice == D.UnpauseNotify then CSID_COMMAND else CSID_PROTOCOL_CONTROL
  }

  function Time(item: D.Item): u32 {
    if item.Media? && item.frame.frameType != R.Metadata then item.frame.timestamp else 0
  }

  predicate Before(a: D.Item, b: D.Item) {
    ChunkStream(a) == ChunkStream(b) ==> Time(a) <= Time(b)
  }

  predicate Ascending(items: seq<D.Item>) {
    forall i, j :: 0 <= i < j < |items| ==> Before(items[i], items[j])
  }

  predicate Follows(last: map<u32, Last>, item: D.Item) {
    ChunkStream(item) in last ==> last[ChunkStream(item)].timestamp <= Time(item)
  }

  lemma MessageKeepsTime(p: Player, item: D.Item)
    ensures MessageOf(p, item).csid == ChunkStream(item) && MessageOf(p, item).timestamp == Time(item)
  {
    hide M.CommandBytes, M.DataBytes, M.EventBytes;
  }

  lemma {:induction false} AscendingIsNeverBack(p: Player, last: map<u32, Last>, items: seq<D.Item>)
    ensures NeverBack(last, Messages(p, items))
       <==> Ascending(items) && forall i :: 0 <= i < |items| ==> Follows(last, items[i])
    decreases |items|
  {
    hide MessageOf, ChunkStream, Time;
    if items != [] {
      var first, rest := items[0], items[1..];
      var last' := ChunkClock.Next(last, MessageOf(p, first));
      MessageKeepsTime(p, first);
      AscendingIsNeverBack(p, last', rest);
      assert InOrder(LastOn(last, MessageOf(p, first).csid), MessageOf(p, first)) <==> Follows(last, first);
      FollowsAgain(last, first, rest, last');
    }
  }

  lemma FollowsAgain(last: map<u32, Last>, first: D.Item, rest: seq<D.Item>, last': map<u32, Last>)
    requires exists streamId :: last' == last[ChunkStream(first) := Last(Time(first), streamId)]
    ensures Follows(last, first) && Ascending(rest) && (forall i :: 0 <= i < |rest| ==> Follows(last', rest[i]))
       <==> Ascending([first] + rest) && forall i :: 0 <= i < |[first] + rest| ==> Follows(last, ([first] + rest)[i])
  {
    hide ChunkStream, Time;
    var all := [first] + rest;
    assert forall i :: 0 <= i < |rest| ==> rest[i] == all[i + 1];
    assert all[0] == first;
    if Follows(last, first) && Ascending(rest) && forall i :: 0 <= i < |rest| ==> Follows(last', rest[i]) {
      forall i, j | 0 <= i < j < |all| ensures Before(all[i], all[j]) {
        if i == 0 {
          assert Follows(last', rest[j - 1]);
        } else {
          assert Before(rest[i - 1], rest[j - 1]);
        }
      }
      forall i | 0 <= i < |all| ensures Follows(last, all[i]) {
        if i > 0 {
          assert Follows(last', rest[i - 1]);
        }
      }
    }
    if Ascending(all) && forall i :: 0 <= i < |all| ==> Follows(last, all[i]) {
      assert Follows(last, all[0]);
      forall i, j | 0 <= i < j < |rest| ensures Before(rest[i], rest[j]) {
        assert Before(all[i + 1], all[j + 1]);
      }
      forall i | 0 <= i < |rest| ensures Follows(last', rest[i]) {
        assert Before(all[0], all[i + 1]) && Follows(last, all[i + 1]);
      }
    }
  }

  // ---- runs of a subscriber ----

  function FramesOf(e: D.Event): seq<R.Frame> {
    match e
    case Receive(f, _) => [f]
    case Unpause(headers) => headers
    case _ => []
  }

  predicate AllBefore(a: seq<R.Frame>, b: seq<R.Frame>) {
    forall i, j :: 0 <= i < |a| && 0 <= j < |b| ==> Before(D.Media(a[i]), D.Media(b[j]))
  }

  predicate InTurn(fs: seq<R.Frame>) {
    forall i, j :: 0 <= i < j < |fs| ==> Before(D.Media(fs[i]), D.Media(fs[j]))
  }

  /** Frames come in the order of their times, and so do the headers sent again: against each other
      and against the frames after them. Headers against the frames before them are left open. */
  predicate TimelyEvents(es: seq<D.Event>) {
    && (forall i :: 0 <= i < |es| ==> InTurn(FramesOf(es[i])))
    && (forall i, j :: 0 <= i < j < |es| && (es[j].Unpause? ==> es[i].Unpause?) ==>
          AllBefore(FramesOf(es[i]), FramesOf(es[j])))
  }

  predicate PlainEvents(es: seq<D.Event>) {
    forall i :: 0 <= i < |es| ==> forall j :: 0 <= j < |FramesOf(es[i])| ==> PlainFrame(FramesOf(es[i])[j])
  }

  predicate AllItemsBefore(a: seq<D.Item>, b: seq<D.Item>) {
    forall i, j :: 0 <= i < |a| && 0 <= j < |b| ==> Before(a[i], b[j])
  }

  /** Event `i` sends a header again that is older than something sent before on its stream. */
  predicate Stale(es: seq<D.Event>, limits: D.Limits, i: nat)
    requires i < |es|
  {
    es[i].Unpause? && !AllItemsBefore(D.SentUntil(es, i, limits), D.Output(es, i, limits))
  }

  lemma {:induction false} AscendingConcat(a: seq<D.Item>, b: seq<D.Item>)
    ensures Ascending(a + b) <==> Ascending(a) && Ascending(b) && AllItemsBefore(a, b)
  {
    hide Before;
    var all := a + b;
    if Ascending(all) {
      forall i, j | 0 <= i < j < |a| ensures Before(a[i], a[j]) {
        assert Before(all[i], all[j]);
      }
      forall i, j | 0 <= i < j < |b| ensures Before(b[i], b[j]) {
        assert Before(all[|a| + i], all[|a| + j]);
      }
      forall i, j | 0 <= i < |a| && 0 <= j < |b| ensures Before(a[i], b[j]) {
        assert Before(all[i], all[|a| + j]);
      }
    }
    if Ascending(a) && Ascending(b) && AllItemsBefore(a, b) {
      forall i, j | 0 <= i < j < |all| ensures Before(all[i], all[j]) {
        if j < |a| {
          assert Before(a[i], a[j]);
        } else if i >= |a| {
          assert Before(b[i - |a|], b[j - |a|]);
        }
      }
    }
  }

  /** Where the media of some items come from. */
  predicate MediaFrom(items: seq<D.Item>, fs: seq<R.Frame>) {
    forall i :: 0 <= i < |items| && items[i].Media? ==> items[i].frame in fs
  }

  lemma {:induction false} HeadersFrom(headers: seq<R.Frame>)
    ensures MediaFrom(D.Headers(headers), headers)
    ensures InTurn(headers) ==> Ascending(D.Headers(headers))
  {
    if headers != [] {
      HeadersFrom(headers[1..]);
      var rest := D.Headers(headers[1..]);
      if InTurn(headers) {
        assert InTurn(headers[1..]);
        assert AllItemsBefore([D.Media(headers[0])], rest) by {
          forall j | 0 <= j < |rest| ensures Before(D.Media(headers[0]), rest[j]) {
            HeadersAreMedia(headers[1..]);
            assert rest[j].frame in headers[1..];
          }
        }
        AscendingConcat([D.Media(headers[0])], rest);
        assert [] + rest == rest;
      }
    }
  }

  lemma {:induction false} HeadersAreMedia(headers: seq<R.Frame>)
    ensures forall j :: 0 <= j < |D.Headers(headers)| ==> D.Headers(headers)[j].Media?
  {
    if headers != [] {
      HeadersAreMedia(headers[1..]);
    }
  }

  /** What an event sends is its own frames, in order, and notices at time 0. */
  lemma OutputFrom(es: seq<D.Event>, limits: D.Limits, i: nat)
    requires i < |es| && InTurn(FramesOf(es[i]))
    ensures MediaFrom(D.Output(es, i, limits), FramesOf(es[i])) && Ascending(D.Output(es, i, limits))
  {
    hide D.After;
    if es[i].Unpause? {
      var headers := es[i].headers;
      HeadersFrom(headers);
      HeadersAreMedia(headers);
      AscendingConcat([D.Notify(D.UnpauseNotify), D.Notify(D.StreamBegin)], D.Headers(headers));
    }
  }

  ghost predicate FromEvents(items: seq<D.Item>, es: seq<D.Event>, n: nat)
    requires n <= |es|
  {
    forall i :: 0 <= i < |items| && items[i].Media? ==> exists k :: 0 <= k < n && items[i].frame in FramesOf(es[k])
  }

  lemma {:induction false} SentFrom(es: seq<D.Event>, limits: D.Limits, n: nat)
    requires n <= |es| && TimelyEvents(es)
    ensures FromEvents(D.SentUntil(es, n, limits), es, n)
  {
    hide D.Output, FramesOf, AllBefore;
    if n > 0 {
      SentFrom(es, limits, n - 1);
      OutputFrom(es, limits, n - 1);
      var sent, out := D.SentUntil(es, n - 1, limits), D.Output(es, n - 1, limits);
      var all := sent + out;
      forall i | 0 <= i < |all| && all[i].Media? ensures exists k :: 0 <= k < n && all[i].frame in FramesOf(es[k]) {
        if i >= |sent| {
          assert out[i - |sent|].frame in FramesOf(es[n - 1]);
        }
      }
    }
  }

  /** Everything but a header sent again comes after what was sent before it. */
  lemma TimelyOutput(es: seq<D.Event>, limits: D.Limits, n: nat)
    requires n < |es| && TimelyEvents(es) && !es[n].Unpause?
    ensures AllItemsBefore(D.SentUntil(es, n, limits), D.Output(es, n, limits))
  {
    hide D.Output, D.SentUntil, FramesOf;
    SentFrom(es, limits, n);
    OutputFrom(es, limits, n);
    var sent, out := D.SentUntil(es, n, limits), D.Output(es, n, limits);
    forall i, j | 0 <= i < |sent| && 0 <= j < |out| ensures Before(sent[i], out[j]) {
      if sent[i].Media? && out[j].Media? {
        var k :| 0 <= k < n && sent[i].frame in FramesOf(es[k]);
        assert AllBefore(FramesOf(es[k]), FramesOf(es[n]));
        assert Before(D.Media(sent[i].frame), D.Media(out[j].frame));
      }
    }
  }

  /** What a run sends is in the order of its times, on every chunk stream, exactly if no resumption
      sends a header again that is older than something sent before it. */
  lemma {:induction false} AscendingUnlessStale(es: seq<D.Event>, limits: D.Limits, n: nat)
    requires n <= |es| && TimelyEvents(es)
    ensures Ascending(D.SentUntil(es, n, limits)) <==> forall i :: 0 <= i < n ==> !Stale(es, limits, i)
  {
    hide D.Output, FramesOf, AllItemsBefore, TimelyEvents, Ascending;
    assert Ascending([]) by { NothingSent(); }
    if n > 0 {
      AscendingUnlessStale(es, limits, n - 1);
      TimelyFrames(es, n - 1);
      OutputFrom(es, limits, n - 1);
      AscendingConcat(D.SentUntil(es, n - 1, limits), D.Output(es, n - 1, limits));
      if !es[n - 1].Unpause? {
        TimelyOutput(es, limits, n - 1);
      }
      var sent, out := D.SentUntil(es, n - 1, limits), D.Output(es, n - 1, limits);
      assert Ascending(sent + out) <==> Ascending(sent) && AllItemsBefore(sent, out);
      assert AllItemsBefore(sent, out) <==> !Stale(es, limits, n - 1);
    }
  }

  lemma NothingSent()
    ensures Ascending([])
  {
  }

  lemma TimelyFrames(es: seq<D.Event>, i: nat)
    requires i < |es| && TimelyEvents(es)
    ensures InTurn(FramesOf(es[i]))
  {
  }

  lemma PlainOutput(es: seq<D.Event>, limits: D.Limits, n: nat)
    requires n <= |es| && TimelyEvents(es) && PlainEvents(es)
    ensures forall i :: 0 <= i < |D.SentUntil(es, n, limits)| ==> PlainItem(D.SentUntil(es, n, limits)[i])
  {
    hide PlainFrame, FramesOf, D.SentUntil, TimelyEvents;
    SentFrom(es, limits, n);
    var sent := D.SentUntil(es, n, limits);
    forall i | 0 <= i < |sent| ensures PlainItem(sent[i]) {
      if sent[i].Media? {
        var k :| 0 <= k < n && sent[i].frame in FramesOf(es[k]);
      }
    }
  }

  // ---- what the player sees ----

  /** Nothing has been played before, and all else went out at time 0. */
  predicate Unplayed(last: map<u32, Last>) {
    && CSID_AUDIO !in last && CSID_VIDEO !in last
    && forall csid :: csid in {CSID_PROTOCOL_CONTROL, CSID_COMMAND} && csid in last ==> last[csid].timestamp == 0
  }

  lemma AllFollow(last: map<u32, Last>, items: seq<D.Item>)
    requires Unplayed(last)
    ensures forall i :: 0 <= i < |items| ==> Follows(last, items[i])
  {
  }

  /** The messages of a run are plain calls of the encoder, so that they arrive as sent, exactly if
      no resumption is stale. */
  lemma PlaybackIsPlain(p: Player, last: map<u32, Last>, es: seq<D.Event>, limits: D.Limits, n: nat)
    requires n <= |es| && ValidPlayer(p) && Unplayed(last) && PlainEvents(es) && TimelyEvents(es)
    ensures var ms := Messages(p, D.SentUntil(es, n, limits));
      && AllPlain(last, ms)
      && (PlainCalls(last, Sends(ms)) <==> forall i :: 0 <= i < n ==> !Stale(es, limits, i))
      && (NeverBack(last, ms) <==> forall i :: 0 <= i < n ==> !Stale(es, limits, i))
  {
    hide ValidPlayer, PlainEvents, TimelyEvents, D.SentUntil, PlainCalls, Sends, NeverBack, AllPlain, Stale, Ascending,
      Follows, PlainItem, Messages;
    var items := D.SentUntil(es, n, limits);
    PlainOutput(es, limits, n);
    ItemsArePlain(p, last, items);
    PlainIsExact(last, Messages(p, items));
    AscendingIsNeverBack(p, last, items);
    AllFollow(last, items);
    AscendingUnlessStale(es, limits, n);
  }

  /** A whole playback: the plain calls that led to it, then a subscriber's run, in any fragments.
      The player has every message; the times are those sent exactly if no resumption is stale, and
      otherwise those of `Heard`, 2^24 ms ahead after each stale header. */
  lemma PlaybackHeard(calls: seq<Call>, p: Player, es: seq<D.Event>, limits: D.Limits, n: nat,
                      fragments: seq<bytes>, accept: Handler)
    requires PlainCalls(map[], calls) && LegalCalls(FRESH_SIDE, calls)
    requires AfterCalls(FRESH_SIDE, calls).enc.chunkSize >= 1
    requires n <= |es| && ValidPlayer(p) && PlainEvents(es) && TimelyEvents(es)
    requires Unplayed(AfterAllPlain(map[], calls))
    requires var ms := Messages(p, D.SentUntil(es, n, limits));
      && NoOneBack(AfterAllPlain(map[], calls), ms)
      && Flatten(fragments) == Transmit(FRESH_SIDE, calls) + Written(AfterCalls(FRESH_SIDE, calls).enc, ms)
      && AcceptsAll(accept, [], Sent(calls) + Heard(AfterAllPlain(map[], calls), map[], ms))
    ensures var ms := Messages(p, D.SentUntil(es, n, limits));
      var c := ReadAll(Idle(FRESH_DECODER, []), fragments, accept);
      && c.log == Sent(calls) + Heard(AfterAllPlain(map[], calls), map[], ms) && c.buf == [] && c.error == None
      && (c.log == Sent(calls) + ms <==> forall i :: 0 <= i < n ==> !Stale(es, limits, i))
  {
    hide ValidPlayer, PlainEvents, TimelyEvents, D.SentUntil, PlainCalls, Sends, NeverBack, AllPlain, Stale, Unplayed,
      Messages, LegalCalls, AfterCalls, AfterAllPlain, NoOneBack, Transmit, Written, AcceptsAll, Heard, ReadAll;
    var last, ms := AfterAllPlain(map[], calls), Messages(p, D.SentUntil(es, n, limits));
    PlaybackIsPlain(p, last, es, limits, n);
    SessionHeard(calls, ms, fragments, accept);
    HeardAsSent(last, map[], ms);
    SameTail(Sent(calls), Heard(last, map[], ms), ms);
  }

  lemma SameTail<T>(a: seq<T>, b: seq<T>, c: seq<T>)
    ensures a + b == a + c <==> b == c
  {
    if a + b == a + c {
      assert b == (a + b)[|a|..] && c == (a + c)[|a|..];
    }
  }

  // ---- a resumption that goes wrong ----

  function VideoFrame(time: u32, header: bool): R.Frame {
    R.Frame(R.Video, time, [0x17], !header, header)
  }

  /** A sequence header at 0 ms and a key frame at 1000 ms, a pause, and a resumption that sends the
      header again before the key frame at 1040 ms. */
  const RESUMPTION: seq<D.Event> := [
    D.Receive(VideoFrame(0, true), true), D.Receive(VideoFrame(1000, false), true), D.Pause,
    D.Unpause([VideoFrame(0, true)]), D.Receive(VideoFrame(1040, false), true)]

  /** A run as a player's pause button makes it, with all times in order, is stale. */
  lemma ResumptionIsStale(limits: D.Limits)
    ensures PlainEvents(RESUMPTION) && TimelyEvents(RESUMPTION) && Stale(RESUMPTION, limits, 3)
  {
    ResumptionIsTimely();
    hide PlainEvents, TimelyEvents;
    var es, header, key := RESUMPTION, VideoFrame(0, true), VideoFrame(1000, false);
    assert D.SentUntil(es, 1, limits) == [D.Media(header)];
    assert D.SentUntil(es, 2, limits)[1] == D.Media(key);
    assert D.SentUntil(es, 3, limits)[1] == D.Media(key);
    assert D.After(es, 2, limits) == D.START;
    assert D.After(es, 3, limits) == D.START.(paused := true);
    assert D.Headers([header]) == [D.Media(header)];
    assert D.Output(es, 3, limits)[2] == D.Media(header);
    assert !Before(D.Media(key), D.Media(header));
  }

  lemma ResumptionIsTimely()
    ensures PlainEvents(RESUMPTION) && TimelyEvents(RESUMPTION)
  {
    var es := RESUMPTION;
    forall i, j | 0 <= i < j < |es| && (es[j].Unpause? ==> es[i].Unpause?)
      ensures AllBefore(FramesOf(es[i]), FramesOf(es[j]))
    {
      assert j != 3;
    }
  }
}
