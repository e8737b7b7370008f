/** What a subscriber is sent: the filter over the frames it receives, driven by
    lag, pause and key frames, and the notices that accompany pause and resumption.
    Every event of a subscriber's connection is handled to the end before the next,
    so a run is a list of events. */
module Delivery {
  import opened Bytes
  import opened RegistryModel

  datatype Limits = Limits(lagThresholdLow: nat, maxConsecutiveLags: nat)

  /** `live` frames come from the broadcast channel, the others from the catch-up at the
      start of playback. `Unpause` carries the stream's sequence headers of that moment. */
  datatype Event =
    | Receive(frame: Frame, live: bool)
    | Lag(skipped: nat)
    | Pause
    | Unpause(headers: seq<Frame>)

  datatype Notice = PauseNotify | StreamDry | UnpauseNotify | StreamBegin

  /** What is handed to the writer. */
  datatype Item = Media(frame: Frame) | Notify(notice: Notice)

  /** `alive` ends when a slow subscriber is disconnected. */
  datatype Subscriber = Subscriber(skipping: bool, paused: bool, skipAudio: bool, lagCount: u32, alive: bool)

  const START := Subscriber(false, false, false, 0, true)

  // ---- one event ----

  predicate IsResync(f: Frame) {
    f.frameType == Video && (f.isKeyframe || f.isHeader)
  }

  /** The new state and what is sent. */
  function Send(s: Subscriber, f: Frame): (Subscriber, seq<Item>) {
    if s.paused then (s, [])
    else if !s.skipping then (s, [Media(f)])
    else
      match f.frameType
      case Video => if IsResync(f) then (s.(skipping := false, skipAudio := false), [Media(f)]) else (s, [])
      case Audio => if s.skipAudio then (s, []) else (s, [Media(f)])
      case Metadata => (s, [Media(f)])
  }

  function Lagged(s: Subscriber, skipped: nat, limits: Limits): Subscriber {
    var counted := s.(lagCount := (s.lagCount + 1) % TWO_TO_THE_32);
    if skipped < limits.lagThresholdLow then counted
    else counted.(skipping := true, alive := counted.lagCount < limits.maxConsecutiveLags)
  }

  /** Of the headers, those that are media. */
  function Headers(headers: seq<Frame>): seq<Item> {
    if headers == [] then []
    else (if headers[0].frameType == Metadata then [] else [Media(headers[0])]) + Headers(headers[1..])
  }

  /** What goes out when playback stops for a pause, and when it goes on. */
  const ON_PAUSE: seq<Item> := [Notify(PauseNotify), Notify(StreamDry)]

  function OnResume(headers: seq<Frame>): seq<Item> {
    [Notify(UnpauseNotify), Notify(StreamBegin)] + Headers(headers)
  }

  function React(s: Subscriber, e: Event, limits: Limits): (Subscriber, seq<Item>) {
    if !s.alive then (s, [])
    else
      match e
      case Receive(f, live) => Send(if live then s.(lagCount := 0) else s, f)
      case Lag(n) => (Lagged(s, n, limits), [])
      case Pause => if s.paused then (s, []) else (s.(paused := true), ON_PAUSE)
      case Unpause(headers) =>
        if s.paused then (s.(paused := false, skipping := true, skipAudio := true), OnResume(headers)) else (s, [])
  }

  // ---- runs ----

  /** The state after the first `n` events. */
  function After(es: seq<Event>, n: nat, limits: Limits): Subscriber
    requires n <= |es|
  {
    if n == 0 then START else React(After(es, n - 1, limits), es[n - 1], limits).0
  }

  /** What event `i` makes the server send. */
  function Output(es: seq<Event>, i: nat, limits: Limits): seq<Item>
    requires i < |es|
  {
    React(After(es, i, limits), es[i], limits).1
  }

  // ---- the same, said about the history alone ----

  /** The last of the pauses and unpauses before event `i` is a pause. */
  ghost predicate PausedAt(es: seq<Event>, i: nat)
    requires i <= |es|
  {
    exists j :: 0 <= j < i && es[j].Pause? && forall k :: j < k < i ==> !es[k].Unpause?
  }

  /** Unpausing when not paused does nothing. */
  ghost predicate Resumes(es: seq<Event>, j: nat)
    requires j < |es|
  {
    es[j].Unpause? && PausedAt(es, j)
  }

  ghost predicate Desyncs(es: seq<Event>, limits: Limits, j: nat)
    requires j < |es|
  {
    Resumes(es, j) || (es[j].Lag? && es[j].skipped >= limits.lagThresholdLow)
  }

  ghost predicate Resyncs(es: seq<Event>, k: nat)
    requires k < |es|
  {
    es[k].Receive? && IsResync(es[k].frame) && !PausedAt(es, k)
  }

  ghost predicate NoResync(es: seq<Event>, from: nat, to: nat)
    requires to <= |es|
  {
    forall k :: from <= k < to ==> !Resyncs(es, k)
  }

  /** A lag or a resumption with no key frame or header seen since. */
  ghost predicate OutOfSync(es: seq<Event>, limits: Limits, i: nat)
    requires i <= |es|
  {
    exists j :: 0 <= j < i && Desyncs(es, limits, j) && NoResync(es, j + 1, i)
  }

  /** A resumption with no key frame or header seen since. */
  ghost predicate Muted(es: seq<Event>, i: nat)
    requires i <= |es|
  {
    exists j :: 0 <= j < i && Resumes(es, j) && NoResync(es, j + 1, i)
  }

  ghost predicate Forwarded(es: seq<Event>, limits: Limits, i: nat)
    requires i < |es| && es[i].Receive?
  {
    var f := es[i].frame;
    && !PausedAt(es, i)
    && (f.frameType == Video && !IsResync(f) ==> !OutOfSync(es, limits, i))
    && (f.frameType == Audio ==> !Muted(es, i))
  }

  /** What the history says is sent. */
  ghost function Reaction(es: seq<Event>, limits: Limits, i: nat): seq<Item>
    requires i < |es|
  {
    match es[i]
    case Receive(f, _) => if Forwarded(es, limits, i) then [Media(f)] else []
    case Lag(_) => []
    case Pause => if PausedAt(es, i) then [] else ON_PAUSE
    case Unpause(headers) => if PausedAt(es, i) then OnResume(headers) else []
  }

  // ---- each predicate, one event later ----

  lemma PausedStep(es: seq<Event>, i: nat)
    requires i < |es|
    ensures PausedAt(es, i + 1) <==> es[i].Pause? || (PausedAt(es, i) && !es[i].Unpause?)
  {
    if es[i].Pause? {
      assert PausedAt(es, i + 1);
    }
    if !es[i].Pause? && PausedAt(es, i + 1) {
      var j :| 0 <= j < i + 1 && es[j].Pause? && forall k :: j < k < i + 1 ==> !es[k].Unpause?;
      assert j < i && !es[i].Unpause?;
    }
    if PausedAt(es, i) && !es[i].Unpause? {
      var j :| 0 <= j < i && es[j].Pause? && forall k :: j < k < i ==> !es[k].Unpause?;
      assert forall k :: j < k < i + 1 ==> !es[k].Unpause?;
    }
  }

  lemma OutOfSyncStep(es: seq<Event>, limits: Limits, i: nat)
    requires i < |es|
    ensures OutOfSync(es, limits, i + 1) <==> Desyncs(es, limits, i) || (OutOfSync(es, limits, i) && !Resyncs(es, i))
  {
    hide Desyncs, Resyncs;
    if Desyncs(es, limits, i) {
      assert NoResync(es, i + 1, i + 1);
    }
    if !Desyncs(es, limits, i) && OutOfSync(es, limits, i + 1) {
      var j :| 0 <= j < i + 1 && Desyncs(es, limits, j) && NoResync(es, j + 1, i + 1);
      assert j < i && NoResync(es, j + 1, i);
    }
    if OutOfSync(es, limits, i) && !Resyncs(es, i) {
      var j :| 0 <= j < i && Desyncs(es, limits, j) && NoResync(es, j + 1, i);
      assert NoResync(es, j + 1, i + 1);
    }
  }

  lemma MutedStep(es: seq<Event>, i: nat)
    requires i < |es|
    ensures Muted(es, i + 1) <==> Resumes(es, i) || (Muted(es, i) && !Resyncs(es, i))
  {
    hide Resumes, Resyncs;
    if Resumes(es, i) {
      assert NoResync(es, i + 1, i + 1);
    }
    if !Resumes(es, i) && Muted(es, i + 1) {
      var j :| 0 <= j < i + 1 && Resumes(es, j) && NoResync(es, j + 1, i + 1);
      assert j < i && NoResync(es, j + 1, i);
    }
    if Muted(es, i) && !Resyncs(es, i) {
      var j :| 0 <= j < i && Resumes(es, j) && NoResync(es, j + 1, i);
      assert NoResync(es, j + 1, i + 1);
    }
  }

  /** Audio is never held back in sync. */
  lemma MutedIsOutOfSync(es: seq<Event>, limits: Limits, i: nat)
    requires i <= |es| && Muted(es, i)
    ensures OutOfSync(es, limits, i)
  {
    hide Resumes, NoResync, PausedAt;
    var j :| 0 <= j < i && Resumes(es, j) && NoResync(es, j + 1, i);
    assert Desyncs(es, limits, j);
  }

  // ---- the lag count ----

  function Lags(es: seq<Event>, from: nat, to: nat): nat
    requires from <= to <= |es|
  {
    if from == to then 0 else Lags(es, from, to - 1) + (if es[to - 1].Lag? then 1 else 0)
  }

  predicate IsLive(e: Event) {
    e.Receive? && e.live
  }

  /** The events `from..to` are those since the last live frame. */
  ghost predicate SinceLive(es: seq<Event>, from: nat, to: nat)
    requires from <= to <= |es|
  {
    && (from == 0 || IsLive(es[from - 1]))
    && forall k :: from <= k < to ==> !IsLive(es[k])
  }

  function LastLive(es: seq<Event>, to: nat): (from: nat)
    requires to <= |es|
    ensures from <= to && SinceLive(es, from, to)
  {
    if to == 0 || IsLive(es[to - 1]) then to else LastLive(es, to - 1)
  }

  /** The lag event `i` disconnects the subscriber. */
  ghost predicate TooSlow(es: seq<Event>, limits: Limits, i: nat)
    requires i < |es|
  {
    && es[i].Lag? && es[i].skipped >= limits.lagThresholdLow
    && Lags(es, LastLive(es, i), i + 1) % TWO_TO_THE_32 >= limits.maxConsecutiveLags
  }

  // ---- the state is what the history says ----

  /** What a subscriber's state means, as long as it is connected. */
  ghost predicate Reflects(s: Subscriber, es: seq<Event>, limits: Limits, i: nat)
    requires i <= |es|
  {
    && (s.paused <==> PausedAt(es, i))
    && (s.skipping <==> OutOfSync(es, limits, i))
    && (s.skipAudio <==> Muted(es, i))
    && s.lagCount == Lags(es, LastLive(es, i), i) % TWO_TO_THE_32
  }

  lemma ReactReflects(s: Subscriber, es: seq<Event>, limits: Limits, i: nat)
    requires i < |es| && s.alive && Reflects(s, es, limits, i)
    ensures Reflects(React(s, es[i], limits).0, es, limits, i + 1)
    ensures React(s, es[i], limits).0.alive <==> !TooSlow(es, limits, i)
  {
    hide PausedAt, OutOfSync, Muted, NoResync, SinceLive;
    PausedStep(es, i);
    OutOfSyncStep(es, limits, i);
    MutedStep(es, i);
    if Muted(es, i) {
      MutedIsOutOfSync(es, limits, i);
    }
  }

  /** Connected after `i` events means that none of them was a lag too many; and then the
      state is the one the history describes. */
  lemma {:induction false} StateIsHistory(es: seq<Event>, limits: Limits, i: nat)
    requires i <= |es|
    ensures After(es, i, limits).alive <==> forall k :: 0 <= k < i ==> !TooSlow(es, limits, k)
    ensures After(es, i, limits).alive ==> Reflects(After(es, i, limits), es, limits, i)
  {
    hide Reflects, React, TooSlow;
    if i == 0 {
      StartReflects(es, limits);
    } else {
      StateIsHistory(es, limits, i - 1);
      var s := After(es, i - 1, limits);
      if s.alive {
        ReactReflects(s, es, limits, i - 1);
      } else {
        StaysDisconnected(s, es[i - 1], limits);
      }
    }
  }

  lemma StartReflects(es: seq<Event>, limits: Limits)
    ensures Reflects(START, es, limits, 0)
  {
  }

  lemma StaysDisconnected(s: Subscriber, e: Event, limits: Limits)
    requires !s.alive
    ensures React(s, e, limits) == (s, [])
  {
  }

  // ---- the filter ----

  /** A received frame is sent on exactly when the history says so. Nothing else is ever sent but
      the notices of a pause, and those of a resumption with the media headers after them; and
      nothing once the subscriber was too slow. */
  lemma FilterIsHistory(es: seq<Event>, limits: Limits, i: nat)
    requires i < |es|
    ensures Output(es, i, limits) ==
            if exists k :: 0 <= k < i && TooSlow(es, limits, k) then []
            else Reaction(es, limits, i)
  {
    StateIsHistory(es, limits, i);
    var s := After(es, i, limits);
    if s.alive {
      ConnectedOutput(s, es, limits, i);
    }
  }

  lemma ConnectedOutput(s: Subscriber, es: seq<Event>, limits: Limits, i: nat)
    requires i < |es| && s.alive && Reflects(s, es, limits, i)
    ensures React(s, es[i], limits).1 == Reaction(es, limits, i)
  {
    hide PausedAt, OutOfSync, Muted, Headers;
    if Muted(es, i) {
      MutedIsOutOfSync(es, limits, i);
    }
  }

  /** Audio is only ever held back while video is. */
  lemma {:induction false} SkipAudioImpliesSkipping(es: seq<Event>, limits: Limits, i: nat)
    requires i <= |es|
    ensures After(es, i, limits).skipAudio ==> After(es, i, limits).skipping
  {
    if i > 0 {
      SkipAudioImpliesSkipping(es, limits, i - 1);
    }
  }

  /** A disconnected subscriber lagged at least the maximum number of times without one
      live frame in between. */
  lemma DisconnectedWasSlow(es: seq<Event>, limits: Limits, n: nat)
    requires n <= |es| && !After(es, n, limits).alive
    ensures exists from: nat, i: nat :: from <= i < n && es[i].Lag? && es[i].skipped >= limits.lagThresholdLow
              && SinceLive(es, from, i) && Lags(es, from, i + 1) >= limits.maxConsecutiveLags
  {
    hide After, Reflects;
    StateIsHistory(es, limits, n);
    var i :| 0 <= i < n && TooSlow(es, limits, i);
    assert SinceLive(es, LastLive(es, i), i);
  }

  // ---- a subscriber that keeps up ----

  ghost predicate Undisturbed(es: seq<Event>, limits: Limits) {
    forall k :: 0 <= k < |es| ==> !es[k].Pause? && (es[k].Lag? ==> es[k].skipped < limits.lagThresholdLow)
  }

  function Received(es: seq<Event>): seq<Item> {
    if es == [] then []
    else Received(es[..|es| - 1]) + (if es[|es| - 1].Receive? then [Media(es[|es| - 1].frame)] else [])
  }

  /** All that is sent in the first `n` events. */
  function SentUntil(es: seq<Event>, n: nat, limits: Limits): seq<Item>
    requires n <= |es|
  {
    if n == 0 then [] else SentUntil(es, n - 1, limits) + Output(es, n - 1, limits)
  }

  /** Without pause and without significant lag every frame received is sent, in order. */
  lemma {:induction false} KeepsUp(es: seq<Event>, limits: Limits, n: nat)
    requires n <= |es| && Undisturbed(es, limits)
    ensures SentUntil(es, n, limits) == Received(es[..n])
    ensures After(es, n, limits) == START.(lagCount := After(es, n, limits).lagCount)
  {
    if n > 0 {
      KeepsUp(es, limits, n - 1);
      assert es[..n][..n - 1] == es[..n - 1] && es[..n][n - 1] == es[n - 1];
    }
  }

  // ---- the connection's fields, updated in place ----

  class DeliveryFilter {
    const limits: Limits
    var skippingToKeyframe: bool
    var isPaused: bool
    var skipAudioUntilKeyframe: bool
    var consecutiveLagCount: u32
    var alive: bool
    /** What was handed to the writer. */
    var sent: seq<Item>

    function Value(): Subscriber
      reads this
    {
      Subscriber(skippingToKeyframe, isPaused, skipAudioUntilKeyframe, consecutiveLagCount, alive)
    }

    constructor (limits: Limits)
      ensures this.limits == limits && Value() == START && sent == []
    {
      this.limits := limits;
      skippingToKeyframe, isPaused, skipAudioUntilKeyframe := false, false, false;
      consecutiveLagCount, alive, sent := 0, true, [];
    }

    /** The arms of the connection's main loop. */
    method Handle(e: Event)
      requires alive
      modifies this
      ensures (Value(), sent) == (React(old(Value()), e, limits).0, old(sent) + React(old(Value()), e, limits).1)
    {
      assert sent + [] == sent;
      match e
      case Receive(frame, live) =>
        if live {
          consecutiveLagCount := 0;
        }
        SendBroadcastFrame(frame);
      case Lag(skipped) =>
        alive := HandleLag(skipped);
      case Pause =>
        DoPause();
      case Unpause(headers) =>
        DoUnpause(headers);
    }

    method HandleLag(skipped: nat) returns (ok: bool)
      requires alive
      modifies this`consecutiveLagCount, this`skippingToKeyframe
      ensures Value().(alive := ok) == Lagged(old(Value()), skipped, limits)
    {
      consecutiveLagCount := (consecutiveLagCount + 1) % TWO_TO_THE_32;
      if skipped < limits.lagThresholdLow {
        return true;
      }
      if !skippingToKeyframe {
        skippingToKeyframe := true;
      }
      if consecutiveLagCount >= limits.maxConsecutiveLags {
        return false;
      }
      return true;
    }

    method DoPause()
      modifies this`isPaused, this`sent
      ensures isPaused && sent == old(sent) + if old(isPaused) then [] else ON_PAUSE
    {
      assert sent + [] == sent;
      if isPaused {
        return;
      }
      isPaused := true;
      sent := sent + [Notify(PauseNotify)];
      sent := sent + [Notify(StreamDry)];
    }

    method DoUnpause(headers: seq<Frame>)
      modifies this`isPaused, this`skippingToKeyframe, this`skipAudioUntilKeyframe, this`sent
      ensures !isPaused
      ensures skippingToKeyframe == (old(isPaused) || old(skippingToKeyframe))
      ensures skipAudioUntilKeyframe == (old(isPaused) || old(skipAudioUntilKeyframe))
      ensures sent == old(sent) + if old(isPaused) then OnResume(headers) else []
    {
      assert sent + [] == sent;
      if !isPaused {
        return;
      }
      isPaused := false;
      skippingToKeyframe := true;
      skipAudioUntilKeyframe := true;
      sent := sent + [Notify(UnpauseNotify)];
      sent := sent + [Notify(StreamBegin)];
      for i := 0 to |headers|
        invariant !isPaused && skippingToKeyframe && skipAudioUntilKeyframe
        invariant sent + Headers(headers[i..]) == old(sent) + OnResume(headers)
      {
        assert headers[i..][1..] == headers[i + 1..];
        if headers[i].frameType != Metadata {
          sent := sent + [Media(headers[i])];
        }
      }
    }

    method SendBroadcastFrame(frame: Frame)
      modifies this`skippingToKeyframe, this`skipAudioUntilKeyframe, this`sent
      ensures (Value(), sent) == (Send(old(Value()), frame).0, old(sent) + Send(old(Value()), frame).1)
    {
      assert sent + [] == sent;
      if isPaused {
        return;
      }
      if skippingToKeyframe {
        match frame.frameType {
          case Video =>
            if frame.isKeyframe || frame.isHeader {
              skippingToKeyframe := false;
              skipAudioUntilKeyframe := false;
            } else {
              return;
            }
          case Audio =>
            if skipAudioUntilKeyframe {
              return;
            }
          case Metadata =>
        }
      }
      sent := sent + [Media(frame)];
    }
  }
}
