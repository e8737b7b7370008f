/** The stream registry as functions on values: one function per operation, each
    an atomic step because every operation runs under the registry's locks. The
    broadcast channel of an entry is the list of all frames sent into it; a
    subscriber holds a position in that list. */
module RegistryModel {
  import opened Bytes
  import opened Gop

  datatype StreamKey = StreamKey(app: bytes, name: bytes)

  datatype FrameType = Video | Audio | Metadata

  datatype Frame = Frame(frameType: FrameType, timestamp: u32, data: bytes, isKeyframe: bool, isHeader: bool)

  datatype StreamState = Active | GracePeriod | Idle

  datatype Config = Config(gracePeriod: nat, idleTimeout: nat, maxGopSize: nat)

  /** `channel` names the broadcast channel; `disconnectedAt` is when the publisher left. */
  datatype Entry = Entry(
    gop: Cache, videoHeader: Option<Frame>, audioHeader: Option<Frame>, metadata: Option<Frame>,
    publisher: Option<nat>, channel: nat, subscribers: u32,
    disconnectedAt: Option<nat>, createdAt: nat, state: StreamState)

  /** `sent` records what was sent into each channel, those of removed entries included,
      because receivers still drain them; `channels` counts the channels created. */
  datatype Registry = Registry(streams: map<StreamKey, Entry>, sent: map<nat, seq<Frame>>, channels: nat)

  const EMPTY := Registry(map[], map[], 0)

  function Sent(r: Registry, channel: nat): seq<Frame> {
    if channel in r.sent then r.sent[channel] else []
  }

  function NewEntry(channel: nat, now: nat): Entry {
    Entry(Cache([], false), None, None, None, None, channel, 0, None, now, Idle)
  }

  // ---- publishers ----

  /** A stream that is active with a publisher is refused; any other is taken over as it is. */
  function Register(r: Registry, key: StreamKey, session: nat, now: nat): (Registry, bool) {
    if key in r.streams then
      var e := r.streams[key];
      if e.state == Active && e.publisher.Some? then (r, false)
      else
        (r.(streams := r.streams[key :=
           e.(publisher := Some(session), disconnectedAt := None, state := Active)]), true)
    else
      (Registry(r.streams[key := NewEntry(r.channels, now).(publisher := Some(session), state := Active)],
                r.sent, r.channels + 1), true)
  }

  function Unregister(r: Registry, key: StreamKey, session: nat, now: nat): Registry {
    if key !in r.streams || r.streams[key].publisher != Some(session) then r
    else
      var e := r.streams[key];
      r.(streams := r.streams[key :=
        e.(publisher := None, disconnectedAt := Some(now), state := if e.subscribers > 0 then GracePeriod else Idle)])
  }

  /** Why a stream goes: its grace period, or its time without publisher, is over. */
  predicate Expired(e: Entry, cfg: Config, now: nat) {
    match e.state
    case GracePeriod => e.disconnectedAt.Some? && now > e.disconnectedAt.value + cfg.gracePeriod
    case Idle => now > (if e.disconnectedAt.Some? then e.disconnectedAt.value else e.createdAt) + cfg.idleTimeout
    case Active => false
  }

  function Cleanup(r: Registry, cfg: Config, now: nat): Registry {
    r.(streams := map key | key in r.streams && !Expired(r.streams[key], cfg, now) :: r.streams[key])
  }

  // ---- subscribers ----

  /** Where a subscriber starts to read, and the frames it is given first. */
  datatype Subscription = Subscription(channel: nat, position: nat, catchup: seq<Frame>)

  function OptionFrames(f: Option<Frame>): seq<Frame> {
    if f.Some? then [f.value] else []
  }

  /** The frame a cached video tag becomes again; its flags are judged anew from the bytes. */
  function FromTag(tag: FlvTag): Frame {
    Frame(Video, tag.timestamp, tag.data, IsKeyframe(tag),
          |tag.data| >= 2 && tag.data[0] % 16 == 7 && tag.data[1] == 0)
  }

  function FromTags(tags: seq<FlvTag>): seq<Frame> {
    if tags == [] then [] else [FromTag(tags[0])] + FromTags(tags[1..])
  }

  function Catchup(e: Entry): seq<Frame> {
    OptionFrames(e.metadata) + OptionFrames(e.videoHeader) + OptionFrames(e.audioHeader) + FromTags(e.gop.frames)
  }

  function Subscribe(r: Registry, key: StreamKey): (Registry, Option<Subscription>) {
    if key !in r.streams then (r, None)
    else
      var e := r.streams[key];
      if e.state == Idle && e.publisher.None? then (r, None)
      else
        (r.(streams := r.streams[key := e.(subscribers := (e.subscribers + 1) % TWO_TO_THE_32)]),
         Some(Subscription(e.channel, |Sent(r, e.channel)|, Catchup(e))))
  }

  function Unsubscribe(r: Registry, key: StreamKey): Registry {
    if key !in r.streams then r
    else
      var e := r.streams[key];
      r.(streams := r.streams[key := e.(subscribers := (e.subscribers - 1) % TWO_TO_THE_32)])
  }

  // ---- frames ----

  predicate IsVideoData(f: Frame) {
    f.frameType == Video && !f.isHeader
  }

  function TagOf(f: Frame): FlvTag {
    FlvTag(VideoTag, f.timestamp, f.data)
  }

  function UpdateCaches(e: Entry, f: Frame, max: nat): Entry {
    var e1 :=
      if f.frameType == Video && f.isHeader then e.(videoHeader := Some(f))
      else if f.frameType == Audio && f.isHeader then e.(audioHeader := Some(f))
      else if f.frameType == Metadata then e.(metadata := Some(f))
      else e;
    if IsVideoData(f) then e1.(gop := Apply(e1.gop, Push(TagOf(f)), max)) else e1
  }

  function Broadcast(r: Registry, key: StreamKey, f: Frame, cfg: Config): Registry {
    if key !in r.streams then r
    else
      var e := r.streams[key];
      r.(streams := r.streams[key := UpdateCaches(e, f, cfg.maxGopSize)],
         sent := r.sent[e.channel := Sent(r, e.channel) + [f]])
  }

  // ---- runs ----

  datatype Step =
    | RegisterPublisher(key: StreamKey, session: nat)
    | UnregisterPublisher(key: StreamKey, session: nat)
    | SubscribeTo(key: StreamKey)
    | UnsubscribeFrom(key: StreamKey)
    | BroadcastFrame(key: StreamKey, frame: Frame)
    | RunCleanup

  datatype Timed = Timed(now: nat, step: Step)

  function Do(r: Registry, s: Timed, cfg: Config): Registry {
    match s.step
    case RegisterPublisher(key, session) => Register(r, key, session, s.now).0
    case UnregisterPublisher(key, session) => Unregister(r, key, session, s.now)
    case SubscribeTo(key) => Subscribe(r, key).0
    case UnsubscribeFrom(key) => Unsubscribe(r, key)
    case BroadcastFrame(key, f) => Broadcast(r, key, f, cfg)
    case RunCleanup => Cleanup(r, cfg, s.now)
  }

  /** The registry after the first `n` steps of a run from the empty registry. */
  function StateAt(run: seq<Timed>, n: nat, cfg: Config): Registry
    requires n <= |run|
  {
    if n == 0 then EMPTY else Do(StateAt(run, n - 1, cfg), run[n - 1], cfg)
  }

  /** Clocks do not run backwards. */
  ghost predicate InOrder(run: seq<Timed>) {
    forall i, j :: 0 <= i <= j < |run| ==> run[i].now <= run[j].now
  }
}
