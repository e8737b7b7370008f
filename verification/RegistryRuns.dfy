/** What holds of the registry over every run, whatever the order of its operations. */
module RegistryRuns {
  import opened Bytes
  import opened Gop
  import opened RegistryModel

  // ---- what the caches of an entry say about its channel ----

  function VideoTags(frames: seq<Frame>): seq<FlvTag> {
    if frames == [] then []
    else
      VideoTags(frames[..|frames| - 1])
      + if IsVideoData(frames[|frames| - 1]) then [TagOf(frames[|frames| - 1])] else []
  }

  function Pushes(tags: seq<FlvTag>): seq<Op> {
    seq(|tags|, i requires 0 <= i < |tags| => Op.Push(tags[i]))
  }

  /** The last frame of a history that is a header of the given type, or metadata. */
  function Latest(frames: seq<Frame>, frameType: FrameType): Option<Frame> {
    if frames == [] then None
    else
      var f := frames[|frames| - 1];
      if f.frameType == frameType && (frameType == Metadata || f.isHeader) then Some(f)
      else Latest(frames[..|frames| - 1], frameType)
  }

  /** The caches are functions of what was sent. */
  ghost predicate CachesReflect(e: Entry, sent: seq<Frame>, max: nat) {
    && e.gop == After(Pushes(VideoTags(sent)), max)
    && e.videoHeader == Latest(sent, Video)
    && e.audioHeader == Latest(sent, Audio)
    && e.metadata == Latest(sent, Metadata)
  }

  lemma SentOne(e: Entry, sent: seq<Frame>, f: Frame, max: nat)
    requires CachesReflect(e, sent, max)
    ensures CachesReflect(UpdateCaches(e, f, max), sent + [f], max)
  {
    assert (sent + [f])[..|sent|] == sent;
    if IsVideoData(f) {
      var tags := VideoTags(sent);
      assert VideoTags(sent + [f]) == tags + [TagOf(f)];
      assert Pushes(tags + [TagOf(f)])[..|tags|] == Pushes(tags);
    } else {
      assert VideoTags(sent + [f]) == VideoTags(sent) + [];
      assert VideoTags(sent) + [] == VideoTags(sent);
    }
  }

  // ---- the invariant ----

  predicate StateMatches(e: Entry) {
    && (e.state == Active <==> e.publisher.Some?)
    && (e.state != Active <==> e.disconnectedAt.Some?)
  }

  ghost predicate EntryInv(r: Registry, key: StreamKey, max: nat)
    requires key in r.streams
  {
    var e := r.streams[key];
    StateMatches(e) && e.channel < r.channels && CachesReflect(e, Sent(r, e.channel), max)
  }

  /** A stream is active exactly while it has a publisher and then has no disconnect time;
      caches reflect the channel; no two streams share a channel. */
  ghost predicate Inv(r: Registry, cfg: Config) {
    && (forall key :: key in r.streams ==> EntryInv(r, key, cfg.maxGopSize))
    && (forall k1, k2 :: k1 in r.streams && k2 in r.streams && k1 != k2 ==>
          r.streams[k1].channel != r.streams[k2].channel)
    && (forall c :: c in r.sent ==> c < r.channels)
  }

  lemma DoKeepsInv(r: Registry, s: Timed, cfg: Config)
    requires Inv(r, cfg)
    ensures Inv(Do(r, s, cfg), cfg)
  {
    hide CachesReflect;
    match s.step
    case RegisterPublisher(key, session) =>
      EmptyReflects(NewEntry(r.channels, s.now), cfg.maxGopSize);
      RegisterKeepsInv(r, key, session, s.now, cfg);
    case BroadcastFrame(key, f) => BroadcastKeepsInv(r, key, f, cfg);
    case UnregisterPublisher(key, session) => OneEntryChanged(r, Do(r, s, cfg), key, cfg);
    case SubscribeTo(key) => OneEntryChanged(r, Do(r, s, cfg), key, cfg);
    case UnsubscribeFrom(key) => OneEntryChanged(r, Do(r, s, cfg), key, cfg);
    case RunCleanup =>
  }

  lemma EmptyReflects(e: Entry, max: nat)
    requires e.gop == Cache([], false) && e.videoHeader.None? && e.audioHeader.None? && e.metadata.None?
    ensures forall e': Entry :: e'.gop == e.gop && e'.videoHeader.None? && e'.audioHeader.None? && e'.metadata.None? ==>
      CachesReflect(e', [], max)
  {
    assert Pushes([]) == [];
  }

  /** Bookkeeping changes leave channel, caches and log alone. */
  predicate SameStream(a: Entry, b: Entry) {
    a.channel == b.channel && a.gop == b.gop && a.videoHeader == b.videoHeader && a.audioHeader == b.audioHeader
    && a.metadata == b.metadata
  }

  lemma ReflectsSame(a: Entry, b: Entry, sent: seq<Frame>, max: nat)
    requires SameStream(a, b) && CachesReflect(a, sent, max)
    ensures CachesReflect(b, sent, max)
  {
  }

  lemma OneEntryChanged(r: Registry, r': Registry, key: StreamKey, cfg: Config)
    requires Inv(r, cfg)
    requires r' == r || (key in r.streams && r'.sent == r.sent && r'.channels == r.channels && key in r'.streams
                         && r'.streams == r.streams[key := r'.streams[key]]
                         && SameStream(r.streams[key], r'.streams[key]) && StateMatches(r'.streams[key]))
    ensures Inv(r', cfg)
  {
    hide CachesReflect, StateMatches;
    if r' != r {
      ReflectsSame(r.streams[key], r'.streams[key], Sent(r, r.streams[key].channel), cfg.maxGopSize);
    }
  }

  lemma RegisterKeepsInv(r: Registry, key: StreamKey, session: nat, now: nat, cfg: Config)
    requires Inv(r, cfg)
    ensures Inv(Register(r, key, session, now).0, cfg)
  {
    hide CachesReflect;
    var r' := Register(r, key, session, now).0;
    if key in r.streams {
      OneEntryChanged(r, r', key, cfg);
    } else {
      EmptyReflects(NewEntry(r.channels, now), cfg.maxGopSize);
      forall k | k in r'.streams ensures EntryInv(r', k, cfg.maxGopSize) {
        if k != key {
          assert EntryInv(r, k, cfg.maxGopSize);
        }
      }
    }
  }

  lemma BroadcastKeepsInv(r: Registry, key: StreamKey, f: Frame, cfg: Config)
    requires Inv(r, cfg)
    ensures Inv(Broadcast(r, key, f, cfg), cfg)
  {
    hide CachesReflect;
    if key in r.streams {
      var e, r' := r.streams[key], Broadcast(r, key, f, cfg);
      assert EntryInv(r, key, cfg.maxGopSize);
      SentOne(e, Sent(r, e.channel), f, cfg.maxGopSize);
      forall k | k in r'.streams ensures EntryInv(r', k, cfg.maxGopSize) {
        if k != key {
          assert EntryInv(r, k, cfg.maxGopSize);
        }
      }
    }
  }

  lemma {:induction false} AlwaysInv(run: seq<Timed>, n: nat, cfg: Config)
    requires n <= |run|
    ensures Inv(StateAt(run, n, cfg), cfg)
  {
    if n > 0 {
      AlwaysInv(run, n - 1, cfg);
      DoKeepsInv(StateAt(run, n - 1, cfg), run[n - 1], cfg);
    }
  }

  // ---- publishers ----

  function PublisherOf(r: Registry, key: StreamKey): Option<nat> {
    if key in r.streams then r.streams[key].publisher else None
  }

  /** A publisher stays until it unregisters itself: no other session's registration is
      accepted meanwhile, and no other step takes its place. */
  lemma PublisherStays(run: seq<Timed>, n: nat, cfg: Config, key: StreamKey, p: nat)
    requires n < |run| && PublisherOf(StateAt(run, n, cfg), key) == Some(p)
    requires run[n].step != UnregisterPublisher(key, p)
    ensures PublisherOf(StateAt(run, n + 1, cfg), key) == Some(p)
    ensures forall session, now :: !Register(StateAt(run, n, cfg), key, session, now).1
  {
    hide CachesReflect;
    var r := StateAt(run, n, cfg);
    AlwaysInv(run, n, cfg);
    assert EntryInv(r, key, cfg.maxGopSize);
  }

  /** Since step `u`, where its publisher unregistered, the stream was there without one,
      on the same channel. */
  ghost predicate FreeSince(run: seq<Timed>, n: nat, cfg: Config, key: StreamKey, u: nat)
    requires n <= |run|
  {
    && u < n
    && run[u].step.UnregisterPublisher? && run[u].step.key == key
    && PublisherOf(StateAt(run, u, cfg), key) == Some(run[u].step.session)
    && forall i :: u < i <= n ==> FreeOn(StateAt(run, i, cfg), key, StateAt(run, u, cfg))
  }

  predicate FreeOn(r: Registry, key: StreamKey, before: Registry) {
    key in r.streams && r.streams[key].publisher.None?
    && key in before.streams && r.streams[key].channel == before.streams[key].channel
  }

  /** The state in which a departure leaves a stream. */
  function Departed(e: Entry): StreamState {
    if e.subscribers > 0 then GracePeriod else Idle
  }

  /** The disconnect time of a stream without publisher is when its publisher left, and its state
      tells whether it had subscribers then. */
  lemma {:induction false} DisconnectTimeIsHonest(run: seq<Timed>, n: nat, cfg: Config, key: StreamKey) returns (u: nat)
    requires n <= |run|
    requires key in StateAt(run, n, cfg).streams && StateAt(run, n, cfg).streams[key].publisher.None?
    ensures FreeSince(run, n, cfg, key, u)
    ensures StateAt(run, n, cfg).streams[key].disconnectedAt == Some(run[u].now)
    ensures StateAt(run, n, cfg).streams[key].state == Departed(StateAt(run, u, cfg).streams[key])
  {
    hide CachesReflect;
    var before, r := StateAt(run, n - 1, cfg), StateAt(run, n, cfg);
    if key in before.streams && before.streams[key].publisher.None? {
      u := DisconnectTimeIsHonest(run, n - 1, cfg, key);
      FreeOnAfter(before, run[n - 1], cfg, key);
      FreeExtended(run, n, cfg, key, u);
    } else {
      LeftJustNow(before, run[n - 1], cfg, key);
      u := n - 1;
    }
  }

  lemma FreeExtended(run: seq<Timed>, n: nat, cfg: Config, key: StreamKey, u: nat)
    requires 0 < n <= |run| && FreeSince(run, n - 1, cfg, key, u)
    requires FreeOn(StateAt(run, n, cfg), key, StateAt(run, u, cfg))
    ensures FreeSince(run, n, cfg, key, u)
  {
    hide StateAt, FreeOn;
    forall i | u < i <= n ensures FreeOn(StateAt(run, i, cfg), key, StateAt(run, u, cfg)) {
      if i < n {
        assert i <= n - 1;
      }
    }
  }

  lemma FreeOnAfter(r: Registry, s: Timed, cfg: Config, key: StreamKey)
    requires key in r.streams && r.streams[key].publisher.None?
    requires var r' := Do(r, s, cfg); key in r'.streams && r'.streams[key].publisher.None?
    ensures var e, e' := r.streams[key], Do(r, s, cfg).streams[key];
      e'.channel == e.channel && e'.disconnectedAt == e.disconnectedAt && e'.state == e.state
  {
  }

  lemma LeftJustNow(r: Registry, s: Timed, cfg: Config, key: StreamKey)
    requires key !in r.streams || r.streams[key].publisher.Some?
    requires var r' := Do(r, s, cfg); key in r'.streams && r'.streams[key].publisher.None?
    ensures key in r.streams && s.step == UnregisterPublisher(key, r.streams[key].publisher.value)
    ensures var e' := Do(r, s, cfg).streams[key];
      && e'.channel == r.streams[key].channel && e'.disconnectedAt == Some(s.now)
      && e'.state == Departed(r.streams[key])
  {
  }

  function Timeout(e: Entry, cfg: Config): nat {
    if e.state == GracePeriod then cfg.gracePeriod else cfg.idleTimeout
  }

  /** A stream disappears only by a cleanup, and only after having been without publisher,
      continuously since one left, for strictly longer than the timeout of its state. */
  lemma RemovedOnlyWhenExpired(run: seq<Timed>, n: nat, cfg: Config, key: StreamKey) returns (u: nat)
    requires n < |run|
    requires key in StateAt(run, n, cfg).streams && key !in StateAt(run, n + 1, cfg).streams
    ensures run[n].step == RunCleanup
    ensures FreeSince(run, n, cfg, key, u)
    ensures run[n].now - run[u].now > Timeout(StateAt(run, n, cfg).streams[key], cfg)
  {
    hide CachesReflect, FreeSince, Departed;
    var r := StateAt(run, n, cfg);
    AlwaysInv(run, n, cfg);
    assert EntryInv(r, key, cfg.maxGopSize);
    u := DisconnectTimeIsHonest(run, n, cfg, key);
  }

  // ---- a publisher that returns in time ----

  /** How long a stream outlives the departure of its publisher: by the state this leaves it in. */
  function Patience(e: Entry, cfg: Config): nat {
    if Departed(e) == GracePeriod then cfg.gracePeriod else cfg.idleTimeout
  }

  /** In step `u` the publisher of the stream leaves, and until step `n` none comes back. */
  ghost predicate LeftAlone(run: seq<Timed>, u: nat, n: nat, cfg: Config, key: StreamKey)
    requires n <= |run|
  {
    && u < n
    && run[u].step.UnregisterPublisher? && run[u].step.key == key
    && PublisherOf(StateAt(run, u, cfg), key) == Some(run[u].step.session)
    && forall i :: u < i <= n ==> PublisherOf(StateAt(run, i, cfg), key).None?
  }

  lemma SameDeparture(run: seq<Timed>, n: nat, cfg: Config, key: StreamKey, u: nat, v: nat)
    requires n <= |run| && FreeSince(run, n, cfg, key, u) && FreeSince(run, n, cfg, key, v)
    ensures u == v
  {
    hide StateAt;
  }

  lemma OnlyCleanupRemoves(r: Registry, s: Timed, cfg: Config, key: StreamKey, left: nat, patience: nat)
    requires key in r.streams && r.streams[key].publisher.None?
    requires var e := r.streams[key];
      e.disconnectedAt == Some(left) && e.state != Active && patience == Timeout(e, cfg)
    ensures key in Do(r, s, cfg).streams <==> (s.step == RunCleanup ==> s.now - left <= patience)
  {
  }

  lemma OneMoreStep(run: seq<Timed>, u: nat, n: nat, cfg: Config, key: StreamKey)
    requires 0 < n <= |run| && FreeSince(run, n - 1, cfg, key, u) && PublisherOf(StateAt(run, n, cfg), key).None?
    ensures FreeSince(run, n, cfg, key, u) <==>
      (run[n - 1].step == RunCleanup ==>
         run[n - 1].now - run[u].now <= Patience(StateAt(run, u, cfg).streams[key], cfg))
  {
    hide Do, Departed;
    var before := StateAt(run, n - 1, cfg);
    assert FreeOn(before, key, StateAt(run, u, cfg));
    var v := DisconnectTimeIsHonest(run, n - 1, cfg, key);
    SameDeparture(run, n - 1, cfg, key, u, v);
    AlwaysInv(run, n - 1, cfg);
    assert EntryInv(before, key, cfg.maxGopSize);
    OnlyCleanupRemoves(before, run[n - 1], cfg, key, run[u].now, Timeout(before.streams[key], cfg));
    if key in StateAt(run, n, cfg).streams {
      FreeOnAfter(before, run[n - 1], cfg, key);
      FreeExtended(run, n, cfg, key, u);
    }
  }

  /** A stream left alone is still there, on its channel, exactly if no cleanup came later than
      the timeout of the state in which the departure left it. */
  lemma {:induction false} KeptUnlessCleaned(run: seq<Timed>, u: nat, n: nat, cfg: Config, key: StreamKey)
    requires n <= |run| && LeftAlone(run, u, n, cfg, key)
    ensures FreeSince(run, n, cfg, key, u) <==>
      forall i :: u < i < n && run[i].step == RunCleanup ==>
        run[i].now - run[u].now <= Patience(StateAt(run, u, cfg).streams[key], cfg)
    decreases n
  {
    hide Do, FreeOn, Patience;
    if u < n - 1 {
      KeptUnlessCleaned(run, u, n - 1, cfg, key);
      if FreeSince(run, n - 1, cfg, key, u) {
        OneMoreStep(run, u, n, cfg, key);
      }
    } else {
      JustLeft(StateAt(run, u, cfg), run[u], cfg, key);
    }
  }

  /** Whoever registers within the timeout of the state in which the last publisher left the stream,
      with no publisher in between, gets the same channel with its caches and subscribers. */
  lemma ReturnInTime(run: seq<Timed>, u: nat, n: nat, cfg: Config, key: StreamKey, session: nat)
    requires n < |run| && InOrder(run) && LeftAlone(run, u, n, cfg, key)
    requires run[n].step == RegisterPublisher(key, session)
    requires run[n].now - run[u].now <= Patience(StateAt(run, u, cfg).streams[key], cfg)
    ensures var before, after := StateAt(run, n, cfg), StateAt(run, n + 1, cfg);
      && key in before.streams && key in after.streams
      && after.streams[key] == before.streams[key].(publisher := Some(session), disconnectedAt := None, state := Active)
      && after.streams[key].channel == StateAt(run, u, cfg).streams[key].channel
      && after.sent == before.sent
  {
    KeptUnlessCleaned(run, u, n, cfg, key);
  }

  lemma JustLeft(r: Registry, s: Timed, cfg: Config, key: StreamKey)
    requires s.step.UnregisterPublisher? && s.step.key == key && PublisherOf(r, key) == Some(s.step.session)
    ensures FreeOn(Do(r, s, cfg), key, r)
  {
  }

  // ---- subscribers ----

  /** What a step on a stream that is there adds to its subscriber count. */
  function Change(r: Registry, s: Step, key: StreamKey): int {
    match s
    case SubscribeTo(k) => if k == key && Subscribe(r, k).1.Some? then 1 else 0
    case UnsubscribeFrom(k) => if k == key then -1 else 0
    case _ => 0
  }

  /** Accepted subscriptions less unsubscriptions since the stream was last created. */
  function Balance(run: seq<Timed>, n: nat, cfg: Config, key: StreamKey): int
    requires n <= |run|
  {
    if n == 0 || key !in StateAt(run, n - 1, cfg).streams then 0
    else Balance(run, n - 1, cfg, key) + Change(StateAt(run, n - 1, cfg), run[n - 1].step, key)
  }

  /** The count is that balance in 32 bits. It wraps around below zero if a subscriber of a stream
      that is gone unsubscribes from a new one of the same name. */
  lemma {:induction false} CountIsBalance(run: seq<Timed>, n: nat, cfg: Config, key: StreamKey)
    requires n <= |run| && key in StateAt(run, n, cfg).streams
    ensures StateAt(run, n, cfg).streams[key].subscribers == Balance(run, n, cfg, key) % TWO_TO_THE_32
  {
    hide Do, Change;
    if n > 0 {
      var r := StateAt(run, n - 1, cfg);
      CountStep(r, run[n - 1], cfg, key);
      if key in r.streams {
        CountIsBalance(run, n - 1, cfg, key);
        AddMod(Balance(run, n - 1, cfg, key), Change(r, run[n - 1].step, key));
      }
    }
  }

  lemma AddMod(a: int, b: int)
    ensures (a % TWO_TO_THE_32 + b) % TWO_TO_THE_32 == (a + b) % TWO_TO_THE_32
  {
  }

  lemma CountStep(r: Registry, s: Timed, cfg: Config, key: StreamKey)
    requires key in Do(r, s, cfg).streams
    ensures Do(r, s, cfg).streams[key].subscribers ==
      if key in r.streams then (r.streams[key].subscribers + Change(r, s.step, key)) % TWO_TO_THE_32 else 0
  {
  }
}
