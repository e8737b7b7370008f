/** A subscriber that joins in the middle of a stream: what it is given first and
    what it then receives live fit together without gap or duplicate. */
module LateJoin {
  import opened Bytes
  import opened Gop
  import opened RegistryModel
  import opened RegistryRuns

  // ---- a channel's history only grows ----

  lemma StepGrows(r: Registry, s: Timed, cfg: Config, channel: nat)
    ensures Sent(r, channel) <= Sent(Do(r, s, cfg), channel)
  {
  }

  lemma {:induction false} HistoryGrows(run: seq<Timed>, i: nat, n: nat, cfg: Config, channel: nat)
    requires i <= n <= |run|
    ensures Sent(StateAt(run, i, cfg), channel) <= Sent(StateAt(run, n, cfg), channel)
    decreases n
  {
    hide Do, Sent;
    if i < n {
      HistoryGrows(run, i, n - 1, cfg, channel);
      StepGrows(StateAt(run, n - 1, cfg), run[n - 1], cfg, channel);
    }
  }

  lemma {:induction false} VideoTagsConcat(a: seq<Frame>, b: seq<Frame>)
    ensures VideoTags(a + b) == VideoTags(a) + VideoTags(b)
    decreases |b|
  {
    if b == [] {
      assert a + b == a;
    } else {
      var init := b[..|b| - 1];
      assert (a + b)[..|a + b| - 1] == a + init;
      VideoTagsConcat(a, init);
    }
  }

  // ---- the cached frames are the end of the history ----

  lemma {:induction false} SinceIsSuffix(tags: seq<FlvTag>)
    ensures IsSuffix(Since(Pushes(tags)), tags)
    decreases |tags|
  {
    if tags != [] {
      var init, last := tags[..|tags| - 1], tags[|tags| - 1];
      assert Pushes(tags)[..|tags| - 1] == Pushes(init);
      SinceIsSuffix(init);
      var since := Since(Pushes(init));
      assert tags == init + [last];
      assert (init + [last])[|init| - |since|..] == init[|init| - |since|..] + [last];
    }
  }

  lemma CacheIsSuffix(tags: seq<FlvTag>, max: nat)
    ensures IsSuffix(After(Pushes(tags), max).frames, tags)
  {
    var since := Since(Pushes(tags));
    CacheRefinesHistory(Pushes(tags), max);
    FittingIsLongest(since, max);
    SinceIsSuffix(tags);
    var f := Fitting(since, max);
    assert tags[|tags| - |since|..][|since| - |f|..] == tags[|tags| - |f|..];
  }

  lemma SuffixThenMore<T>(s: seq<T>, of: seq<T>, more: seq<T>)
    requires IsSuffix(s, of)
    ensures IsSuffix(s + more, of + more)
  {
    assert (of + more)[|of| - |s|..] == of[|of| - |s|..] + more;
  }

  // ---- what the catch-up frames carry ----

  function TagsOf(frames: seq<Frame>): seq<FlvTag> {
    if frames == [] then [] else [TagOf(frames[0])] + TagsOf(frames[1..])
  }

  lemma {:induction false} FromTagsCarry(tags: seq<FlvTag>)
    requires forall t :: t in tags ==> t.tagType == VideoTag
    ensures TagsOf(FromTags(tags)) == tags
    ensures forall f :: f in FromTags(tags) ==> f.frameType == Video
  {
    if tags != [] {
      FromTagsCarry(tags[1..]);
      assert [FromTag(tags[0])] + FromTags(tags[1..]) == FromTags(tags);
      assert FromTags(tags)[1..] == FromTags(tags[1..]);
    }
  }

  lemma {:induction false} VideoTagsAreVideo(frames: seq<Frame>)
    ensures forall t :: t in VideoTags(frames) ==> t.tagType == VideoTag
    decreases |frames|
  {
    if frames != [] {
      VideoTagsAreVideo(frames[..|frames| - 1]);
    }
  }

  /** The video a joining subscriber is given: the cached frames, as tags. */
  function CaughtUp(r: Registry, key: StreamKey): seq<FlvTag> {
    if key in r.streams then r.streams[key].gop.frames else []
  }

  /** What a subscription made in step `i` has received live by step `n`, if it never lagged. */
  function Live(run: seq<Timed>, n: nat, cfg: Config, sub: Subscription): seq<Frame>
    requires n <= |run|
  {
    var sent := Sent(StateAt(run, n, cfg), sub.channel);
    if sub.position <= |sent| then sent[sub.position..] else []
  }

  /** A subscriber joins in step `i`. First come the latest metadata and headers of its channel,
      then the cached video. At any later time that video, followed by the video received live,
      is one contiguous end piece of the channel's whole video history. It starts at the last
      keyframe before the join whenever everything since that keyframe fits the cache. */
  lemma NoGapNoDuplicate(run: seq<Timed>, i: nat, n: nat, cfg: Config, key: StreamKey, sub: Subscription)
    requires i < n <= |run| && Subscribe(StateAt(run, i, cfg), key).1 == Some(sub)
    ensures var joined := Sent(StateAt(run, i, cfg), sub.channel);
      var video := CaughtUp(StateAt(run, i, cfg), key);
      var history := VideoTags(Sent(StateAt(run, n, cfg), sub.channel));
      var gop := Since(Pushes(VideoTags(joined)));
      && sub.catchup == OptionFrames(Latest(joined, Metadata)) + OptionFrames(Latest(joined, Video))
                        + OptionFrames(Latest(joined, Audio)) + FromTags(video)
      && TagsOf(FromTags(video)) == video
      && IsSuffix(video + VideoTags(Live(run, n, cfg, sub)), history)
      && (Total(gop) <= cfg.maxGopSize ==> video == gop)
      && (Keyed(Pushes(VideoTags(joined))) ==> gop != [] && IsKeyframe(gop[0]))
      && forall j :: 1 <= j < |gop| ==> !IsKeyframe(gop[j])
  {
    hide VideoTags, Since, Pushes, Keyed, Fitting, StateAt, Total, Latest;
    var r := StateAt(run, i, cfg);
    var joined := Sent(r, sub.channel);
    var tags, later := VideoTags(joined), Live(run, n, cfg, sub);
    JoinState(run, i, cfg, key, sub);
    HistoryGrows(run, i, n, cfg, sub.channel);
    assert Sent(StateAt(run, n, cfg), sub.channel) == joined + later;
    VideoTagsConcat(joined, later);
    CacheIsSuffix(tags, cfg.maxGopSize);
    SuffixThenMore(CaughtUp(r, key), tags, VideoTags(later));
    SuffixIsVideo(CaughtUp(r, key), joined);
    FromTagsCarry(CaughtUp(r, key));
    CacheRefinesHistory(Pushes(tags), cfg.maxGopSize);
    KeyedStartsAtKeyframe(Pushes(tags));
    AllFits(Since(Pushes(tags)), cfg.maxGopSize);
  }

  lemma AllFits(tags: seq<FlvTag>, max: nat)
    ensures Total(tags) <= max ==> Fitting(tags, max) == tags
  {
  }

  lemma SuffixIsVideo(tags: seq<FlvTag>, frames: seq<Frame>)
    requires IsSuffix(tags, VideoTags(frames))
    ensures forall t :: t in tags ==> t.tagType == VideoTag
  {
    VideoTagsAreVideo(frames);
    forall t | t in tags ensures t in VideoTags(frames) {
      var j :| 0 <= j < |tags| && tags[j] == t;
      assert VideoTags(frames)[|VideoTags(frames)| - |tags| + j] == t;
    }
  }

  /** The caches that a subscriber is served from, by the invariant of the registry. */
  lemma JoinState(run: seq<Timed>, i: nat, cfg: Config, key: StreamKey, sub: Subscription)
    requires i <= |run| && Subscribe(StateAt(run, i, cfg), key).1 == Some(sub)
    ensures var r := StateAt(run, i, cfg);
      var joined := Sent(r, sub.channel);
      && key in r.streams && sub.position == |joined|
      && CaughtUp(r, key) == After(Pushes(VideoTags(joined)), cfg.maxGopSize).frames
      && sub.catchup == OptionFrames(Latest(joined, Metadata)) + OptionFrames(Latest(joined, Video))
                        + OptionFrames(Latest(joined, Audio)) + FromTags(CaughtUp(r, key))
  {
    hide VideoTags, Pushes, After, StateAt, Latest;
    AlwaysInv(run, i, cfg);
    assert EntryInv(StateAt(run, i, cfg), key, cfg.maxGopSize);
  }
}
