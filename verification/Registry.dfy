/** The registry and its entries as objects that are updated in place. */
module StreamRegistry {
  import opened Bytes
  import opened Gop
  import opened RegistryModel

  class StreamEntry {
    const gopBuffer: GopBuffer
    const channel: nat
    const createdAt: nat
    var videoHeader: Option<Frame>
    var audioHeader: Option<Frame>
    var metadata: Option<Frame>
    var publisherId: Option<nat>
    var subscriberCount: u32
    var publisherDisconnectedAt: Option<nat>
    var state: StreamState

    function Value(): Entry
      reads this, gopBuffer
    {
      Entry(gopBuffer.Value(), videoHeader, audioHeader, metadata, publisherId, channel, subscriberCount,
            publisherDisconnectedAt, createdAt, state)
    }

    /** The registry keeps its headers in the entry, never in the GOP buffer. */
    ghost predicate Valid()
      reads gopBuffer
    {
      gopBuffer.Valid() && gopBuffer.videoHeader.None? && gopBuffer.audioHeader.None?
    }

    constructor (channel: nat, maxGopSize: nat, now: nat)
      ensures Valid() && fresh(gopBuffer) && gopBuffer.maxSize == maxGopSize
      ensures Value() == NewEntry(channel, now)
    {
      gopBuffer := new GopBuffer(maxGopSize);
      this.channel, createdAt := channel, now;
      videoHeader, audioHeader, metadata := None, None, None;
      publisherId, subscriberCount, publisherDisconnectedAt, state := None, 0, None, Idle;
    }

    method SetPublisher(session: nat)
      requires Valid()
      modifies this`publisherId, this`publisherDisconnectedAt, this`state
      ensures Valid()
      ensures Value() == old(Value()).(publisher := Some(session), disconnectedAt := None, state := Active)
    {
      publisherId := Some(session);
      publisherDisconnectedAt := None;
      state := Active;
    }

    method ClearPublisher(now: nat)
      requires Valid()
      modifies this`publisherId, this`publisherDisconnectedAt, this`state
      ensures Valid()
      ensures Value() == old(Value()).(publisher := None, disconnectedAt := Some(now),
                                       state := if old(Value()).subscribers > 0 then GracePeriod else Idle)
    {
      publisherId := None;
      publisherDisconnectedAt := Some(now);
      state := if subscriberCount > 0 then GracePeriod else Idle;
    }

    /** Atomic addition wraps around. */
    method AddSubscribers(n: int)
      requires Valid()
      modifies this`subscriberCount
      ensures Valid()
      ensures Value() == old(Value()).(subscribers := (old(Value()).subscribers + n) % TWO_TO_THE_32)
    {
      subscriberCount := (subscriberCount + n) % TWO_TO_THE_32;
    }

    method UpdateCaches(frame: Frame)
      requires Valid()
      modifies this, gopBuffer
      ensures Valid() && Value() == RegistryModel.UpdateCaches(old(Value()), frame, gopBuffer.maxSize)
    {
      match frame.frameType {
        case Video =>
          if frame.isHeader {
            videoHeader := Some(frame);
          }
        case Audio =>
          if frame.isHeader {
            audioHeader := Some(frame);
          }
        case Metadata => metadata := Some(frame);
      }
      if frame.frameType == Video && !frame.isHeader {
        var _ := gopBuffer.Push(FlvTag(VideoTag, frame.timestamp, frame.data));
      }
    }

    method GetCatchupFrames() returns (frames: seq<Frame>)
      requires Valid()
      ensures frames == Catchup(Value())
    {
      hide FromTag, OptionFrames, Tags;
      frames := OptionFrames(metadata) + OptionFrames(videoHeader) + OptionFrames(audioHeader);
      ghost var headers := frames;
      var tags := gopBuffer.GetCatchupData();
      assert tags == Tags(gopBuffer.frames);
      for i := 0 to |tags|
        invariant frames + FromTags(tags[i..]) == headers + FromTags(tags)
      {
        assert tags[i..][1..] == tags[i + 1..];
        ConcatAssociates(frames, [FromTag(tags[i])], FromTags(tags[i + 1..]));
        frames := frames + [FromTag(tags[i])];
      }
      assert frames + FromTags(tags[|tags|..]) == frames;
    }
  }

  class StreamRegistry {
    const config: Config
    var streams: map<StreamKey, StreamEntry>
    var sent: map<nat, seq<Frame>>
    var channels: nat

    /** Entries and their buffers are not shared between keys. */
    ghost predicate Valid()
      reads this, set e | e in streams.Values :: e.gopBuffer
    {
      && (forall k :: k in streams ==> streams[k].Valid() && streams[k].gopBuffer.maxSize == config.maxGopSize)
      && (forall k1, k2 :: k1 in streams && k2 in streams && k1 != k2 ==>
            streams[k1] != streams[k2] && streams[k1].gopBuffer != streams[k2].gopBuffer)
    }

    ghost function Value(): Registry
      reads this, streams.Values, set e | e in streams.Values :: e.gopBuffer
    {
      Registry(map k | k in streams :: streams[k].Value(), sent, channels)
    }

    /** Adding an entry adds one value. */
    twostate lemma OneAdded(key: StreamKey)
      requires old(Valid()) && key in streams && fresh(streams[key]) && fresh(streams[key].gopBuffer)
      requires streams == old(streams)[key := streams[key]]
      requires forall k :: k in old(streams) ==> unchanged(old(streams)[k]) && unchanged(old(streams)[k].gopBuffer)
      ensures Value().streams == old(Value()).streams[key := streams[key].Value()]
    {
      hide StreamEntry.Value, StreamEntry.Valid;
      assert Value().streams.Keys == old(Value()).streams[key := streams[key].Value()].Keys;
    }

    /** Changing one entry changes one value. */
    twostate lemma OneChanged(key: StreamKey)
      requires old(Valid()) && key in streams && streams == old(streams)
      requires forall k :: k in streams && k != key ==> unchanged(streams[k]) && unchanged(streams[k].gopBuffer)
      ensures Value().streams == old(Value()).streams[key := streams[key].Value()]
    {
      hide StreamEntry.Value, StreamEntry.Valid;
      assert Value().streams.Keys == old(Value()).streams[key := streams[key].Value()].Keys;
    }

    constructor (config: Config)
      ensures Valid() && Value() == EMPTY && this.config == config
    {
      this.config := config;
      streams, sent, channels := map[], map[], 0;
    }

    method RegisterPublisher(key: StreamKey, session: nat, now: nat) returns (accepted: bool)
      requires Valid()
      modifies this, streams.Values
      ensures Valid() && (Value(), accepted) == Register(old(Value()), key, session, now)
    {
      hide StreamEntry.Value, StreamEntry.Valid;
      if key in streams {
        var entry := streams[key];
        if entry.Value().state == Active && entry.Value().publisher.Some? {
          return false;
        }
        entry.SetPublisher(session);
        OneChanged(key);
        return true;
      }
      AddEntry(key, session, now);
      return true;
    }

    method AddEntry(key: StreamKey, session: nat, now: nat)
      requires Valid() && key !in streams
      modifies this
      ensures Valid() && (Value(), true) == Register(old(Value()), key, session, now)
    {
      hide StreamEntry.Value, StreamEntry.Valid, NewEntry, GopBuffer.Valid, GopBuffer.Value;
      var entry := new StreamEntry(channels, config.maxGopSize, now);
      entry.SetPublisher(session);
      streams := streams[key := entry];
      channels := channels + 1;
      NewHasNoDeparture(old(channels), now);
      OneAdded(key);
    }

    static lemma NewHasNoDeparture(channel: nat, now: nat)
      ensures NewEntry(channel, now).disconnectedAt == None
    {
    }

    method UnregisterPublisher(key: StreamKey, session: nat, now: nat)
      requires Valid()
      modifies streams.Values
      ensures Valid() && Value() == Unregister(old(Value()), key, session, now)
    {
      hide StreamEntry.Value, StreamEntry.Valid;
      if key in streams {
        var entry := streams[key];
        if entry.Value().publisher != Some(session) {
          return;
        }
        entry.ClearPublisher(now);
        OneChanged(key);
      }
    }

    method SubscribeTo(key: StreamKey) returns (r: Option<Subscription>)
      requires Valid()
      modifies streams.Values
      ensures Valid() && (Value(), r) == Subscribe(old(Value()), key)
    {
      hide StreamEntry.Value, StreamEntry.Valid, Catchup;
      if key !in streams {
        return None;
      }
      var entry := streams[key];
      var value := entry.Value();
      if value.state == Idle && value.publisher.None? {
        return None;
      }
      var position := if value.channel in sent then |sent[value.channel]| else 0;
      var catchup := entry.GetCatchupFrames();
      entry.AddSubscribers(1);
      OneChanged(key);
      return Some(Subscription(value.channel, position, catchup));
    }

    method UnsubscribeFrom(key: StreamKey)
      requires Valid()
      modifies streams.Values
      ensures Valid() && Value() == Unsubscribe(old(Value()), key)
    {
      hide StreamEntry.Value, StreamEntry.Valid;
      if key in streams {
        streams[key].AddSubscribers(-1);
        OneChanged(key);
      }
    }

    method BroadcastFrame(key: StreamKey, frame: Frame)
      requires Valid()
      modifies this, streams.Values, set e | e in streams.Values :: e.gopBuffer
      ensures Valid() && Value() == Broadcast(old(Value()), key, frame, config)
    {
      hide StreamEntry.Value, StreamEntry.Valid, RegistryModel.UpdateCaches;
      if key in streams {
        var entry := streams[key];
        var channel := entry.Value().channel;
        entry.UpdateCaches(frame);
        OneChanged(key);
        sent := sent[channel := (if channel in sent then sent[channel] else []) + [frame]];
      }
    }

    method RunCleanup(now: nat)
      requires Valid()
      modifies this`streams
      ensures Valid() && Value() == Cleanup(old(Value()), config, now)
    {
      hide StreamEntry.Value, StreamEntry.Valid, Expired;
      var keysToRemove := set key | key in streams && Expired(streams[key].Value(), config, now);
      var remaining := keysToRemove;
      while remaining != {}
        invariant remaining <= keysToRemove
        invariant streams == old(streams) - (keysToRemove - remaining)
      {
        var key :| key in remaining;
        streams := streams - {key};
        remaining := remaining - {key};
      }
      assert streams == old(streams) - keysToRemove;
    }
  }
}
