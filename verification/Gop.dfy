/** The cache of recent video that a late subscriber starts from. */
module Gop {
  import opened Bytes

  datatype TagType = AudioTag | VideoTag | ScriptTag

  datatype FlvTag = FlvTag(tagType: TagType, timestamp: u32, data: bytes)

  /** Frame types 1 and 4 in the upper half of the first byte of a video tag. */
  predicate IsKeyframe(tag: FlvTag) {
    tag.tagType == VideoTag && tag.data != [] && (tag.data[0] / 16 == 1 || tag.data[0] / 16 == 4)
  }

  function Size(tag: FlvTag): nat {
    |tag.data|
  }

  function Total(tags: seq<FlvTag>): nat {
    if tags == [] then 0 else Size(tags[0]) + Total(tags[1..])
  }

  // ---- the cache as a function of what was pushed ----

  datatype Op = Push(tag: FlvTag) | ClearFrames

  /** The tags pushed since the last keyframe, that one included, or since the last clear. */
  function Since(ops: seq<Op>): seq<FlvTag> {
    if ops == [] then []
    else
      match ops[|ops| - 1]
      case ClearFrames => []
      case Push(tag) => if IsKeyframe(tag) then [tag] else Since(ops[..|ops| - 1]) + [tag]
  }

  /** A keyframe was pushed after the last clear. */
  predicate Keyed(ops: seq<Op>) {
    ops != [] &&
    match ops[|ops| - 1]
    case ClearFrames => false
    case Push(tag) => IsKeyframe(tag) || Keyed(ops[..|ops| - 1])
  }

  /** Drop from the front until the rest fits. */
  function Fitting(tags: seq<FlvTag>, max: nat): seq<FlvTag> {
    if Total(tags) <= max || tags == [] then tags else Fitting(tags[1..], max)
  }

  /** The frames and the flag after each operation, in the cache's own terms. */
  datatype Cache = Cache(frames: seq<FlvTag>, complete: bool)

  function Apply(c: Cache, op: Op, max: nat): Cache {
    match op
    case ClearFrames => Cache([], false)
    case Push(tag) =>
      Cache(Fitting((if IsKeyframe(tag) then [] else c.frames) + [tag], max), c.complete || IsKeyframe(tag))
  }

  function After(ops: seq<Op>, max: nat): Cache {
    if ops == [] then Cache([], false) else Apply(After(ops[..|ops| - 1], max), ops[|ops| - 1], max)
  }

  lemma {:induction false} TotalConcat(a: seq<FlvTag>, b: seq<FlvTag>)
    ensures Total(a + b) == Total(a) + Total(b)
  {
    if a == [] {
      assert a + b == b;
    } else {
      assert (a + b)[1..] == a[1..] + b && (a + b)[0] == a[0];
      TotalConcat(a[1..], b);
    }
  }

  /** `Fitting` is a suffix, it fits, and no longer suffix does. */
  lemma {:induction false} FittingIsLongest(tags: seq<FlvTag>, max: nat)
    ensures var f := Fitting(tags, max);
      && |f| <= |tags| && f == tags[|tags| - |f|..] && Total(f) <= max
      && forall k :: 0 <= k < |tags| - |f| ==> Total(tags[k..]) > max
  {
    if !(Total(tags) <= max || tags == []) {
      var f := Fitting(tags, max);
      FittingIsLongest(tags[1..], max);
      assert tags[1..][|tags| - 1 - |f|..] == tags[|tags| - |f|..];
      forall k | 0 <= k < |tags| - |f| ensures Total(tags[k..]) > max {
        if k > 0 {
          assert tags[1..][k - 1..] == tags[k..];
        } else {
          assert tags[0..] == tags;
        }
      }
    }
  }

  /** Evicting on every push keeps no less than evicting once at the end would. */
  lemma {:induction false} FittingAgain(tags: seq<FlvTag>, tag: FlvTag, max: nat)
    ensures Fitting(Fitting(tags, max) + [tag], max) == Fitting(tags + [tag], max)
  {
    if !(Total(tags) <= max || tags == []) {
      FittingAgain(tags[1..], tag, max);
      TotalConcat(tags, [tag]);
      assert (tags + [tag])[1..] == tags[1..] + [tag];
    }
  }

  /** After any history of pushes and clears, oversize frames included, the cache is the longest
      suffix that fits of what was pushed since the last keyframe or clear. */
  lemma {:induction false} CacheRefinesHistory(ops: seq<Op>, max: nat)
    ensures After(ops, max) == Cache(Fitting(Since(ops), max), Keyed(ops))
  {
    if ops != [] {
      var before, op := ops[..|ops| - 1], ops[|ops| - 1];
      CacheRefinesHistory(before, max);
      if op.Push? {
        if IsKeyframe(op.tag) {
          assert [] + [op.tag] == [op.tag];
        } else {
          FittingAgain(Since(before), op.tag, max);
        }
      }
    }
  }

  lemma {:induction false} KeyedStartsAtKeyframe(ops: seq<Op>)
    ensures Keyed(ops) ==> Since(ops) != [] && IsKeyframe(Since(ops)[0])
    ensures forall i :: 1 <= i < |Since(ops)| ==> !IsKeyframe(Since(ops)[i])
  {
    if ops != [] {
      KeyedStartsAtKeyframe(ops[..|ops| - 1]);
    }
  }

  /** The flag says that a keyframe was pushed. The keyframe itself is still there, at the
      front, exactly when everything since it fits. */
  lemma CompleteMeansFits(ops: seq<Op>, max: nat)
    requires Keyed(ops)
    ensures var frames := After(ops, max).frames;
      && (frames != [] && IsKeyframe(frames[0]) <==> Total(Since(ops)) <= max)
      && (Total(Since(ops)) <= max ==> frames == Since(ops))
  {
    var since := Since(ops);
    CacheRefinesHistory(ops, max);
    KeyedStartsAtKeyframe(ops);
    FittingIsLongest(since, max);
    var f := Fitting(since, max);
    if Total(since) > max {
      assert since[0..] == since;
      assert |f| < |since|;
      assert f != [] ==> f[0] == since[|since| - |f|];
    }
  }

  /** E-RTMP sets the top bit of the first byte of a video tag. */
  predicate IsEnhanced(tag: FlvTag) {
    tag.data != [] && tag.data[0] >= 0x80
  }

  function SinceClear(ops: seq<Op>): seq<FlvTag> {
    if ops == [] || ops[|ops| - 1].ClearFrames? then [] else SinceClear(ops[..|ops| - 1]) + [ops[|ops| - 1].tag]
  }

  /** No E-RTMP tag counts as a keyframe: the buffer is never ready, and what it keeps starts
      wherever the size limit cuts the stream. */
  lemma {:induction false} EnhancedHasNoKeyframes(ops: seq<Op>, max: nat)
    requires forall op :: op in ops && op.Push? ==> IsEnhanced(op.tag)
    ensures After(ops, max) == Cache(Fitting(SinceClear(ops), max), false)
  {
    hide Fitting;
    CacheRefinesHistory(ops, max);
    NeverKeyed(ops);
  }

  lemma {:induction false} NeverKeyed(ops: seq<Op>)
    requires forall op :: op in ops && op.Push? ==> IsEnhanced(op.tag)
    ensures !Keyed(ops) && Since(ops) == SinceClear(ops)
  {
    if ops != [] {
      assert ops[|ops| - 1] in ops;
      NeverKeyed(ops[..|ops| - 1]);
    }
  }

  // ---- the headers beside the frames ----

  datatype Buffer = Buffer(cache: Cache, videoHeader: Option<FlvTag>, audioHeader: Option<FlvTag>)

  datatype Use = OnFrames(op: Op) | VideoHeader(tag: FlvTag) | AudioHeader(tag: FlvTag) | ClearAll

  function ApplyUse(b: Buffer, u: Use, max: nat): Buffer {
    match u
    case OnFrames(op) => b.(cache := Apply(b.cache, op, max))
    case VideoHeader(tag) => b.(videoHeader := Some(tag))
    case AudioHeader(tag) => b.(audioHeader := Some(tag))
    case ClearAll => Buffer(Apply(b.cache, ClearFrames, max), None, None)
  }

  function AfterUses(uses: seq<Use>, max: nat): Buffer {
    if uses == [] then Buffer(After([], max), None, None)
    else ApplyUse(AfterUses(uses[..|uses| - 1], max), uses[|uses| - 1], max)
  }

  /** What a history does to the frames. */
  function FrameOps(uses: seq<Use>): seq<Op> {
    if uses == [] then []
    else
      FrameOps(uses[..|uses| - 1]) +
      match uses[|uses| - 1]
      case OnFrames(op) => [op]
      case ClearAll => [ClearFrames]
      case _ => []
  }

  /** A video header was set after the last clearing of everything. */
  predicate HasHeader(uses: seq<Use>) {
    uses != [] && !uses[|uses| - 1].ClearAll? && (uses[|uses| - 1].VideoHeader? || HasHeader(uses[..|uses| - 1]))
  }

  predicate Ready(b: Buffer) {
    b.videoHeader.Some? && b.cache.complete
  }

  lemma {:induction false} FramesOfUses(uses: seq<Use>, max: nat)
    ensures AfterUses(uses, max).cache == After(FrameOps(uses), max)
    ensures AfterUses(uses, max).videoHeader.Some? <==> HasHeader(uses)
  {
    hide Apply;
    if uses != [] {
      var before, u := uses[..|uses| - 1], uses[|uses| - 1];
      FramesOfUses(before, max);
      var ops := FrameOps(before);
      assert ops + [] == ops;
      if u.OnFrames? || u.ClearAll? {
        var op := if u.OnFrames? then u.op else ClearFrames;
        assert FrameOps(uses) == ops + [op] && (ops + [op])[..|ops|] == ops;
      }
    }
  }

  /** The buffer is ready exactly if since the last clearing a video header was set and, since the
      frames were last cleared, a keyframe was pushed. What it then hands out begins with that last
      keyframe exactly if everything since fits. */
  lemma ReadyMeans(uses: seq<Use>, max: nat)
    ensures var b, ops := AfterUses(uses, max), FrameOps(uses);
      && (Ready(b) <==> HasHeader(uses) && Keyed(ops))
      && (Ready(b) ==>
            (b.cache.frames != [] && IsKeyframe(b.cache.frames[0]) <==> Total(Since(ops)) <= max))
  {
    FramesOfUses(uses, max);
    CacheRefinesHistory(FrameOps(uses), max);
    if Keyed(FrameOps(uses)) {
      CompleteMeansFits(FrameOps(uses), max);
    }
  }

  // ---- the buffer object ----

  datatype BufferedFrame = BufferedFrame(tag: FlvTag, size: nat)

  function Tags(frames: seq<BufferedFrame>): (r: seq<FlvTag>)
    ensures |r| == |frames|
  {
    if frames == [] then [] else [frames[0].tag] + Tags(frames[1..])
  }

  lemma {:induction false} TagsConcat(a: seq<BufferedFrame>, b: seq<BufferedFrame>)
    ensures Tags(a + b) == Tags(a) + Tags(b)
  {
    if a == [] {
      assert a + b == b;
    } else {
      assert (a + b)[1..] == a[1..] + b && (a + b)[0] == a[0];
      TagsConcat(a[1..], b);
    }
  }

  class GopBuffer {
    const maxSize: nat
    var currentSize: nat
    var videoHeader: Option<FlvTag>
    var audioHeader: Option<FlvTag>
    var frames: seq<BufferedFrame>
    var hasCompleteGop: bool

    function Value(): Cache
      reads this
    {
      Cache(Tags(frames), hasCompleteGop)
    }

    function Whole(): Buffer
      reads this
    {
      Buffer(Value(), videoHeader, audioHeader)
    }

    /** The running size is the size of what is buffered, and within the limit. */
    ghost predicate Valid()
      reads this
    {
      && (forall f :: f in frames ==> f.size == Size(f.tag))
      && currentSize == Total(Tags(frames)) <= maxSize
    }

    constructor (maxSize: nat)
      ensures Valid() && this.maxSize == maxSize && Value() == After([], maxSize)
      ensures Whole() == AfterUses([], maxSize)
    {
      this.maxSize := maxSize;
      currentSize, frames, hasCompleteGop := 0, [], false;
      videoHeader, audioHeader := None, None;
    }

    method SetVideoHeader(tag: FlvTag)
      requires Valid()
      modifies this`videoHeader
      ensures Valid() && Whole() == ApplyUse(old(Whole()), VideoHeader(tag), maxSize)
    {
      videoHeader := Some(tag);
    }

    method SetAudioHeader(tag: FlvTag)
      requires Valid()
      modifies this`audioHeader
      ensures Valid() && Whole() == ApplyUse(old(Whole()), AudioHeader(tag), maxSize)
    {
      audioHeader := Some(tag);
    }

    /** The headers stay. */
    method DropFrames()
      requires Valid()
      modifies this`frames, this`currentSize, this`hasCompleteGop
      ensures Valid() && Value() == Apply(old(Value()), ClearFrames, maxSize)
    {
      frames := [];
      currentSize := 0;
      hasCompleteGop := false;
    }

    method Clear()
      requires Valid()
      modifies this
      ensures Valid() && Whole() == ApplyUse(old(Whole()), ClearAll, maxSize)
    {
      DropFrames();
      videoHeader, audioHeader := None, None;
    }

    /** False when the frame alone is larger than the buffer; older frames are gone all the same. */
    method Push(tag: FlvTag) returns (added: bool)
      requires Valid()
      modifies this`frames, this`currentSize, this`hasCompleteGop
      ensures Valid() && Value() == Apply(old(Value()), Op.Push(tag), maxSize)
      ensures added <==> Size(tag) <= maxSize
    {
      var size := Size(tag);
      if IsKeyframe(tag) {
        DropFrames();
        hasCompleteGop := true;
      }
      ghost var start := Tags(frames);
      assert start == if IsKeyframe(tag) then [] else old(Value()).frames;
      DropOldest(size, tag);
      TotalConcat(Tags(frames), [tag]);
      if currentSize + size > maxSize {
        assert Tags(frames) + [tag] == [tag] && Fitting([tag], maxSize) == [];
        return false;
      }
      Append(tag, size);
      return true;
    }

    /** Make room by dropping the oldest frames, as far as that helps. */
    method DropOldest(size: nat, ghost tag: FlvTag)
      requires Valid() && size == Size(tag)
      modifies this`frames, this`currentSize
      ensures Valid() && (currentSize + size <= maxSize || frames == [])
      ensures Fitting(Tags(frames) + [tag], maxSize) == Fitting(old(Tags(frames)) + [tag], maxSize)
    {
      while currentSize + size > maxSize && frames != []
        invariant Valid()
        invariant Fitting(Tags(frames) + [tag], maxSize) == Fitting(old(Tags(frames)) + [tag], maxSize)
        decreases |frames|
      {
        var oldest := frames[0];
        TotalConcat(Tags(frames), [tag]);
        assert (Tags(frames) + [tag])[1..] == Tags(frames[1..]) + [tag];
        frames := frames[1..];
        currentSize := currentSize - oldest.size;
      }
    }

    method Append(tag: FlvTag, size: nat)
      requires Valid() && size == Size(tag) && currentSize + size <= maxSize
      modifies this`frames, this`currentSize
      ensures Valid() && Tags(frames) == old(Tags(frames)) + [tag]
    {
      TotalConcat(Tags(frames), [tag]);
      TagsConcat(frames, [BufferedFrame(tag, size)]);
      assert Tags([BufferedFrame(tag, size)]) == [tag] && Total([tag]) == size;
      frames := frames + [BufferedFrame(tag, size)];
      currentSize := currentSize + size;
    }

    method IsReady() returns (ready: bool)
      ensures ready == Ready(Whole())
    {
      return videoHeader.Some? && hasCompleteGop;
    }

    /** The cached headers, then all buffered frames in order. */
    method GetCatchupData() returns (r: seq<FlvTag>)
      ensures r == OptionTags(videoHeader) + OptionTags(audioHeader) + Tags(frames)
    {
      r := [];
      if videoHeader.Some? {
        r := r + [videoHeader.value];
      }
      if audioHeader.Some? {
        r := r + [audioHeader.value];
      }
      ghost var headers := r;
      assert frames[0..] == frames;
      assert headers == OptionTags(videoHeader) + OptionTags(audioHeader);
      for i := 0 to |frames|
        invariant r + Tags(frames[i..]) == headers + Tags(frames)
      {
        assert frames[i..][1..] == frames[i + 1..];
        r := r + [frames[i].tag];
      }
      assert Tags(frames[|frames|..]) == [];
    }
  }

  function OptionTags(t: Option<FlvTag>): seq<FlvTag> {
    if t.Some? then [t.value] else []
  }
}
