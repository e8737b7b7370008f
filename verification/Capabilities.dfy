/** E-RTMP capabilities, the connect fields that carry them, and both sides'
    decisions about them. */
module Capabilities {
  import opened Bytes
  import opened Amf

  // ---- codecs and their four-character codes ----

  datatype VideoFourCc = Avc | Hevc | Av1 | Vp9 | Vp8

  datatype AudioFourCc = Aac | Opus | Flac | Ac3 | Eac3 | Mp3

  const VIDEO_CODECS: set<VideoFourCc> := {Avc, Hevc, Av1, Vp9, Vp8}
  const AUDIO_CODECS: set<AudioFourCc> := {Aac, Opus, Flac, Ac3, Eac3, Mp3}

  function Ascii(s: string): bytes
    requires forall i :: 0 <= i < |s| ==> s[i] as int < 0x80
  {
    seq(|s|, i requires 0 <= i < |s| => s[i] as byte)
  }

  function VideoName(c: VideoFourCc): bytes {
    match c
    case Avc => [0x61, 0x76, 0x63, 0x31]
    case Hevc => [0x68, 0x76, 0x63, 0x31]
    case Av1 => [0x61, 0x76, 0x30, 0x31]
    case Vp9 => [0x76, 0x70, 0x30, 0x39]
    case Vp8 => [0x76, 0x70, 0x30, 0x38]
  }

  function AudioName(c: AudioFourCc): bytes {
    match c
    case Aac => [0x6D, 0x70, 0x34, 0x61]
    case Opus => [0x4F, 0x70, 0x75, 0x73]
    case Flac => [0x66, 0x4C, 0x61, 0x43]
    case Ac3 => [0x61, 0x63, 0x2D, 0x33]
    case Eac3 => [0x65, 0x63, 0x2D, 0x33]
    case Mp3 => [0x2E, 0x6D, 0x70, 0x33]
  }

  function VideoFromStr(s: bytes): (r: Option<VideoFourCc>)
    ensures r.Some? ==> VideoName(r.value) == s
  {
    if s == [0x61, 0x76, 0x63, 0x31] then Some(Avc)
    else if s == [0x68, 0x76, 0x63, 0x31] then Some(Hevc)
    else if s == [0x61, 0x76, 0x30, 0x31] then Some(Av1)
    else if s == [0x76, 0x70, 0x30, 0x39] then Some(Vp9)
    else if s == [0x76, 0x70, 0x30, 0x38] then Some(Vp8)
    else None
  }

  function AudioFromStr(s: bytes): (r: Option<AudioFourCc>)
    ensures r.Some? ==> AudioName(r.value) == s
  {
    if s == [0x6D, 0x70, 0x34, 0x61] then Some(Aac)
    else if s == [0x4F, 0x70, 0x75, 0x73] then Some(Opus)
    else if s == [0x66, 0x4C, 0x61, 0x43] then Some(Flac)
    else if s == [0x61, 0x63, 0x2D, 0x33] then Some(Ac3)
    else if s == [0x65, 0x63, 0x2D, 0x33] then Some(Eac3)
    else if s == [0x2E, 0x6D, 0x70, 0x33] then Some(Mp3)
    else None
  }

  /** A parser that knows exactly the names of the codecs. */
  ghost predicate Inverse<C(!new)>(name: C -> bytes, parse: bytes -> Option<C>) {
    && (forall c :: parse(name(c)) == Some(c))
    && (forall s :: parse(s).Some? ==> name(parse(s).value) == s)
  }

  lemma VideoInverse()
    ensures Inverse(VideoName, VideoFromStr) && forall c: VideoFourCc :: c in VIDEO_CODECS
  {
    forall c: VideoFourCc ensures VideoFromStr(VideoName(c)) == Some(c) && c in VIDEO_CODECS {
      match c
      case Avc => case Hevc => case Av1 => case Vp9 => case Vp8 =>
    }
  }

  lemma AudioInverse()
    ensures Inverse(AudioName, AudioFromStr) && forall c: AudioFourCc :: c in AUDIO_CODECS
  {
    forall c: AudioFourCc ensures AudioFromStr(AudioName(c)) == Some(c) && c in AUDIO_CODECS {
      match c
      case Aac => case Opus => case Flac => case Ac3 => case Eac3 => case Mp3 =>
    }
  }

  // ---- capabilities ----

  const FULL: bv32 := 7

  datatype Caps = Caps(enabled: bool, capsEx: bv32, video: map<VideoFourCc, bv32>, audio: map<AudioFourCc, bv32>,
                       videoFunction: bv32)

  const NO_CAPS := Caps(false, 0, map[], map[], 0)

  function And(x: bv32, y: bv32): bv32 {
    x & y
  }

  /** Codecs of both sides with what both can do; a codec for which that is nothing is dropped. */
  function Common<C>(a: map<C, bv32>, b: map<C, bv32>): map<C, bv32> {
    map c | c in a && c in b && And(a[c], b[c]) != 0 :: And(a[c], b[c])
  }

  function Intersect(a: Caps, b: Caps): Caps {
    if !a.enabled || !b.enabled then NO_CAPS
    else Caps(true, And(a.capsEx, b.capsEx), Common(a.video, b.video), Common(a.audio, b.audio),
              And(a.videoFunction, b.videoFunction))
  }

  lemma AndCommutes(x: bv32, y: bv32)
    ensures And(x, y) == And(y, x)
  {
  }

  lemma AndAssociates(x: bv32, y: bv32, z: bv32)
    ensures And(x, And(y, z)) == And(And(x, y), z)
  {
  }

  lemma AndAbsorbs(x: bv32, y: bv32)
    ensures And(x, And(y, x)) == And(y, x)
  {
  }

  lemma AndNonzero(x: bv32, y: bv32, z: bv32)
    ensures And(x, And(y, z)) != 0 ==> And(x, y) != 0 && And(y, z) != 0
  {
  }

  lemma CommonCommutes<C>(a: map<C, bv32>, b: map<C, bv32>)
    ensures Common(a, b) == Common(b, a)
    ensures Common(a, Common(b, a)) == Common(b, a)
  {
    hide And;
    forall k | k in a && k in b
      ensures And(a[k], b[k]) == And(b[k], a[k]) && And(a[k], And(b[k], a[k])) == And(b[k], a[k])
    {
      AndCommutes(a[k], b[k]);
      AndAbsorbs(a[k], b[k]);
    }
  }

  lemma CommonAssociates<C>(a: map<C, bv32>, b: map<C, bv32>, c: map<C, bv32>)
    ensures Common(a, Common(b, c)) == Common(Common(a, b), c)
  {
    hide And;
    forall k | k in a && k in b && k in c
      ensures And(a[k], And(b[k], c[k])) == And(And(a[k], b[k]), c[k])
      ensures And(a[k], And(b[k], c[k])) != 0 ==> And(a[k], b[k]) != 0 && And(b[k], c[k]) != 0
    {
      AndAssociates(a[k], b[k], c[k]);
      AndNonzero(a[k], b[k], c[k]);
    }
  }

  /** Negotiation does not depend on who intersects with whom, nor on the order in which several
      parties do; doing it again on the other side changes nothing; no codec is left with nothing. */
  lemma IntersectLaws(a: Caps, b: Caps, c: Caps)
    ensures Intersect(a, b) == Intersect(b, a)
    ensures Intersect(a, Intersect(b, c)) == Intersect(Intersect(a, b), c)
    ensures Intersect(a, Intersect(b, a)) == Intersect(b, a)
    ensures forall k :: k in Intersect(a, b).video ==> Intersect(a, b).video[k] != 0
    ensures forall k :: k in Intersect(a, b).audio ==> Intersect(a, b).audio[k] != 0
  {
    hide And;
    CommonCommutes(a.video, b.video);
    CommonCommutes(a.audio, b.audio);
    CommonAssociates(a.video, b.video, c.video);
    CommonAssociates(a.audio, b.audio, c.audio);
    AndCommutes(a.capsEx, b.capsEx);
    AndAssociates(a.capsEx, b.capsEx, c.capsEx);
    AndAbsorbs(a.capsEx, b.capsEx);
    AndCommutes(a.videoFunction, b.videoFunction);
    AndAssociates(a.videoFunction, b.videoFunction, c.videoFunction);
    AndAbsorbs(a.videoFunction, b.videoFunction);
  }

  // ---- the fields of the connect command and its result ----

  const CAPS_EX := Ascii("capsEx")
  const FOURCC_LIST := Ascii("fourCcList")
  const VIDEO_MAP := Ascii("videoFourCcInfoMap")
  const AUDIO_MAP := Ascii("audioFourCcInfoMap")

  /** The E-RTMP part of the connect parameters. */
  datatype ConnectParams = ConnectParams(fourCcList: Option<seq<bytes>>, videoInfo: Option<map<bytes, u32>>,
                                         audioInfo: Option<map<bytes, u32>>, capsEx: Option<u32>)

  function AsObject(v: AmfValue): Option<seq<Prop>> {
    match v
    case Object(props) => Some(props)
    case EcmaArray(props) => Some(props)
    case TypedObject(_, props) => Some(props)
    case _ => None
  }

  function AsU32(v: AmfValue): Option<u32> {
    match v
    case Number(n) => Some(F64ToU32(n))
    case Integer(i) => Some(F64ToU32(IntToF64(i)))
    case _ => None
  }

  function Lookup(props: seq<Prop>, key: bytes): Option<AmfValue> {
    if props == [] then None
    else if props[0].key == key then Some(props[0].val)
    else Lookup(props[1..], key)
  }

  function Strings(vs: seq<AmfValue>): seq<bytes> {
    if vs == [] then [] else (if vs[0].String? then [vs[0].s] else []) + Strings(vs[1..])
  }

  function ParseFourCcList(v: AmfValue): Option<seq<bytes>> {
    if v.Array? && Strings(v.elems) != [] then Some(Strings(v.elems)) else None
  }

  /** The entries that are numbers. */
  function Numbers(props: seq<Prop>): map<bytes, u32> {
    map k | k in Keys(props) && Lookup(props, k).Some? && AsU32(Lookup(props, k).value).Some?
      :: AsU32(Lookup(props, k).value).value
  }

  function Keys(props: seq<Prop>): set<bytes> {
    set p | p in props :: p.key
  }

  function ParseInfoMap(v: AmfValue): Option<map<bytes, u32>> {
    var props := AsObject(v);
    if props.None? || Numbers(props.value) == map[] then None else Some(Numbers(props.value))
  }

  function Bind<A, B>(o: Option<A>, f: A -> Option<B>): Option<B> {
    if o.None? then None else f(o.value)
  }

  function FromAmf(v: AmfValue): ConnectParams {
    var o := AsObject(v);
    if o.None? then ConnectParams(None, None, None, None)
    else
      ConnectParams(Bind(Lookup(o.value, FOURCC_LIST), ParseFourCcList), Bind(Lookup(o.value, VIDEO_MAP), ParseInfoMap),
                    Bind(Lookup(o.value, AUDIO_MAP), ParseInfoMap), Bind(Lookup(o.value, CAPS_EX), AsU32))
  }

  predicate HasEnhanced(p: ConnectParams) {
    p.fourCcList.Some? || p.videoInfo.Some? || p.audioInfo.Some? || p.capsEx.Some?
  }

  function Bits(n: u32): bv32 {
    n as bv32
  }

  function ToU32(bits: bv32): u32 {
    bits as int
  }

  /** The codecs whose names are in the info map; without any info map, those in the list. */
  function CodecsOf<C>(codecs: set<C>, name: C -> bytes, info: Option<map<bytes, u32>>, listed: seq<bytes>)
    : map<C, bv32>
  {
    if info.Some? then map c | c in codecs && name(c) in info.value :: Bits(info.value[name(c)])
    else map c | c in codecs && name(c) in listed :: FULL
  }

  function ToEnhanced(p: ConnectParams): Caps {
    if !HasEnhanced(p) then NO_CAPS
    else
      var listed := if p.fourCcList.Some? && p.videoInfo.None? && p.audioInfo.None? then p.fourCcList.value else [];
      Caps(true, Bits(if p.capsEx.Some? then p.capsEx.value else 0),
           CodecsOf(VIDEO_CODECS, VideoName, p.videoInfo, listed),
           CodecsOf(AUDIO_CODECS, AudioName, p.audioInfo, listed), 0)
  }

  // ---- decisions ----

  datatype Mode = Auto | LegacyOnly | EnhancedOnly

  datatype Decision = Agreed(caps: Option<Caps>) | Rejected

  /** The server's side, on the parameters it received. */
  function Negotiate(mode: Mode, server: Caps, p: ConnectParams): Decision {
    match mode
    case LegacyOnly => Agreed(None)
    case EnhancedOnly =>
      if !HasEnhanced(p) then Rejected else Agreed(Some(Intersect(server, ToEnhanced(p))))
    case Auto =>
      if !HasEnhanced(p) then Agreed(None)
      else
        var negotiated := Intersect(server, ToEnhanced(p));
        Agreed(if negotiated.enabled then Some(negotiated) else None)
  }

  /** The client's side, on the parameters of the server's answer. */
  function HandleConnectResult(mode: Mode, client: Option<Caps>, p: ConnectParams): Decision {
    if HasEnhanced(p) then
      var negotiated := if client.Some? then Intersect(client.value, ToEnhanced(p)) else ToEnhanced(p);
      Agreed(if negotiated.enabled then Some(negotiated) else None)
    else if mode == EnhancedOnly then Rejected
    else Agreed(None)
  }
}
