/** Client and server agree on the E-RTMP capabilities of a session: the connect
    command and its result, through AMF0 and back, with both sides' decisions. */
module CapabilityAgreement {
  import opened Bytes
  import opened Amf
  import opened Capabilities
  import opened Amf0Proofs
  import Amf0 = Amf0Model

  // ---- looking up fields ----

  lemma {:induction false} LookupFinds(props: seq<Prop>, p: Prop)
    requires DistinctKeys(props) && p in props
    ensures Lookup(props, p.key) == Some(p.val)
  {
    if props[0] != p {
      var j :| 1 <= j < |props| && props[j] == p;
      assert props[1..][j - 1] == p && props[0].key != props[j].key;
      LookupFinds(props[1..], p);
    }
  }

  lemma {:induction false} LookupFrom(props: seq<Prop>, key: bytes)
    ensures Lookup(props, key).Some? <==> key in Keys(props)
    ensures Lookup(props, key).Some? ==> Prop(key, Lookup(props, key).value) in props
  {
    if props != [] {
      assert Keys(props) == {props[0].key} + Keys(props[1..]) by {
        assert props == [props[0]] + props[1..];
      }
      LookupFrom(props[1..], key);
      assert props[0] == Prop(props[0].key, props[0].val);
    }
  }

  // ---- info maps ----

  function CodecEntry(name: bytes, bits: bv32): Prop {
    Prop(name, Number(IntToF64(ToU32(bits))))
  }

  /** The entries of an info map, in any order. */
  ghost predicate ListsCodecs<C(!new)>(props: seq<Prop>, codecs: map<C, bv32>, name: C -> bytes) {
    && DistinctKeys(props)
    && (forall p :: p in props ==> exists c :: c in codecs && p == CodecEntry(name(c), codecs[c]))
    && (forall c :: c in codecs ==> CodecEntry(name(c), codecs[c]) in props)
  }

  lemma BitsOfInt(bits: bv32)
    ensures Bits(ToU32(bits)) == bits
  {
  }

  lemma EntryRead<C(!new)>(props: seq<Prop>, codecs: map<C, bv32>, name: C -> bytes, parse: bytes -> Option<C>, c: C)
    requires Inverse(name, parse) && ListsCodecs(props, codecs, name)
    ensures name(c) in Numbers(props) <==> c in codecs
    ensures c in codecs ==> Bits(Numbers(props)[name(c)]) == codecs[c]
  {
    hide F64ToU32, IntToF64, DistinctKeys, Bits, ToU32;
    LookupFrom(props, name(c));
    if c in codecs {
      LookupFinds(props, CodecEntry(name(c), codecs[c]));
      U32ThroughF64(ToU32(codecs[c]));
      BitsOfInt(codecs[c]);
    }
  }

  /** An info map reads back as the codecs written into it. */
  lemma InfoMapBack<C(!new)>(props: seq<Prop>, codecs: map<C, bv32>, name: C -> bytes, parse: bytes -> Option<C>,
                             all: set<C>, listed: seq<bytes>)
    requires Inverse(name, parse) && ListsCodecs(props, codecs, name) && codecs != map[] && codecs.Keys <= all
    ensures ParseInfoMap(Object(props)).Some?
    ensures CodecsOf(all, name, ParseInfoMap(Object(props)), listed) == codecs
  {
    hide ListsCodecs, Inverse, Numbers, Bits, ToU32;
    forall c ensures name(c) in Numbers(props) <==> c in codecs
      ensures c in codecs ==> Bits(Numbers(props)[name(c)]) == codecs[c]
    {
      EntryRead(props, codecs, name, parse, c);
    }
    var c :| c in codecs;
    assert name(c) in Numbers(props);
  }

  // ---- the connect command and its result ----

  ghost predicate CarriesMap<C(!new)>(field: Option<AmfValue>, codecs: map<C, bv32>, name: C -> bytes) {
    if codecs == map[] then field == None
    else field.Some? && field.value.Object? && ListsCodecs(field.value.props, codecs, name)
  }

  /** The list for older implementations is only there when an info map is. */
  ghost predicate CarriesList(field: Option<AmfValue>, caps: Caps) {
    field.Some? ==>
      && (caps.video != map[] || caps.audio != map[])
      && field.value.Array? && |field.value.elems| < TWO_TO_THE_32
      && forall e :: e in field.value.elems ==> e.String? && FitsString(e.s, 0xFFFF_FFFF)
  }

  ghost predicate Carries(props: seq<Prop>, caps: Caps) {
    && DistinctKeys(props)
    && Lookup(props, CAPS_EX) == Some(Number(IntToF64(ToU32(caps.capsEx))))
    && CarriesMap(Lookup(props, VIDEO_MAP), caps.video, VideoName)
    && CarriesMap(Lookup(props, AUDIO_MAP), caps.audio, AudioName)
    && CarriesList(Lookup(props, FOURCC_LIST), caps)
  }

  predicate IsEnhancedKey(key: bytes) {
    key == CAPS_EX || key == FOURCC_LIST || key == VIDEO_MAP || key == AUDIO_MAP
  }

  predicate Legacy(props: seq<Prop>) {
    && Lookup(props, CAPS_EX) == None && Lookup(props, FOURCC_LIST) == None
    && Lookup(props, VIDEO_MAP) == None && Lookup(props, AUDIO_MAP) == None
  }

  lemma LegacyHasNothing(props: seq<Prop>)
    requires Legacy(props)
    ensures !HasEnhanced(FromAmf(Object(props)))
  {
    hide Ascii, ParseInfoMap, ParseFourCcList, AsU32, Lookup;
  }

  /** Capabilities read back as they were written, in whatever order the fields come. */
  lemma CarriedBack(props: seq<Prop>, caps: Caps)
    requires Carries(props, caps) && caps.enabled && caps.videoFunction == 0
    ensures HasEnhanced(FromAmf(Object(props))) && ToEnhanced(FromAmf(Object(props))) == caps
  {
    hide Ascii, Bits, ToU32, ListsCodecs, Lookup, F64ToU32, IntToF64, VideoName, AudioName, VideoFromStr, AudioFromStr,
      Inverse, ParseInfoMap, ParseFourCcList, CodecsOf, DistinctKeys;
    U32ThroughF64(ToU32(caps.capsEx));
    BitsOfInt(caps.capsEx);
    VideoInverse();
    AudioInverse();
    NoCodecs(VIDEO_CODECS, VideoName);
    NoCodecs(AUDIO_CODECS, AudioName);
    var p := FromAmf(Object(props));
    if caps.video != map[] {
      InfoMapBack(Lookup(props, VIDEO_MAP).value.props, caps.video, VideoName, VideoFromStr, VIDEO_CODECS, []);
    }
    if caps.audio != map[] {
      InfoMapBack(Lookup(props, AUDIO_MAP).value.props, caps.audio, AudioName, AudioFromStr, AUDIO_CODECS, []);
    }
  }

  lemma NoCodecs<C>(codecs: set<C>, name: C -> bytes)
    ensures CodecsOf(codecs, name, None, []) == map[]
  {
  }

  // ---- through AMF0 ----

  /** A value that AMF0 carries as it is, at most three levels deep. */
  predicate Stable(v: AmfValue) {
    Norm(v) == v && Fits(v) && Height(v) <= 3
  }

  predicate StableField(p: Prop) {
    p.key != [] && FitsString(p.key, 0xFFFF) && Stable(p.val) && Height(p.val) <= 2
  }

  lemma {:induction false} StableFields(props: seq<Prop>)
    requires forall p :: p in props ==> StableField(p)
    ensures NormProps(props) == props && FitsProps(props) && HeightProps(props) <= 2
  {
    hide Norm, Fits, Height;
    if props != [] {
      assert props[0] in props;
      StableFields(props[1..]);
      assert props == [Prop(props[0].key, props[0].val)] + props[1..];
    }
  }

  lemma {:induction false} Simple(props: seq<Prop>)
    requires forall p :: p in props ==> p.key != [] && FitsString(p.key, 0xFFFF) && p.val.Number?
    ensures NormProps(props) == props && FitsProps(props) && HeightProps(props) <= 1
  {
    hide FitsString;
    if props != [] {
      assert props[0] in props;
      Simple(props[1..]);
      assert props == [Prop(props[0].key, props[0].val)] + props[1..];
    }
  }

  lemma {:induction false} StringList(vs: seq<AmfValue>)
    requires forall v :: v in vs ==> v.String? && FitsString(v.s, 0xFFFF_FFFF)
    ensures NormAll(vs) == vs && FitsAll(vs) && HeightAll(vs) <= 1
  {
    hide FitsString;
    if vs != [] {
      assert vs[0] in vs;
      StringList(vs[1..]);
      assert vs == [vs[0]] + vs[1..];
    }
  }

  lemma {:induction false} AsciiIsUtf8(s: bytes)
    requires forall i :: 0 <= i < |s| ==> s[i] < 0x80
    ensures ValidUtf8(s)
  {
    if s != [] {
      AsciiIsUtf8(s[1..]);
    }
  }

  lemma VideoNameFits(c: VideoFourCc)
    ensures VideoName(c) != [] && FitsString(VideoName(c), 0xFFFF) && FitsString(VideoName(c), 0xFFFF_FFFF)
  {
    hide ValidUtf8;
    AsciiIsUtf8(VideoName(c));
  }

  lemma AudioNameFits(c: AudioFourCc)
    ensures AudioName(c) != [] && FitsString(AudioName(c), 0xFFFF) && FitsString(AudioName(c), 0xFFFF_FFFF)
  {
    hide ValidUtf8;
    AsciiIsUtf8(AudioName(c));
  }

  lemma KeysFit(key: bytes)
    requires IsEnhancedKey(key)
    ensures key != [] && FitsString(key, 0xFFFF)
  {
    hide ValidUtf8;
    AsciiIsUtf8(key);
  }

  lemma EntriesPlain<C(!new)>(props: seq<Prop>, codecs: map<C, bv32>, name: C -> bytes)
    requires ListsCodecs(props, codecs, name)
    requires forall c :: name(c) != [] && FitsString(name(c), 0xFFFF)
    ensures DistinctKeys(props)
    ensures forall p :: p in props ==> p.key != [] && FitsString(p.key, 0xFFFF) && p.val.Number?
  {
    hide FitsString, IntToF64, DistinctKeys;
    forall p | p in props ensures p.key != [] && FitsString(p.key, 0xFFFF) && p.val.Number? {
      var c :| c in codecs && p == CodecEntry(name(c), codecs[c]);
    }
  }

  lemma InfoMapStable<C(!new)>(field: Option<AmfValue>, codecs: map<C, bv32>, name: C -> bytes)
    requires CarriesMap(field, codecs, name)
    requires forall c :: name(c) != [] && FitsString(name(c), 0xFFFF)
    ensures field.Some? ==> Stable(field.value) && Height(field.value) <= 2
  {
    hide FitsString, ListsCodecs, DistinctKeys;
    if field.Some? {
      var props := field.value.props;
      EntriesPlain(props, codecs, name);
      Simple(props);
    }
  }

  lemma ListStable(field: Option<AmfValue>, caps: Caps)
    requires CarriesList(field, caps)
    ensures field.Some? ==> Stable(field.value) && Height(field.value) <= 2
  {
    hide FitsString;
    if field.Some? {
      StringList(field.value.elems);
    }
  }

  /** The fields besides those of E-RTMP are strings, numbers and booleans. */
  predicate OthersPlain(props: seq<Prop>) {
    forall p :: p in props && !IsEnhancedKey(p.key) ==>
      && p.key != [] && FitsString(p.key, 0xFFFF)
      && (p.val.Boolean? || p.val.Number? || (p.val.String? && FitsString(p.val.s, 0xFFFF_FFFF)))
  }

  lemma EnhancedFieldStable(props: seq<Prop>, caps: Option<Caps>, p: Prop)
    requires p in props && IsEnhancedKey(p.key) && DistinctKeys(props)
    requires if caps.Some? then Carries(props, caps.value) else Legacy(props)
    ensures StableField(p)
  {
    hide Ascii, Lookup, FitsString, ListsCodecs, DistinctKeys, VideoName, AudioName, CarriesMap, CarriesList, IntToF64;
    LookupFinds(props, p);
    KeysFit(p.key);
    forall c ensures VideoName(c) != [] && FitsString(VideoName(c), 0xFFFF) { VideoNameFits(c); }
    forall c ensures AudioName(c) != [] && FitsString(AudioName(c), 0xFFFF) { AudioNameFits(c); }
    if caps.Some? {
      InfoMapStable(Lookup(props, VIDEO_MAP), caps.value.video, VideoName);
      InfoMapStable(Lookup(props, AUDIO_MAP), caps.value.audio, AudioName);
      ListStable(Lookup(props, FOURCC_LIST), caps.value);
    }
  }

  lemma PlainFieldStable(p: Prop)
    requires p.key != [] && FitsString(p.key, 0xFFFF)
    requires p.val.Boolean? || p.val.Number? || (p.val.String? && FitsString(p.val.s, 0xFFFF_FFFF))
    ensures StableField(p)
  {
  }

  /** What the peer decodes of an encoded value. */
  function OverTheWire(v: AmfValue): AmfValue {
    var o := Amf0.Decode(true, Amf0.State(Amf0.Encode(v), [], 0));
    if o.r.Ok? then o.r.value else Null
  }

  lemma ObjectOverTheWire(props: seq<Prop>, caps: Option<Caps>)
    requires DistinctKeys(props) && OthersPlain(props)
    requires if caps.Some? then Carries(props, caps.value) else Legacy(props)
    ensures OverTheWire(Object(props)) == Object(props)
  {
    hide Carries, Legacy, IsEnhancedKey, FitsString, StableField, Amf0.Decode, Amf0.Encode, DistinctKeys, Ascii;
    forall p | p in props ensures StableField(p) {
      if IsEnhancedKey(p.key) {
        EnhancedFieldStable(props, caps, p);
      } else {
        PlainFieldStable(p);
      }
    }
    StableFields(props);
    var v := Object(props);
    assert Fits(v) && Norm(v) == v && Height(v) <= 3;
    hide Fits, Norm, Height;
    var st := Amf0.State(Amf0.Encode(v), [], 0);
    assert st.buf == Amf0.Encode(v) + [];
    RoundTrip(true, v, st, []);
  }

  // ---- agreement ----

  /** The client's own capabilities, if it uses E-RTMP at all. */
  function Own(mode: Mode, client: Caps): Option<Caps> {
    if mode == LegacyOnly then None else Some(client)
  }

  /** A command object for the connect command or its result, with the fields in any order. */
  ghost predicate CommandObject(props: seq<Prop>, caps: Option<Caps>) {
    && DistinctKeys(props) && OthersPlain(props)
    && if caps.Some? then Carries(props, caps.value) else Legacy(props)
  }

  lemma ReadBack(props: seq<Prop>, caps: Option<Caps>)
    requires CommandObject(props, caps)
    requires caps.Some? ==> caps.value.enabled && caps.value.videoFunction == 0
    ensures var p := FromAmf(OverTheWire(Object(props)));
      && (HasEnhanced(p) <==> caps.Some?)
      && (caps.Some? ==> ToEnhanced(p) == caps.value)
  {
    hide Carries, Legacy, OthersPlain, DistinctKeys, FromAmf, ToEnhanced, HasEnhanced, OverTheWire;
    ObjectOverTheWire(props, caps);
    if caps.Some? {
      CarriedBack(props, caps.value);
    } else {
      LegacyHasNothing(props);
    }
  }

  /** Whatever the two modes and configurations, and in whatever order the fields are written:
      a side that insists on E-RTMP rejects one that refuses it, and otherwise both sides end
      with the same result. It is nothing if either side is legacy, and the common capabilities
      of the two configurations if neither is. */
  lemma Agreement(serverMode: Mode, clientMode: Mode, server: Caps, client: Caps,
                  connect: seq<Prop>, answer: seq<Prop>)
    requires server.enabled && server.videoFunction == 0 && client.enabled && client.videoFunction == 0
    requires CommandObject(connect, Own(clientMode, client))
    ensures var s := Negotiate(serverMode, server, FromAmf(OverTheWire(Object(connect))));
      && (s.Rejected? <==> serverMode == EnhancedOnly && clientMode == LegacyOnly)
      && (s.Agreed? && CommandObject(answer, s.caps) ==>
            var c := HandleConnectResult(clientMode, Own(clientMode, client), FromAmf(OverTheWire(Object(answer))));
            && (c.Rejected? <==> serverMode == LegacyOnly && clientMode == EnhancedOnly)
            && (c.Agreed? ==> c.caps == s.caps)
            && s.caps == if serverMode == LegacyOnly || clientMode == LegacyOnly then None
                         else Some(Intersect(server, client)))
  {
    hide CommandObject, FromAmf, ToEnhanced, HasEnhanced, OverTheWire, Common, And;
    ReadBack(connect, Own(clientMode, client));
    var s := Negotiate(serverMode, server, FromAmf(OverTheWire(Object(connect))));
    assert And(0, 0) == 0 by { NoBits(); }
    if s.Agreed? && CommandObject(answer, s.caps) {
      ReadBack(answer, s.caps);
      IntersectLaws(client, server, NO_CAPS);
    }
  }

  lemma NoBits()
    ensures And(0, 0) == 0
  {
  }
}
