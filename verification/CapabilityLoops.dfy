/** The loops behind capability negotiation, over hash maps in whatever order they are iterated. */
module CapabilityLoops {
  import opened Bytes
  import opened Amf
  import opened Capabilities
  import opened CapabilityAgreement

  // ---- intersection ----

  method IntersectCodecs<C(==)>(a: map<C, bv32>, b: map<C, bv32>) returns (r: map<C, bv32>)
    ensures r == Common(a, b)
  {
    hide And;
    r := map[];
    var rest := a.Keys;
    while rest != {}
      invariant rest <= a.Keys
      invariant r == map c | c in a && c !in rest && c in b && And(a[c], b[c]) != 0 :: And(a[c], b[c])
    {
      var codec :| codec in rest;
      rest := rest - {codec};
      if codec in b {
        var common := And(a[codec], b[codec]);
        if common != 0 {
          r := r[codec := common];
        }
      }
    }
  }

  method IntersectCaps(a: Caps, b: Caps) returns (r: Caps)
    ensures r == Intersect(a, b)
  {
    hide And, Common;
    if !a.enabled || !b.enabled {
      return NO_CAPS;
    }
    var video := IntersectCodecs(a.video, b.video);
    var audio := IntersectCodecs(a.audio, b.audio);
    return Caps(true, And(a.capsEx, b.capsEx), video, audio, And(a.videoFunction, b.videoFunction));
  }

  // ---- writing the fields ----

  /** Inserting under a new key. */
  lemma {:induction false} Inserted(props: seq<Prop>, p: Prop, key: bytes)
    requires Lookup(props, p.key).None?
    ensures Lookup(props + [p], key) == if key == p.key then Some(p.val) else Lookup(props, key)
  {
    if props != [] {
      assert (props + [p])[1..] == props[1..] + [p];
      Inserted(props[1..], p, key);
    }
  }

  lemma InsertedDistinct(props: seq<Prop>, p: Prop)
    requires DistinctKeys(props) && Lookup(props, p.key).None?
    ensures DistinctKeys(props + [p])
  {
    hide Lookup;
    LookupFrom(props, p.key);
    forall i | 0 <= i < |props| ensures props[i].key != p.key {
      assert props[i] in props;
    }
  }

  /** The part of the codecs that is not waiting any more. */
  ghost function Done<C>(codecs: map<C, bv32>, rest: set<C>): map<C, bv32> {
    map c | c in codecs && c !in rest :: codecs[c]
  }

  method InfoMap<C(==, !new)>(codecs: map<C, bv32>, name: C -> bytes, ghost parse: bytes -> Option<C>)
    returns (props: seq<Prop>)
    requires Inverse(name, parse)
    ensures ListsCodecs(props, codecs, name)
  {
    hide IntToF64, ToU32, Inverse, ListsCodecs;
    props := [];
    var rest := codecs.Keys;
    NothingListed(codecs, name);
    while rest != {}
      invariant rest <= codecs.Keys && ListsCodecs(props, Done(codecs, rest), name)
    {
      var codec :| codec in rest;
      OneMore(props, codecs, rest, name, parse, codec);
      rest := rest - {codec};
      props := props + [CodecEntry(name(codec), codecs[codec])];
    }
    assert Done(codecs, {}) == codecs;
  }

  lemma NothingListed<C(!new)>(codecs: map<C, bv32>, name: C -> bytes)
    ensures ListsCodecs([], Done(codecs, codecs.Keys), name)
  {
  }

  lemma OneMore<C(!new)>(props: seq<Prop>, codecs: map<C, bv32>, rest: set<C>, name: C -> bytes,
                         parse: bytes -> Option<C>, codec: C)
    requires Inverse(name, parse) && ListsCodecs(props, Done(codecs, rest), name)
    requires rest <= codecs.Keys && codec in rest
    ensures ListsCodecs(props + [CodecEntry(name(codec), codecs[codec])], Done(codecs, rest - {codec}), name)
  {
    hide IntToF64, ToU32, DistinctKeys, Lookup;
    var done, more := Done(codecs, rest), Done(codecs, rest - {codec});
    var entry := CodecEntry(name(codec), codecs[codec]);
    LookupFrom(props, name(codec));
    assert name(codec) !in Keys(props);
    InsertedDistinct(props, entry);
    forall p | p in props + [entry] ensures exists c :: c in more && p == CodecEntry(name(c), more[c]) {
      if p in props {
        var c :| c in done && p == CodecEntry(name(c), done[c]);
        assert c in more && more[c] == done[c];
      } else {
        assert codec in more && p == entry;
      }
    }
  }

  /** The field for one kind of codecs, if there are any. */
  method PutInfoMap<C(==, !new)>(obj: seq<Prop>, key: bytes, codecs: map<C, bv32>, name: C -> bytes,
                                 ghost parse: bytes -> Option<C>) returns (r: seq<Prop>)
    requires Inverse(name, parse) && DistinctKeys(obj) && Lookup(obj, key).None?
    ensures DistinctKeys(r) && CarriesMap(Lookup(r, key), codecs, name)
    ensures forall k :: k != key ==> Lookup(r, k) == Lookup(obj, k)
    ensures obj <= r && forall p :: p in r ==> p in obj || p.key == key
  {
    hide Inverse, ListsCodecs, Lookup, DistinctKeys;
    if codecs == map[] {
      return obj;
    }
    var entries := InfoMap(codecs, name, parse);
    var field := Prop(key, Object(entries));
    InsertedDistinct(obj, field);
    forall k ensures Lookup(obj + [field], k) == if k == key then Some(field.val) else Lookup(obj, k) {
      Inserted(obj, field, k);
    }
    return obj + [field];
  }

  ghost predicate Names<C(!new)>(list: seq<AmfValue>, codecs: set<C>, name: C -> bytes) {
    && |list| == |codecs|
    && (forall e :: e in list ==> exists c :: c in codecs && e == String(name(c)))
    && (forall c :: c in codecs ==> String(name(c)) in list)
  }

  method NameList<C(==, !new)>(codecs: set<C>, name: C -> bytes) returns (list: seq<AmfValue>)
    ensures Names(list, codecs, name)
  {
    hide Names;
    list := [];
    NoNames(name);
    var rest := codecs;
    assert codecs - rest == {};
    while rest != {}
      invariant rest <= codecs && Names(list, codecs - rest, name)
    {
      var codec :| codec in rest;
      OneMoreName(list, codecs - rest, name, codec);
      assert codecs - (rest - {codec}) == codecs - rest + {codec};
      rest := rest - {codec};
      list := list + [String(name(codec))];
    }
    assert codecs - {} == codecs;
  }

  lemma NoNames<C(!new)>(name: C -> bytes)
    ensures Names([], {}, name)
  {
  }

  lemma OneMoreName<C(!new)>(list: seq<AmfValue>, done: set<C>, name: C -> bytes, codec: C)
    requires Names(list, done, name) && codec !in done
    ensures Names(list + [String(name(codec))], done + {codec}, name)
  {
    var more := list + [String(name(codec))];
    forall e | e in more ensures exists c :: c in done + {codec} && e == String(name(c)) {
      if e in list {
        var c :| c in done && e == String(name(c));
        assert c in done + {codec};
      } else {
        assert codec in done + {codec} && e == String(name(codec));
      }
    }
  }

  /** What the client adds to its connect command. */
  method AddErtmpFields(obj: seq<Prop>, caps: Caps) returns (r: seq<Prop>)
    requires DistinctKeys(obj) && Legacy(obj)
    ensures Carries(r, caps) && (OthersPlain(obj) ==> CommandObject(r, Some(caps)))
    ensures obj <= r && forall p :: p in r ==> p in obj || IsEnhancedKey(p.key)
    ensures Lookup(r, FOURCC_LIST).Some? <==> caps.video != map[] || caps.audio != map[]
    ensures Lookup(r, FOURCC_LIST).Some? ==>
      (forall c :: c in caps.video ==> String(VideoName(c)) in Lookup(r, FOURCC_LIST).value.elems)
      && forall c :: c in caps.audio ==> String(AudioName(c)) in Lookup(r, FOURCC_LIST).value.elems
  {
    hide Ascii, Lookup, DistinctKeys, IntToF64, ToU32, ListsCodecs, Inverse, VideoName, AudioName,
      CarriesMap, CarriesList, Names;
    DifferentKeys();
    var bits := Prop(CAPS_EX, Number(IntToF64(ToU32(caps.capsEx))));
    InsertField(obj, bits);
    r := obj + [bits];
    var video := NameList(caps.video.Keys, VideoName);
    var audio := NameList(caps.audio.Keys, AudioName);
    ListIsCarried(video + audio, video, audio, caps);
    if video + audio != [] {
      var list := Prop(FOURCC_LIST, Array(video + audio));
      InsertField(r, list);
      r := r + [list];
    }
    VideoInverse();
    AudioInverse();
    r := PutInfoMap(r, VIDEO_MAP, caps.video, VideoName, VideoFromStr);
    r := PutInfoMap(r, AUDIO_MAP, caps.audio, AudioName, AudioFromStr);
    if OthersPlain(obj) {
      StillPlain(obj, r);
    }
  }

  lemma StillPlain(obj: seq<Prop>, r: seq<Prop>)
    requires OthersPlain(obj) && forall p :: p in r ==> p in obj || IsEnhancedKey(p.key)
    ensures OthersPlain(r)
  {
    hide IsEnhancedKey, FitsString;
  }

  lemma DifferentKeys()
    ensures CAPS_EX != FOURCC_LIST && CAPS_EX != VIDEO_MAP && CAPS_EX != AUDIO_MAP
    ensures FOURCC_LIST != VIDEO_MAP && FOURCC_LIST != AUDIO_MAP && VIDEO_MAP != AUDIO_MAP
  {
    assert VIDEO_MAP[0] != AUDIO_MAP[0];
  }

  lemma InsertField(props: seq<Prop>, p: Prop)
    requires DistinctKeys(props) && Lookup(props, p.key).None?
    ensures DistinctKeys(props + [p])
    ensures forall k :: Lookup(props + [p], k) == if k == p.key then Some(p.val) else Lookup(props, k)
  {
    hide Lookup, DistinctKeys;
    InsertedDistinct(props, p);
    forall k ensures Lookup(props + [p], k) == if k == p.key then Some(p.val) else Lookup(props, k) {
      Inserted(props, p, k);
    }
  }

  lemma SubsetSize<C>(a: set<C>, b: set<C>)
    requires a <= b
    ensures |a| <= |b|
  {
    assert b == a + (b - a);
  }

  lemma NamesFit<C(!new)>(list: seq<AmfValue>, codecs: set<C>, name: C -> bytes, all: set<C>)
    requires Names(list, codecs, name) && codecs <= all
    requires forall c :: FitsString(name(c), 0xFFFF_FFFF)
    ensures |list| <= |all| && (list == [] <==> codecs == {})
    ensures forall e :: e in list ==> e.String? && FitsString(e.s, 0xFFFF_FFFF)
    ensures forall c :: c in codecs ==> String(name(c)) in list
  {
    hide FitsString;
    SubsetSize(codecs, all);
  }

  lemma ListIsCarried(list: seq<AmfValue>, video: seq<AmfValue>, audio: seq<AmfValue>, caps: Caps)
    requires list == video + audio
    requires Names(video, caps.video.Keys, VideoName) && Names(audio, caps.audio.Keys, AudioName)
    ensures list == [] <==> caps.video == map[] && caps.audio == map[]
    ensures CarriesList(if list == [] then None else Some(Array(list)), caps)
    ensures forall c :: c in caps.video ==> String(VideoName(c)) in list
    ensures forall c :: c in caps.audio ==> String(AudioName(c)) in list
  {
    hide VideoName, AudioName, FitsString, Names, VideoFromStr, AudioFromStr, Inverse;
    VideoInverse();
    AudioInverse();
    forall c ensures FitsString(VideoName(c), 0xFFFF_FFFF) { VideoNameFits(c); }
    forall c ensures FitsString(AudioName(c), 0xFFFF_FFFF) { AudioNameFits(c); }
    NamesFit(video, caps.video.Keys, VideoName, VIDEO_CODECS);
    NamesFit(audio, caps.audio.Keys, AudioName, AUDIO_CODECS);
    assert |VIDEO_CODECS| == 5 && |AUDIO_CODECS| == 6;
  }

  function BaseProperties(fmsVer: bytes, capabilities: u32): seq<Prop> {
    [Prop(Ascii("fmsVer"), String(fmsVer)), Prop(Ascii("capabilities"), Number(IntToF64(capabilities)))]
  }

  /** The properties of the server's connect result. */
  method BuildProperties(fmsVer: bytes, capabilities: u32, caps: Option<Caps>) returns (r: seq<Prop>)
    requires caps.Some? ==> caps.value.enabled
    ensures if caps.Some? then Carries(r, caps.value) && Lookup(r, FOURCC_LIST).None? else DistinctKeys(r) && Legacy(r)
    ensures BaseProperties(fmsVer, capabilities) <= r
    ensures FitsString(fmsVer, 0xFFFF_FFFF) ==> CommandObject(r, caps)
  {
    hide BaseProperties, OthersPlain, FitsString, Ascii, Lookup, DistinctKeys, IntToF64, ToU32, ListsCodecs, Inverse,
      VideoName, AudioName, CarriesMap, CarriesList;
    DifferentKeys();
    BaseIsLegacy(fmsVer, capabilities);
    r := BaseProperties(fmsVer, capabilities);
    ghost var base := r;
    if caps.Some? {
      var bits := Prop(CAPS_EX, Number(IntToF64(ToU32(caps.value.capsEx))));
      InsertField(r, bits);
      r := r + [bits];
      VideoInverse();
      AudioInverse();
      r := PutInfoMap(r, VIDEO_MAP, caps.value.video, VideoName, VideoFromStr);
      r := PutInfoMap(r, AUDIO_MAP, caps.value.audio, AudioName, AudioFromStr);
      NoListIsCarried(caps.value);
    }
    if FitsString(fmsVer, 0xFFFF_FFFF) {
      BaseIsPlain(fmsVer, capabilities);
      StillPlain(base, r);
    }
  }

  lemma BaseIsPlain(fmsVer: bytes, capabilities: u32)
    requires FitsString(fmsVer, 0xFFFF_FFFF)
    ensures OthersPlain(BaseProperties(fmsVer, capabilities))
  {
    hide ValidUtf8, IntToF64;
    AsciiIsUtf8(Ascii("fmsVer"));
    AsciiIsUtf8(Ascii("capabilities"));
  }

  lemma NoListIsCarried(caps: Caps)
    ensures CarriesList(None, caps)
  {
  }

  lemma BaseIsLegacy(fmsVer: bytes, capabilities: u32)
    ensures var base := BaseProperties(fmsVer, capabilities);
      DistinctKeys(base) && Legacy(base)
  {
    hide IntToF64;
    assert Ascii("fmsVer")[0] != CAPS_EX[0] && |Ascii("fmsVer")| == 6 && |CAPS_EX| == 6;
    assert |Ascii("capabilities")| == 12 && |FOURCC_LIST| == 10 && |VIDEO_MAP| == 18 && |AUDIO_MAP| == 18;
    var base := BaseProperties(fmsVer, capabilities);
    assert Keys(base) == {Ascii("fmsVer"), Ascii("capabilities")} by {
      assert base[0] in base && base[1] in base;
    }
    hide Lookup, Keys, Ascii;
    LookupFrom(base, CAPS_EX);
    LookupFrom(base, FOURCC_LIST);
    LookupFrom(base, VIDEO_MAP);
    LookupFrom(base, AUDIO_MAP);
  }

  // ---- reading the fields ----

  /** The entries of an info map whose names are known. */
  method CodecsIn<C(==, !new)>(codecs: set<C>, name: C -> bytes, parse: bytes -> Option<C>, info: map<bytes, u32>)
    returns (r: map<C, bv32>)
    requires Inverse(name, parse) && forall c :: c in codecs
    ensures r == CodecsOf(codecs, name, Some(info), [])
  {
    hide Bits;
    r := map[];
    var rest := info.Keys;
    while rest != {}
      invariant rest <= info.Keys
      invariant r == map c | c in codecs && name(c) in info && name(c) !in rest :: Bits(info[name(c)])
    {
      var s :| s in rest;
      rest := rest - {s};
      var codec := parse(s);
      if codec.Some? {
        r := r[codec.value := Bits(info[s])];
      }
    }
  }

  /** Every listed codec with full capability. */
  method CodecsListed<C(==, !new)>(codecs: set<C>, name: C -> bytes, parse: bytes -> Option<C>, listed: seq<bytes>)
    returns (r: map<C, bv32>)
    requires Inverse(name, parse) && forall c :: c in codecs
    ensures r == CodecsOf(codecs, name, None, listed)
  {
    r := map[];
    for i := 0 to |listed|
      invariant r == map c | c in codecs && name(c) in listed[..i] :: FULL
    {
      assert listed[..i + 1] == listed[..i] + [listed[i]];
      var codec := parse(listed[i]);
      if codec.Some? && codec.value !in r {
        r := r[codec.value := FULL];
      }
    }
    assert listed[..|listed|] == listed;
  }

  method ToEnhancedCapabilities(p: ConnectParams) returns (caps: Caps)
    ensures caps == ToEnhanced(p)
  {
    hide Bits, VideoName, AudioName, VideoFromStr, AudioFromStr, Inverse;
    if !HasEnhanced(p) {
      return NO_CAPS;
    }
    VideoInverse();
    AudioInverse();
    var video, audio := map[], map[];
    if p.videoInfo.Some? {
      video := CodecsIn(VIDEO_CODECS, VideoName, VideoFromStr, p.videoInfo.value);
    }
    if p.audioInfo.Some? {
      audio := CodecsIn(AUDIO_CODECS, AudioName, AudioFromStr, p.audioInfo.value);
    }
    if p.fourCcList.Some? && p.videoInfo.None? && p.audioInfo.None? {
      video := CodecsListed(VIDEO_CODECS, VideoName, VideoFromStr, p.fourCcList.value);
      audio := CodecsListed(AUDIO_CODECS, AudioName, AudioFromStr, p.fourCcList.value);
    }
    return Caps(true, Bits(if p.capsEx.Some? then p.capsEx.value else 0), video, audio, 0);
  }

  // ---- both sides, one after the other ----

  /** A connection from the connect command to its result, with what the two sides end with. `fields`
      are the client's own fields of the connect command, `fmsVer` the server's version string. */
  method Negotiation(serverMode: Mode, clientMode: Mode, server: Caps, client: Caps, fields: seq<Prop>, fmsVer: bytes)
    returns (s: Decision, c: Decision)
    requires server.enabled && server.videoFunction == 0 && client.enabled && client.videoFunction == 0
    requires DistinctKeys(fields) && Legacy(fields) && OthersPlain(fields) && FitsString(fmsVer, 0xFFFF_FFFF)
    ensures s.Rejected? <==> serverMode == EnhancedOnly && clientMode == LegacyOnly
    ensures s.Agreed? ==> s.caps == if serverMode == LegacyOnly || clientMode == LegacyOnly then None
                                    else Some(Intersect(server, client))
    ensures c.Rejected? <==> s.Rejected? || (serverMode == LegacyOnly && clientMode == EnhancedOnly)
    ensures c.Agreed? ==> c.caps == s.caps
  {
    hide CommandObject, FromAmf, OverTheWire, Intersect, DistinctKeys, Legacy, OthersPlain, FitsString;
    var connect := fields;
    if clientMode != LegacyOnly {
      connect := AddErtmpFields(fields, client);
    }
    assert CommandObject(connect, Own(clientMode, client)) by { FieldsAreCommand(fields); }
    var params := FromAmf(OverTheWire(Object(connect)));
    s := Negotiate(serverMode, server, params);
    Agreement(serverMode, clientMode, server, client, connect, []);
    if s.Rejected? {
      return s, Rejected;
    }
    assert s.caps.Some? ==> s.caps.value.enabled by { AgreedIsEnabled(serverMode, server, params); }
    var answer := BuildProperties(fmsVer, 31, s.caps);
    Agreement(serverMode, clientMode, server, client, connect, answer);
    c := HandleConnectResult(clientMode, Own(clientMode, client), FromAmf(OverTheWire(Object(answer))));
  }

  lemma FieldsAreCommand(fields: seq<Prop>)
    requires DistinctKeys(fields) && Legacy(fields) && OthersPlain(fields)
    ensures CommandObject(fields, None)
  {
  }

  lemma AgreedIsEnabled(mode: Mode, server: Caps, p: ConnectParams)
    requires server.enabled
    ensures var s := Negotiate(mode, server, p); s.Agreed? && s.caps.Some? ==> s.caps.value.enabled
  {
    hide Common, And;
  }
}
