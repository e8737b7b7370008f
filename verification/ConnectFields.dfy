/** The parameters of a connect command: one loop over the entries of the command
    object, whatever their order, and what that order can decide. */
module ConnectFields {
  import opened Bytes
  import opened Amf
  import opened Capabilities
  import opened CapabilityAgreement
  import opened CapabilityLoops

  /** Several parameters are known under two spellings. */
  datatype Field =
    | App | FlashVer | SwfUrl | TcUrl | PageUrl | Fpad | AudioCodecs | VideoCodecs | VideoFunction | ObjectEncoding
    | FourCcList | VideoInfo | AudioInfo | CapsEx | Extra

  const APP := Ascii("app")
  const FLASH_VER := {Ascii("flashVer"), Ascii("flashver")}
  const SWF_URL := {Ascii("swfUrl"), Ascii("swfurl")}
  const TC_URL := {Ascii("tcUrl"), Ascii("tcurl")}
  const PAGE_URL := {Ascii("pageUrl"), Ascii("pageurl")}
  const FPAD := Ascii("fpad")
  const AUDIO_CODECS_KEY := {Ascii("audioCodecs"), Ascii("audiocodecs")}
  const VIDEO_CODECS_KEY := {Ascii("videoCodecs"), Ascii("videocodecs")}
  const VIDEO_FUNCTION := {Ascii("videoFunction"), Ascii("videofunction")}
  const OBJECT_ENCODING := {Ascii("objectEncoding"), Ascii("objectencoding")}

  function FieldOf(key: bytes): Field {
    if key == FOURCC_LIST then FourCcList
    else if key == VIDEO_MAP then VideoInfo
    else if key == AUDIO_MAP then AudioInfo
    else if key == CAPS_EX then CapsEx
    else if key == APP then App
    else if key in FLASH_VER then FlashVer
    else if key in SWF_URL then SwfUrl
    else if key in TC_URL then TcUrl
    else if key == FPAD then Fpad
    else if key in AUDIO_CODECS_KEY then AudioCodecs
    else if key in VIDEO_CODECS_KEY then VideoCodecs
    else if key in VIDEO_FUNCTION then VideoFunction
    else if key in PAGE_URL then PageUrl
    else if key in OBJECT_ENCODING then ObjectEncoding
    else Extra
  }

  datatype ConnectRequest = ConnectRequest(
    app: bytes, flashVer: Option<bytes>, swfUrl: Option<bytes>, tcUrl: Option<bytes>, pageUrl: Option<bytes>,
    fpad: bool, audioCodecs: u32, videoCodecs: u32, videoFunction: u32, objectEncoding: F64,
    enhanced: ConnectParams, extra: map<bytes, AmfValue>)

  function AsStr(v: AmfValue): Option<bytes> {
    if v.String? then Some(v.s) else None
  }

  function AsBool(v: AmfValue): Option<bool> {
    if v.Boolean? then Some(v.b) else None
  }

  function AsNumber(v: AmfValue): Option<F64> {
    match v
    case Number(n) => Some(n)
    case Integer(i) => Some(IntToF64(i))
    case _ => None
  }

  function Or<A>(o: Option<A>, otherwise: A): A {
    if o.Some? then o.value else otherwise
  }

  /** The value of the last entry for a parameter, under any of its spellings. */
  function Latest(props: seq<Prop>, f: Field): Option<AmfValue> {
    if props == [] then None
    else if FieldOf(props[|props| - 1].key) == f then Some(props[|props| - 1].val)
    else Latest(props[..|props| - 1], f)
  }

  function U32Field(props: seq<Prop>, f: Field): u32 {
    Or(Bind(Latest(props, f), AsU32), 0)
  }

  function EnhancedOf(props: seq<Prop>): ConnectParams {
    ConnectParams(Bind(Latest(props, FourCcList), ParseFourCcList), Bind(Latest(props, VideoInfo), ParseInfoMap),
                  Bind(Latest(props, AudioInfo), ParseInfoMap), Bind(Latest(props, CapsEx), AsU32))
  }

  function ExtraOf(props: seq<Prop>): map<bytes, AmfValue> {
    map k | k in Keys(props) && FieldOf(k) == Extra && Lookup(props, k).Some? :: Lookup(props, k).value
  }

  function RequestOf(props: seq<Prop>): ConnectRequest {
    ConnectRequest(
      Or(Bind(Latest(props, App), AsStr), []),
      Bind(Latest(props, FlashVer), AsStr), Bind(Latest(props, SwfUrl), AsStr), Bind(Latest(props, TcUrl), AsStr),
      Bind(Latest(props, PageUrl), AsStr),
      Or(Bind(Latest(props, Fpad), AsBool), false),
      U32Field(props, AudioCodecs), U32Field(props, VideoCodecs), U32Field(props, VideoFunction),
      Or(Bind(Latest(props, ObjectEncoding), AsNumber), ZERO),
      EnhancedOf(props), ExtraOf(props))
  }

  // ---- the latest entry ----

  lemma {:induction false} LatestIsEntry(props: seq<Prop>, f: Field)
    ensures Latest(props, f).None? <==> forall p :: p in props ==> FieldOf(p.key) != f
    ensures Latest(props, f).Some? ==>
      exists p :: p in props && FieldOf(p.key) == f && p.val == Latest(props, f).value
  {
    hide FieldOf;
    if props != [] {
      var init, last := props[..|props| - 1], props[|props| - 1];
      LatestIsEntry(init, f);
      assert props == init + [last];
      assert last in props;
    }
  }

  /** Where there is one spelling, there is nothing to choose. */
  lemma LatestIsLookup(props: seq<Prop>, f: Field, key: bytes)
    requires DistinctKeys(props) && forall k :: FieldOf(k) == f <==> k == key
    ensures Latest(props, f) == Lookup(props, key)
  {
    hide FieldOf, Latest, Lookup, DistinctKeys;
    LatestIsEntry(props, f);
    LookupFrom(props, key);
    if Latest(props, f).Some? {
      var p :| p in props && FieldOf(p.key) == f && p.val == Latest(props, f).value;
      LookupFinds(props, p);
    }
  }

  lemma NewField(props: seq<Prop>, i: nat)
    requires DistinctKeys(props) && i < |props|
    ensures Lookup(props[..i], props[i].key).None?
    ensures forall k :: Lookup(props[..i + 1], k)
                     == if k == props[i].key then Some(props[i].val) else Lookup(props[..i], k)
  {
    hide Lookup;
    LookupFrom(props[..i], props[i].key);
    assert props[..i + 1] == props[..i] + [props[i]];
    InsertField(props[..i], props[i]);
  }

  lemma MoreEntries(props: seq<Prop>, i: nat)
    requires i < |props|
    ensures forall f :: Latest(props[..i + 1], f)
                     == if FieldOf(props[i].key) == f then Some(props[i].val) else Latest(props[..i], f)
  {
    hide FieldOf;
    var more := props[..i + 1];
    assert more[..|more| - 1] == props[..i] && more[|more| - 1] == props[i];
    forall f ensures Latest(more, f) == if FieldOf(props[i].key) == f then Some(props[i].val) else Latest(props[..i], f)
    {
    }
  }

  lemma MoreExtra(props: seq<Prop>, i: nat)
    requires DistinctKeys(props) && i < |props|
    ensures ExtraOf(props[..i + 1])
         == if FieldOf(props[i].key) == Extra then ExtraOf(props[..i])[props[i].key := props[i].val]
            else ExtraOf(props[..i])
  {
    hide FieldOf, Lookup, DistinctKeys;
    NewField(props, i);
    var more, before := ExtraOf(props[..i + 1]), ExtraOf(props[..i]);
    forall k ensures k in Keys(props[..i + 1]) && Lookup(props[..i + 1], k).Some?
                <==> k == props[i].key || (k in Keys(props[..i]) && Lookup(props[..i], k).Some?)
    {
      LookupFrom(props[..i + 1], k);
      LookupFrom(props[..i], k);
    }
  }

  // ---- the loop ----

  /** No entry gives the name of the application but one under that key. */
  lemma OneApp(props: seq<Prop>, i: nat)
    requires DistinctKeys(props) && i < |props| && FieldOf(props[i].key) == App
    ensures Latest(props[..i], App).None?
  {
    hide FieldOf, Latest;
    AppIsOneKey();
    LatestIsEntry(props[..i], App);
  }

  lemma AppIsOneKey()
    ensures forall k :: FieldOf(k) == App ==> k == APP
  {
    hide Ascii;
  }

  method ParseConnect(v: AmfValue) returns (p: ConnectRequest)
    requires AsObject(v).Some? ==> DistinctKeys(AsObject(v).value)
    ensures p == RequestOf(Or(AsObject(v), []))
  {
    hide FieldOf, Latest, ExtraOf, ParseInfoMap, ParseFourCcList, AsU32, AsNumber, DistinctKeys;
    var props := Or(AsObject(v), []);
    p := RequestOf([]);
    for i := 0 to |props|
      invariant p == RequestOf(props[..i])
    {
      var key, value := props[i].key, props[i].val;
      MoreEntries(props, i);
      MoreExtra(props, i);
      match FieldOf(key)
      case App =>
        OneApp(props, i);
        if value.String? {
          p := p.(app := value.s);
        }
      case FlashVer => p := p.(flashVer := AsStr(value));
      case SwfUrl => p := p.(swfUrl := AsStr(value));
      case TcUrl => p := p.(tcUrl := AsStr(value));
      case PageUrl => p := p.(pageUrl := AsStr(value));
      case Fpad => p := p.(fpad := Or(AsBool(value), false));
      case AudioCodecs => p := p.(audioCodecs := Or(AsU32(value), 0));
      case VideoCodecs => p := p.(videoCodecs := Or(AsU32(value), 0));
      case VideoFunction => p := p.(videoFunction := Or(AsU32(value), 0));
      case ObjectEncoding => p := p.(objectEncoding := Or(AsNumber(value), ZERO));
      case FourCcList => p := p.(enhanced := p.enhanced.(fourCcList := ParseFourCcList(value)));
      case VideoInfo => p := p.(enhanced := p.enhanced.(videoInfo := ParseInfoMap(value)));
      case AudioInfo => p := p.(enhanced := p.enhanced.(audioInfo := ParseInfoMap(value)));
      case CapsEx => p := p.(enhanced := p.enhanced.(capsEx := AsU32(value)));
      case Extra => p := p.(extra := p.extra[key := value]);
    }
    assert props[..|props|] == props;
  }

  /** The negotiation sees the same E-RTMP fields. */
  lemma EnhancedAgrees(v: AmfValue)
    requires AsObject(v).Some? ==> DistinctKeys(AsObject(v).value)
    ensures RequestOf(Or(AsObject(v), [])).enhanced == FromAmf(v)
  {
    hide FieldOf, Latest, Lookup, ExtraOf, ParseInfoMap, ParseFourCcList, AsU32, AsNumber, DistinctKeys, Ascii;
    var props := Or(AsObject(v), []);
    if AsObject(v).None? {
      NothingLatest();
    } else {
      EnhancedKeys();
      LatestIsLookup(props, FourCcList, FOURCC_LIST);
      LatestIsLookup(props, VideoInfo, VIDEO_MAP);
      LatestIsLookup(props, AudioInfo, AUDIO_MAP);
      LatestIsLookup(props, CapsEx, CAPS_EX);
    }
  }

  lemma NothingLatest()
    ensures forall f :: Latest([], f) == None
  {
  }

  lemma EnhancedKeys()
    ensures forall k :: FieldOf(k) == FourCcList <==> k == FOURCC_LIST
    ensures forall k :: FieldOf(k) == VideoInfo <==> k == VIDEO_MAP
    ensures forall k :: FieldOf(k) == AudioInfo <==> k == AUDIO_MAP
    ensures forall k :: FieldOf(k) == CapsEx <==> k == CAPS_EX
  {
    DifferentKeys();
    hide Ascii;
  }

  // ---- what the order decides ----

  predicate Reordered(a: seq<Prop>, b: seq<Prop>) {
    multiset(a) == multiset(b)
  }

  function MovedBack(props: seq<Prop>, i: nat): (r: seq<Prop>)
    requires i < |props|
    ensures Reordered(props, r) && r != [] && r[|r| - 1] == props[i]
  {
    assert props == props[..i] + [props[i]] + props[i + 1..];
    props[..i] + props[i + 1..] + [props[i]]
  }

  /** The order of a hash map decides a parameter exactly if entries for it, under different
      spellings, have different values. */
  lemma OrderDecides(props: seq<Prop>, f: Field)
    ensures (forall other :: Reordered(props, other) ==> Latest(other, f) == Latest(props, f))
       <==> (forall p, q :: p in props && q in props && FieldOf(p.key) == FieldOf(q.key) == f ==> p.val == q.val)
  {
    hide FieldOf, Latest, Reordered;
    if p, q :| p in props && q in props && FieldOf(p.key) == FieldOf(q.key) == f && p.val != q.val {
      var i :| 0 <= i < |props| && props[i] == p;
      var j :| 0 <= j < |props| && props[j] == q;
      LastEntry(MovedBack(props, i), f);
      LastEntry(MovedBack(props, j), f);
    } else {
      forall other | Reordered(props, other) ensures Latest(other, f) == Latest(props, f) {
        SameLatest(props, other, f);
      }
    }
  }

  lemma SameLatest(a: seq<Prop>, b: seq<Prop>, f: Field)
    requires Reordered(a, b)
    requires forall p, q :: p in a && q in a && FieldOf(p.key) == FieldOf(q.key) == f ==> p.val == q.val
    ensures Latest(b, f) == Latest(a, f)
  {
    hide FieldOf, Latest, Reordered;
    LatestIsEntry(a, f);
    LatestIsEntry(b, f);
    SameEntries(a, b);
  }

  lemma LastEntry(props: seq<Prop>, f: Field)
    requires props != [] && FieldOf(props[|props| - 1].key) == f
    ensures Latest(props, f) == Some(props[|props| - 1].val)
  {
  }

  lemma SameEntries(a: seq<Prop>, b: seq<Prop>)
    requires Reordered(a, b)
    ensures forall p :: p in a <==> p in b
  {
    forall p ensures p in a <==> p in b {
      assert p in a <==> p in multiset(a);
      assert p in b <==> p in multiset(b);
    }
  }
}
