/** What references in AMF3 data yield, wherever they stand and whoever wrote the
    data. The decoder's run is laid out as the list of what it reads, and its three
    tables are explained, entry by entry, by what was read before: objects with the
    containers still open as Null, strings and traits as they were read in line. */
module Amf3References {
  import opened Bytes
  import opened Amf
  import opened Amf3Model
  import opened Amf3Safety

  // ---- what a decoder reads, in order ----

  /** `st` is the state in which it is read: behind its marker for a value, at its start for a string,
      behind the header for a reference to a trait. A trait in line is noted when it is complete.
      `open` are the object table entries of the containers around it. */
  datatype Call =
    | ValueAt(marker: byte, st: State, open: set<nat>)
    | StringAt(st: State, open: set<nat>)
    | TraitRef(header: u32, st: State, open: set<nat>)
    | TraitDone(t: Trait, st: State, open: set<nat>)

  function TraceDecode(lenient: bool, st: State, open: set<nat>): seq<Call>
    decreases |st.buf|, 0
  {
    if st.buf == [] || st.depth + 1 > MAX_NESTING_DEPTH then []
    else
      var st1 := Skip(st, 1).(depth := st.depth + 1);
      [ValueAt(st.buf[0], st1, open)] + TraceValue(lenient, st.buf[0], st1, open)
  }

  function TraceValue(lenient: bool, marker: byte, st: State, open: set<nat>): seq<Call>
    decreases |st.buf|, 4
  {
    if marker == STRING then [StringAt(st, open)]
    else if marker == ARRAY || marker == OBJECT then
      var h := ReadU29(st);
      if h.r.Err? || h.r.value % 2 == 0 then []
      else if marker == ARRAY then TraceArray(lenient, Entered(h.st), h.r.value / 2, open + {|h.st.objects|})
      else TraceObject(lenient, Entered(h.st), h.r.value, open + {|h.st.objects|})
    else []
  }

  /** With the placeholder of a container that is being opened. */
  function Entered(st: State): State {
    st.(objects := st.objects + [Null])
  }

  function TraceArray(lenient: bool, st: State, count: nat, open: set<nat>): seq<Call>
    decreases |st.buf|, 3
  {
    var a := DecodeProps(lenient, st, []);
    TraceProps(lenient, st, open) + (if a.r.Ok? then TraceElems(lenient, a.st, count, open) else [])
  }

  function TraceObject(lenient: bool, st: State, header: u32, open: set<nat>): seq<Call>
    decreases |st.buf|, 3
  {
    var t := DecodeTrait(st, header);
    TraceTrait(st, header, open) + (if t.r.Ok? then TraceFields(lenient, t.st, t.r.value, open) else [])
  }

  /** The values of an object behind its trait. */
  function TraceFields(lenient: bool, st: State, t: Trait, open: set<nat>): seq<Call>
    decreases |st.buf|, 2, |t.properties| + 1
  {
    var sealed := DecodeSealed(lenient, st, t.properties, []);
    TraceSealed(lenient, st, t.properties, open)
    + (if sealed.r.Ok? && t.isDynamic then TraceProps(lenient, sealed.st, open) else [])
  }

  function TraceTrait(st: State, header: u32, open: set<nat>): seq<Call> {
    if header / 2 % 2 == 0 then [TraitRef(header, st, open)]
    else
      var name := ReadString(st);
      [StringAt(st, open)] + (if name.r.Ok? then TraceNames(name.st, header, name.r.value, open) else [])
  }

  function TraceNames(st: State, header: u32, name: bytes, open: set<nat>): seq<Call> {
    var names := ReadStrings(st, header / 16, []);
    TraceStrings(st, header / 16, open)
    + (if names.r.Ok? then [TraitDone(Trait(name, header / 8 % 2 == 1, names.r.value), names.st, open)] else [])
  }

  function TraceStrings(st: State, count: nat, open: set<nat>): seq<Call>
    decreases count
  {
    if count == 0 then []
    else
      var s := ReadString(st);
      [StringAt(st, open)] + (if s.r.Ok? then TraceStrings(s.st, count - 1, open) else [])
  }

  function TraceProps(lenient: bool, st: State, open: set<nat>): seq<Call>
    decreases |st.buf|, 1
  {
    var k := ReadString(st);
    [StringAt(st, open)] +
    if k.r.Err? || k.r.value == [] then []
    else
      var v := Decode(lenient, k.st);
      TraceDecode(lenient, k.st, open) + (if v.r.Ok? then TraceProps(lenient, v.st, open) else [])
  }

  function TraceElems(lenient: bool, st: State, count: nat, open: set<nat>): seq<Call>
    decreases |st.buf|, 1
  {
    if count == 0 then []
    else
      var v := Decode(lenient, st);
      TraceDecode(lenient, st, open) + (if v.r.Ok? then TraceElems(lenient, v.st, count - 1, open) else [])
  }

  function TraceSealed(lenient: bool, st: State, names: seq<bytes>, open: set<nat>): seq<Call>
    decreases |st.buf|, 2, |names|
  {
    if names == [] then []
    else
      var v := Decode(lenient, st);
      TraceDecode(lenient, st, open) + (if v.r.Ok? then TraceSealed(lenient, v.st, names[1..], open) else [])
  }

  // ---- who took the entries of a table ----

  datatype Kind = Objects | Strings | Traits

  predicate IsContainer(marker: byte) {
    marker == ARRAY || marker == OBJECT
  }

  /** A value in line takes the next entry of the object table: a container when it is opened, any
      other when it is read. */
  predicate TakesObject(lenient: bool, c: Call)
    requires c.ValueAt?
  {
    var h := ReadU29(c.st);
    && Referable(c.marker) && h.r.Ok? && h.r.value % 2 == 1
    && (IsContainer(c.marker) || DecodeValue(lenient, c.marker, c.st).r.Ok?)
  }

  /** A string in line that is not empty. */
  predicate TakesString(st: State) {
    var h := ReadU29(st);
    h.r.Ok? && h.r.value >= 2 && h.r.value % 2 == 1 && ReadString(st).r.Ok?
  }

  predicate Takes(lenient: bool, kind: Kind, c: Call) {
    match kind
    case Objects => c.ValueAt? && TakesObject(lenient, c)
    case Strings => c.StringAt? && TakesString(c.st)
    case Traits => c.TraitDone?
  }

  /** The calls that took entries of a table, in order. */
  function Owners(lenient: bool, kind: Kind, past: seq<Call>): seq<Call> {
    if past == [] then []
    else
      Owners(lenient, kind, past[..|past| - 1])
      + (if Takes(lenient, kind, past[|past| - 1]) then [past[|past| - 1]] else [])
  }

  lemma OwnersNext(lenient: bool, past: seq<Call>, c: Call)
    ensures forall kind :: Owners(lenient, kind, past + [c])
                        == Owners(lenient, kind, past) + (if Takes(lenient, kind, c) then [c] else [])
  {
    hide Takes;
    var all := past + [c];
    assert all[..|all| - 1] == past && all[|all| - 1] == c;
    forall kind ensures Owners(lenient, kind, all)
                     == Owners(lenient, kind, past) + (if Takes(lenient, kind, c) then [c] else []) {
    }
  }

  // ---- the tables explained ----

  /** Entry `i` is the one `c` took: a placeholder as long as `c` is open, its value afterwards. */
  predicate ObjectEntry(lenient: bool, objects: seq<AmfValue>, open: set<nat>, i: nat, c: Call)
    requires i < |objects|
  {
    && c.ValueAt? && |c.st.objects| == i
    && if i in open then objects[i] == Null else DecodeValue(lenient, c.marker, c.st).r == Ok(objects[i])
  }

  ghost predicate ObjectsExplained(lenient: bool, objects: seq<AmfValue>, open: set<nat>, base: seq<AmfValue>,
                                   owners: seq<Call>) {
    && |objects| == |base| + |owners| && base == objects[..|base|]
    && (forall i :: i in open ==> |base| <= i < |objects|)
    && forall j :: 0 <= j < |owners| ==> ObjectEntry(lenient, objects, open, |base| + j, owners[j])
  }

  predicate StringEntry(strings: seq<bytes>, i: nat, c: Call)
    requires i < |strings|
  {
    c.StringAt? && |c.st.strings| == i && ReadString(c.st).r == Ok(strings[i])
  }

  ghost predicate StringsExplained(strings: seq<bytes>, base: seq<bytes>, owners: seq<Call>) {
    && |strings| == |base| + |owners| && base == strings[..|base|]
    && forall j :: 0 <= j < |owners| ==> StringEntry(strings, |base| + j, owners[j])
  }

  predicate TraitEntry(traits: seq<Trait>, i: nat, c: Call)
    requires i < |traits|
  {
    c.TraitDone? && |c.st.traits| == i && c.t == traits[i]
  }

  ghost predicate TraitsExplained(traits: seq<Trait>, base: seq<Trait>, owners: seq<Call>) {
    && |traits| == |base| + |owners| && base == traits[..|base|]
    && forall j :: 0 <= j < |owners| ==> TraitEntry(traits, |base| + j, owners[j])
  }

  /** In state `st`, behind the entries of `base` from before the run: one for everything in line
      that `past` read. */
  ghost predicate Explained(lenient: bool, st: State, open: set<nat>, base: State, past: seq<Call>) {
    && ObjectsExplained(lenient, st.objects, open, base.objects, Owners(lenient, Objects, past))
    && StringsExplained(st.strings, base.strings, Owners(lenient, Strings, past))
    && TraitsExplained(st.traits, base.traits, Owners(lenient, Traits, past))
  }

  /** At every call of a trace the tables are explained by what was read before it. */
  ghost predicate AllExplained(lenient: bool, base: State, past: seq<Call>, trace: seq<Call>) {
    forall n :: 0 <= n < |trace| ==> Explained(lenient, trace[n].st, trace[n].open, base, past + trace[..n])
  }

  lemma Joined(lenient: bool, base: State, past: seq<Call>, a: seq<Call>, b: seq<Call>)
    requires AllExplained(lenient, base, past, a) && AllExplained(lenient, base, past + a, b)
    ensures AllExplained(lenient, base, past, a + b) && past + (a + b) == past + a + b
  {
    hide Explained;
    forall n | 0 <= n < |a + b|
      ensures Explained(lenient, (a + b)[n].st, (a + b)[n].open, base, past + (a + b)[..n])
    {
      if n < |a| {
        assert (a + b)[..n] == a[..n];
      } else {
        assert past + (a + b)[..n] == past + a + b[..n - |a|];
      }
    }
  }

  lemma NoCalls(lenient: bool, base: State, past: seq<Call>)
    ensures AllExplained(lenient, base, past, []) && past + [] == past
  {
  }

  lemma OneCall(lenient: bool, base: State, past: seq<Call>, c: Call)
    requires Explained(lenient, c.st, c.open, base, past)
    ensures AllExplained(lenient, base, past, [c])
  {
    hide Explained;
    assert [c][..0] == [] && past + [] == past;
  }

  /** Only the tables matter. */
  lemma SameTables(lenient: bool, st: State, st': State, open: set<nat>, base: State, past: seq<Call>)
    requires Explained(lenient, st, open, base, past)
    requires st'.objects == st.objects && st'.strings == st.strings && st'.traits == st.traits
    ensures Explained(lenient, st', open, base, past)
  {
    hide ObjectsExplained, StringsExplained, TraitsExplained, Owners;
  }

  /** A call that takes nothing. */
  lemma Silent(lenient: bool, st: State, open: set<nat>, base: State, past: seq<Call>, c: Call)
    requires Explained(lenient, st, open, base, past) && forall kind :: !Takes(lenient, kind, c)
    ensures Explained(lenient, st, open, base, past + [c])
  {
    hide ObjectsExplained, StringsExplained, TraitsExplained, Takes;
    OwnersNext(lenient, past, c);
    forall kind ensures Owners(lenient, kind, past + [c]) == Owners(lenient, kind, past) {
      assert Owners(lenient, kind, past) + [] == Owners(lenient, kind, past);
    }
  }

  // ---- strings and traits ----

  lemma StringFacts(st: State)
    ensures var o := ReadString(st);
      o.r.Ok? ==>
        && o.st.objects == st.objects && o.st.traits == st.traits
        && o.st.strings == if TakesString(st) then st.strings + [o.r.value] else st.strings
  {
    hide ReadU29, ValidUtf8;
  }

  lemma NextString(lenient: bool, c: Call, st: State, base: State, past: seq<Call>)
    requires Explained(lenient, c.st, c.open, base, past) && c.StringAt?
    requires TakesString(c.st) && ReadString(c.st).r.Ok?
    requires st.strings == c.st.strings + [ReadString(c.st).r.value]
    requires st.objects == c.st.objects && st.traits == c.st.traits
    ensures Explained(lenient, st, c.open, base, past + [c])
  {
    hide ObjectsExplained, TraitsExplained, Owners, TakesString, ReadString;
    OwnersNext(lenient, past, c);
    var owners := Owners(lenient, Strings, past);
    assert Takes(lenient, Strings, c) && !Takes(lenient, Objects, c) && !Takes(lenient, Traits, c);
    assert Owners(lenient, Objects, past) + [] == Owners(lenient, Objects, past);
    assert Owners(lenient, Traits, past) + [] == Owners(lenient, Traits, past);
    forall j | 0 <= j < |owners + [c]| ensures StringEntry(st.strings, |base.strings| + j, (owners + [c])[j]) {
      if j < |owners| {
        assert StringEntry(c.st.strings, |base.strings| + j, owners[j]);
      }
    }
  }

  lemma StringExplained(lenient: bool, st: State, open: set<nat>, base: State, past: seq<Call>)
    requires Explained(lenient, st, open, base, past)
    ensures var c, o := StringAt(st, open), ReadString(st);
      AllExplained(lenient, base, past, [c]) && (o.r.Ok? ==> Explained(lenient, o.st, open, base, past + [c]))
  {
    hide Explained, ReadString, TakesString, AllExplained;
    var c, o := StringAt(st, open), ReadString(st);
    OneCall(lenient, base, past, c);
    StringFacts(st);
    if o.r.Ok? {
      if TakesString(st) {
        NextString(lenient, c, o.st, base, past);
      } else {
        Silent(lenient, st, open, base, past, c);
        SameTables(lenient, st, o.st, open, base, past + [c]);
      }
    }
  }

  lemma {:induction false} StringsReadExplained(lenient: bool, st: State, count: nat, names: seq<bytes>, open: set<nat>,
                                                base: State, past: seq<Call>)
    requires Explained(lenient, st, open, base, past)
    ensures var trace, o := TraceStrings(st, count, open), ReadStrings(st, count, names);
      AllExplained(lenient, base, past, trace) && (o.r.Ok? ==> Explained(lenient, o.st, open, base, past + trace))
    decreases count
  {
    hide Explained, ReadString, AllExplained;
    NoCalls(lenient, base, past);
    if count > 0 {
      var s, c := ReadString(st), StringAt(st, open);
      StringExplained(lenient, st, open, base, past);
      if s.r.Ok? {
        StringsReadExplained(lenient, s.st, count - 1, names + [s.r.value], open, base, past + [c]);
        Joined(lenient, base, past, [c], TraceStrings(s.st, count - 1, open));
      } else {
        assert [c] + [] == [c];
      }
    }
  }

  lemma NextTrait(lenient: bool, c: Call, base: State, past: seq<Call>)
    requires Explained(lenient, c.st, c.open, base, past) && c.TraitDone?
    ensures Explained(lenient, c.st.(traits := c.st.traits + [c.t]), c.open, base, past + [c])
  {
    hide ObjectsExplained, StringsExplained, Owners;
    OwnersNext(lenient, past, c);
    var traits, owners := c.st.traits + [c.t], Owners(lenient, Traits, past);
    assert Takes(lenient, Traits, c) && !Takes(lenient, Objects, c) && !Takes(lenient, Strings, c);
    assert Owners(lenient, Objects, past) + [] == Owners(lenient, Objects, past);
    assert Owners(lenient, Strings, past) + [] == Owners(lenient, Strings, past);
    forall j | 0 <= j < |owners + [c]| ensures TraitEntry(traits, |base.traits| + j, (owners + [c])[j]) {
      if j < |owners| {
        assert TraitEntry(c.st.traits, |base.traits| + j, owners[j]);
      }
    }
  }

  lemma TraitExplained(lenient: bool, st: State, header: u32, open: set<nat>, base: State, past: seq<Call>)
    requires Explained(lenient, st, open, base, past)
    ensures var trace, o := TraceTrait(st, header, open), DecodeTrait(st, header);
      AllExplained(lenient, base, past, trace) && (o.r.Ok? ==> Explained(lenient, o.st, open, base, past + trace))
  {
    hide Explained, ReadString, AllExplained, ReadStrings, TraceNames;
    if header / 2 % 2 == 0 {
      var c := TraitRef(header, st, open);
      OneCall(lenient, base, past, c);
      Silent(lenient, st, open, base, past, c);
    } else {
      var name, c := ReadString(st), StringAt(st, open);
      StringExplained(lenient, st, open, base, past);
      if name.r.Ok? {
        NamesExplained(lenient, name.st, header, name.r.value, open, base, past + [c]);
        Joined(lenient, base, past, [c], TraceNames(name.st, header, name.r.value, open));
      } else {
        assert [c] + [] == [c];
      }
    }
  }

  lemma NamesExplained(lenient: bool, st: State, header: u32, name: bytes, open: set<nat>, base: State, past: seq<Call>)
    requires Explained(lenient, st, open, base, past)
    ensures var trace, names := TraceNames(st, header, name, open), ReadStrings(st, header / 16, []);
      && AllExplained(lenient, base, past, trace)
      && (names.r.Ok? ==>
            var t := Trait(name, header / 8 % 2 == 1, names.r.value);
            Explained(lenient, names.st.(traits := names.st.traits + [t]), open, base, past + trace))
  {
    hide Explained, AllExplained, ReadStrings, TraceStrings;
    var names, first := ReadStrings(st, header / 16, []), TraceStrings(st, header / 16, open);
    StringsReadExplained(lenient, st, header / 16, [], open, base, past);
    if names.r.Ok? {
      var c := TraitDone(Trait(name, header / 8 % 2 == 1, names.r.value), names.st, open);
      OneCall(lenient, base, past + first, c);
      NextTrait(lenient, c, base, past + first);
      Joined(lenient, base, past, first, [c]);
    } else {
      assert first + [] == first;
    }
  }

  // ---- objects ----

  lemma ObjectOwners(lenient: bool, past: seq<Call>, c: Call)
    requires c.ValueAt?
    ensures Owners(lenient, Objects, past + [c])
         == Owners(lenient, Objects, past) + (if TakesObject(lenient, c) then [c] else [])
    ensures Owners(lenient, Strings, past + [c]) == Owners(lenient, Strings, past)
    ensures Owners(lenient, Traits, past + [c]) == Owners(lenient, Traits, past)
  {
    hide Owners, TakesObject;
    OwnersNext(lenient, past, c);
    assert !Takes(lenient, Strings, c) && !Takes(lenient, Traits, c);
    assert Owners(lenient, Strings, past) + [] == Owners(lenient, Strings, past);
    assert Owners(lenient, Traits, past) + [] == Owners(lenient, Traits, past);
  }

  /** A value without values inside, in line. */
  lemma FlatTaken(lenient: bool, c: Call, v: AmfValue, st: State, base: State, past: seq<Call>)
    requires Explained(lenient, c.st, c.open, base, past) && c.ValueAt? && TakesObject(lenient, c)
    requires DecodeValue(lenient, c.marker, c.st).r == Ok(v)
    requires st.objects == c.st.objects + [v] && st.strings == c.st.strings && st.traits == c.st.traits
    ensures Explained(lenient, st, c.open, base, past + [c])
  {
    hide StringsExplained, TraitsExplained, Owners, TakesObject, DecodeValue;
    ObjectOwners(lenient, past, c);
    var owners := Owners(lenient, Objects, past);
    forall j | 0 <= j < |owners + [c]|
      ensures ObjectEntry(lenient, st.objects, c.open, |base.objects| + j, (owners + [c])[j])
    {
      if j < |owners| {
        assert ObjectEntry(lenient, c.st.objects, c.open, |base.objects| + j, owners[j]);
      }
    }
  }

  lemma Opened(lenient: bool, c: Call, st: State, base: State, past: seq<Call>)
    requires Explained(lenient, c.st, c.open, base, past) && c.ValueAt? && TakesObject(lenient, c)
    requires st.objects == c.st.objects && st.strings == c.st.strings && st.traits == c.st.traits
    ensures Explained(lenient, Entered(st), c.open + {|st.objects|}, base, past + [c])
    ensures |st.objects| !in c.open && |st.objects| == |base.objects| + |Owners(lenient, Objects, past)|
    ensures Owners(lenient, Objects, past + [c]) == Owners(lenient, Objects, past) + [c]
  {
    hide StringsExplained, TraitsExplained, Owners, TakesObject, DecodeValue;
    ObjectOwners(lenient, past, c);
    var owners, objects, open := Owners(lenient, Objects, past), Entered(st).objects, c.open + {|st.objects|};
    forall j | 0 <= j < |owners + [c]|
      ensures ObjectEntry(lenient, objects, open, |base.objects| + j, (owners + [c])[j])
    {
      if j < |owners| {
        assert ObjectEntry(lenient, c.st.objects, c.open, |base.objects| + j, owners[j]);
      }
    }
  }

  lemma {:induction false} OwnersConcat(lenient: bool, kind: Kind, a: seq<Call>, b: seq<Call>)
    ensures Owners(lenient, kind, a + b) == Owners(lenient, kind, a) + Owners(lenient, kind, b)
    decreases |b|
  {
    hide Takes;
    if b == [] {
      assert a + b == a;
    } else {
      assert (a + b)[..|a + b| - 1] == a + b[..|b| - 1];
      OwnersConcat(lenient, kind, a, b[..|b| - 1]);
    }
  }

  lemma Closed(lenient: bool, c: Call, st: State, v: AmfValue, base: State, past: seq<Call>, trace: seq<Call>)
    requires Explained(lenient, st, c.open + {|c.st.objects|}, base, past + [c] + trace)
    requires c.ValueAt? && |c.st.objects| !in c.open && DecodeValue(lenient, c.marker, c.st).r == Ok(v)
    requires |c.st.objects| == |base.objects| + |Owners(lenient, Objects, past)|
    requires Owners(lenient, Objects, past + [c]) == Owners(lenient, Objects, past) + [c]
    ensures |c.st.objects| < |st.objects|
    ensures Explained(lenient, st.(objects := st.objects[|c.st.objects| := v]), c.open, base, past + [c] + trace)
  {
    hide StringsExplained, TraitsExplained, Owners, DecodeValue;
    OwnersConcat(lenient, Objects, past + [c], trace);
    var i, all := |c.st.objects|, Owners(lenient, Objects, past + [c] + trace);
    assert i in c.open + {i};
    forall j | 0 <= j < |all|
      ensures ObjectEntry(lenient, st.objects[i := v], c.open, |base.objects| + j, all[j])
    {
      assert ObjectEntry(lenient, st.objects, c.open + {i}, |base.objects| + j, all[j]);
    }
  }

  // ---- every call of a run ----

  lemma {:induction false} DecodeExplained(lenient: bool, st: State, open: set<nat>, base: State, past: seq<Call>)
    requires Explained(lenient, st, open, base, past)
    ensures var trace, o := TraceDecode(lenient, st, open), Decode(lenient, st);
      AllExplained(lenient, base, past, trace) && (o.r.Ok? ==> Explained(lenient, o.st, open, base, past + trace))
    decreases |st.buf|, 0
  {
    hide Explained, DecodeValue, TraceValue, AllExplained;
    NoCalls(lenient, base, past);
    if st.buf != [] && st.depth + 1 <= MAX_NESTING_DEPTH {
      var c := ValueAt(st.buf[0], Skip(st, 1).(depth := st.depth + 1), open);
      var trace, o := TraceValue(lenient, c.marker, c.st, open), DecodeValue(lenient, c.marker, c.st);
      SameTables(lenient, st, c.st, open, base, past);
      OneCall(lenient, base, past, c);
      ValueExplained(lenient, c, base, past);
      Joined(lenient, base, past, [c], trace);
      if o.r.Ok? {
        SameTables(lenient, o.st, o.st.(depth := o.st.depth - 1), open, base, past + [c] + trace);
      }
    }
  }

  lemma LeafFacts(lenient: bool, c: Call)
    requires c.ValueAt? && !Referable(c.marker)
    ensures !TakesObject(lenient, c)
    ensures TraceValue(lenient, c.marker, c.st, c.open) == if c.marker == STRING then [StringAt(c.st, c.open)] else []
    ensures var o := DecodeValue(lenient, c.marker, c.st);
      if c.marker == STRING then (o.r.Ok? <==> ReadString(c.st).r.Ok?) && o.st == ReadString(c.st).st
      else o.st == c.st.(buf := o.st.buf)
  {
    hide ReadString, TakesString;
  }

  /** A reference, or a header that cannot be read. */
  lemma ReferenceFacts(lenient: bool, c: Call)
    requires c.ValueAt? && Referable(c.marker) && !TakesObject(lenient, c)
    ensures TraceValue(lenient, c.marker, c.st, c.open) == []
    ensures var o := DecodeValue(lenient, c.marker, c.st); o.r.Ok? ==> o.st == c.st.(buf := o.st.buf)
  {
    hide ReadU29, DecodeFlat, DecodeArray, DecodeObject, TraceArray, TraceObject;
  }

  lemma FlatFacts(lenient: bool, c: Call)
    requires c.ValueAt? && TakesObject(lenient, c) && !IsContainer(c.marker)
    ensures TraceValue(lenient, c.marker, c.st, c.open) == []
    ensures var o := DecodeValue(lenient, c.marker, c.st);
      && o.r.Ok? && o.st.objects == c.st.objects + [o.r.value]
      && o.st.strings == c.st.strings && o.st.traits == c.st.traits
  {
    hide ReadU29, DecodeArray, DecodeObject, ValidUtf8;
  }

  lemma {:induction false} ValueExplained(lenient: bool, c: Call, base: State, past: seq<Call>)
    requires Explained(lenient, c.st, c.open, base, past) && c.ValueAt?
    ensures var trace, o := TraceValue(lenient, c.marker, c.st, c.open), DecodeValue(lenient, c.marker, c.st);
      && AllExplained(lenient, base, past + [c], trace)
      && (o.r.Ok? ==> Explained(lenient, o.st, c.open, base, past + [c] + trace))
    decreases |c.st.buf|, 5
  {
    hide Explained, AllExplained, DecodeValue, TraceValue, TakesObject, Referable, IsContainer, ReadString;
    var o := DecodeValue(lenient, c.marker, c.st);
    NoCalls(lenient, base, past + [c]);
    if !Referable(c.marker) {
      LeafFacts(lenient, c);
      Silent(lenient, c.st, c.open, base, past, c);
      if c.marker == STRING {
        StringExplained(lenient, c.st, c.open, base, past + [c]);
      } else {
        SameTables(lenient, c.st, o.st, c.open, base, past + [c]);
      }
    } else if !TakesObject(lenient, c) {
      ReferenceFacts(lenient, c);
      Silent(lenient, c.st, c.open, base, past, c);
      if o.r.Ok? {
        SameTables(lenient, c.st, o.st, c.open, base, past + [c]);
      }
    } else if !IsContainer(c.marker) {
      FlatFacts(lenient, c);
      FlatTaken(lenient, c, o.r.value, o.st, base, past);
    } else {
      ContainerExplained(lenient, c, base, past);
    }
  }

  lemma {:induction false} ContainerExplained(lenient: bool, c: Call, base: State, past: seq<Call>)
    requires Explained(lenient, c.st, c.open, base, past)
    requires c.ValueAt? && TakesObject(lenient, c) && IsContainer(c.marker)
    ensures var trace, o := TraceValue(lenient, c.marker, c.st, c.open), DecodeValue(lenient, c.marker, c.st);
      && AllExplained(lenient, base, past + [c], trace)
      && (o.r.Ok? ==> Explained(lenient, o.st, c.open, base, past + [c] + trace))
    decreases |c.st.buf|, 3
  {
    hide Explained, AllExplained, DecodeValue, TraceValue, ReadU29, TakesObject, Inside;
    var h, open := ReadU29(c.st), c.open + {|c.st.objects|};
    ContainerParts(lenient, c);
    Opened(lenient, c, h.st, base, past);
    var st, o := Entered(h.st), DecodeValue(lenient, c.marker, c.st);
    InsideExplained(lenient, c.marker, st, h.r.value, open, base, past + [c]);
    if o.r.Ok? {
      Closed(lenient, c, Inside(lenient, c.marker, st, h.r.value).st, o.r.value, base, past,
             TraceValue(lenient, c.marker, c.st, c.open));
    }
  }

  /** The decoder after the inside of a container: what is kept is its outcome and its state. */
  function Inside(lenient: bool, marker: byte, st: State, header: u32): Out<()> {
    if marker == ARRAY then
      var a := DecodeProps(lenient, st, []);
      if a.r.Err? then Fail(a.r.error, a.st)
      else
        var d := DecodeElems(lenient, a.st, header / 2, []);
        if d.r.Err? then Fail(d.r.error, d.st) else Out(Ok(()), d.st)
    else
      var t := DecodeTrait(st, header);
      if t.r.Err? then Fail(t.r.error, t.st) else FieldsOf(lenient, t.st, t.r.value)
  }

  function FieldsOf(lenient: bool, st: State, t: Trait): Out<()> {
    var sealed := DecodeSealed(lenient, st, t.properties, []);
    if sealed.r.Err? then Fail(sealed.r.error, sealed.st)
    else
      var p := if t.isDynamic then DecodeProps(lenient, sealed.st, sealed.r.value) else sealed;
      if p.r.Err? then Fail(p.r.error, p.st) else Out(Ok(()), p.st)
  }

  function TraceInside(lenient: bool, marker: byte, st: State, header: u32, open: set<nat>): seq<Call> {
    if marker == ARRAY then TraceArray(lenient, st, header / 2, open) else TraceObject(lenient, st, header, open)
  }

  lemma ContainerParts(lenient: bool, c: Call)
    requires c.ValueAt? && TakesObject(lenient, c) && IsContainer(c.marker)
    ensures ReadU29(c.st).r.Ok? && |ReadU29(c.st).st.buf| < |c.st.buf|
    ensures var h := ReadU29(c.st);
      var inner := Inside(lenient, c.marker, Entered(h.st), h.r.value);
      var o := DecodeValue(lenient, c.marker, c.st);
      && h.st == c.st.(buf := h.st.buf)
      && TraceValue(lenient, c.marker, c.st, c.open)
         == TraceInside(lenient, c.marker, Entered(h.st), h.r.value, c.open + {|c.st.objects|})
      && |inner.st.objects| > |c.st.objects|
      && (o.r.Ok? <==> inner.r.Ok?)
      && (o.r.Ok? ==> o.st == inner.st.(objects := inner.st.objects[|c.st.objects| := o.r.value]))
  {
    hide ReadU29, DecodeProps, DecodeElems, DecodeTrait, DecodeSealed, TraceArray, TraceObject;
  }

  lemma {:induction false} InsideExplained(lenient: bool, marker: byte, st: State, header: u32, open: set<nat>,
                                           base: State, past: seq<Call>)
    requires Explained(lenient, st, open, base, past)
    ensures var trace, o := TraceInside(lenient, marker, st, header, open), Inside(lenient, marker, st, header);
      AllExplained(lenient, base, past, trace) && (o.r.Ok? ==> Explained(lenient, o.st, open, base, past + trace))
    decreases |st.buf|, 3
  {
    hide Explained, AllExplained, DecodeProps, DecodeElems, DecodeTrait, TraceProps, TraceElems, TraceTrait,
      TraceFields, FieldsOf;
    if marker == ARRAY {
      var a, first := DecodeProps(lenient, st, []), TraceProps(lenient, st, open);
      PropsExplained(lenient, st, [], open, base, past);
      if a.r.Ok? {
        ElemsExplained(lenient, a.st, header / 2, [], open, base, past + first);
        Joined(lenient, base, past, first, TraceElems(lenient, a.st, header / 2, open));
      } else {
        assert first + [] == first;
      }
    } else {
      var t, first := DecodeTrait(st, header), TraceTrait(st, header, open);
      TraitExplained(lenient, st, header, open, base, past);
      if t.r.Ok? {
        FieldsExplained(lenient, t.st, t.r.value, open, base, past + first);
        Joined(lenient, base, past, first, TraceFields(lenient, t.st, t.r.value, open));
      } else {
        assert first + [] == first;
      }
    }
  }

  lemma {:induction false} FieldsExplained(lenient: bool, st: State, t: Trait, open: set<nat>, base: State,
                                           past: seq<Call>)
    requires Explained(lenient, st, open, base, past)
    ensures var trace, o := TraceFields(lenient, st, t, open), FieldsOf(lenient, st, t);
      AllExplained(lenient, base, past, trace) && (o.r.Ok? ==> Explained(lenient, o.st, open, base, past + trace))
    decreases |st.buf|, 2, |t.properties| + 1
  {
    hide Explained, AllExplained, DecodeProps, DecodeSealed, TraceProps, TraceSealed;
    var sealed, first := DecodeSealed(lenient, st, t.properties, []), TraceSealed(lenient, st, t.properties, open);
    SealedExplained(lenient, st, t.properties, [], open, base, past);
    if sealed.r.Ok? && t.isDynamic {
      PropsExplained(lenient, sealed.st, sealed.r.value, open, base, past + first);
      Joined(lenient, base, past, first, TraceProps(lenient, sealed.st, open));
    } else {
      assert first + [] == first;
    }
  }

  lemma {:induction false} PropsExplained(lenient: bool, st: State, props: seq<Prop>, open: set<nat>, base: State,
                                          past: seq<Call>)
    requires Explained(lenient, st, open, base, past)
    ensures var trace, o := TraceProps(lenient, st, open), DecodeProps(lenient, st, props);
      AllExplained(lenient, base, past, trace) && (o.r.Ok? ==> Explained(lenient, o.st, open, base, past + trace))
    decreases |st.buf|, 1
  {
    hide Explained, AllExplained, Decode, TraceDecode, ReadString;
    var k, c := ReadString(st), StringAt(st, open);
    StringExplained(lenient, st, open, base, past);
    if k.r.Err? || k.r.value == [] {
      assert [c] + [] == [c];
    } else {
      var v, first := Decode(lenient, k.st), TraceDecode(lenient, k.st, open);
      DecodeExplained(lenient, k.st, open, base, past + [c]);
      if v.r.Ok? {
        var later := TraceProps(lenient, v.st, open);
        PropsExplained(lenient, v.st, Put(props, k.r.value, v.r.value), open, base, past + [c] + first);
        Joined(lenient, base, past + [c], first, later);
        Joined(lenient, base, past, [c], first + later);
      } else {
        assert first + [] == first;
        Joined(lenient, base, past, [c], first);
      }
    }
  }

  lemma {:induction false} ElemsExplained(lenient: bool, st: State, count: nat, elems: seq<AmfValue>, open: set<nat>,
                                          base: State, past: seq<Call>)
    requires Explained(lenient, st, open, base, past)
    ensures var trace, o := TraceElems(lenient, st, count, open), DecodeElems(lenient, st, count, elems);
      AllExplained(lenient, base, past, trace) && (o.r.Ok? ==> Explained(lenient, o.st, open, base, past + trace))
    decreases |st.buf|, 1
  {
    hide Explained, AllExplained, Decode, TraceDecode;
    NoCalls(lenient, base, past);
    if count > 0 {
      var v, first := Decode(lenient, st), TraceDecode(lenient, st, open);
      DecodeExplained(lenient, st, open, base, past);
      if v.r.Ok? {
        ElemsExplained(lenient, v.st, count - 1, elems + [v.r.value], open, base, past + first);
        Joined(lenient, base, past, first, TraceElems(lenient, v.st, count - 1, open));
      } else {
        assert first + [] == first;
      }
    }
  }

  lemma {:induction false} SealedExplained(lenient: bool, st: State, names: seq<bytes>, props: seq<Prop>,
                                           open: set<nat>, base: State, past: seq<Call>)
    requires Explained(lenient, st, open, base, past)
    ensures var trace, o := TraceSealed(lenient, st, names, open), DecodeSealed(lenient, st, names, props);
      AllExplained(lenient, base, past, trace) && (o.r.Ok? ==> Explained(lenient, o.st, open, base, past + trace))
    decreases |st.buf|, 2, |names|
  {
    hide Explained, AllExplained, Decode, TraceDecode;
    NoCalls(lenient, base, past);
    if names != [] {
      var v, first := Decode(lenient, st), TraceDecode(lenient, st, open);
      DecodeExplained(lenient, st, open, base, past);
      if v.r.Ok? {
        SealedExplained(lenient, v.st, names[1..], Put(props, names[0], v.r.value), open, base, past + first);
        Joined(lenient, base, past, first, TraceSealed(lenient, v.st, names[1..], open));
      } else {
        assert first + [] == first;
      }
    }
  }

  // ---- the laws ----

  /** What the tables of `st` hold behind the entries of `base`, when `past` has been read and the
      containers with the entries `open` are still open. */
  ghost predicate Holds(lenient: bool, st: State, open: set<nat>, base: State, past: seq<Call>) {
    var objects, strings, traits :=
      Owners(lenient, Objects, past), Owners(lenient, Strings, past), Owners(lenient, Traits, past);
    && base.objects <= st.objects && |st.objects| == |base.objects| + |objects|
    && base.strings <= st.strings && |st.strings| == |base.strings| + |strings|
    && base.traits <= st.traits && |st.traits| == |base.traits| + |traits|
    && (forall i :: i in open ==> |base.objects| <= i < |st.objects| && st.objects[i] == Null)
    && (forall j :: 0 <= j < |objects| && |base.objects| + j !in open ==>
          objects[j].ValueAt?
          && DecodeValue(lenient, objects[j].marker, objects[j].st).r == Ok(st.objects[|base.objects| + j]))
    && (forall j :: 0 <= j < |strings| ==>
          strings[j].StringAt? && ReadString(strings[j].st).r == Ok(st.strings[|base.strings| + j]))
    && (forall j :: 0 <= j < |traits| ==> traits[j].TraitDone? && traits[j].t == st.traits[|base.traits| + j])
  }

  lemma ExplainedHolds(lenient: bool, st: State, open: set<nat>, base: State, past: seq<Call>)
    requires Explained(lenient, st, open, base, past)
    ensures Holds(lenient, st, open, base, past)
  {
    hide DecodeValue, ReadString, Owners;
    var objects := Owners(lenient, Objects, past);
    forall i | i in open ensures |base.objects| <= i < |st.objects| && st.objects[i] == Null {
      assert ObjectEntry(lenient, st.objects, open, i, objects[i - |base.objects|]);
    }
    forall j | 0 <= j < |objects| && |base.objects| + j !in open
      ensures objects[j].ValueAt?
           && DecodeValue(lenient, objects[j].marker, objects[j].st).r == Ok(st.objects[|base.objects| + j])
    {
      assert ObjectEntry(lenient, st.objects, open, |base.objects| + j, objects[j]);
    }
    OtherTablesHold(lenient, st, open, base, past);
  }

  lemma OtherTablesHold(lenient: bool, st: State, open: set<nat>, base: State, past: seq<Call>)
    requires Explained(lenient, st, open, base, past)
    ensures var strings, traits := Owners(lenient, Strings, past), Owners(lenient, Traits, past);
      && |st.strings| == |base.strings| + |strings| && |st.traits| == |base.traits| + |traits|
      && (forall j :: 0 <= j < |strings| ==>
            strings[j].StringAt? && ReadString(strings[j].st).r == Ok(st.strings[|base.strings| + j]))
      && (forall j :: 0 <= j < |traits| ==> traits[j].TraitDone? && traits[j].t == st.traits[|base.traits| + j])
  {
    hide ObjectsExplained, ReadString, Owners;
    var strings, traits := Owners(lenient, Strings, past), Owners(lenient, Traits, past);
    forall j | 0 <= j < |strings|
      ensures strings[j].StringAt? && ReadString(strings[j].st).r == Ok(st.strings[|base.strings| + j])
    {
      assert StringEntry(st.strings, |base.strings| + j, strings[j]);
    }
    forall j | 0 <= j < |traits| ensures traits[j].TraitDone? && traits[j].t == st.traits[|base.traits| + j] {
      assert TraitEntry(st.traits, |base.traits| + j, traits[j]);
    }
  }

  lemma BeforeTheRun(lenient: bool, st: State)
    ensures Explained(lenient, st, {}, st, [])
  {
  }

  /** Any number of values read one after the other, from any bytes and any state: at every read the
      entries from before are untouched, and behind them stands one entry for everything in line
      read so far, in order; containers still open have Null for it. So it is at the end, too. */
  lemma TablesAtRead(lenient: bool, st: State, count: nat)
    ensures var trace, o := TraceElems(lenient, st, count, {}), DecodeElems(lenient, st, count, []);
      && (forall n :: 0 <= n < |trace| ==> Holds(lenient, trace[n].st, trace[n].open, st, trace[..n]))
      && (o.r.Ok? ==> Holds(lenient, o.st, {}, st, trace))
  {
    hide Explained, Holds, TraceElems, DecodeElems;
    BeforeTheRun(lenient, st);
    ElemsExplained(lenient, st, count, [], {}, st, []);
    var trace, o := TraceElems(lenient, st, count, {}), DecodeElems(lenient, st, count, []);
    assert [] + trace == trace;
    forall n | 0 <= n < |trace| ensures Holds(lenient, trace[n].st, trace[n].open, st, trace[..n]) {
      assert [] + trace[..n] == trace[..n];
      ExplainedHolds(lenient, trace[n].st, trace[n].open, st, trace[..n]);
    }
    if o.r.Ok? {
      ExplainedHolds(lenient, o.st, {}, st, trace);
    }
  }

  /** A reference in place of a value: an entry from before the run, the finished value of what was
      read in line in that position, Null while that is a container still open around it, or
      InvalidReference. */
  lemma ObjectReferenceLaw(lenient: bool, st: State, count: nat, n: nat)
    requires n < |TraceElems(lenient, st, count, {})|
    requires var c := TraceElems(lenient, st, count, {})[n];
      c.ValueAt? && Referable(c.marker) && ReadU29(c.st).r.Ok? && ReadU29(c.st).r.value % 2 == 0
    ensures var trace := TraceElems(lenient, st, count, {});
      var c, owners := trace[n], Owners(lenient, Objects, trace[..n]);
      var i, before := ReadU29(c.st).r.value / 2, |st.objects|;
      var r := DecodeValue(lenient, c.marker, c.st).r;
      if i < before then r == Ok(st.objects[i])
      else if i >= before + |owners| then r == Err(InvalidReference(i % 0x1_0000))
      else if i in c.open then r == Ok(Null)
      else owners[i - before].ValueAt? && r.Ok?
           && r == DecodeValue(lenient, owners[i - before].marker, owners[i - before].st).r
  {
    hide TraceElems, DecodeElems, Owners, DecodeValue, ReadU29, ReadString, Referable;
    TablesAtRead(lenient, st, count);
    var c := TraceElems(lenient, st, count, {})[n];
    assert Holds(lenient, c.st, c.open, st, TraceElems(lenient, st, count, {})[..n]);
    ReferenceRead(lenient, c.marker, c.st);
  }

  lemma ReferenceRead(lenient: bool, marker: byte, st: State)
    requires Referable(marker) && ReadU29(st).r.Ok? && ReadU29(st).r.value % 2 == 0
    ensures var i := ReadU29(st).r.value / 2;
      DecodeValue(lenient, marker, st).r
      == if i < |st.objects| then Ok(st.objects[i]) else Err(InvalidReference(i % 0x1_0000))
  {
    hide ReadU29, DecodeArray, DecodeObject, DecodeFlat;
  }

  /** A reference in place of a string: an entry from before, the string read in line in that
      position, or InvalidReference. */
  lemma StringReferenceLaw(lenient: bool, st: State, count: nat, n: nat)
    requires n < |TraceElems(lenient, st, count, {})|
    requires var c := TraceElems(lenient, st, count, {})[n];
      c.StringAt? && ReadU29(c.st).r.Ok? && ReadU29(c.st).r.value % 2 == 0
    ensures var trace := TraceElems(lenient, st, count, {});
      var c, owners := trace[n], Owners(lenient, Strings, trace[..n]);
      var i, before, r := ReadU29(c.st).r.value / 2, |st.strings|, ReadString(c.st).r;
      if i < before then r == Ok(st.strings[i])
      else if i >= before + |owners| then r == Err(InvalidReference(i % 0x1_0000))
      else owners[i - before].StringAt? && r.Ok? && r == ReadString(owners[i - before].st).r
  {
    hide TraceElems, DecodeElems, Owners, DecodeValue, ReadU29, ReadString;
    TablesAtRead(lenient, st, count);
    var c := TraceElems(lenient, st, count, {})[n];
    assert Holds(lenient, c.st, c.open, st, TraceElems(lenient, st, count, {})[..n]);
    StringReferenceRead(c.st);
  }

  lemma StringReferenceRead(st: State)
    requires ReadU29(st).r.Ok? && ReadU29(st).r.value % 2 == 0
    ensures var i := ReadU29(st).r.value / 2;
      ReadString(st).r == if i < |st.strings| then Ok(st.strings[i]) else Err(InvalidReference(i % 0x1_0000))
  {
    hide ReadU29;
  }

  /** A reference to a trait: an entry from before, the trait completed in line in that position, or
      InvalidReference. */
  lemma TraitReferenceLaw(lenient: bool, st: State, count: nat, n: nat)
    requires n < |TraceElems(lenient, st, count, {})|
    requires var c := TraceElems(lenient, st, count, {})[n]; c.TraitRef? && c.header / 2 % 2 == 0
    ensures var trace := TraceElems(lenient, st, count, {});
      var c, owners := trace[n], Owners(lenient, Traits, trace[..n]);
      var i, before, r := c.header / 4, |st.traits|, DecodeTrait(c.st, c.header).r;
      if i < before then r == Ok(st.traits[i])
      else if i >= before + |owners| then r == Err(InvalidReference(i % 0x1_0000))
      else owners[i - before].TraitDone? && r == Ok(owners[i - before].t)
  {
    hide TraceElems, DecodeElems, Owners, DecodeValue, ReadString;
    TablesAtRead(lenient, st, count);
    var c := TraceElems(lenient, st, count, {})[n];
    assert Holds(lenient, c.st, c.open, st, TraceElems(lenient, st, count, {})[..n]);
  }
}
