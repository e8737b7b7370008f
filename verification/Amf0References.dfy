/** What a reference in AMF0 data yields, wherever it stands and whoever wrote the
    data. The decoder's run is laid out as the list of the values it starts to read,
    each with the containers it stands in; the reference table is then explained
    entry by entry by the containers opened so far. */
module Amf0References {
  import opened Bytes
  import opened Amf
  import opened Amf0Model
  import opened Amf0Safety

  // ---- the values a decoder starts to read, in order ----

  /** A marker was read and `st` is left; `open` are the table entries of the containers around it. */
  datatype Call = Call(marker: byte, st: State, open: set<nat>)

  function TraceDecode(lenient: bool, st: State, open: set<nat>): seq<Call>
    decreases |st.buf|, 0
  {
    if st.buf == [] || st.depth + 1 > MAX_NESTING_DEPTH then []
    else
      var st1 := Skip(st, 1).(depth := st.depth + 1);
      [Call(st.buf[0], st1, open)] + TraceValue(lenient, st.buf[0], st1, open)
  }

  function TraceValue(lenient: bool, marker: byte, st: State, open: set<nat>): seq<Call>
    decreases |st.buf|, 2
  {
    if marker == OBJECT then TraceObject(lenient, st, open)
    else if marker == ECMA_ARRAY then if |st.buf| < 4 then [] else TraceObject(lenient, Skip(st, 4), open)
    else if marker == STRICT_ARRAY then
      if |st.buf| < 4 then []
      else TraceElems(lenient, Entered(Skip(st, 4)), U32At(st.buf, 0), open + {|st.refs|})
    else if marker == TYPED_OBJECT then
      var name := ReadUtf8(st);
      if name.r.Err? then [] else TraceObject(lenient, name.st, open)
    else []
  }

  /** With the placeholder of a container that is being opened. */
  function Entered(st: State): State {
    st.(refs := st.refs + [Null])
  }

  function TraceObject(lenient: bool, st: State, open: set<nat>): seq<Call>
    decreases |st.buf|, 1, 1
  {
    TraceProps(lenient, Entered(st), open + {|st.refs|})
  }

  function TraceProps(lenient: bool, st: State, open: set<nat>): seq<Call>
    decreases |st.buf|, 1, 0
  {
    var k := ReadUtf8(st);
    if k.r.Err? || k.r.value == [] then []
    else
      var v := Decode(lenient, k.st);
      TraceDecode(lenient, k.st, open) + (if v.r.Ok? then TraceProps(lenient, v.st, open) else [])
  }

  function TraceElems(lenient: bool, st: State, count: nat, open: set<nat>): seq<Call>
    decreases |st.buf|, 1, 0
  {
    if count == 0 then []
    else
      var v := Decode(lenient, st);
      TraceDecode(lenient, st, open) + (if v.r.Ok? then TraceElems(lenient, v.st, count - 1, open) else [])
  }

  function TraceAll(lenient: bool, st: State): seq<Call>
    decreases |st.buf|
  {
    if st.buf == [] then []
    else
      var v := Decode(lenient, st);
      TraceDecode(lenient, st, {}) + (if v.r.Ok? then TraceAll(lenient, v.st) else [])
  }

  /** The call opens a container and so takes the next entry of the table. */
  predicate IsOpener(c: Call) {
    || c.marker == OBJECT
    || ((c.marker == ECMA_ARRAY || c.marker == STRICT_ARRAY) && |c.st.buf| >= 4)
    || (c.marker == TYPED_OBJECT && ReadUtf8(c.st).r.Ok?)
  }

  /** The containers opened, in pre-order. */
  function Openers(trace: seq<Call>): seq<Call> {
    if trace == [] then []
    else Openers(trace[..|trace| - 1]) + (if IsOpener(trace[|trace| - 1]) then [trace[|trace| - 1]] else [])
  }

  lemma {:induction false} OpenersConcat(a: seq<Call>, b: seq<Call>)
    ensures Openers(a + b) == Openers(a) + Openers(b)
    decreases |b|
  {
    hide IsOpener;
    if b == [] {
      assert a + b == a;
    } else {
      var init := b[..|b| - 1];
      assert (a + b)[..|a + b| - 1] == a + init;
      OpenersConcat(a, init);
    }
  }

  // ---- the table explained ----

  /** Entry `i` is the one `c` took: a placeholder as long as `c` is open, its value afterwards. */
  predicate Entry(lenient: bool, refs: seq<AmfValue>, open: set<nat>, i: nat, c: Call)
    requires i < |refs|
  {
    |c.st.refs| == i && if i in open then refs[i] == Null else DecodeValue(lenient, c.marker, c.st).r == Ok(refs[i])
  }

  /** Behind the entries `base` from before the run, one for every container opened, in order. */
  ghost predicate Explained(lenient: bool, refs: seq<AmfValue>, open: set<nat>, base: seq<AmfValue>,
                            owners: seq<Call>) {
    && |refs| == |base| + |owners| && base == refs[..|base|]
    && (forall i :: i in open ==> |base| <= i < |refs|)
    && forall j :: 0 <= j < |owners| ==> Entry(lenient, refs, open, |base| + j, owners[j])
  }

  /** At every call of a trace the table is explained by what was opened before it. */
  ghost predicate AllExplained(lenient: bool, base: seq<AmfValue>, owners: seq<Call>, trace: seq<Call>) {
    forall n :: 0 <= n < |trace| ==>
      Explained(lenient, trace[n].st.refs, trace[n].open, base, owners + Openers(trace[..n]))
  }

  lemma Joined(lenient: bool, base: seq<AmfValue>, owners: seq<Call>, a: seq<Call>, b: seq<Call>)
    requires AllExplained(lenient, base, owners, a) && AllExplained(lenient, base, owners + Openers(a), b)
    ensures AllExplained(lenient, base, owners, a + b)
    ensures owners + Openers(a + b) == owners + Openers(a) + Openers(b)
  {
    hide Explained, Openers;
    OpenersConcat(a, b);
    forall n | 0 <= n < |a + b|
      ensures Explained(lenient, (a + b)[n].st.refs, (a + b)[n].open, base, owners + Openers((a + b)[..n]))
    {
      if n < |a| {
        assert (a + b)[..n] == a[..n] && (a + b)[n] == a[n];
      } else {
        assert (a + b)[..n] == a + b[..n - |a|] && (a + b)[n] == b[n - |a|];
        OpenersConcat(a, b[..n - |a|]);
        ConcatAssociates(owners, Openers(a), Openers(b[..n - |a|]));
      }
    }
    ConcatAssociates(owners, Openers(a), Openers(b));
  }

  lemma NoCalls(lenient: bool, base: seq<AmfValue>, owners: seq<Call>)
    ensures AllExplained(lenient, base, owners, []) && Openers([]) == [] && owners + Openers([]) == owners
  {
    assert owners + [] == owners;
  }

  lemma Opened(lenient: bool, st: State, open: set<nat>, base: seq<AmfValue>, owners: seq<Call>, c: Call)
    requires Explained(lenient, st.refs, open, base, owners) && c.st.refs == st.refs
    ensures Explained(lenient, Entered(st).refs, open + {|st.refs|}, base, owners + [c])
    ensures |st.refs| !in open && |st.refs| == |base| + |owners|
  {
    hide DecodeValue;
    var refs, open', owners' := Entered(st).refs, open + {|st.refs|}, owners + [c];
    forall j | 0 <= j < |owners'| ensures Entry(lenient, refs, open', |base| + j, owners'[j]) {
      if j < |owners| {
        assert Entry(lenient, st.refs, open, |base| + j, owners[j]);
      }
    }
  }

  lemma Closed(lenient: bool, refs: seq<AmfValue>, i: nat, open: set<nat>, base: seq<AmfValue>, owners: seq<Call>,
               c: Call, later: seq<Call>, v: AmfValue)
    requires Explained(lenient, refs, open + {i}, base, owners + [c] + later)
    requires i == |base| + |owners| && i !in open && DecodeValue(lenient, c.marker, c.st).r == Ok(v)
    ensures Explained(lenient, refs[i := v], open, base, owners + [c] + later)
  {
    hide DecodeValue;
    var all := owners + [c] + later;
    forall j | 0 <= j < |all| ensures Entry(lenient, refs[i := v], open, |base| + j, all[j]) {
      assert Entry(lenient, refs, open + {i}, |base| + j, all[j]);
    }
  }

  // ---- every call of a run ----

  lemma {:induction false} DecodeExplained(lenient: bool, st: State, open: set<nat>, base: seq<AmfValue>,
                                           owners: seq<Call>)
    requires Explained(lenient, st.refs, open, base, owners)
    ensures var trace, o := TraceDecode(lenient, st, open), Decode(lenient, st);
      && AllExplained(lenient, base, owners, trace)
      && (o.r.Ok? ==> Explained(lenient, o.st.refs, open, base, owners + Openers(trace)))
    decreases |st.buf|, 0
  {
    hide Explained, DecodeValue, TraceValue, Openers, AllExplained, IsOpener;
    NoCalls(lenient, base, owners);
    if st.buf != [] && st.depth + 1 <= MAX_NESTING_DEPTH {
      var st1 := Skip(st, 1).(depth := st.depth + 1);
      var c := Call(st.buf[0], st1, open);
      OneCall(lenient, base, owners, c);
      ValueExplained(lenient, c, base, owners);
      Joined(lenient, base, owners, [c], TraceValue(lenient, c.marker, st1, open));
    }
  }

  lemma OneCall(lenient: bool, base: seq<AmfValue>, owners: seq<Call>, c: Call)
    requires Explained(lenient, c.st.refs, c.open, base, owners)
    ensures AllExplained(lenient, base, owners, [c])
    ensures Openers([c]) == if IsOpener(c) then [c] else []
  {
    hide Explained, IsOpener;
    assert [c][..0] == [] && owners + [] == owners;
    assert Openers([c][..0]) == [];
  }

  lemma LeafKeepsTable(lenient: bool, c: Call)
    requires !Opens(c.marker)
    ensures DecodeValue(lenient, c.marker, c.st).st.refs == c.st.refs
    ensures TraceValue(lenient, c.marker, c.st, c.open) == [] && !IsOpener(c)
  {
  }

  lemma CutOffFails(lenient: bool, c: Call)
    requires Opens(c.marker) && !IsOpener(c)
    ensures DecodeValue(lenient, c.marker, c.st).r.Err? && TraceValue(lenient, c.marker, c.st, c.open) == []
  {
  }

  lemma {:induction false} ValueExplained(lenient: bool, c: Call, base: seq<AmfValue>, owners: seq<Call>)
    requires Explained(lenient, c.st.refs, c.open, base, owners)
    ensures var owners' := owners + (if IsOpener(c) then [c] else []);
      var trace, o := TraceValue(lenient, c.marker, c.st, c.open), DecodeValue(lenient, c.marker, c.st);
      && AllExplained(lenient, base, owners', trace)
      && (o.r.Ok? ==> Explained(lenient, o.st.refs, c.open, base, owners' + Openers(trace)))
    decreases |c.st.buf|, 2
  {
    hide Explained, DecodeValue, TraceValue, Openers, AllExplained, IsOpener;
    if !Opens(c.marker) {
      LeafKeepsTable(lenient, c);
      NoCalls(lenient, base, owners);
    } else if !IsOpener(c) {
      CutOffFails(lenient, c);
      NoCalls(lenient, base, owners);
    } else if c.marker == STRICT_ARRAY {
      ArrayExplained(lenient, c, base, owners);
    } else {
      ObjectExplained(lenient, c, base, owners);
    }
  }

  /** Where the entries of an object start, behind a class name or a count. */
  function EntriesAt(c: Call): State
    requires IsOpener(c) && c.marker != STRICT_ARRAY
  {
    if c.marker == OBJECT then c.st else if c.marker == ECMA_ARRAY then Skip(c.st, 4) else ReadUtf8(c.st).st
  }

  lemma ObjectParts(lenient: bool, c: Call)
    requires IsOpener(c) && c.marker != STRICT_ARRAY
    ensures EntriesAt(c).refs == c.st.refs && |EntriesAt(c).buf| <= |c.st.buf|
    ensures TraceValue(lenient, c.marker, c.st, c.open)
         == TraceProps(lenient, Entered(EntriesAt(c)), c.open + {|c.st.refs|})
    ensures var o, inner := DecodeValue(lenient, c.marker, c.st), DecodeProps(lenient, Entered(EntriesAt(c)), []);
      if inner.r.Ok? then o.r.Ok? && o.st.refs == inner.st.refs[|c.st.refs| := o.r.value] else o.r.Err?
  {
    hide DecodeProps, TraceProps, ReadUtf8;
  }

  lemma {:induction false} ObjectExplained(lenient: bool, c: Call, base: seq<AmfValue>, owners: seq<Call>)
    requires Explained(lenient, c.st.refs, c.open, base, owners) && IsOpener(c) && c.marker != STRICT_ARRAY
    ensures var trace, o := TraceValue(lenient, c.marker, c.st, c.open), DecodeValue(lenient, c.marker, c.st);
      && AllExplained(lenient, base, owners + [c], trace)
      && (o.r.Ok? ==> Explained(lenient, o.st.refs, c.open, base, owners + [c] + Openers(trace)))
    decreases |c.st.buf|, 1, 2
  {
    hide Explained, DecodeValue, TraceValue, DecodeProps, TraceProps, Openers, AllExplained, IsOpener, EntriesAt;
    ObjectParts(lenient, c);
    Opened(lenient, EntriesAt(c), c.open, base, owners, c);
    var inner, open := Entered(EntriesAt(c)), c.open + {|c.st.refs|};
    PropsExplained(lenient, inner, open, base, owners + [c], []);
    var o := DecodeValue(lenient, c.marker, c.st);
    if o.r.Ok? {
      Closed(lenient, DecodeProps(lenient, inner, []).st.refs, |c.st.refs|, c.open, base, owners, c,
             Openers(TraceProps(lenient, inner, open)), o.r.value);
    }
  }

  lemma ArrayParts(lenient: bool, c: Call)
    requires IsOpener(c) && c.marker == STRICT_ARRAY
    ensures |c.st.buf| >= 4
    ensures TraceValue(lenient, c.marker, c.st, c.open)
         == TraceElems(lenient, Entered(Skip(c.st, 4)), U32At(c.st.buf, 0), c.open + {|c.st.refs|})
    ensures var o := DecodeValue(lenient, c.marker, c.st);
      var inner := DecodeElems(lenient, Entered(Skip(c.st, 4)), U32At(c.st.buf, 0), []);
      if inner.r.Ok? then o.r.Ok? && o.st.refs == inner.st.refs[|c.st.refs| := o.r.value] else o.r.Err?
  {
    hide DecodeElems, TraceElems, U32At;
  }

  lemma {:induction false} ArrayExplained(lenient: bool, c: Call, base: seq<AmfValue>, owners: seq<Call>)
    requires Explained(lenient, c.st.refs, c.open, base, owners) && IsOpener(c) && c.marker == STRICT_ARRAY
    ensures var trace, o := TraceValue(lenient, c.marker, c.st, c.open), DecodeValue(lenient, c.marker, c.st);
      && AllExplained(lenient, base, owners + [c], trace)
      && (o.r.Ok? ==> Explained(lenient, o.st.refs, c.open, base, owners + [c] + Openers(trace)))
    decreases |c.st.buf|, 1, 2
  {
    hide Explained, DecodeValue, TraceValue, DecodeElems, TraceElems, Openers, AllExplained, IsOpener, U32At;
    ArrayParts(lenient, c);
    Opened(lenient, Skip(c.st, 4), c.open, base, owners, c);
    var inner, count, open := Entered(Skip(c.st, 4)), U32At(c.st.buf, 0), c.open + {|c.st.refs|};
    ElemsExplained(lenient, inner, count, open, base, owners + [c], []);
    var o := DecodeValue(lenient, c.marker, c.st);
    if o.r.Ok? {
      Closed(lenient, DecodeElems(lenient, inner, count, []).st.refs, |c.st.refs|, c.open, base, owners, c,
             Openers(TraceElems(lenient, inner, count, open)), o.r.value);
    }
  }

  lemma {:induction false} PropsExplained(lenient: bool, st: State, open: set<nat>, base: seq<AmfValue>,
                                          owners: seq<Call>, props: seq<Prop>)
    requires Explained(lenient, st.refs, open, base, owners)
    ensures var trace, o := TraceProps(lenient, st, open), DecodeProps(lenient, st, props);
      && AllExplained(lenient, base, owners, trace)
      && (o.r.Ok? ==> Explained(lenient, o.st.refs, open, base, owners + Openers(trace)))
    decreases |st.buf|, 1, 0
  {
    hide Explained, Decode, TraceDecode, Openers, AllExplained, ReadUtf8;
    NoCalls(lenient, base, owners);
    var k := ReadUtf8(st);
    if k.r.Ok? && k.r.value != [] {
      var v, first := Decode(lenient, k.st), TraceDecode(lenient, k.st, open);
      DecodeExplained(lenient, k.st, open, base, owners);
      if v.r.Ok? {
        PropsExplained(lenient, v.st, open, base, owners + Openers(first), Put(props, k.r.value, v.r.value));
        Joined(lenient, base, owners, first, TraceProps(lenient, v.st, open));
      } else {
        assert first + [] == first;
      }
    }
  }

  lemma {:induction false} ElemsExplained(lenient: bool, st: State, count: nat, open: set<nat>, base: seq<AmfValue>,
                                          owners: seq<Call>, elems: seq<AmfValue>)
    requires Explained(lenient, st.refs, open, base, owners)
    ensures var trace, o := TraceElems(lenient, st, count, open), DecodeElems(lenient, st, count, elems);
      && AllExplained(lenient, base, owners, trace)
      && (o.r.Ok? ==> Explained(lenient, o.st.refs, open, base, owners + Openers(trace)))
    decreases |st.buf|, 1, 0
  {
    hide Explained, Decode, TraceDecode, Openers, AllExplained;
    NoCalls(lenient, base, owners);
    if count > 0 {
      var v, first := Decode(lenient, st), TraceDecode(lenient, st, open);
      DecodeExplained(lenient, st, open, base, owners);
      if v.r.Ok? {
        ElemsExplained(lenient, v.st, count - 1, open, base, owners + Openers(first), elems + [v.r.value]);
        Joined(lenient, base, owners, first, TraceElems(lenient, v.st, count - 1, open));
      } else {
        assert first + [] == first;
      }
    }
  }

  lemma {:induction false} RunExplained(lenient: bool, st: State, base: seq<AmfValue>, owners: seq<Call>,
                                        values: seq<AmfValue>)
    requires Explained(lenient, st.refs, {}, base, owners)
    ensures var trace, o := TraceAll(lenient, st), DecodeAll(lenient, st, values);
      && AllExplained(lenient, base, owners, trace)
      && (o.r.Ok? ==> Explained(lenient, o.st.refs, {}, base, owners + Openers(trace)))
    decreases |st.buf|
  {
    hide Explained, Decode, TraceDecode, Openers, AllExplained;
    NoCalls(lenient, base, owners);
    if st.buf != [] {
      var v, first := Decode(lenient, st), TraceDecode(lenient, st, {});
      DecodeExplained(lenient, st, {}, base, owners);
      if v.r.Ok? {
        RunExplained(lenient, v.st, base, owners + Openers(first), values + [v.r.value]);
        Joined(lenient, base, owners, first, TraceAll(lenient, v.st));
      } else {
        assert first + [] == first;
      }
    }
  }

  // ---- the laws ----

  lemma EntryOf(lenient: bool, refs: seq<AmfValue>, open: set<nat>, base: seq<AmfValue>, owners: seq<Call>, j: nat)
    requires Explained(lenient, refs, open, base, owners) && j < |owners|
    ensures |base| + j < |refs|
    ensures if |base| + j in open then refs[|base| + j] == Null
            else DecodeValue(lenient, owners[j].marker, owners[j].st).r == Ok(refs[|base| + j])
  {
    hide DecodeValue;
    assert Entry(lenient, refs, open, |base| + j, owners[j]);
  }

  lemma ExplainedShape(lenient: bool, refs: seq<AmfValue>, open: set<nat>, base: seq<AmfValue>, owners: seq<Call>)
    requires Explained(lenient, refs, open, base, owners)
    ensures |refs| == |base| + |owners| && base <= refs
    ensures forall i :: i in open ==> |base| <= i < |refs|
  {
    hide Entry;
  }

  /** When all values are read, the table holds behind its old entries the value of every container
      opened, in pre-order. */
  lemma TableIsContainers(lenient: bool, st: State)
    requires DecodeAll(lenient, st, []).r.Ok?
    ensures var o, owners := DecodeAll(lenient, st, []), Openers(TraceAll(lenient, st));
      && |o.st.refs| == |st.refs| + |owners| && st.refs <= o.st.refs
      && forall j :: 0 <= j < |owners| ==>
           DecodeValue(lenient, owners[j].marker, owners[j].st).r == Ok(o.st.refs[|st.refs| + j])
  {
    hide DecodeValue, DecodeAll, TraceAll, Openers, Explained;
    BeforeTheRun(lenient, st);
    RunExplained(lenient, st, st.refs, [], []);
    var o, owners := DecodeAll(lenient, st, []), Openers(TraceAll(lenient, st));
    assert [] + owners == owners;
    ExplainedShape(lenient, o.st.refs, {}, st.refs, owners);
    forall j | 0 <= j < |owners|
      ensures DecodeValue(lenient, owners[j].marker, owners[j].st).r == Ok(o.st.refs[|st.refs| + j])
    {
      EntryOf(lenient, o.st.refs, {}, st.refs, owners, j);
    }
  }

  lemma BeforeTheRun(lenient: bool, st: State)
    ensures Explained(lenient, st.refs, {}, st.refs, [])
  {
  }

  /** At every point of a run, on any bytes: the entries from before are untouched, and of the
      containers opened so far those still open have Null in the table and all others their value. */
  lemma TableAtCall(lenient: bool, st: State, n: nat)
    requires n < |TraceAll(lenient, st)|
    ensures var c, owners := TraceAll(lenient, st)[n], Openers(TraceAll(lenient, st)[..n]);
      && |c.st.refs| == |st.refs| + |owners| && st.refs <= c.st.refs
      && (forall i :: i in c.open ==> |st.refs| <= i < |c.st.refs| && c.st.refs[i] == Null)
      && forall j :: 0 <= j < |owners| && |st.refs| + j !in c.open ==>
           DecodeValue(lenient, owners[j].marker, owners[j].st).r == Ok(c.st.refs[|st.refs| + j])
  {
    hide TraceAll, Openers, DecodeValue, Explained;
    BeforeTheRun(lenient, st);
    RunExplained(lenient, st, st.refs, [], []);
    var c, owners := TraceAll(lenient, st)[n], Openers(TraceAll(lenient, st)[..n]);
    assert [] + owners == owners;
    assert Explained(lenient, c.st.refs, c.open, st.refs, owners);
    ExplainedShape(lenient, c.st.refs, c.open, st.refs, owners);
    forall i | i in c.open ensures |st.refs| <= i < |c.st.refs| && c.st.refs[i] == Null {
      EntryOf(lenient, c.st.refs, c.open, st.refs, owners, i - |st.refs|);
    }
    forall j | 0 <= j < |owners| && |st.refs| + j !in c.open
      ensures DecodeValue(lenient, owners[j].marker, owners[j].st).r == Ok(c.st.refs[|st.refs| + j])
    {
      EntryOf(lenient, c.st.refs, c.open, st.refs, owners, j);
    }
  }

  /** A container that decodes takes the entry that was next when its marker was read. */
  lemma ContainerTakesSlot(lenient: bool, marker: byte, st: State)
    requires Opens(marker) && DecodeValue(lenient, marker, st).r.Ok?
    ensures var o := DecodeValue(lenient, marker, st);
      |o.st.refs| > |st.refs| && o.st.refs[|st.refs|] == o.r.value
  {
    hide DecodeValue, DecodeProps, DecodeElems, IsOpener, EntriesAt;
    var c := Call(marker, st, {});
    if !IsOpener(c) {
      CutOffFails(lenient, c);
    } else if marker == STRICT_ARRAY {
      ArrayParts(lenient, c);
    } else {
      ObjectParts(lenient, c);
    }
  }

  /** A reference anywhere in any data, for any state of the decoder before it: it yields an entry
      from before the run, or the finished value of the container opened in that pre-order position,
      or Null while that container is still open around it, or InvalidReference. */
  lemma ReferenceLaw(lenient: bool, st: State, n: nat)
    requires n < |TraceAll(lenient, st)|
    requires TraceAll(lenient, st)[n].marker == REFERENCE && |TraceAll(lenient, st)[n].st.buf| >= 2
    ensures var c, owners := TraceAll(lenient, st)[n], Openers(TraceAll(lenient, st)[..n]);
      var i, before := U16At(c.st.buf, 0), |st.refs|;
      var r := DecodeValue(lenient, REFERENCE, c.st).r;
      if i < before then r == Ok(st.refs[i])
      else if i >= before + |owners| then r == Err(InvalidReference(i))
      else if i in c.open then r == Ok(Null)
      else r.Ok? && r == DecodeValue(lenient, owners[i - before].marker, owners[i - before].st).r
  {
    hide TraceAll, Openers, U16At, DecodeValue;
    TableAtCall(lenient, st, n);
    ReferenceRead(lenient, TraceAll(lenient, st)[n].st);
  }

  lemma ReferenceRead(lenient: bool, st: State)
    requires |st.buf| >= 2
    ensures var i := U16At(st.buf, 0);
      DecodeValue(lenient, REFERENCE, st).r == if i < |st.refs| then Ok(st.refs[i]) else Err(InvalidReference(i))
  {
  }
}
