/** A session seen from one chunk stream: what is logged for it, whatever happens on others. */
module ChunkStreams {
  import opened Bytes
  import opened ChunkModel
  import opened ChunkRuns
  import opened ChunkSession

  // ---- per stream: order kept, and an abort loses exactly the message it names ----

  function OnStream(ms: seq<RtmpChunk>, csid: u32): seq<RtmpChunk> {
    if ms == [] then [] else (if ms[0].csid == csid then [ms[0]] else []) + OnStream(ms[1..], csid)
  }

  function UnderWay(s: Sender, csid: u32): seq<RtmpChunk> {
    if csid in s.open then [s.open[csid].m] else []
  }

  /** The messages started on a stream, without those that an abort hit: an abort of a
      stream with a message under way strikes out the latest one. */
  function LedgerStep(s: Sender, step: Step, csid: u32, started: seq<RtmpChunk>): seq<RtmpChunk>
    requires Legal(s, step)
  {
    var started' := if step.Start? && step.m.csid == csid then started + [step.m] else started;
    var hit := !step.Reset? && csid in Emitted(s, step).open && csid !in Next(s, step).open;
    if hit && started' != [] then started'[..|started'| - 1] else started'
  }

  function Ledger(s: Sender, steps: seq<Step>, csid: u32, started: seq<RtmpChunk>): seq<RtmpChunk>
    requires LegalRun(s, steps)
    decreases |steps|
  {
    if steps == [] then started
    else Ledger(Next(s, steps[0]), steps[1..], csid, LedgerStep(s, steps[0], csid, started))
  }

  predicate SenderInv(s: Sender) {
    forall csid :: csid in s.open ==> s.open[csid].m.csid == csid
  }

  lemma EmittedLedger(s: Sender, step: Step, csid: u32)
    requires SenderInv(s) && Legal(s, step) && !step.Reset?
    ensures SenderInv(Emitted(s, step))
    ensures UnderWay(s, csid) + (if step.Start? && step.m.csid == csid then [step.m] else [])
         == OnStream(Ends(s, step), csid) + UnderWay(Emitted(s, step), csid)
  {
  }

  lemma ControlLedger(s: Sender, m: RtmpChunk, csid: u32)
    ensures SenderInv(s) ==> SenderInv(Control(s, m))
    ensures UnderWay(Control(s, m), csid) == if csid in Control(s, m).open then UnderWay(s, csid) else []
  {
  }

  lemma StepKeepsLedger(s: Sender, step: Step, csid: u32, past: seq<RtmpChunk>)
    requires SenderInv(s) && Legal(s, step)
    ensures SenderInv(Next(s, step))
    ensures LedgerStep(s, step, csid, past + UnderWay(s, csid))
         == past + OnStream(Ends(s, step), csid) + UnderWay(Next(s, step), csid)
  {
    if step.Reset? {
      assert past + OnStream([], csid) == past;
    } else {
      hide Emitted, Control, OnStream, Ends;
      var more := if step.Start? && step.m.csid == csid then [step.m] else [];
      var ends, under := OnStream(Ends(s, step), csid), UnderWay(Emitted(s, step), csid);
      EmittedLedger(s, step, csid);
      ControlLedger(Emitted(s, step), Emits(s, step).m, csid);
      Regroup(past, UnderWay(s, csid), more, ends, under);
      DropLast(past + ends, under);
    }
  }

  lemma Regroup(past: seq<RtmpChunk>, a: seq<RtmpChunk>, b: seq<RtmpChunk>, c: seq<RtmpChunk>, d: seq<RtmpChunk>)
    requires a + b == c + d
    ensures past + a + b == past + c + d
    ensures b == [] ==> past + a == past + c + d
  {
    assert past + a + b == past + (a + b) && past + c + d == past + (c + d);
    if b == [] {
      assert past + a + b == past + a;
    }
  }

  lemma DropLast(a: seq<RtmpChunk>, last: seq<RtmpChunk>)
    requires |last| <= 1
    ensures last == [] ==> a + last == a
    ensures a + [] == a
    ensures last != [] ==> a + last != [] && (a + last)[..|a + last| - 1] == a
  {
  }

  lemma {:induction false} OnStreamConcat(a: seq<RtmpChunk>, b: seq<RtmpChunk>, csid: u32)
    ensures OnStream(a + b, csid) == OnStream(a, csid) + OnStream(b, csid)
  {
    if a == [] {
      assert a + b == b;
    } else {
      OnStreamConcat(a[1..], b, csid);
      assert (a + b)[1..] == a[1..] + b && (a + b)[0] == a[0];
      var first := if a[0].csid == csid then [a[0]] else [];
      assert first + OnStream(a[1..], csid) + OnStream(b, csid) == first + (OnStream(a[1..], csid) + OnStream(b, csid));
    }
  }

  lemma {:induction false} LedgerIsLog(s: Sender, steps: seq<Step>, csid: u32, past: seq<RtmpChunk>)
    requires SenderInv(s) && LegalRun(s, steps)
    ensures Ledger(s, steps, csid, past + UnderWay(s, csid))
         == past + OnStream(LogOf(s, steps), csid) + UnderWay(Final(s, steps), csid)
    decreases |steps|
  {
    hide Next, LedgerStep, Legal, Ends, OnStream, UnderWay;
    if steps != [] {
      var s', ends := Next(s, steps[0]), Ends(s, steps[0]);
      StepKeepsLedger(s, steps[0], csid, past);
      LedgerIsLog(s', steps[1..], csid, past + OnStream(ends, csid));
      OnStreamConcat(ends, LogOf(s', steps[1..]), csid);
      assert past + OnStream(ends, csid) + OnStream(LogOf(s', steps[1..]), csid)
          == past + (OnStream(ends, csid) + OnStream(LogOf(s', steps[1..]), csid));
    } else {
      OnStreamNothing(csid);
      assert past + OnStream([], csid) == past;
    }
  }

  lemma OnStreamNothing(csid: u32)
    ensures OnStream([], csid) == []
  {
  }

  /** What is logged for a stream are the messages started on it, in order, but for those
      hit by an abort and the one still under way, whatever happens on other streams. */
  lemma StreamsAreIndependent(steps: seq<Step>, csid: u32)
    requires LegalRun(FRESH_SENDER, steps)
    ensures Ledger(FRESH_SENDER, steps, csid, [])
         == OnStream(LogOf(FRESH_SENDER, steps), csid) + UnderWay(Final(FRESH_SENDER, steps), csid)
  {
    var none: seq<RtmpChunk> := [];
    assert none + UnderWay(FRESH_SENDER, csid) == none;
    LedgerIsLog(FRESH_SENDER, steps, csid, none);
    assert none + OnStream(LogOf(FRESH_SENDER, steps), csid) == OnStream(LogOf(FRESH_SENDER, steps), csid);
  }
}
