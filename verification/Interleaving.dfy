/** Chunks of many streams interleaved under conditions an application can keep in
    mind: what `EncoderSession` says of whole calls, said of single chunks. */
module Interleaving {
  import opened Bytes
  import opened ChunkModel
  import opened ChunkMirror
  import opened ChunkRuns
  import opened ChunkSession
  import opened ChunkStreams
  import opened EncoderSession
  import opened Reading

  /** The encoder of a sender, whatever messages are under way. */
  function SideOf(s: Sender): Side {
    Side(Encoder(s.size, s.enc), s.peerDelta)
  }

  function AfterPlainStep(last: map<u32, Last>, step: Step): map<u32, Last> {
    match step
    case Start(m) => AfterPlain(last, Send(m))
    case Continue(_) => last
    case Reset => map[]
  }

  /** A message starts on a stream that has none under way, and only messages under way continue. */
  predicate PlainStep(last: map<u32, Last>, s: Sender, step: Step) {
    match step
    case Start(m) => m.csid !in s.open && PlainCall(last, Send(m))
    case Continue(csid) => csid in s.open
    case Reset => true
  }

  /** The conditions of every step on the sender it finds. */
  predicate PlainRun(last: map<u32, Last>, s: Sender, steps: seq<Step>)
    decreases |steps|
  {
    steps != [] ==>
      && PlainStep(last, s, steps[0])
      && (Legal(s, steps[0]) ==> PlainRun(AfterPlainStep(last, steps[0]), Next(s, steps[0]), steps[1..]))
  }

  predicate PlainOpen(s: Sender) {
    forall csid :: csid in s.open ==> s.open[csid].offset < |s.open[csid].m.payload| && ControlLegal(s.open[csid].m)
  }

  ghost predicate PlainSender(last: map<u32, Last>, s: Sender) {
    PlainSide(last, SideOf(s)) && PlainOpen(s)
  }

  lemma StepIsLegal(last: map<u32, Last>, s: Sender, step: Step)
    requires PlainSender(last, s) && PlainStep(last, s, step)
    ensures Legal(s, step)
  {
    hide PlainState, Survives;
    if step.Start? {
      hide PlainCall;
      assert PlainState(last, SideOf(s), step.m.csid);
      PlainIsLegal(last, SideOf(s), step.m);
    }
  }

  /** The step leaves the encoder as the call would, but for a chunk size that a message put into force. */
  lemma StepIsCall(last: map<u32, Last>, s: Sender, step: Step)
    requires Legal(s, step) && !step.Continue?
    ensures var call := if step.Start? then Send(step.m) else EncoderSession.ResetEncoder;
      && LegalCall(SideOf(s), call)
      && SideOf(Next(s, step)).(enc := Encoder(0, Next(s, step).enc)) ==
         AfterCall(SideOf(s), call).(enc := Encoder(0, AfterCall(SideOf(s), call).enc.streams))
      && AfterPlainStep(last, step) == AfterPlain(last, call)
  {
    hide Survives;
  }

  lemma SizeDoesNotMatter(last: map<u32, Last>, a: Side, b: Side, csid: u32)
    requires a.(enc := Encoder(0, a.enc.streams)) == b.(enc := Encoder(0, b.enc.streams))
    ensures PlainState(last, a, csid) <==> PlainState(last, b, csid)
  {
  }

  lemma ContinuationKeeps(s: Sender, csid: u32)
    requires Legal(s, Continue(csid))
    ensures Next(s, Continue(csid)).enc == s.enc && Next(s, Continue(csid)).peerDelta == s.peerDelta
  {
  }

  lemma OpenKept(s: Sender, step: Step)
    requires PlainOpen(s) && Legal(s, step) && s.size >= 1
    ensures PlainOpen(Next(s, step)) && Next(s, step).size >= 1
  {
    hide Survives;
  }

  lemma StepStaysPlain(last: map<u32, Last>, s: Sender, step: Step)
    requires PlainSender(last, s) && PlainStep(last, s, step) && Legal(s, step)
    ensures PlainSender(AfterPlainStep(last, step), Next(s, step))
  {
    hide PlainState, PlainCall, AfterPlain, Legal, Next, PeerDelta, TimeDelta, PlainOpen;
    OpenKept(s, step);
    forall csid: u32 ensures PlainState(AfterPlainStep(last, step), SideOf(Next(s, step)), csid) {
      assert PlainState(last, SideOf(s), csid);
      if step.Continue? {
        ContinuationKeeps(s, step.csid);
        SizeDoesNotMatter(last, SideOf(s), SideOf(Next(s, step)), csid);
      } else {
        var call := if step.Start? then Send(step.m) else EncoderSession.ResetEncoder;
        StepIsCall(last, s, step);
        if step.Start? {
          assert PlainState(last, SideOf(s), step.m.csid);
          PlainIsLegal(last, SideOf(s), step.m);
        } else {
          ResetIsPlain(last);
        }
        PlainStateKept(last, SideOf(s), call, csid);
        SizeDoesNotMatter(AfterPlain(last, call), SideOf(Next(s, step)), AfterCall(SideOf(s), call), csid);
      }
    }
  }

  lemma ResetIsPlain(last: map<u32, Last>)
    ensures PlainCall(last, EncoderSession.ResetEncoder)
  {
  }

  lemma {:induction false} PlainRunIsLegal(last: map<u32, Last>, s: Sender, steps: seq<Step>)
    requires PlainSender(last, s) && PlainRun(last, s, steps)
    ensures LegalRun(s, steps)
    decreases |steps|
  {
    hide PlainSender, PlainStep, AfterPlainStep, Legal, Next;
    if steps != [] {
      StepIsLegal(last, s, steps[0]);
      StepStaysPlain(last, s, steps[0]);
      PlainRunIsLegal(AfterPlainStep(last, steps[0]), Next(s, steps[0]), steps[1..]);
    }
  }

  /** Demultiplexing: any interleaving of chunks of any streams under the plain conditions, cut into
      reads in any way, gives the receiver exactly the messages brought to their end, in order; and
      per stream those are the messages started on it but for the ones hit by an abort or under way. */
  lemma PlainInterleaving(steps: seq<Step>, fragments: seq<bytes>, accept: Handler)
    requires PlainRun(map[], FRESH_SENDER, steps)
    ensures LegalRun(FRESH_SENDER, steps)
    ensures Flatten(fragments) == WireOf(FRESH_SENDER, steps) && AcceptsAll(accept, [], LogOf(FRESH_SENDER, steps)) ==>
      var c := ReadAll(Idle(FRESH_DECODER, []), fragments, accept);
      && c.log == LogOf(FRESH_SENDER, steps) && c.buf == [] && c.error == None
      && forall csid :: OnStream(c.log, csid) + UnderWay(Final(FRESH_SENDER, steps), csid)
                        == Ledger(FRESH_SENDER, steps, csid, [])
  {
    hide LegalRun, WireOf, LogOf, AcceptsAll, ReadAll, PlainRun, Ledger, Final, OnStream;
    FreshIsPlain();
    PlainRunIsLegal(map[], FRESH_SENDER, steps);
    if Flatten(fragments) == WireOf(FRESH_SENDER, steps) && AcceptsAll(accept, [], LogOf(FRESH_SENDER, steps)) {
      SessionArrives(steps, fragments, accept);
      forall csid ensures OnStream(LogOf(FRESH_SENDER, steps), csid) + UnderWay(Final(FRESH_SENDER, steps), csid)
                       == Ledger(FRESH_SENDER, steps, csid, []) {
        StreamsAreIndependent(steps, csid);
      }
    }
  }

  lemma FreshIsPlain()
    ensures PlainSender(map[], FRESH_SENDER)
  {
  }
}
