/** Client and server of the handshake as two processes joined by two byte queues,
    scheduled in any order and reading any number of bytes at a time. */
module HandshakeProtocol {
  import opened Bytes
  import opened HandshakeModel

  /** `buf` is what has been read but not processed. */
  datatype Party = Party(h: Side, buf: bytes, failed: bool)

  /** `toServer` and `toClient` are on their way; `fromClient` and `fromServer` is all that
      was ever written. */
  datatype System = System(client: Party, server: Party, toServer: bytes, toClient: bytes,
                           fromClient: bytes, fromServer: bytes)

  /** The random packets of the two sides. */
  datatype Packets = Packets(c1: Packet, s1: Packet)

  /** One iteration of a side's loop reads `n` bytes first; a side that is done may write
      anything, for example the connect command. */
  datatype Step =
    | ServerIteration(n: nat, clock: Clock)
    | ClientIteration(n: nat, clock: Clock)
    | ServerWrites(data: bytes)
    | ClientWrites(data: bytes)

  function Start(p: Packets): System {
    var client := GenerateInitial(New(Client), p.c1);
    var server := GenerateInitial(New(Server), p.s1);
    var hello := if client.1.Some? then client.1.value else [];
    System(Party(client.0, [], false), Party(server.0, [], false), hello, [], hello, [])
  }

  predicate IsDone(p: Party) {
    p.h.state == Done
  }

  /** The server reads only when it holds too little, the client always. */
  predicate Enabled(sys: System, step: Step) {
    match step
    case ServerIteration(n, _) =>
      && !IsDone(sys.server) && !sys.server.failed && n <= |sys.toServer|
      && (n > 0 <==> |sys.server.buf| < BytesNeeded(sys.server.h))
    case ClientIteration(n, _) => !IsDone(sys.client) && !sys.client.failed && 0 < n <= |sys.toClient|
    case ServerWrites(_) => IsDone(sys.server)
    case ClientWrites(_) => IsDone(sys.client)
  }

  /** A party that has `buf` after its read: its new state and what it writes. */
  function Iterate(p: Party, buf: bytes, ours: Packet, clock: Clock): (Party, bytes) {
    match Process(p.h, buf, ours, clock)
    case InvalidVersion(_) => (p.(failed := true), [])
    case Processed(h, rest, response) =>
      match p.h.role
      case Server => (Party(h, rest, false), if response.Some? then response.value else [])
      // The client drops what was processed only together with its answer.
      case Client => if response.Some? then (Party(h, rest, false), response.value) else (Party(h, buf, false), [])
  }

  function Next(sys: System, step: Step, p: Packets): System
    requires Enabled(sys, step)
  {
    match step
    case ServerIteration(n, clock) =>
      var (server, out) := Iterate(sys.server, sys.server.buf + sys.toServer[..n], p.s1, clock);
      sys.(server := server, toServer := sys.toServer[n..],
           toClient := sys.toClient + out, fromServer := sys.fromServer + out)
    case ClientIteration(n, clock) =>
      var (client, out) := Iterate(sys.client, sys.client.buf + sys.toClient[..n], p.c1, clock);
      sys.(client := client, toClient := sys.toClient[n..],
           toServer := sys.toServer + out, fromClient := sys.fromClient + out)
    case ServerWrites(data) => sys.(toClient := sys.toClient + data, fromServer := sys.fromServer + data)
    case ClientWrites(data) => sys.(toServer := sys.toServer + data, fromClient := sys.fromClient + data)
  }

  predicate IsRun(sys: System, steps: seq<Step>, p: Packets)
    decreases |steps|
  {
    steps == [] || (Enabled(sys, steps[0]) && IsRun(Next(sys, steps[0], p), steps[1..], p))
  }

  function After(sys: System, steps: seq<Step>, p: Packets): System
    requires IsRun(sys, steps, p)
    decreases |steps|
  {
    if steps == [] then sys else After(Next(sys, steps[0], p), steps[1..], p)
  }

  // ---- what always holds ----

  /** C2 or S2: the packet it answers, but for bytes 4..8. */
  ghost predicate Echoes(echo: bytes, packet: Packet) {
    && |echo| == HANDSHAKE_SIZE
    && forall k :: 0 <= k < HANDSHAKE_SIZE && !(4 <= k < 8) ==> echo[k] == packet[k]
  }

  /** How many bytes of the other side's a side has processed. */
  function Taken(h: Side): nat {
    match h.state
    case WaitingForPeerResponse => 1 + HANDSHAKE_SIZE
    case Done => 1 + 2 * HANDSHAKE_SIZE
    case _ => 0
  }

  /** Nothing is lost, doubled or reordered between one side's writes and the other's reads. */
  ghost predicate Conserved(written: bytes, reader: Party, onTheWay: bytes) {
    Taken(reader.h) <= |written| && reader.buf + onTheWay == written[Taken(reader.h)..]
  }

  ghost predicate Hello(written: bytes, packet: Packet) {
    |written| > HANDSHAKE_SIZE && written[0] == RTMP_VERSION && written[1..1 + HANDSHAKE_SIZE] == packet
  }

  ghost predicate HelloAndEcho(written: bytes, packet: Packet, peer: Packet) {
    && Hello(written, packet) && |written| > 2 * HANDSHAKE_SIZE
    && Echoes(written[1 + HANDSHAKE_SIZE..1 + 2 * HANDSHAKE_SIZE], peer)
  }

  ghost predicate ClientInv(sys: System, p: Packets) {
    var c := sys.client;
    && c.h.role == Client && !c.failed && c.h.ours == Some(p.c1)
    && match c.h.state
       case WaitingForPeerPacket =>
         |sys.fromClient| == 1 + HANDSHAKE_SIZE && Hello(sys.fromClient, p.c1) && |c.buf| <= 2 * HANDSHAKE_SIZE
       case Done => HelloAndEcho(sys.fromClient, p.c1, p.s1) && c.h.peer == Some(p.s1)
       case _ => false
  }

  ghost predicate ServerInv(sys: System, p: Packets) {
    var s := sys.server;
    && s.h.role == Server && !s.failed
    && match s.h.state
       case WaitingForPeerPacket => sys.fromServer == [] && |s.buf| <= HANDSHAKE_SIZE
       case WaitingForPeerResponse =>
         && |sys.fromServer| == 1 + 2 * HANDSHAKE_SIZE && HelloAndEcho(sys.fromServer, p.s1, p.c1)
         && s.h.peer == Some(p.c1) && s.h.ours == Some(p.s1)
       case Done => HelloAndEcho(sys.fromServer, p.s1, p.c1) && s.h.peer == Some(p.c1) && s.h.ours == Some(p.s1)
       case _ => false
  }

  ghost predicate Inv(sys: System, p: Packets) {
    && Conserved(sys.fromClient, sys.server, sys.toServer)
    && Conserved(sys.fromServer, sys.client, sys.toClient)
    && ClientInv(sys, p) && ServerInv(sys, p)
  }

  lemma StartInv(p: Packets)
    ensures Inv(Start(p), p)
  {
    hide Echoes;
    var hello := [RTMP_VERSION] + p.c1;
    assert hello[1..1 + HANDSHAKE_SIZE] == p.c1;
    assert Start(p).fromClient == hello;
    assert [] + hello == hello[0..];
  }

  lemma EchoEchoes(packet: Packet, clock: Clock)
    ensures Echoes(Echo(packet, clock), packet)
  {
  }

  /** A hello with its echo, as it is built. */
  lemma Greeting(hello: bytes, packet: Packet, peer: Packet, clock: Clock)
    requires |hello| == 1 + HANDSHAKE_SIZE && Hello(hello, packet)
    ensures HelloAndEcho(hello + Echo(peer, clock), packet, peer)
  {
    hide Echoes, Echo;
    EchoEchoes(peer, clock);
    var all := hello + Echo(peer, clock);
    assert all[1..1 + HANDSHAKE_SIZE] == hello[1..];
    assert all[1 + HANDSHAKE_SIZE..1 + 2 * HANDSHAKE_SIZE] == Echo(peer, clock);
  }

  lemma MoreKeepsGreeting(written: bytes, more: bytes, packet: Packet, peer: Packet)
    requires HelloAndEcho(written, packet, peer)
    ensures HelloAndEcho(written + more, packet, peer)
  {
    hide Echoes;
    assert (written + more)[1..1 + HANDSHAKE_SIZE] == written[1..1 + HANDSHAKE_SIZE];
    assert (written + more)[1 + HANDSHAKE_SIZE..1 + 2 * HANDSHAKE_SIZE]
        == written[1 + HANDSHAKE_SIZE..1 + 2 * HANDSHAKE_SIZE];
  }

  lemma ReadKeepsConserved(written: bytes, reader: Party, onTheWay: bytes, n: nat)
    requires Conserved(written, reader, onTheWay) && n <= |onTheWay|
    ensures reader.buf + onTheWay[..n] + onTheWay[n..] == written[Taken(reader.h)..]
  {
    assert reader.buf + onTheWay[..n] + onTheWay[n..] == reader.buf + onTheWay;
  }

  lemma WriteKeepsConserved(written: bytes, reader: Party, onTheWay: bytes, more: bytes)
    requires Conserved(written, reader, onTheWay)
    ensures Conserved(written + more, reader, onTheWay + more)
  {
    assert reader.buf + (onTheWay + more) == reader.buf + onTheWay + more;
    assert (written + more)[Taken(reader.h)..] == written[Taken(reader.h)..] + more;
  }

  /** The first `k` of the bytes at hand are processed. */
  lemma TakeKeepsConserved(written: bytes, taken: nat, buf: bytes, onTheWay: bytes, k: nat)
    requires taken <= |written| && buf + onTheWay == written[taken..] && k <= |buf|
    ensures taken + k <= |written| && buf[k..] + onTheWay == written[taken + k..]
    ensures buf[..k] == written[taken..taken + k]
  {
    assert buf[k..] + onTheWay == (buf + onTheWay)[k..];
    assert buf[..k] == (buf + onTheWay)[..k];
  }

  // ---- one iteration of the server ----

  /** What the server has after reading `n` bytes. */
  function ServerHolds(sys: System, n: nat): bytes
    requires n <= |sys.toServer|
  {
    sys.server.buf + sys.toServer[..n]
  }

  function ClientHolds(sys: System, n: nat): bytes
    requires n <= |sys.toClient|
  {
    sys.client.buf + sys.toClient[..n]
  }

  lemma ServerWaits(sys: System, n: nat, clock: Clock, p: Packets)
    requires Inv(sys, p) && Enabled(sys, ServerIteration(n, clock))
    requires |ServerHolds(sys, n)| < BytesNeeded(sys.server.h)
    ensures Next(sys, ServerIteration(n, clock), p)
         == sys.(server := sys.server.(buf := ServerHolds(sys, n)), toServer := sys.toServer[n..])
    ensures Inv(Next(sys, ServerIteration(n, clock), p), p)
  {
    hide HelloAndEcho;
    ReadKeepsConserved(sys.fromClient, sys.server, sys.toServer, n);
    assert sys.toClient + [] == sys.toClient && sys.fromServer + [] == sys.fromServer;
  }

  lemma ServerAnswers(sys: System, n: nat, clock: Clock, p: Packets)
    requires Inv(sys, p) && Enabled(sys, ServerIteration(n, clock))
    requires sys.server.h.state == WaitingForPeerPacket && |ServerHolds(sys, n)| >= BytesNeeded(sys.server.h)
    ensures Inv(Next(sys, ServerIteration(n, clock), p), p)
    ensures Next(sys, ServerIteration(n, clock), p).server.h.state == WaitingForPeerResponse
    ensures Next(sys, ServerIteration(n, clock), p).client == sys.client
    ensures |Next(sys, ServerIteration(n, clock), p).server.buf| == |ServerHolds(sys, n)| - 1 - HANDSHAKE_SIZE
  {
    hide Echoes, Echo;
    var buf := ServerHolds(sys, n);
    ReadKeepsConserved(sys.fromClient, sys.server, sys.toServer, n);
    TakeKeepsConserved(sys.fromClient, 0, buf, sys.toServer[n..], 1 + HANDSHAKE_SIZE);
    assert buf[1..1 + HANDSHAKE_SIZE] == buf[..1 + HANDSHAKE_SIZE][1..] == sys.fromClient[1..1 + HANDSHAKE_SIZE];
    var hello := [RTMP_VERSION] + p.s1;
    assert hello[1..1 + HANDSHAKE_SIZE] == p.s1;
    Greeting(hello, p.s1, p.c1, clock);
    var out := hello + Echo(p.c1, clock);
    WriteKeepsConserved(sys.fromServer, sys.client, sys.toClient, out);
    assert sys.fromServer + out == out;
  }

  lemma ServerFinishes(sys: System, n: nat, clock: Clock, p: Packets)
    requires Inv(sys, p) && Enabled(sys, ServerIteration(n, clock))
    requires sys.server.h.state == WaitingForPeerResponse && |ServerHolds(sys, n)| >= BytesNeeded(sys.server.h)
    ensures Inv(Next(sys, ServerIteration(n, clock), p), p)
    ensures Next(sys, ServerIteration(n, clock), p).server.h.state == Done
    ensures Next(sys, ServerIteration(n, clock), p).client == sys.client
  {
    hide HelloAndEcho, Hello;
    ReadKeepsConserved(sys.fromClient, sys.server, sys.toServer, n);
    TakeKeepsConserved(sys.fromClient, 1 + HANDSHAKE_SIZE, ServerHolds(sys, n), sys.toServer[n..], HANDSHAKE_SIZE);
    assert sys.toClient + [] == sys.toClient && sys.fromServer + [] == sys.fromServer;
  }

  // ---- one iteration of the client ----

  lemma ClientWaits(sys: System, n: nat, clock: Clock, p: Packets)
    requires Inv(sys, p) && Enabled(sys, ClientIteration(n, clock))
    requires |ClientHolds(sys, n)| <= 2 * HANDSHAKE_SIZE
    ensures Next(sys, ClientIteration(n, clock), p)
         == sys.(client := sys.client.(buf := ClientHolds(sys, n)), toClient := sys.toClient[n..])
    ensures Inv(Next(sys, ClientIteration(n, clock), p), p)
  {
    hide HelloAndEcho;
    ReadKeepsConserved(sys.fromServer, sys.client, sys.toClient, n);
    assert sys.toServer + [] == sys.toServer && sys.fromClient + [] == sys.fromClient;
  }

  lemma ClientFinishes(sys: System, n: nat, clock: Clock, p: Packets)
    requires Inv(sys, p) && Enabled(sys, ClientIteration(n, clock))
    requires |ClientHolds(sys, n)| > 2 * HANDSHAKE_SIZE
    ensures Inv(Next(sys, ClientIteration(n, clock), p), p)
    ensures Next(sys, ClientIteration(n, clock), p).client.h.state == Done
    ensures Next(sys, ClientIteration(n, clock), p).server == sys.server
  {
    hide Echoes, Echo;
    var buf := ClientHolds(sys, n);
    ReadKeepsConserved(sys.fromServer, sys.client, sys.toClient, n);
    TakeKeepsConserved(sys.fromServer, 0, buf, sys.toClient[n..], 1 + 2 * HANDSHAKE_SIZE);
    assert buf[1..1 + HANDSHAKE_SIZE] == buf[..1 + 2 * HANDSHAKE_SIZE][1..1 + HANDSHAKE_SIZE]
                                      == sys.fromServer[1..1 + HANDSHAKE_SIZE];
    assert sys.fromServer != [];
    Greeting(sys.fromClient, p.c1, p.s1, clock);
    WriteKeepsConserved(sys.fromClient, sys.server, sys.toServer, Echo(p.s1, clock));
  }

  // ---- every step ----

  lemma NextKeepsInv(sys: System, step: Step, p: Packets)
    requires Inv(sys, p) && Enabled(sys, step)
    ensures Inv(Next(sys, step, p), p)
  {
    match step
    case ServerIteration(n, clock) =>
      if |ServerHolds(sys, n)| < BytesNeeded(sys.server.h) {
        ServerWaits(sys, n, clock, p);
      } else if sys.server.h.state == WaitingForPeerPacket {
        ServerAnswers(sys, n, clock, p);
      } else {
        ServerFinishes(sys, n, clock, p);
      }
    case ClientIteration(n, clock) =>
      if |ClientHolds(sys, n)| <= 2 * HANDSHAKE_SIZE {
        ClientWaits(sys, n, clock, p);
      } else {
        ClientFinishes(sys, n, clock, p);
      }
    case ServerWrites(data) =>
      MoreKeepsGreeting(sys.fromServer, data, p.s1, p.c1);
      WriteKeepsConserved(sys.fromServer, sys.client, sys.toClient, data);
    case ClientWrites(data) =>
      MoreKeepsGreeting(sys.fromClient, data, p.c1, p.s1);
      WriteKeepsConserved(sys.fromClient, sys.server, sys.toServer, data);
  }

  lemma {:induction false} RunKeepsInv(sys: System, steps: seq<Step>, p: Packets)
    requires Inv(sys, p) && IsRun(sys, steps, p)
    ensures Inv(After(sys, steps, p), p)
    decreases |steps|
  {
    hide Inv, Next, Enabled;
    if steps != [] {
      NextKeepsInv(sys, steps[0], p);
      RunKeepsInv(Next(sys, steps[0], p), steps[1..], p);
    }
  }

  // ---- progress ----

  predicate IsIteration(step: Step) {
    step.ServerIteration? || step.ClientIteration?
  }

  ghost predicate Stuck(sys: System) {
    forall step: Step :: IsIteration(step) ==> !Enabled(sys, step)
  }

  /** While a side is not done, some side can go on. */
  lemma NoDeadlock(sys: System, p: Packets)
    requires Inv(sys, p) && Stuck(sys)
    ensures IsDone(sys.client) && IsDone(sys.server)
  {
    hide Echoes;
    var clock: Clock := [0, 0, 0, 0];
    assert !Enabled(sys, ServerIteration(0, clock)) && !Enabled(sys, ServerIteration(1, clock));
    assert !Enabled(sys, ClientIteration(1, clock));
    assert |sys.server.buf + sys.toServer| == |sys.fromClient| - Taken(sys.server.h);
    assert |sys.client.buf + sys.toClient| == |sys.fromServer| - Taken(sys.client.h);
  }

  function Gap(needed: nat, buf: bytes): nat {
    if |buf| < needed then needed - |buf| else 0
  }

  /** At most how many iterations a side still needs. */
  function Left(party: Party): nat {
    match party.h.state
    case WaitingForPeerPacket =>
      if party.h.role == Client then Gap(1 + 2 * HANDSHAKE_SIZE, party.buf)
      else 1 + HANDSHAKE_SIZE + Gap(1 + HANDSHAKE_SIZE, party.buf)
    case WaitingForPeerResponse => 1 + Gap(HANDSHAKE_SIZE, party.buf)
    case _ => 0
  }

  /** Every iteration brings the end nearer, and nothing else takes it away. */
  lemma IterationsDecrease(sys: System, step: Step, p: Packets)
    requires Inv(sys, p) && Enabled(sys, step)
    ensures var next := Next(sys, step, p);
      Left(next.client) + Left(next.server) + (if IsIteration(step) then 1 else 0)
      <= Left(sys.client) + Left(sys.server)
  {
    hide HelloAndEcho, Hello, Conserved;
    match step
    case ServerIteration(n, clock) =>
      if |ServerHolds(sys, n)| < BytesNeeded(sys.server.h) {
        ServerWaits(sys, n, clock, p);
      } else if sys.server.h.state == WaitingForPeerPacket {
        ServerAnswers(sys, n, clock, p);
      } else {
        ServerFinishes(sys, n, clock, p);
      }
    case ClientIteration(n, clock) =>
      if |ClientHolds(sys, n)| <= 2 * HANDSHAKE_SIZE {
        ClientWaits(sys, n, clock, p);
      } else {
        ClientFinishes(sys, n, clock, p);
      }
    case ServerWrites(data) =>
    case ClientWrites(data) =>
  }

  function Iterations(steps: seq<Step>): nat {
    if steps == [] then 0 else (if IsIteration(steps[0]) then 1 else 0) + Iterations(steps[1..])
  }

  lemma {:induction false} RunsAreShort(sys: System, steps: seq<Step>, p: Packets)
    requires Inv(sys, p) && IsRun(sys, steps, p)
    ensures Iterations(steps) <= Left(sys.client) + Left(sys.server)
    decreases |steps|
  {
    hide Inv, Next, Enabled, Left;
    if steps != [] {
      NextKeepsInv(sys, steps[0], p);
      IterationsDecrease(sys, steps[0], p);
      RunsAreShort(Next(sys, steps[0], p), steps[1..], p);
    }
  }

  /** A side is through: it has the other's packet and got its own back, and what it holds and
      what is on its way to it is all that the other wrote after the handshake, in order. */
  ghost predicate Through(party: Party, ours: Packet, peers: Packet, onTheWay: bytes, peerWrote: bytes) {
    && IsDone(party) && !party.failed
    && party.h.ours == Some(ours) && party.h.peer == Some(peers)
    && |peerWrote| > 2 * HANDSHAKE_SIZE
    && party.buf + onTheWay == peerWrote[1 + 2 * HANDSHAKE_SIZE..]
    && peerWrote[0] == RTMP_VERSION && peerWrote[1..1 + HANDSHAKE_SIZE] == peers
    && Echoes(peerWrote[1 + HANDSHAKE_SIZE..1 + 2 * HANDSHAKE_SIZE], ours)
  }

  /** In every run, under any scheduling and fragmentation, no side rejects the other, there are
      only so many iterations, and when no side can go on both are through. */
  lemma HandshakeCompletes(steps: seq<Step>, p: Packets)
    requires IsRun(Start(p), steps, p)
    ensures Iterations(steps) <= 4 * HANDSHAKE_SIZE + 3
    ensures var sys := After(Start(p), steps, p);
      && !sys.client.failed && !sys.server.failed
      && (Stuck(sys) <==> IsDone(sys.client) && IsDone(sys.server))
      && (IsDone(sys.client) ==> Through(sys.client, p.c1, p.s1, sys.toClient, sys.fromServer))
      && (IsDone(sys.server) ==> Through(sys.server, p.s1, p.c1, sys.toServer, sys.fromClient))
  {
    StartInv(p);
    RunKeepsInv(Start(p), steps, p);
    RunsAreShort(Start(p), steps, p);
    var sys := After(Start(p), steps, p);
    DoneIsThrough(sys, p);
    if Stuck(sys) {
      NoDeadlock(sys, p);
    }
  }

  lemma DoneIsThrough(sys: System, p: Packets)
    requires Inv(sys, p)
    ensures IsDone(sys.client) ==> Through(sys.client, p.c1, p.s1, sys.toClient, sys.fromServer)
    ensures IsDone(sys.server) ==> Through(sys.server, p.s1, p.c1, sys.toServer, sys.fromClient)
  {
    hide Echoes;
    if IsDone(sys.client) {
      assert sys.fromServer != [];
    }
  }
}
