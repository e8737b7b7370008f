/** The handshake loops of server and client over whatever the peer sends, in
    whatever pieces: what they end with depends on the bytes alone. */
module HandshakeLoops {
  import opened Bytes
  import opened HandshakeModel

  /** `Waiting`: every piece that arrives has been read. `Closed`: the peer hung up. */
  datatype Outcome = Complete | Rejected(version: byte) | Closed | Waiting

  lemma {:induction false} FlattenLast(pieces: seq<bytes>, k: nat)
    requires k < |pieces|
    ensures Flatten(pieces[..k + 1]) == Flatten(pieces[..k]) + pieces[k]
  {
    if k == 0 {
      assert pieces[..1] == [pieces[0]];
    } else {
      FlattenLast(pieces[1..], k - 1);
      assert pieces[..k + 1][1..] == pieces[1..][..k] && pieces[..k][1..] == pieces[1..][..k - 1];
    }
  }

  /** The server has read `all`, answered with `written` and holds `buf`. */
  ghost predicate ServerEnds(outcome: Outcome, all: bytes, buf: bytes, written: bytes, peer: Option<Packet>,
                             ours: Packet, clock: Clock) {
    match outcome
    case Complete =>
      && |all| >= 1 + 2 * HANDSHAKE_SIZE && all[0] >= 3 && buf == all[1 + 2 * HANDSHAKE_SIZE..]
      && peer == Some(all[1..1 + HANDSHAKE_SIZE])
      && written == [RTMP_VERSION] + ours + Echo(all[1..1 + HANDSHAKE_SIZE], clock)
    case Rejected(version) => |all| > HANDSHAKE_SIZE && version == all[0] < 3 && written == []
    case _ =>
      && |all| <= 2 * HANDSHAKE_SIZE
      && (|all| <= HANDSHAKE_SIZE ==> written == [])
      && (|all| > HANDSHAKE_SIZE ==>
            all[0] >= 3 && written == [RTMP_VERSION] + ours + Echo(all[1..1 + HANDSHAKE_SIZE], clock))
  }

  /** The client likewise: it answers only when it is done. */
  ghost predicate ClientEnds(outcome: Outcome, all: bytes, buf: bytes, written: bytes, peer: Option<Packet>,
                             ours: Packet, clock: Clock) {
    match outcome
    case Complete =>
      && |all| >= 1 + 2 * HANDSHAKE_SIZE && all[0] >= 3 && buf == all[1 + 2 * HANDSHAKE_SIZE..]
      && peer == Some(all[1..1 + HANDSHAKE_SIZE])
      && written == [RTMP_VERSION] + ours + Echo(all[1..1 + HANDSHAKE_SIZE], clock)
    case Rejected(version) =>
      |all| > 2 * HANDSHAKE_SIZE && version == all[0] < 3 && written == [RTMP_VERSION] + ours
    case _ => |all| <= 2 * HANDSHAKE_SIZE && written == [RTMP_VERSION] + ours
  }

  /** Why the reading stopped where it did. */
  predicate StoppedBecause(outcome: Outcome, pieces: seq<bytes>, used: nat)
    requires used <= |pieces|
  {
    match outcome
    case Waiting => used == |pieces|
    case Closed => used < |pieces| && pieces[used] == []
    case _ => true
  }

  method ServerHandshake(pieces: seq<bytes>, buf: ByteBuf, ours: Packet, clock: Clock)
    returns (outcome: Outcome, used: nat, written: bytes, peer: Option<Packet>)
    requires buf.data == []
    modifies buf
    ensures used <= |pieces| && StoppedBecause(outcome, pieces, used)
    ensures ServerEnds(outcome, Flatten(pieces[..used]), buf.data, written, peer, ours, clock)
  {
    hide Flatten;
    var handshake := new Handshake(Server);
    var _ := handshake.Start(ours);
    used, written := 0, [];
    ghost var all: bytes := [];
    assert all == Flatten(pieces[..0]) by { assert pieces[..0] == []; NoBytes(); }
    while handshake.state != Done
      invariant handshake.role == Server && used <= |pieces| && all == Flatten(pieces[..used])
      invariant handshake.state in {WaitingForPeerPacket, WaitingForPeerResponse, Done}
      invariant handshake.state == WaitingForPeerPacket ==>
                  buf.data == all && |all| <= HANDSHAKE_SIZE && written == []
      invariant handshake.state == WaitingForPeerResponse ==>
                  && |all| > HANDSHAKE_SIZE && all[0] >= 3 && buf.data == all[1 + HANDSHAKE_SIZE..]
                  && handshake.peerPacket == Some(all[1..1 + HANDSHAKE_SIZE])
                  && written == [RTMP_VERSION] + ours + Echo(all[1..1 + HANDSHAKE_SIZE], clock)
      invariant handshake.state == Done ==>
                  ServerEnds(Complete, all, buf.data, written, handshake.peerPacket, ours, clock)
      decreases |pieces| - used, handshake.state == WaitingForPeerPacket, handshake.state != Done
    {
      var needed := BytesNeeded(handshake.Value());
      if needed > 0 && |buf.data| < needed {
        if used == |pieces| {
          return Waiting, used, written, handshake.peerPacket;
        }
        if pieces[used] == [] {
          return Closed, used, written, handshake.peerPacket;
        }
        FlattenLast(pieces, used);
        assert |all| > HANDSHAKE_SIZE ==>
                 && (all + pieces[used])[1..1 + HANDSHAKE_SIZE] == all[1..1 + HANDSHAKE_SIZE]
                 && (all + pieces[used])[1 + HANDSHAKE_SIZE..] == all[1 + HANDSHAKE_SIZE..] + pieces[used];
        all := all + pieces[used];
        buf.data := buf.data + pieces[used];
        used := used + 1;
      }
      assert |all| > 2 * HANDSHAKE_SIZE ==>
               all[1 + HANDSHAKE_SIZE..][HANDSHAKE_SIZE..] == all[1 + 2 * HANDSHAKE_SIZE..];
      var invalid, response := handshake.Receive(buf, ours, clock);
      if invalid.Some? {
        return Rejected(invalid.value), used, written, handshake.peerPacket;
      }
      if response.Some? {
        written := written + response.value;
      }
    }
    return Complete, used, written, handshake.peerPacket;
  }

  lemma NoBytes()
    ensures Flatten([]) == []
  {
  }

  method ClientHandshake(pieces: seq<bytes>, buf: ByteBuf, ours: Packet, clock: Clock)
    returns (outcome: Outcome, used: nat, written: bytes, peer: Option<Packet>)
    requires buf.data == []
    modifies buf
    ensures used <= |pieces| && StoppedBecause(outcome, pieces, used)
    ensures ClientEnds(outcome, Flatten(pieces[..used]), buf.data, written, peer, ours, clock)
  {
    hide Flatten;
    var handshake := new Handshake(Client);
    var c0c1 := handshake.Start(ours);
    used, written := 0, c0c1.value;
    ghost var all: bytes := [];
    assert all == Flatten(pieces[..0]) by { assert pieces[..0] == []; NoBytes(); }
    while handshake.state != Done
      invariant handshake.role == Client && used <= |pieces| && all == Flatten(pieces[..used])
      invariant handshake.state in {WaitingForPeerPacket, Done}
      invariant handshake.state == WaitingForPeerPacket ==>
                  buf.data == all && |all| <= 2 * HANDSHAKE_SIZE && written == [RTMP_VERSION] + ours
      invariant handshake.state == Done ==>
                  ClientEnds(Complete, all, buf.data, written, handshake.peerPacket, ours, clock)
      decreases |pieces| - used
    {
      if used == |pieces| {
        return Waiting, used, written, handshake.peerPacket;
      }
      if pieces[used] == [] {
        return Closed, used, written, handshake.peerPacket;
      }
      FlattenLast(pieces, used);
      all := all + pieces[used];
      buf.data := buf.data + pieces[used];
      used := used + 1;
      var data := new ByteBuf(buf.data);
      var invalid, response := handshake.Receive(data, ours, clock);
      if invalid.Some? {
        return Rejected(invalid.value), used, written, handshake.peerPacket;
      }
      if response.Some? {
        buf.data := data.data;
        written := written + response.value;
      }
    }
    return Complete, used, written, handshake.peerPacket;
  }
}
