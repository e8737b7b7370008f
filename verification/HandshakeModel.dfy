/** The simple RTMP handshake (section 5.2 of the RTMP 1.0 specification): one side's
    state machine, and the object that runs it. */
module HandshakeModel {
  import opened Bytes

  const RTMP_VERSION: byte := 3
  const HANDSHAKE_SIZE := 1536

  /** C1, S1, C2 or S2. */
  type Packet = b: bytes | |b| == HANDSHAKE_SIZE witness seq(HANDSHAKE_SIZE, i => 0)

  /** A 32-bit time in network order. */
  type Clock = b: bytes | |b| == 4 witness [0, 0, 0, 0]

  datatype Role = Client | Server

  datatype State = Initial | WaitingForPeerPacket | NeedToSendResponse | WaitingForPeerResponse | Done

  datatype Side = Side(role: Role, state: State, ours: Option<Packet>, peer: Option<Packet>)

  function New(role: Role): Side {
    Side(role, Initial, None, None)
  }

  function BytesNeeded(h: Side): nat {
    match h.state
    case WaitingForPeerPacket => 1 + HANDSHAKE_SIZE
    case WaitingForPeerResponse => HANDSHAKE_SIZE
    case _ => 0
  }

  /** The peer's packet with our time in bytes 4..8. */
  function Echo(peer: Packet, clock: Clock): Packet {
    peer[..4] + clock + peer[8..]
  }

  /** `ours` is the packet made when one is needed: its time and random bytes are inputs. */
  function GenerateInitial(h: Side, ours: Packet): (Side, Option<bytes>) {
    if h.state != Initial then (h, None)
    else
      match h.role
      case Client => (h.(ours := Some(ours), state := WaitingForPeerPacket), Some([RTMP_VERSION] + ours))
      case Server => (h.(state := WaitingForPeerPacket), None)
  }

  datatype Processed =
    | Processed(side: Side, rest: bytes, response: Option<bytes>)
    | InvalidVersion(version: byte)

  function Process(h: Side, data: bytes, ours: Packet, clock: Clock): Processed {
    match h.state
    case WaitingForPeerPacket => ProcessPeerPacket(h, data, ours, clock)
    case WaitingForPeerResponse => ProcessPeerResponse(h, data)
    case _ => Processed(h, data, None)
  }

  /** Versions from 3 on are accepted. The echo in S2 is read but not compared. */
  function ProcessPeerPacket(h: Side, data: bytes, ours: Packet, clock: Clock): Processed {
    match h.role
    case Server =>
      if |data| < 1 + HANDSHAKE_SIZE then Processed(h, data, None)
      else if data[0] < 3 then InvalidVersion(data[0])
      else
        var c1: Packet := data[1..1 + HANDSHAKE_SIZE];
        Processed(h.(peer := Some(c1), ours := Some(ours), state := WaitingForPeerResponse),
                  data[1 + HANDSHAKE_SIZE..], Some([RTMP_VERSION] + ours + Echo(c1, clock)))
    case Client =>
      if |data| < 1 + 2 * HANDSHAKE_SIZE then Processed(h, data, None)
      else if data[0] < 3 then InvalidVersion(data[0])
      else
        var s1: Packet := data[1..1 + HANDSHAKE_SIZE];
        Processed(h.(peer := Some(s1), state := Done), data[1 + 2 * HANDSHAKE_SIZE..], Some(Echo(s1, clock)))
  }

  function ProcessPeerResponse(h: Side, data: bytes): Processed {
    match h.role
    case Server =>
      if |data| < HANDSHAKE_SIZE then Processed(h, data, None)
      else Processed(h.(state := Done), data[HANDSHAKE_SIZE..], None)
    case Client => Processed(h.(state := Done), data, None)
  }

  // ---- the object ----

  class Handshake {
    const role: Role
    var state: State
    var ourPacket: Option<Packet>
    var peerPacket: Option<Packet>

    function Value(): Side
      reads this
    {
      Side(role, state, ourPacket, peerPacket)
    }

    constructor (role: Role)
      ensures Value() == New(role)
    {
      this.role, state, ourPacket, peerPacket := role, Initial, None, None;
    }

    method Start(ours: Packet) returns (r: Option<bytes>)
      modifies this
      ensures (Value(), r) == GenerateInitial(old(Value()), ours)
    {
      if state != Initial {
        return None;
      }
      state := WaitingForPeerPacket;
      if role == Client {
        ourPacket := Some(ours);
        return Some([RTMP_VERSION] + ours);
      }
      return None;
    }

    /** Takes what it processes off `data`. After an invalid version the connection is closed. */
    method Receive(data: ByteBuf, ours: Packet, clock: Clock) returns (invalid: Option<byte>, response: Option<bytes>)
      modifies this, data
      ensures var p := Process(old(Value()), old(data.data), ours, clock);
        && invalid == (if p.InvalidVersion? then Some(p.version) else None)
        && (p.Processed? ==> Value() == p.side && data.data == p.rest && response == p.response)
    {
      if state == WaitingForPeerPacket {
        invalid, response := ReceivePeerPacket(data, ours, clock);
      } else if state == WaitingForPeerResponse {
        if role == Client {
          state := Done;
        } else if |data.data| >= HANDSHAKE_SIZE {
          data.data := data.data[HANDSHAKE_SIZE..];
          state := Done;
        }
        return None, None;
      } else {
        return None, None;
      }
    }

    method ReceivePeerPacket(data: ByteBuf, ours: Packet, clock: Clock)
      returns (invalid: Option<byte>, response: Option<bytes>)
      requires state == WaitingForPeerPacket
      modifies this, data
      ensures var p := ProcessPeerPacket(old(Value()), old(data.data), ours, clock);
        && invalid == (if p.InvalidVersion? then Some(p.version) else None)
        && (p.Processed? ==> Value() == p.side && data.data == p.rest && response == p.response)
    {
      var needed := if role == Server then 1 + HANDSHAKE_SIZE else 1 + 2 * HANDSHAKE_SIZE;
      if |data.data| < needed {
        return None, None;
      }
      ghost var all := data.data;
      var version := data.data[0];
      data.data := data.data[1..];
      if version != RTMP_VERSION {
        if version < 3 {
          return Some(version), None;
        }
      }
      var packet: Packet := data.data[..HANDSHAKE_SIZE];
      assert packet == all[1..1 + HANDSHAKE_SIZE];
      data.data := data.data[HANDSHAKE_SIZE..];
      peerPacket := Some(packet);
      if role == Server {
        ourPacket := Some(ours);
        state := WaitingForPeerResponse;
        return None, Some([RTMP_VERSION] + ours + Echo(packet, clock));
      }
      data.data := data.data[HANDSHAKE_SIZE..];
      assert data.data == all[1 + 2 * HANDSHAKE_SIZE..];
      state := Done;
      return None, Some(Echo(packet, clock));
    }
  }
}
