// Session and peer bookkeeping of the network manager. ENet is outside the model:
// peers and hosts are opaque handles, and whatever ENet decides (host creation,
// the connection handshake, whether a send is accepted, which events arrive) is
// an input. The network thread is replaced by explicit steps.

module NetworkManager {
  import opened Base
  import P = Packet
  import PF = PacketFactory

  type PeerHandle = nat
  type HostHandle = nat

  datatype NetworkEventType =
    | ClientConnected | ClientDisconnected | ServerConnected | ServerDisconnected
    | PacketReceived | ConnectionFailed | ServerStarted | ServerStopped

  // Error texts and event messages.
  const ErrAlreadyRunning: string := "Already running as server or client"
  const MsgClientPrefix: string := "Client "
  const MsgClientDisconnected: string := "Client disconnected"
  const MsgAssignedPrefix: string := "Connected with assigned peer ID "
  const ErrConnectionPending: string := "Connection already in progress"
  const MsgConnectionTimedOut: string := "Connection timed out"
  const ErrConnectTimedOut: string := "Connection to server timed out"
  const ErrClientHost: string := "Failed to create client host"
  const ErrServerPeer: string := "Failed to create connection to server"
  const ErrServerHostPrefix: string := "Failed to create server host on port "
  const ErrEnetInit: string := "Failed to initialize ENet"
  const ErrSendFailed: string := "Failed to send packet"
  const ErrAddressPrefix: string := "Invalid server address: "
  const ErrNotInitialized: string := "NetworkManager not initialized"
  const ErrNoHost: string := "No active host"
  const ErrNotServer: string := "Not running as server"
  const MsgServerDisconnected: string := "Server disconnected"
  const MsgServerStartedPrefix: string := "Server started on port "
  const MsgConnectedSuffix: string := " connected"
  const ShutdownReason: ByteString := "Shutting down"

  /** A default-constructed Packet, as carried by events that have no packet. */
  const EmptyPacket: P.PacketValue := P.PacketValue(P.DefaultHeader, [], 0)

  /** NetworkEvent(type, id = 0, msg = ""). */
  datatype NetworkEvent = NetworkEvent(
    etype: NetworkEventType,
    peerId: u32 := 0,
    message: string := "",
    packet: P.PacketValue := EmptyPacket)

  /** PeerInfo(): id 0, no handle, port 0, zero ping times, not connected. */
  datatype PeerInfo = PeerInfo(
    id: u32 := 0,
    handle: Option<PeerHandle> := None,
    address: string := "",
    port: u16 := 0,
    lastPingTime: u32 := 0,
    roundTripTime: u32 := 0,
    isConnected: bool := false)

  /** A packet handler: one of the three built-in ones, or a user callback identified by a token. */
  datatype Handler = ReplyWithPong | UpdateLatency | AssignPeerId | Callback(token: nat)

  /** A user packet handler that was invoked, and with what. */
  datatype HandlerCall = HandlerCall(token: nat, packet: P.PacketValue, senderId: u32)

  /** A datagram ENet accepted for sending. */
  datatype Outgoing =
    | ToPeer(peer: PeerHandle, channel: byte, datagram: P.ENetPacket)
    | ToAll(channel: byte, datagram: P.ENetPacket)

  datatype ConnectionData = ConnectionData(address: string, port: u16, timeoutMs: u32)

  /** What ENet reports about its peers: whether the client's server peer is in the connected
      state, and whether enet_peer_send accepts a packet for a peer. */
  datatype Transport = Transport(serverPeerConnected: bool, accepts: PeerHandle -> bool)

  /** An event returned by enet_host_service. */
  datatype ENetEvent =
    | NoEvent
    | Connect(peer: PeerHandle, address: string, port: u16)
    | Disconnect(peer: PeerHandle)
    | Receive(peer: PeerHandle, datagram: Option<seq<byte>>)

  /** How the blocking connection attempt ends, as decided by ENet. */
  datatype ConnectOutcome = HostCreateFailed | AddressInvalid | PeerCreateFailed | TimedOut | Connected

  /** The handler table the constructor installs: PING, PONG and PEER_ID_ASSIGNMENT. */
  function BuiltinHandlers(handlers: map<byte, Handler>): (m: map<byte, Handler>)
    ensures m.Keys == handlers.Keys + {P.TypeId(P.Ping), P.TypeId(P.Pong), P.TypeId(P.PeerIdAssignment)}
    ensures m[P.TypeId(P.Ping)] == ReplyWithPong && m[P.TypeId(P.Pong)] == UpdateLatency
    ensures m[P.TypeId(P.PeerIdAssignment)] == AssignPeerId
    ensures forall k | k in handlers && k !in {P.TypeId(P.Ping), P.TypeId(P.Pong), P.TypeId(P.PeerIdAssignment)} :: m[k] == handlers[k]
  {
    handlers[P.TypeId(P.Ping) := ReplyWithPong][P.TypeId(P.Pong) := UpdateLatency][P.TypeId(P.PeerIdAssignment) := AssignPeerId]
  }

  /** Index of the first peer with this id (GetPeerInfo), if any. */
  function FirstPeerWithId(peers: seq<PeerInfo>, id: u32): (r: Option<nat>)
    ensures r.Some? ==> r.value < |peers| && peers[r.value].id == id
    ensures r.Some? ==> forall k | 0 <= k < r.value :: peers[k].id != id
    ensures r.None? <==> forall k | 0 <= k < |peers| :: peers[k].id != id
  {
    if |peers| == 0 then None
    else if peers[0].id == id then Some(0)
    else match FirstPeerWithId(peers[1..], id)
      case None => None
      case Some(k) => Some(k + 1)
  }

  /** Index of the first peer with this ENet handle (FindPeerByENetPeer), if any. */
  function FirstPeerWithHandle(peers: seq<PeerInfo>, h: PeerHandle): (r: Option<nat>)
    ensures r.Some? ==> r.value < |peers| && peers[r.value].handle == Some(h)
    ensures r.Some? ==> forall k | 0 <= k < r.value :: peers[k].handle != Some(h)
    ensures r.None? <==> forall k | 0 <= k < |peers| :: peers[k].handle != Some(h)
  {
    if |peers| == 0 then None
    else if peers[0].handle == Some(h) then Some(0)
    else match FirstPeerWithHandle(peers[1..], h)
      case None => None
      case Some(k) => Some(k + 1)
  }

  /** The peer table after RemovePeer: the first entry with the handle is erased. */
  function WithoutFirstHandle(peers: seq<PeerInfo>, h: PeerHandle): (r: seq<PeerInfo>)
    ensures FirstPeerWithHandle(peers, h).None? ==> r == peers
    ensures FirstPeerWithHandle(peers, h).Some? ==> |r| == |peers| - 1
  {
    match FirstPeerWithHandle(peers, h)
    case None => peers
    case Some(i) => RemoveAt(peers, i)
  }

  /** Removing by handle keeps every other entry, in order: what remains is the table with exactly
      that one entry taken out, and no entry before it had the handle. */
  lemma RemovePeerKeepsOthers(peers: seq<PeerInfo>, h: PeerHandle, i: nat)
    requires i < |peers| && peers[i].handle == Some(h)
    requires forall k | 0 <= k < i :: peers[k].handle != Some(h)
    ensures WithoutFirstHandle(peers, h) == peers[..i] + peers[i + 1..]
  {
    var f := FirstPeerWithHandle(peers, h);
    assert f.Some?;
    assert f.value == i;
  }

  /** Ids are below the counter and pairwise distinct. */
  predicate PeerIdsFresh(peers: seq<PeerInfo>, nextPeerId: u32)
  {
    && (forall i | 0 <= i < |peers| :: peers[i].id < nextPeerId)
    && (forall i, j | 0 <= i < j < |peers| :: peers[i].id != peers[j].id)
  }

  /** Appending a peer that takes the counter's value and then advancing the counter keeps ids
      fresh, as long as the 32-bit counter does not wrap. */
  lemma {:induction false} AddPeerKeepsIdsFresh(peers: seq<PeerInfo>, next: u32, p: PeerInfo)
    requires PeerIdsFresh(peers, next) && p.id == next && next < 0xFFFF_FFFF
    ensures PeerIdsFresh(peers + [p], next + 1)
  {
    var s := peers + [p];
    forall i, j | 0 <= i < j < |s| ensures s[i].id != s[j].id {
      if j == |peers| { assert s[i].id == peers[i].id < next; }
    }
  }

  /** Taking one entry out keeps ids fresh. */
  lemma RemoveAtKeepsIdsFresh(peers: seq<PeerInfo>, next: u32, i: nat)
    requires i < |peers| && PeerIdsFresh(peers, next)
    ensures PeerIdsFresh(peers[..i] + peers[i + 1..], next)
  {
    var r := peers[..i] + peers[i + 1..];
    forall a | 0 <= a < |r| ensures r[a] == peers[if a < i then a else a + 1] {
    }
    forall a, b | 0 <= a < b < |r| ensures r[a].id != r[b].id {
      assert r[a] == peers[if a < i then a else a + 1];
      assert r[b] == peers[if b < i then b else b + 1];
    }
  }

  /** Removing by handle keeps ids fresh. */
  lemma RemovePeerKeepsIdsFresh(peers: seq<PeerInfo>, next: u32, h: PeerHandle)
    requires PeerIdsFresh(peers, next)
    ensures PeerIdsFresh(WithoutFirstHandle(peers, h), next)
  {
    match FirstPeerWithHandle(peers, h)
    case None =>
    case Some(i) =>
      RemoveAtKeepsIdsFresh(peers, next, i);
  }

  /** The peer table after a latency update: the first peer with that id gets the round trip and
      the time of the update; every other entry, and every id, stays as it was. */
  function WithLatency(peers: seq<PeerInfo>, id: u32, roundTrip: u32, now: u32): (r: seq<PeerInfo>)
    ensures |r| == |peers|
    ensures forall k | 0 <= k < |peers| :: r[k].id == peers[k].id
    ensures forall k | 0 <= k < |peers| && peers[k].id != id :: r[k] == peers[k]
    ensures FirstPeerWithId(peers, id).Some? ==>
      && r[FirstPeerWithId(peers, id).value] == peers[FirstPeerWithId(peers, id).value].(roundTripTime := roundTrip, lastPingTime := now)
      && forall k | FirstPeerWithId(peers, id).value < k < |peers| :: r[k] == peers[k]
  {
    match FirstPeerWithId(peers, id)
    case None => peers
    case Some(i) => peers[i := peers[i].(roundTripTime := roundTrip, lastPingTime := now)]
  }

  /** The packets the built-in factories build for the ping round. */
  function PingValue(now: u32): P.PacketValue
  {
    P.NewPacket(P.Ping, now).Appended(P.LeU32(now))
  }

  function PongValue(now: u32): P.PacketValue
  {
    P.NewPacket(P.Pong, now).Appended(P.LeU32(now))
  }

  /** The pings a server's round sends: one for each entry marked connected that has a handle
      ENet accepts, addressed to that handle, in table order. */
  function PeerPings(t: Transport, table: seq<PeerInfo>, datagram: P.ENetPacket): (r: seq<Outgoing>)
    ensures |r| <= |table|
  {
    if table == [] then []
    else
      var p := table[|table| - 1];
      PeerPings(t, table[..|table| - 1], datagram) +
        if p.isConnected && p.handle.Some? && t.accepts(p.handle.value) then [ToPeer(p.handle.value, 0, datagram)] else []
  }

  /** What SendPacket's choice of ENet peer depends on: the host, the two roles, the client's
      server peer and the peer table. */
  datatype Roles = Roles(host: Option<HostHandle>, isServer: bool, isClient: bool,
                         serverPeer: Option<PeerHandle>, peers: seq<PeerInfo>)

  /** The ENet peer SendPacket hands a packet for `peerId` to: the server peer when acting as
      client (if ENet reports it connected), else the first peer with that id when acting as
      server, provided that peer is marked connected. */
  function TargetIn(r: Roles, t: Transport, peerId: u32): Option<PeerHandle>
  {
    if r.host.None? then None
    else if r.isClient then (if r.serverPeer.Some? && t.serverPeerConnected then r.serverPeer else None)
    else if r.isServer then
      match FirstPeerWithId(r.peers, peerId)
      case None => None
      case Some(i) => if r.peers[i].isConnected then r.peers[i].handle else None
    else None
  }

  predicate AcceptedIn(r: Roles, t: Transport, peerId: u32)
  {
    TargetIn(r, t, peerId).Some? && t.accepts(TargetIn(r, t, peerId).value)
  }

  /** The part of the manager's state that SendPacket changes. */
  datatype Traffic = Traffic(lastError: string, bytesSent: u64, packetsSent: u32, outbox: seq<Outgoing>)

  /** The part of the manager's state that the packet handlers change. */
  datatype Wire = Wire(traffic: Traffic, peers: seq<PeerInfo>, localPeerId: u32,
                       eventQueue: seq<NetworkEvent>, handlerCalls: seq<HandlerCall>)

  /** SendPacket's effect on the counters, the outbox and the last error, from `w0` under roles
      `r`: an accepted packet is counted and handed to the target peer; otherwise the error names
      the missing host or the failed send and nothing else moves. */
  function SendResult(layout: P.HeaderLayout, r: Roles, w0: Traffic, t: Transport,
                      packet: P.PacketValue, peerId: u32, reliability: P.PacketReliability, channel: byte): Traffic
    requires P.WellFormedLayout(layout)
  {
    if AcceptedIn(r, t, peerId) then
      Traffic(w0.lastError, AddU64(w0.bytesSent, packet.TotalSize(layout)), AddU32(w0.packetsSent, 1),
              w0.outbox + [ToPeer(TargetIn(r, t, peerId).value, channel, P.CreateENetPacket(layout, packet, reliability))])
    else
      w0.(lastError := if r.host.None? then ErrNoHost else ErrSendFailed)
  }

  predicate SendEffectIn(layout: P.HeaderLayout, r: Roles, w0: Traffic, w1: Traffic, t: Transport,
                         packet: P.PacketValue, peerId: u32, reliability: P.PacketReliability, channel: byte)
    requires P.WellFormedLayout(layout)
  {
    w1 == SendResult(layout, r, w0, t, packet, peerId, reliability, channel)
  }

  /** What running `handler` on `packet` from `senderId` does to `w0` under roles `r`: PING
      answers with a PONG, PONG updates the sender's latency, PEER_ID_ASSIGNMENT makes a client
      take its id, and a user handler is invoked; nothing else moves. */
  function DispatchResult(layout: P.HeaderLayout, r: Roles, w0: Wire, t: Transport,
                          handler: Handler, packet: P.PacketValue, senderId: u32, now: u32): Wire
    requires P.WellFormedLayout(layout)
  {
    match handler
    case ReplyWithPong =>
      w0.(traffic := SendResult(layout, r, w0.traffic, t, PongValue(now), senderId, P.Unreliable, 0))
    case UpdateLatency =>
      w0.(peers := WithLatency(w0.peers, senderId, SubU32(now, packet.header.timestamp), now))
    case AssignPeerId =>
      if r.isClient && P.DecodeU32(packet.data, packet.readPos).Got? then
        var id := P.DecodeU32(packet.data, packet.readPos).value;
        w0.(localPeerId := id,
            eventQueue := w0.eventQueue + [NetworkEvent(ServerConnected, id, MsgAssignedPrefix + DecimalString(id))])
      else w0
    case Callback(token) =>
      w0.(handlerCalls := w0.handlerCalls + [HandlerCall(token, packet, senderId)])
  }

  predicate DispatchedIn(layout: P.HeaderLayout, r: Roles, w0: Wire, w1: Wire, t: Transport,
                         handler: Handler, packet: P.PacketValue, senderId: u32, now: u32)
    requires P.WellFormedLayout(layout)
  {
    w1 == DispatchResult(layout, r, w0, t, handler, packet, senderId, now)
  }

  /** The part of the manager that handling ENet events reads but never changes. */
  datatype Session = Session(host: Option<HostHandle>, isServer: bool, isClient: bool,
                             serverPeer: Option<PeerHandle>, handlers: map<byte, Handler>)

  /** The part of the manager that handling ENet events changes. */
  datatype Frame = Frame(wire: Wire, nextPeerId: u32, bytesReceived: u64, packetsReceived: u32)

  /** The sender id a received packet is attributed to: the peer's id when acting as server and
      the handle is known, else 0. */
  function SenderIn(isServer: bool, peers: seq<PeerInfo>, h: PeerHandle): u32
  {
    if !isServer then 0
    else match FirstPeerWithHandle(peers, h)
      case None => 0
      case Some(i) => peers[i].id
  }

  /** HandleENetEvent on values: a server takes a CONNECT as a new peer (next id, marked
      connected, sent its PEER_ID_ASSIGNMENT directly, CLIENT_CONNECTED queued); a DISCONNECT
      drops a server's known peer and queues CLIENT_DISCONNECTED, or queues SERVER_DISCONNECTED
      on a client; a RECEIVE too short for a header changes nothing, any other is counted and
      dispatched to its type's handler or queued as PACKET_RECEIVED. */
  function EventStep(layout: P.HeaderLayout, s: Session, t: Transport, ev: ENetEvent, now: u32, f: Frame): Frame
    requires P.WellFormedLayout(layout)
  {
    var w := f.wire;
    match ev
    case NoEvent => f
    case Connect(h, address, port) =>
      if !s.isServer then f
      else
        var id := f.nextPeerId;
        var direct := if t.accepts(h) then [ToPeer(h, 0, P.CreateENetPacket(layout, PF.PeerIdAssignmentPacket(id, now), P.Reliable))] else [];
        f.(wire := w.(traffic := w.traffic.(outbox := w.traffic.outbox + direct),
                      peers := w.peers + [PeerInfo(id, Some(h), address, port, 0, 0, true)],
                      eventQueue := w.eventQueue + [NetworkEvent(ClientConnected, id, MsgClientPrefix + DecimalString(id) + MsgConnectedSuffix)]),
           nextPeerId := AddU32(id, 1))
    case Disconnect(h) =>
      if s.isServer then
        match FirstPeerWithHandle(w.peers, h)
        case None => f
        case Some(i) =>
          f.(wire := w.(peers := WithoutFirstHandle(w.peers, h),
                        eventQueue := w.eventQueue + [NetworkEvent(ClientDisconnected, w.peers[i].id, MsgClientDisconnected)]))
      else if s.isClient then
        f.(wire := w.(eventQueue := w.eventQueue + [NetworkEvent(ServerDisconnected, 0, MsgServerDisconnected)]))
      else f
    case Receive(h, datagram) =>
      match P.FromENetPacket(layout, datagram)
      case None => f
      case Some(packet) =>
        var sender := SenderIn(s.isServer, w.peers, h);
        var w1 :=
          if packet.header.typeId in s.handlers then
            DispatchResult(layout, Roles(s.host, s.isServer, s.isClient, s.serverPeer, w.peers), w, t,
                           s.handlers[packet.header.typeId], packet, sender, now)
          else w.(eventQueue := w.eventQueue + [NetworkEvent(PacketReceived, sender, "", packet)]);
        Frame(w1, f.nextPeerId, AddU64(f.bytesReceived, |datagram.value|), AddU32(f.packetsReceived, 1))
  }

  /** EventStep on a RECEIVE, from what handling it does to the frame: nothing for a datagram too
      short for a header; otherwise the counters advance and the packet is dispatched to its type's
      handler or queued as PACKET_RECEIVED. */
  lemma ReceiveStep(layout: P.HeaderLayout, s: Session, t: Transport, h: PeerHandle, datagram: Option<seq<byte>>,
                    now: u32, f: Frame, g: Frame)
    requires P.WellFormedLayout(layout)
    requires P.FromENetPacket(layout, datagram).None? ==> g == f
    requires P.FromENetPacket(layout, datagram).Some? ==>
      var packet := P.FromENetPacket(layout, datagram).value;
      var sender := SenderIn(s.isServer, f.wire.peers, h);
      && g.nextPeerId == f.nextPeerId
      && g.bytesReceived == AddU64(f.bytesReceived, |datagram.value|)
      && g.packetsReceived == AddU32(f.packetsReceived, 1)
      && g.wire == if packet.header.typeId in s.handlers
                   then DispatchResult(layout, Roles(s.host, s.isServer, s.isClient, s.serverPeer, f.wire.peers), f.wire, t,
                                       s.handlers[packet.header.typeId], packet, sender, now)
                   else f.wire.(eventQueue := f.wire.eventQueue + [NetworkEvent(PacketReceived, sender, "", packet)])
    ensures g == EventStep(layout, s, t, Receive(h, datagram), now, f)
  {
  }

  /** ProcessEvents on values: the frame's events handled one after another, in order. */
  function Events(layout: P.HeaderLayout, s: Session, t: Transport, evs: seq<ENetEvent>, now: u32, f: Frame): Frame
    requires P.WellFormedLayout(layout)
  {
    if evs == [] then f
    else EventStep(layout, s, t, evs[|evs| - 1], now, Events(layout, s, t, evs[..|evs| - 1], now, f))
  }

  /** Handling the events of two batches one after the other is handling their concatenation. */
  lemma {:induction false} EventsAppend(layout: P.HeaderLayout, s: Session, t: Transport,
                                        a: seq<ENetEvent>, b: seq<ENetEvent>, now: u32, f: Frame)
    requires P.WellFormedLayout(layout)
    ensures Events(layout, s, t, a + b, now, f) == Events(layout, s, t, b, now, Events(layout, s, t, a, now, f))
    decreases |b|
  {
    if b == [] {
      assert a + b == a;
    } else {
      assert (a + b)[..|a + b| - 1] == a + b[..|b| - 1];
      EventsAppend(layout, s, t, a, b[..|b| - 1], now, f);
    }
  }

  /** A frame's events only append to the event queue, the outbox and the handler invocations. */
  lemma {:induction false} EventsAppendOnly(layout: P.HeaderLayout, s: Session, t: Transport, evs: seq<ENetEvent>, now: u32, f: Frame)
    requires P.WellFormedLayout(layout)
    ensures var g := Events(layout, s, t, evs, now, f);
      && f.wire.eventQueue <= g.wire.eventQueue && f.wire.traffic.outbox <= g.wire.traffic.outbox
      && f.wire.handlerCalls <= g.wire.handlerCalls
    decreases |evs|
  {
    if evs != [] {
      var before := Events(layout, s, t, evs[..|evs| - 1], now, f);
      EventsAppendOnly(layout, s, t, evs[..|evs| - 1], now, f);
      EventStepAppendOnly(layout, s, t, evs[|evs| - 1], now, before);
    }
  }

  /** Handling one event only appends to the event queue, the outbox and the handler invocations. */
  lemma EventStepAppendOnly(layout: P.HeaderLayout, s: Session, t: Transport, ev: ENetEvent, now: u32, f: Frame)
    requires P.WellFormedLayout(layout)
    ensures var g := EventStep(layout, s, t, ev, now, f);
      && f.wire.eventQueue <= g.wire.eventQueue && f.wire.traffic.outbox <= g.wire.traffic.outbox
      && f.wire.handlerCalls <= g.wire.handlerCalls
  {
  }

  /** Whether the ping round's SendPacket to this entry fails: it is marked connected but ENet
      does not take the PING. */
  predicate PingRefusedIn(r: Roles, t: Transport, p: PeerInfo)
  {
    p.isConnected && !AcceptedIn(r, t, p.id)
  }

  /** Whether some entry of the table has its PING refused. */
  predicate AnyPingRefusedIn(r: Roles, t: Transport, table: seq<PeerInfo>)
  {
    table != [] && (AnyPingRefusedIn(r, t, table[..|table| - 1]) || PingRefusedIn(r, t, table[|table| - 1]))
  }

  /** What the ping round sends for one entry: the PING datagram to the entry's send target when
      the entry is marked connected and SendPacket gets it accepted, else nothing. */
  function PingStepIn(r: Roles, t: Transport, p: PeerInfo, d: P.ENetPacket): (out: seq<Outgoing>)
    ensures |out| <= 1
  {
    if p.isConnected && AcceptedIn(r, t, p.id) then [ToPeer(TargetIn(r, t, p.id).value, 0, d)] else []
  }

  /** The datagrams one ping round hands to ENet, in table order. */
  function PingsSentIn(r: Roles, t: Transport, table: seq<PeerInfo>, d: P.ENetPacket): (out: seq<Outgoing>)
    ensures |out| <= |table|
  {
    if table == [] then []
    else PingsSentIn(r, t, table[..|table| - 1], d) + PingStepIn(r, t, table[|table| - 1], d)
  }

  /** A server pings each connected client at the client's own handle: with distinct ids, the
      send target of an entry's id is that entry itself, so the round sends exactly one PING to
      every connected entry whose handle ENet accepts, in table order. */
  lemma {:induction false} ServerPingsReachEachPeer(r: Roles, t: Transport, next: u32, d: P.ENetPacket, n: nat)
    requires r.isServer && !r.isClient && r.host.Some? && PeerIdsFresh(r.peers, next) && n <= |r.peers|
    ensures PingsSentIn(r, t, r.peers[..n], d) == PeerPings(t, r.peers[..n], d)
  {
    if n > 0 {
      assert r.peers[..n][..n - 1] == r.peers[..n - 1];
      ServerPingsReachEachPeer(r, t, next, d, n - 1);
      var k := n - 1;
      assert FirstPeerWithId(r.peers, r.peers[k].id) == Some(k);
      assert TargetIn(r, t, r.peers[k].id) == (if r.peers[k].isConnected then r.peers[k].handle else None);
    }
  }

  /** The total length of the datagrams in a list of sends. */
  function DatagramBytes(out: seq<Outgoing>): nat
  {
    if out == [] then 0 else DatagramBytes(out[..|out| - 1]) + |out[|out| - 1].datagram.bytes|
  }

  lemma DatagramBytesAppend(a: seq<Outgoing>, b: seq<Outgoing>)
    requires |b| <= 1
    ensures DatagramBytes(a + b) == DatagramBytes(a) + DatagramBytes(b)
  {
    if b == [] {
      assert a + b == a;
    } else {
      assert (a + b)[..|a + b| - 1] == a;
      assert b[..0] == [];
    }
  }

  /** Counting a list of sends in two parts counts it whole. */
  lemma CountersAppend(packets0: u32, bytes0: u64, prev: seq<Outgoing>, step: seq<Outgoing>)
    requires |step| <= 1
    ensures AddU32(AddU32(packets0, |prev|), |step|) == AddU32(packets0, |prev + step|)
    ensures AddU64(AddU64(bytes0, DatagramBytes(prev)), DatagramBytes(step)) == AddU64(bytes0, DatagramBytes(prev + step))
  {
    AddU32Twice(packets0, |prev|, |step|);
    AddU64Twice(bytes0, DatagramBytes(prev), DatagramBytes(step));
    DatagramBytesAppend(prev, step);
  }

  /** Wrapping additions compose: adding a and then b is adding a + b. */
  lemma AddU32Twice(x: u32, a: nat, b: nat)
    ensures AddU32(AddU32(x, a), b) == AddU32(x, a + b)
  {
    var m := 0x1_0000_0000;
    var q := (x + a) / m;
    assert AddU32(x, a) == x + a - q * m;
    assert (x + a - q * m + b) % m == (x + a + b) % m;
  }

  lemma AddU64Twice(x: u64, a: nat, b: nat)
    ensures AddU64(AddU64(x, a), b) == AddU64(x, a + b)
  {
    var m := 0x1_0000_0000_0000_0000;
    var q := (x + a) / m;
    assert AddU64(x, a) == x + a - q * m;
    assert (x + a - q * m + b) % m == (x + a + b) % m;
  }

  class NetworkManager {
    /** The compiler's layout of the header struct. */
    const layout: P.HeaderLayout

    var initialized: bool
    /** Whether the network thread's loop is running. */
    var threadRunning: bool
    var isServer: bool
    var isClient: bool
    var host: Option<HostHandle>
    var serverPeer: Option<PeerHandle>
    var peers: seq<PeerInfo>
    var nextPeerId: u32
    var localPeerId: u32
    var hasCallback: bool
    var handlers: map<byte, Handler>
    var eventQueue: seq<NetworkEvent>
    var bytesSent: u64
    var bytesReceived: u64
    var packetsSent: u32
    var packetsReceived: u32
    var maxClients: nat
    var pending: bool
    var connection: ConnectionData
    /** The static last-error string. */
    var lastError: string
    /** The function-static time of the last ping round in Update. */
    var lastPingTime: u32
    /** Datagrams ENet accepted, in order. */
    var outbox: seq<Outgoing>
    /** User packet handlers invoked, in order. */
    var handlerCalls: seq<HandlerCall>

    /** The class invariant: a well-formed header layout; at most one role at a time; a role
        only with a live host, and a client with its server peer; an empty peer table while
        neither role is held. */
    ghost predicate Valid()
      reads `isServer, `isClient, `peers, `host, `serverPeer
    {
      && P.WellFormedLayout(layout)
      && !(isServer && isClient)
      && (isServer || isClient ==> host.Some?)
      && (isClient ==> serverPeer.Some?)
      && (!isServer && !isClient ==> peers == [])
    }

    /** The ids in the peer table are distinct and below the counter, and the counter has not
        wrapped to 0. Every operation keeps this as long as the 32-bit counter does not wrap. */
    ghost predicate IdsFresh()
      reads `peers, `nextPeerId
    {
      1 <= nextPeerId && PeerIdsFresh(peers, nextPeerId)
    }

    /** The constructor installs the built-in handlers and leaves the local peer id
        uninitialised; its value is the parameter. It touches neither the static last-error
        string nor Update's static last ping time, whose current values are parameters too. */
    constructor (layout: P.HeaderLayout, uninitialisedLocalId: u32, lastErrorNow: string, lastPingTimeNow: u32)
      requires P.WellFormedLayout(layout)
      ensures Valid() && IdsFresh() && this.layout == layout
      ensures !initialized && !threadRunning && !isServer && !isClient && host.None? && serverPeer.None?
      ensures peers == [] && nextPeerId == 1 && localPeerId == uninitialisedLocalId && !hasCallback
      ensures handlers == BuiltinHandlers(map[]) && eventQueue == []
      ensures bytesSent == 0 && bytesReceived == 0 && packetsSent == 0 && packetsReceived == 0
      ensures maxClients == 32 && !pending && connection == ConnectionData("", 0, 0)
      ensures lastError == lastErrorNow && lastPingTime == lastPingTimeNow && outbox == [] && handlerCalls == []
    {
      this.layout := layout;
      initialized, threadRunning, isServer, isClient := false, false, false, false;
      host, serverPeer := None, None;
      peers := [];
      nextPeerId := 1;
      localPeerId := uninitialisedLocalId;
      hasCallback := false;
      handlers := BuiltinHandlers(map[]);
      eventQueue := [];
      bytesSent, bytesReceived, packetsSent, packetsReceived := 0, 0, 0, 0;
      maxClients := 32;
      pending := false;
      connection := ConnectionData("", 0, 0);
      lastError := lastErrorNow;
      lastPingTime := lastPingTimeNow;
      outbox, handlerCalls := [], [];
    }

    /** IsServer: the server flag is set and a host exists. */
    function IsServer(): (b: bool)
      reads this
      ensures b <==> isServer && host.Some?
    {
      isServer && host.Some?
    }

    /** IsClient: the client flag is set and a host exists. */
    function IsClient(): (b: bool)
      reads this
      ensures b <==> isClient && host.Some?
    {
      isClient && host.Some?
    }

    /** IsConnectedToServer: a client whose server peer ENet reports connected. */
    function IsConnectedToServer(t: Transport): (b: bool)
      reads this
      ensures b ==> isClient && serverPeer.Some?
      ensures b <==> isClient && serverPeer.Some? && t.serverPeerConnected
    {
      isClient && serverPeer.Some? && t.serverPeerConnected
    }

    function GetPeerCount(): (n: nat)
      reads this
      ensures n == |peers|
    {
      |peers|
    }

    /** GetPeerInfo: the first peer with that id, or null. */
    function GetPeerInfo(id: u32): (r: Option<PeerInfo>)
      reads `peers
      ensures r.Some? <==> exists k | 0 <= k < |peers| :: peers[k].id == id
      ensures r.Some? ==> r.value.id == id && r.value in peers
    {
      match FirstPeerWithId(peers, id)
      case None => None
      case Some(i) => Some(peers[i])
    }

    /** FindPeerByENetPeer: the first peer with that handle, or null. */
    function FindPeerByENetPeer(h: PeerHandle): (r: Option<PeerInfo>)
      reads `peers
      ensures r.Some? <==> exists k | 0 <= k < |peers| :: peers[k].handle == Some(h)
      ensures r.Some? ==> r.value.handle == Some(h) && r.value in peers
    {
      match FirstPeerWithHandle(peers, h)
      case None => None
      case Some(i) => Some(peers[i])
    }

    /** The sender id a received packet is attributed to: the peer's id when acting as server and
        the handle is known, else 0. */
    function SenderId(h: PeerHandle): (id: u32)
      reads `isServer, `peers
      ensures isServer && FindPeerByENetPeer(h).Some? ==> id == FindPeerByENetPeer(h).value.id
      ensures !isServer || FindPeerByENetPeer(h).None? ==> id == 0
    {
      SenderIn(isServer, peers, h)
    }

    /** The ENet peer SendPacket hands its packet to: the server peer when acting as client (if
        ENet reports it connected), else the first peer with that id when acting as server,
        provided that peer is marked connected. */
    function SendTarget(t: Transport, peerId: u32): (r: Option<PeerHandle>)
      reads `host, `isClient, `isServer, `serverPeer, `peers
      ensures r.Some? ==> host.Some? && (isClient || isServer)
      ensures r.Some? && isClient ==> r == serverPeer && t.serverPeerConnected
      ensures r.Some? && !isClient ==>
        GetPeerInfo(peerId).Some? && GetPeerInfo(peerId).value.isConnected && GetPeerInfo(peerId).value.handle == r
      ensures host.Some? && isClient && t.serverPeerConnected ==> r == serverPeer
      ensures host.Some? && !isClient && isServer && GetPeerInfo(peerId).Some? && GetPeerInfo(peerId).value.isConnected ==>
        r == GetPeerInfo(peerId).value.handle
    {
      TargetIn(RolesNow(), t, peerId)
    }

    predicate SendAccepted(t: Transport, peerId: u32)
      reads `host, `isClient, `isServer, `serverPeer, `peers
    {
      AcceptedIn(RolesNow(), t, peerId)
    }

    /** The part of the state SendPacket's choice of ENet peer depends on. */
    function RolesNow(): Roles
      reads `host, `isClient, `isServer, `serverPeer, `peers
    {
      Roles(host, isServer, isClient, serverPeer, peers)
    }

    /** The datagram of a ping round's PING. */
    function PingDatagram(now: u32): P.ENetPacket
      requires P.WellFormedLayout(layout)
    {
      P.CreateENetPacket(layout, PingValue(now), P.Unreliable)
    }

    /** What one SendPacket call does: when ENet accepts, the datagram is queued and the
        counters advance; otherwise only the error text changes. */
    twostate predicate SendEffect(t: Transport, packet: P.PacketValue, peerId: u32,
                                  reliability: P.PacketReliability, channel: byte)
      requires P.WellFormedLayout(layout)
      reads `lastError, `bytesSent, `packetsSent, `outbox, `host, `isClient, `isServer, `serverPeer, `peers
    {
      SendEffectIn(layout, old(RolesNow()), old(TrafficNow()), TrafficNow(), t, packet, peerId, reliability, channel)
    }

    function TrafficNow(): Traffic
      reads `lastError, `bytesSent, `packetsSent, `outbox
    {
      Traffic(lastError, bytesSent, packetsSent, outbox)
    }

    function WireNow(): Wire
      reads `lastError, `bytesSent, `packetsSent, `outbox, `peers, `localPeerId, `eventQueue, `handlerCalls
    {
      Wire(TrafficNow(), peers, localPeerId, eventQueue, handlerCalls)
    }

    function SessionNow(): Session
      reads `host, `isServer, `isClient, `serverPeer, `handlers
    {
      Session(host, isServer, isClient, serverPeer, handlers)
    }

    function FrameNow(): Frame
      reads `lastError, `bytesSent, `packetsSent, `outbox, `peers, `localPeerId, `eventQueue, `handlerCalls,
            `nextPeerId, `bytesReceived, `packetsReceived
    {
      Frame(WireNow(), nextPeerId, bytesReceived, packetsReceived)
    }

    method SetEventCallback(present: bool)
      modifies `hasCallback
      ensures hasCallback == present
    {
      hasCallback := present;
    }

    method SetError(e: string)
      modifies `lastError
      ensures lastError == e
    {
      lastError := e;
    }

    method QueueEvent(e: NetworkEvent)
      modifies `eventQueue
      ensures eventQueue == old(eventQueue) + [e]
    {
      eventQueue := eventQueue + [e];
    }

    /** RegisterPacketHandler replaces any handler for that type. */
    method RegisterPacketHandler(t: P.PacketType, h: Handler)
      modifies `handlers
      ensures handlers == old(handlers)[P.TypeId(t) := h]
    {
      handlers := handlers[P.TypeId(t) := h];
    }

    method UnregisterPacketHandler(t: P.PacketType)
      modifies `handlers
      ensures handlers == old(handlers) - {P.TypeId(t)}
    {
      handlers := handlers - {P.TypeId(t)};
    }

    method RegisterBuiltinHandlers()
      modifies `handlers
      ensures handlers == BuiltinHandlers(old(handlers))
    {
      RegisterPacketHandler(P.Ping, ReplyWithPong);
      RegisterPacketHandler(P.Pong, UpdateLatency);
      RegisterPacketHandler(P.PeerIdAssignment, AssignPeerId);
    }

    /** Initialize: idempotent once initialised; `enetStarted` is enet_initialize's success. It
        starts the network thread and re-installs the built-in handlers over any user handler for
        those three types. */
    method Initialize(enetStarted: bool) returns (ok: bool)
      modifies `initialized, `threadRunning, `handlers, `lastError
      ensures ok <==> old(initialized) || enetStarted
      ensures old(initialized) ==> unchanged(this)
      ensures !old(initialized) && !enetStarted ==>
        lastError == ErrEnetInit && unchanged(`initialized, `threadRunning, `handlers)
      ensures !old(initialized) && enetStarted ==>
        initialized && threadRunning && handlers == BuiltinHandlers(old(handlers)) && lastError == old(lastError)
    {
      if initialized {
        return true;
      }
      if !enetStarted {
        SetError(ErrEnetInit);
        return false;
      }
      threadRunning := true;
      RegisterBuiltinHandlers();
      initialized := true;
      ok := true;
    }

    /** StartServer: `created` is the host enet_host_create returns (None for null). The client
        limit and the host are stored before the null check, so both change when creation fails. */
    method StartServer(created: Option<HostHandle>, port: u16, maxClients: nat := 32) returns (ok: bool)
      requires Valid()
      modifies `maxClients, `host, `isServer, `localPeerId, `peers, `eventQueue, `lastError
      ensures Valid() && (old(IdsFresh()) ==> IdsFresh())
      ensures ok <==> old(initialized) && !old(isServer) && !old(isClient) && created.Some?
      ensures !old(initialized) ==>
        lastError == ErrNotInitialized && unchanged(`maxClients, `host, `isServer, `localPeerId, `peers, `eventQueue)
      ensures old(initialized) && (old(isServer) || old(isClient)) ==>
        lastError == ErrAlreadyRunning && unchanged(`maxClients, `host, `isServer, `localPeerId, `peers, `eventQueue)
      ensures old(initialized) && !old(isServer) && !old(isClient) ==> this.maxClients == maxClients && host == created
      ensures old(initialized) && !old(isServer) && !old(isClient) && created.None? ==>
        lastError == ErrServerHostPrefix + DecimalString(port) && unchanged(`isServer, `localPeerId, `peers, `eventQueue)
      ensures ok ==>
        && isServer && localPeerId == 0 && peers == [] && lastError == old(lastError)
        && eventQueue == old(eventQueue) + [NetworkEvent(ServerStarted, 0, MsgServerStartedPrefix + DecimalString(port))]
    {
      if !initialized {
        SetError(ErrNotInitialized);
        return false;
      }
      if isServer || isClient {
        SetError(ErrAlreadyRunning);
        return false;
      }
      this.maxClients := maxClients;
      host := created;
      if host.None? {
        SetError(ErrServerHostPrefix + DecimalString(port));
        return false;
      }
      isServer := true;
      localPeerId := 0;
      peers := [];
      QueueEvent(NetworkEvent(ServerStarted, 0, MsgServerStartedPrefix + DecimalString(port)));
      ok := true;
    }

    /** StopServer: ENet's final disconnect exchange is outside the model; whatever peers it
        removes, the table ends empty. */
    method StopServer()
      requires Valid()
      modifies `host, `isServer, `peers, `eventQueue
      ensures Valid() && (old(IdsFresh()) ==> IdsFresh())
      ensures !(old(isServer) && old(host).Some?) ==> unchanged(this)
      ensures old(isServer) && old(host).Some? ==>
        host == None && !isServer && peers == [] && eventQueue == old(eventQueue) + [NetworkEvent(ServerStopped)]
    {
      if !isServer || host.None? {
        return;
      }
      host := None;
      isServer := false;
      peers := [];
      QueueEvent(NetworkEvent(ServerStopped));
    }

    /** ConnectToServer only records the request for the network thread; it does not become a client. */
    method ConnectToServer(address: string, port: u16, timeoutMs: u32 := 5000) returns (ok: bool)
      modifies `connection, `pending, `lastError
      ensures ok <==> old(initialized) && !old(isServer) && !old(isClient) && !old(pending)
      ensures !ok ==> unchanged(`connection, `pending)
      ensures !old(initialized) ==> lastError == ErrNotInitialized
      ensures old(initialized) && (old(isServer) || old(isClient)) ==> lastError == ErrAlreadyRunning
      ensures old(initialized) && !old(isServer) && !old(isClient) && old(pending) ==> lastError == ErrConnectionPending
      ensures ok ==> connection == ConnectionData(address, port, timeoutMs) && pending && lastError == old(lastError)
    {
      if !initialized {
        SetError(ErrNotInitialized);
        return false;
      }
      if isServer || isClient {
        SetError(ErrAlreadyRunning);
        return false;
      }
      if pending {
        SetError(ErrConnectionPending);
        return false;
      }
      connection := ConnectionData(address, port, timeoutMs);
      pending := true;
      ok := true;
    }

    /** The blocking connection attempt run by the network thread. It checks no role flag.
        `newHost` and `newPeer` are the handles ENet hands out; `outcome` is how the attempt ends. */
    method ConnectToServerBlocking(outcome: ConnectOutcome, newHost: HostHandle, newPeer: PeerHandle,
                                   address: string, port: u16, timeoutMs: u32) returns (ok: bool)
      modifies `host, `serverPeer, `isClient, `localPeerId, `peers, `lastError, `eventQueue
      ensures old(Valid()) && !old(isServer) && !old(isClient) ==> Valid()
      ensures old(IdsFresh()) && old(peers) == [] ==> IdsFresh()
      ensures ok <==> outcome == Connected
      ensures !ok ==> host == None && unchanged(`isClient, `localPeerId, `peers)
      ensures outcome == HostCreateFailed ==> lastError == ErrClientHost && unchanged(`serverPeer, `eventQueue)
      ensures outcome == AddressInvalid ==> lastError == ErrAddressPrefix + address && unchanged(`serverPeer, `eventQueue)
      ensures outcome == PeerCreateFailed ==> serverPeer == None && lastError == ErrServerPeer && unchanged(`eventQueue)
      ensures outcome == TimedOut ==>
        && serverPeer == None && lastError == ErrConnectTimedOut
        && eventQueue == old(eventQueue) + [NetworkEvent(ConnectionFailed, 0, MsgConnectionTimedOut)]
      ensures ok ==>
        && host == Some(newHost) && serverPeer == Some(newPeer) && isClient && localPeerId == 0
        && peers == old(peers) + [PeerInfo(0, Some(newPeer), address, port, 0, 0, true)]
        && unchanged(`lastError, `eventQueue)
    {
      if outcome == HostCreateFailed {
        host := None;
        SetError(ErrClientHost);
        return false;
      }
      host := Some(newHost);
      if outcome == AddressInvalid {
        host := None;
        SetError(ErrAddressPrefix + address);
        return false;
      }
      if outcome == PeerCreateFailed {
        serverPeer := None;
        host := None;
        SetError(ErrServerPeer);
        return false;
      }
      serverPeer := Some(newPeer);
      if outcome == Connected {
        isClient := true;
        peers := peers + [PeerInfo(id := 0, handle := Some(newPeer), address := address, port := port, isConnected := true)];
        localPeerId := 0;
        return true;
      }
      host := None;
      serverPeer := None;
      SetError(ErrConnectTimedOut);
      QueueEvent(NetworkEvent(ConnectionFailed, 0, MsgConnectionTimedOut));
      ok := false;
    }

    /** One pass of the network thread's loop as written: a pending request is attempted with the
        stored address, port and timeout, and is then cleared whatever the outcome. The attempt
        checks no role flag, so a server started after the request was queued also becomes a
        client (see ConnectRaceBothRoles). */
    method ServicePendingConnectionAsWritten(outcome: ConnectOutcome, newHost: HostHandle, newPeer: PeerHandle)
      modifies `host, `serverPeer, `isClient, `localPeerId, `peers, `lastError, `eventQueue, `pending
      ensures !(old(threadRunning) && old(pending)) ==> unchanged(this)
      ensures old(threadRunning) && old(pending) ==> !pending && (isClient <==> old(isClient) || outcome == Connected)
      ensures old(threadRunning) && old(pending) && outcome != Connected ==> host == None && peers == old(peers)
      ensures old(threadRunning) && old(pending) && outcome == Connected ==>
        && host == Some(newHost) && serverPeer == Some(newPeer) && localPeerId == 0
        && peers == old(peers) + [PeerInfo(0, Some(newPeer), old(connection).address, old(connection).port, 0, 0, true)]
    {
      if threadRunning && pending {
        var c := connection;
        var ok := ConnectToServerBlocking(outcome, newHost, newPeer, c.address, c.port, c.timeoutMs);
        pending := false;
      }
    }

    /** One pass of the network thread's loop with the role check ConnectToServer makes repeated
        when the request is serviced: a request that finds a role already held is dropped with
        the same error. This keeps the class invariant, roles included. */
    method ServicePendingConnection(outcome: ConnectOutcome, newHost: HostHandle, newPeer: PeerHandle)
      requires Valid()
      modifies `host, `serverPeer, `isClient, `localPeerId, `peers, `lastError, `eventQueue, `pending
      ensures Valid() && (old(IdsFresh()) ==> IdsFresh())
      ensures !(old(threadRunning) && old(pending)) ==> unchanged(this)
      ensures old(threadRunning) && old(pending) ==> !pending
      ensures old(threadRunning) && old(pending) && (old(isServer) || old(isClient)) ==>
        lastError == ErrAlreadyRunning && unchanged(`host, `serverPeer, `isClient, `localPeerId, `peers, `eventQueue)
      ensures old(threadRunning) && old(pending) && !old(isServer) && !old(isClient) ==>
        (isClient <==> outcome == Connected)
      ensures old(threadRunning) && old(pending) && !old(isServer) && !old(isClient) && outcome != Connected ==>
        host == None && peers == []
      ensures old(threadRunning) && old(pending) && !old(isServer) && !old(isClient) && outcome == Connected ==>
        && host == Some(newHost) && serverPeer == Some(newPeer) && localPeerId == 0
        && peers == [PeerInfo(0, Some(newPeer), old(connection).address, old(connection).port, 0, 0, true)]
    {
      if threadRunning && pending {
        if isServer || isClient {
          SetError(ErrAlreadyRunning);
        } else {
          var c := connection;
          var ok := ConnectToServerBlocking(outcome, newHost, newPeer, c.address, c.port, c.timeoutMs);
        }
        pending := false;
      }
    }

    /** SendPacket: fails without a host; counters and the outbox change only when ENet accepts. */
    method SendPacket(t: Transport, packet: P.PacketValue, peerId: u32 := 0,
                      reliability: P.PacketReliability := P.Reliable, channel: byte := 0) returns (ok: bool)
      requires Valid()
      modifies `lastError, `bytesSent, `packetsSent, `outbox
      ensures ok <==> old(SendAccepted(t, peerId))
      ensures SendEffect(t, packet, peerId, reliability, channel)
    {
      if host.None? {
        SetError(ErrNoHost);
        return false;
      }
      var datagram := P.CreateENetPacket(layout, packet, reliability);
      var target := SendTarget(t, peerId);
      ok := target.Some? && t.accepts(target.value);
      if ok {
        bytesSent := AddU64(bytesSent, packet.TotalSize(layout));
        packetsSent := AddU32(packetsSent, 1);
        outbox := outbox + [ToPeer(target.value, channel, datagram)];
      } else {
        SetError(ErrSendFailed);
      }
    }

    /** BroadcastPacket: only a server with a host broadcasts; the byte counter grows by the
        packet size times the number of peers in the table, the packet counter by one. */
    method BroadcastPacket(packet: P.PacketValue, reliability: P.PacketReliability := P.Reliable,
                           channel: byte := 0) returns (ok: bool)
      requires Valid()
      modifies `lastError, `bytesSent, `packetsSent, `outbox
      ensures ok <==> old(isServer) && old(host).Some?
      ensures !ok ==> lastError == ErrNotServer && unchanged(`bytesSent, `packetsSent, `outbox)
      ensures ok ==>
        && bytesSent == AddU64(old(bytesSent), packet.TotalSize(layout) * |peers|)
        && packetsSent == AddU32(old(packetsSent), 1)
        && outbox == old(outbox) + [ToAll(channel, P.CreateENetPacket(layout, packet, reliability))]
        && lastError == old(lastError)
    {
      if !isServer || host.None? {
        SetError(ErrNotServer);
        return false;
      }
      var datagram := P.CreateENetPacket(layout, packet, reliability);
      outbox := outbox + [ToAll(channel, datagram)];
      bytesSent := AddU64(bytesSent, packet.TotalSize(layout) * |peers|);
      packetsSent := AddU32(packetsSent, 1);
      ok := true;
    }

    /** SendPing: an unreliable PING stamped with the current time, sent with SendPacket. */
    method SendPing(t: Transport, peerId: u32, now: u32)
      requires Valid()
      modifies `lastError, `bytesSent, `packetsSent, `outbox
      ensures SendEffect(t, PingValue(now), peerId, P.Unreliable, 0)
    {
      var ping := PF.CreatePingPacket(now);
      var ok := SendPacket(t, ping.Value(), peerId, P.Unreliable);
    }

    /** SendPong (and HandlePing, which does the same): an unreliable PONG stamped with the
        current time, sent with SendPacket. */
    method SendPong(t: Transport, peerId: u32, now: u32)
      requires Valid()
      modifies `lastError, `bytesSent, `packetsSent, `outbox
      ensures SendEffect(t, PongValue(now), peerId, P.Unreliable, 0)
    {
      var pong := PF.CreatePongPacket(now);
      var ok := SendPacket(t, pong.Value(), peerId, P.Unreliable);
    }

    /** UpdatePeerLatency: the round trip is now − timestamp in 32-bit arithmetic. */
    method UpdatePeerLatency(peerId: u32, timestamp: u32, now: u32)
      modifies `peers
      ensures peers == WithLatency(old(peers), peerId, SubU32(now, timestamp), now)
      ensures old(IdsFresh()) ==> IdsFresh()
    {
      var rtt := SubU32(now, timestamp);
      var found := FirstPeerWithId(peers, peerId);
      if found.Some? {
        var i := found.value;
        peers := peers[i := peers[i].(roundTripTime := rtt, lastPingTime := now)];
      }
    }

    /** HandlePong: the round trip is now − the peer's last ping time; the ping time is kept. */
    method HandlePong(peerId: u32, now: u32)
      modifies `peers
      ensures FirstPeerWithId(old(peers), peerId).None? ==> peers == old(peers)
      ensures FirstPeerWithId(old(peers), peerId).Some? ==>
        var i := FirstPeerWithId(old(peers), peerId).value;
        peers == old(peers)[i := old(peers)[i].(roundTripTime := SubU32(now, old(peers)[i].lastPingTime))]
    {
      var found := FirstPeerWithId(peers, peerId);
      if found.Some? {
        var i := found.value;
        peers := peers[i := peers[i].(roundTripTime := SubU32(now, peers[i].lastPingTime))];
      }
    }

    /** AddPeer: the new peer takes the counter's value, which then advances; it is appended as
        connected; a PEER_ID_ASSIGNMENT packet goes straight to ENet (not through SendPacket, so
        the counters do not move); CLIENT_CONNECTED is queued with the id. `address` is what the
        address lookup yields ("" if it fails). Only a server adds peers. */
    method AddPeer(t: Transport, h: PeerHandle, address: string, port: u16, now: u32)
      requires Valid() && isServer
      modifies `peers, `nextPeerId, `outbox, `eventQueue
      ensures Valid()
      ensures peers == old(peers) + [PeerInfo(old(nextPeerId), Some(h), address, port, 0, 0, true)]
      ensures nextPeerId == AddU32(old(nextPeerId), 1)
      ensures outbox == old(outbox) +
        (if t.accepts(h) then [ToPeer(h, 0, P.CreateENetPacket(layout, PF.PeerIdAssignmentPacket(old(nextPeerId), now), P.Reliable))] else [])
      ensures eventQueue == old(eventQueue) +
        [NetworkEvent(ClientConnected, old(nextPeerId), MsgClientPrefix + DecimalString(old(nextPeerId)) + MsgConnectedSuffix)]
      ensures old(IdsFresh()) && old(nextPeerId) < 0xFFFF_FFFF ==> IdsFresh()
    {
      var id := nextPeerId;
      nextPeerId := AddU32(nextPeerId, 1);
      var info := PeerInfo(id := id, handle := Some(h), address := address, port := port, isConnected := true);
      peers := peers + [info];
      var packet := PF.CreatePeerIdAssignmentPacket(id, now);
      var datagram := P.CreateENetPacket(layout, packet.Value(), P.Reliable);
      if t.accepts(h) {
        outbox := outbox + [ToPeer(h, 0, datagram)];
      }
      QueueEvent(NetworkEvent(ClientConnected, id, MsgClientPrefix + DecimalString(id) + MsgConnectedSuffix));
      if old(IdsFresh()) && old(nextPeerId) < 0xFFFF_FFFF {
        AddPeerKeepsIdsFresh(old(peers), old(nextPeerId), info);
      }
    }

    /** RemovePeer erases only the first entry with that handle and keeps the rest in order. */
    method RemovePeer(h: PeerHandle)
      modifies `peers
      ensures peers == WithoutFirstHandle(old(peers), h)
      ensures old(IdsFresh()) ==> IdsFresh()
    {
      var i := 0;
      while i < |peers| && peers[i].handle != Some(h)
        invariant 0 <= i <= |peers|
        invariant forall k | 0 <= k < i :: peers[k].handle != Some(h)
      {
        i := i + 1;
      }
      if i < |peers| {
        RemovePeerKeepsOthers(peers, h, i);
        peers := peers[..i] + peers[i + 1..];
      }
      if old(IdsFresh()) {
        RemovePeerKeepsIdsFresh(old(peers), nextPeerId, h);
      }
    }

    /** What running a registered handler on a received packet does. The three built-in
        handlers: PING replies with a PONG through SendPacket; PONG sets the sender's round trip
        to now − the packet's timestamp; PEER_ID_ASSIGNMENT, on a client, takes the id from the
        payload and queues SERVER_CONNECTED (one too short to hold an id throws in the source and
        changes nothing). A user handler is invoked with the packet and the sender's id. */
    twostate predicate Dispatched(t: Transport, handler: Handler, packet: P.PacketValue, senderId: u32, now: u32)
      requires P.WellFormedLayout(layout)
      reads `lastError, `bytesSent, `packetsSent, `outbox, `host, `isClient, `isServer, `serverPeer, `peers,
            `localPeerId, `eventQueue, `handlerCalls
    {
      DispatchedIn(layout, old(RolesNow()), old(WireNow()), WireNow(), t, handler, packet, senderId, now)
    }

    /** The PEER_ID_ASSIGNMENT handler: a client reads the id from a copy of the packet, takes it
        as its local id and queues SERVER_CONNECTED; a server only logs. */
    method AssignLocalId(packet: P.PacketValue)
      modifies `localPeerId, `eventQueue
      ensures isClient && P.DecodeU32(packet.data, packet.readPos).Got? ==>
        var id := P.DecodeU32(packet.data, packet.readPos).value;
        localPeerId == id && eventQueue == old(eventQueue) + [NetworkEvent(ServerConnected, id, MsgAssignedPrefix + DecimalString(id))]
      ensures !(isClient && P.DecodeU32(packet.data, packet.readPos).Got?) ==> unchanged(`localPeerId, `eventQueue)
    {
      if isClient {
        var copy := new P.Packet.FromValue(packet);
        var readId := copy.ReadUint32();
        if readId.Some? {
          localPeerId := readId.value;
          QueueEvent(NetworkEvent(ServerConnected, readId.value, MsgAssignedPrefix + DecimalString(readId.value)));
        }
      }
    }

    /** Runs a registered handler on a received packet. */
    method Dispatch(t: Transport, handler: Handler, packet: P.PacketValue, senderId: u32, now: u32)
      requires Valid()
      modifies `lastError, `bytesSent, `packetsSent, `outbox, `peers, `localPeerId, `eventQueue, `handlerCalls
      ensures Valid() && (old(IdsFresh()) ==> IdsFresh())
      ensures old(outbox) <= outbox && old(eventQueue) <= eventQueue
      ensures Dispatched(t, handler, packet, senderId, now)
    {
      match handler
      case ReplyWithPong =>
        SendPong(t, senderId, now);
      case UpdateLatency =>
        UpdatePeerLatency(senderId, packet.header.timestamp, now);
      case AssignPeerId =>
        AssignLocalId(packet);
      case Callback(token) =>
        handlerCalls := handlerCalls + [HandlerCall(token, packet, senderId)];
    }

    /** The DISCONNECT case of HandleENetEvent. */
    method HandleDisconnect(h: PeerHandle)
      requires Valid()
      modifies `peers, `eventQueue
      ensures Valid() && (old(IdsFresh()) ==> IdsFresh())
      ensures old(isServer) && old(FindPeerByENetPeer(h)).None? ==> unchanged(this)
      ensures old(isServer) && old(FindPeerByENetPeer(h)).Some? ==>
        && peers == WithoutFirstHandle(old(peers), h)
        && eventQueue == old(eventQueue) + [NetworkEvent(ClientDisconnected, old(FindPeerByENetPeer(h)).value.id, MsgClientDisconnected)]
      ensures !old(isServer) && old(isClient) ==>
        eventQueue == old(eventQueue) + [NetworkEvent(ServerDisconnected, 0, MsgServerDisconnected)] && peers == old(peers)
      ensures !old(isServer) && !old(isClient) ==> unchanged(this)
    {
      if isServer {
        var found := FindPeerByENetPeer(h);
        if found.Some? {
          QueueEvent(NetworkEvent(ClientDisconnected, found.value.id, MsgClientDisconnected));
          RemovePeer(h);
        }
      } else if isClient {
        QueueEvent(NetworkEvent(ServerDisconnected, 0, MsgServerDisconnected));
      }
    }

    /** The RECEIVE case of HandleENetEvent. A datagram too short for a header throws in the
        source, is caught, and changes nothing. A packet whose type has a handler is dispatched to
        it; any other is queued as PACKET_RECEIVED. */
    method HandleReceive(t: Transport, h: PeerHandle, datagram: Option<seq<byte>>, now: u32)
      requires Valid()
      modifies `lastError, `bytesSent, `packetsSent, `outbox, `peers, `localPeerId, `eventQueue, `handlerCalls,
               `bytesReceived, `packetsReceived
      ensures Valid() && (old(IdsFresh()) ==> IdsFresh())
      ensures old(outbox) <= outbox && old(eventQueue) <= eventQueue
      ensures P.FromENetPacket(layout, datagram).None? ==> unchanged(this)
      ensures P.FromENetPacket(layout, datagram).Some? ==>
        && bytesReceived == AddU64(old(bytesReceived), |datagram.value|)
        && packetsReceived == AddU32(old(packetsReceived), 1)
      ensures P.FromENetPacket(layout, datagram).Some? && P.FromENetPacket(layout, datagram).value.header.typeId !in old(handlers) ==>
        && eventQueue == old(eventQueue) + [NetworkEvent(PacketReceived, old(SenderId(h)), "", P.FromENetPacket(layout, datagram).value)]
        && unchanged(`lastError, `bytesSent, `packetsSent, `peers, `outbox, `localPeerId, `handlerCalls)
      ensures P.FromENetPacket(layout, datagram).Some? && P.FromENetPacket(layout, datagram).value.header.typeId in old(handlers) ==>
        Dispatched(t, old(handlers)[P.FromENetPacket(layout, datagram).value.header.typeId],
                   P.FromENetPacket(layout, datagram).value, old(SenderId(h)), now)
    {
      var parsed := P.FromENetPacket(layout, datagram);
      if parsed.Some? {
        // The source advances the receive counters before running the handler; no handler of
        // this model reads them, so advancing them afterwards is not observable.
        Deliver(t, parsed.value, SenderId(h), now);
        CountReceived(|datagram.value|);
      }
    }

    /** Advances the receive counters by one datagram of `size` bytes. */
    method CountReceived(size: nat)
      modifies `bytesReceived, `packetsReceived
      ensures bytesReceived == AddU64(old(bytesReceived), size)
      ensures packetsReceived == AddU32(old(packetsReceived), 1)
    {
      bytesReceived := AddU64(bytesReceived, size);
      packetsReceived := AddU32(packetsReceived, 1);
    }

    /** A received packet whose type has a handler is dispatched to it; any other is queued as
        PACKET_RECEIVED with the sender's id. */
    method Deliver(t: Transport, packet: P.PacketValue, senderId: u32, now: u32)
      requires Valid()
      modifies `lastError, `bytesSent, `packetsSent, `outbox, `peers, `localPeerId, `eventQueue, `handlerCalls
      ensures Valid() && (old(IdsFresh()) ==> IdsFresh())
      ensures old(outbox) <= outbox && old(eventQueue) <= eventQueue
      ensures packet.header.typeId !in handlers ==>
        && eventQueue == old(eventQueue) + [NetworkEvent(PacketReceived, senderId, "", packet)]
        && unchanged(`lastError, `bytesSent, `packetsSent, `peers, `outbox, `localPeerId, `handlerCalls)
      ensures packet.header.typeId in handlers ==> Dispatched(t, handlers[packet.header.typeId], packet, senderId, now)
    {
      if packet.header.typeId in handlers {
        Dispatch(t, handlers[packet.header.typeId], packet, senderId, now);
      } else {
        QueueEvent(NetworkEvent(PacketReceived, senderId, "", packet));
      }
    }

    /** HandleENetEvent for one event returned by enet_host_service: its effect is EventStep's. */
    method HandleENetEvent(t: Transport, ev: ENetEvent, now: u32)
      requires Valid()
      modifies `lastError, `bytesSent, `packetsSent, `outbox, `peers, `localPeerId, `eventQueue, `handlerCalls,
               `nextPeerId, `bytesReceived, `packetsReceived
      ensures Valid()
      ensures nextPeerId == if ev.Connect? && old(isServer) then AddU32(old(nextPeerId), 1) else old(nextPeerId)
      ensures old(IdsFresh()) && old(nextPeerId) < 0xFFFF_FFFF ==> IdsFresh()
      ensures FrameNow() == EventStep(layout, SessionNow(), t, ev, now, old(FrameNow()))
    {
      match ev
      case NoEvent =>
      case Connect(h, address, port) =>
        if isServer {
          AddPeer(t, h, address, port, now);
        }
      case Disconnect(h) =>
        HandleDisconnect(h);
      case Receive(h, datagram) =>
        HandleReceive(t, h, datagram, now);
        ReceiveStep(layout, SessionNow(), t, h, datagram, now, old(FrameNow()), FrameNow());
    }

    /** ProcessEvents: every event ENet returns this frame is handled, in order, so the state
        the events change ends as the fold of EventStep over them. Events are only ever appended
        to the queue and datagrams to the outbox; ids stay fresh as long as the connections of
        the frame do not wrap the id counter. */
    method ProcessEvents(t: Transport, incoming: seq<ENetEvent>, now: u32)
      requires Valid()
      modifies `lastError, `bytesSent, `packetsSent, `outbox, `peers, `localPeerId, `eventQueue, `handlerCalls,
               `nextPeerId, `bytesReceived, `packetsReceived
      ensures Valid()
      ensures old(IdsFresh()) && old(nextPeerId) + |incoming| < 0xFFFF_FFFF ==> IdsFresh()
      ensures FrameNow() == Events(layout, SessionNow(), t, incoming, now, old(FrameNow()))
      ensures old(eventQueue) <= eventQueue && old(outbox) <= outbox
    {
      var i := 0;
      while i < |incoming|
        invariant 0 <= i <= |incoming|
        invariant Valid()
        invariant FrameNow() == Events(layout, SessionNow(), t, incoming[..i], now, old(FrameNow()))
        invariant old(IdsFresh()) && old(nextPeerId) + |incoming| < 0xFFFF_FFFF ==>
          IdsFresh() && old(nextPeerId) <= nextPeerId <= old(nextPeerId) + i
      {
        assert incoming[..i + 1][..i] == incoming[..i];
        HandleENetEvent(t, incoming[i], now);
        i := i + 1;
      }
      assert incoming[..|incoming|] == incoming;
      EventsAppendOnly(layout, SessionNow(), t, incoming, now, old(FrameNow()));
    }

    /** The state after the ping round has visited the first i entries of the table, starting
        from the outbox, counters and error text given. */
    ghost predicate PingedUpTo(r: Roles, t: Transport, d: P.ENetPacket, i: nat,
                               outbox0: seq<Outgoing>, packets0: u32, bytes0: u64, error0: string)
      requires i <= |r.peers|
      reads `outbox, `packetsSent, `bytesSent, `lastError
    {
      && outbox == outbox0 + PingsSentIn(r, t, r.peers[..i], d)
      && packetsSent == AddU32(packets0, |PingsSentIn(r, t, r.peers[..i], d)|)
      && bytesSent == AddU64(bytes0, DatagramBytes(PingsSentIn(r, t, r.peers[..i], d)))
      && lastError == if AnyPingRefusedIn(r, t, r.peers[..i]) then (if r.host.None? then ErrNoHost else ErrSendFailed) else error0
    }

    /** The ping round of Update: every entry marked connected is sent a PING with SendPacket, in
        table order; the counters advance once per accepted PING, and a refused one leaves the
        send-failure error. The byte counter grows by the length of the datagrams handed to ENet. */
    method PingConnectedPeers(t: Transport, now: u32)
      requires Valid()
      modifies `lastError, `bytesSent, `packetsSent, `outbox
      ensures outbox == old(outbox) + PingsSentIn(RolesNow(), t, peers, PingDatagram(now))
      ensures packetsSent == AddU32(old(packetsSent), |PingsSentIn(RolesNow(), t, peers, PingDatagram(now))|)
      ensures bytesSent == AddU64(old(bytesSent), DatagramBytes(PingsSentIn(RolesNow(), t, peers, PingDatagram(now))))
      ensures lastError ==
        if AnyPingRefusedIn(RolesNow(), t, peers) then (if host.None? then ErrNoHost else ErrSendFailed) else old(lastError)
    {
      ghost var r := RolesNow();
      for i := 0 to |peers|
        invariant PingedUpTo(r, t, PingDatagram(now), i, old(outbox), old(packetsSent), old(bytesSent), old(lastError))
      {
        PingOne(t, i, now, r, old(outbox), old(packetsSent), old(bytesSent), old(lastError));
      }
      assert peers[..|peers|] == peers;
    }

    /** The ping round's treatment of one entry: a PING through SendPacket if it is marked connected. */
    method PingEntry(t: Transport, p: PeerInfo, now: u32)
      requires Valid()
      modifies `lastError, `bytesSent, `packetsSent, `outbox
      ensures outbox == old(outbox) + PingStepIn(RolesNow(), t, p, PingDatagram(now))
      ensures packetsSent == AddU32(old(packetsSent), |PingStepIn(RolesNow(), t, p, PingDatagram(now))|)
      ensures bytesSent == AddU64(old(bytesSent), DatagramBytes(PingStepIn(RolesNow(), t, p, PingDatagram(now))))
      ensures lastError == if PingRefusedIn(RolesNow(), t, p) then (if host.None? then ErrNoHost else ErrSendFailed) else old(lastError)
    {
      if p.isConnected {
        SendPing(t, p.id, now);
      }
    }

    /** One step of the ping round: the entry at index i is pinged if it is marked connected. */
    method PingOne(t: Transport, i: nat, now: u32, ghost r: Roles,
                   ghost outbox0: seq<Outgoing>, ghost packets0: u32, ghost bytes0: u64, ghost error0: string)
      requires Valid() && r == RolesNow() && i < |peers|
      requires PingedUpTo(r, t, PingDatagram(now), i, outbox0, packets0, bytes0, error0)
      modifies `lastError, `bytesSent, `packetsSent, `outbox
      ensures PingedUpTo(r, t, PingDatagram(now), i + 1, outbox0, packets0, bytes0, error0)
    {
      ghost var d := PingDatagram(now);
      ghost var prev, step := PingsSentIn(r, t, peers[..i], d), PingStepIn(r, t, peers[i], d);
      assert peers[..i + 1][..i] == peers[..i];
      assert PingsSentIn(r, t, peers[..i + 1], d) == prev + step;
      assert AnyPingRefusedIn(r, t, peers[..i + 1]) == (AnyPingRefusedIn(r, t, peers[..i]) || PingRefusedIn(r, t, peers[i]));
      PingEntry(t, peers[i], now);
      AppendAssoc(outbox0, prev, step);
      CountersAppend(packets0, bytes0, prev, step);
    }

    /** Update: without a host nothing happens. Otherwise the frame's ENet events are handled
        (`handled` is the state they leave, the fold of EventStep over them), connected peers
        are pinged when more than 5000 ms (32-bit difference) passed since the last round, and
        then the event queue is handed over front to back and emptied: the callback sees every
        queued event exactly once, in order, or nothing when no callback is set. */
    method Update(t: Transport, incoming: seq<ENetEvent>, now: u32) returns (delivered: seq<NetworkEvent>, ghost handled: Frame)
      requires Valid()
      modifies `lastError, `bytesSent, `packetsSent, `outbox, `peers, `localPeerId, `eventQueue, `handlerCalls,
               `nextPeerId, `bytesReceived, `packetsReceived, `lastPingTime
      ensures Valid()
      ensures old(IdsFresh()) && old(nextPeerId) + |incoming| < 0xFFFF_FFFF ==> IdsFresh()
      ensures old(host).None? ==> unchanged(this) && delivered == []
      ensures old(host).Some? ==>
        && handled == Events(layout, SessionNow(), t, incoming, now, old(FrameNow()))
        && peers == handled.wire.peers && localPeerId == handled.wire.localPeerId
        && handlerCalls == handled.wire.handlerCalls && nextPeerId == handled.nextPeerId
        && bytesReceived == handled.bytesReceived && packetsReceived == handled.packetsReceived
        && eventQueue == [] && delivered == (if hasCallback then handled.wire.eventQueue else [])
      ensures old(host).Some? && SubU32(now, old(lastPingTime)) > 5000 ==>
        var pings := PingsSentIn(RolesNow(), t, peers, PingDatagram(now));
        && outbox == handled.wire.traffic.outbox + pings && lastPingTime == now
        && packetsSent == AddU32(handled.wire.traffic.packetsSent, |pings|)
        && bytesSent == AddU64(handled.wire.traffic.bytesSent, DatagramBytes(pings))
        && lastError == if AnyPingRefusedIn(RolesNow(), t, peers) then ErrSendFailed else handled.wire.traffic.lastError
      ensures old(host).Some? && SubU32(now, old(lastPingTime)) <= 5000 ==>
        TrafficNow() == handled.wire.traffic && lastPingTime == old(lastPingTime)
    {
      if host.None? {
        return [], old(FrameNow());
      }
      ProcessEvents(t, incoming, now);
      handled := FrameNow();
      delivered := PingAndDrain(t, now);
    }

    /** The part of Update after the ENet events: the ping round when it is due, then the event
        queue handed over in order and emptied. */
    method PingAndDrain(t: Transport, now: u32) returns (delivered: seq<NetworkEvent>)
      requires Valid()
      modifies `lastError, `bytesSent, `packetsSent, `outbox, `eventQueue, `lastPingTime
      ensures eventQueue == [] && delivered == (if hasCallback then old(eventQueue) else [])
      ensures SubU32(now, old(lastPingTime)) > 5000 ==> PingRoundSent(t, now) && lastPingTime == now
      ensures SubU32(now, old(lastPingTime)) <= 5000 ==> TrafficNow() == old(TrafficNow()) && lastPingTime == old(lastPingTime)
    {
      if SubU32(now, lastPingTime) > 5000 {
        PingConnectedPeers(t, now);
        lastPingTime := now;
      }
      var toProcess := eventQueue;
      eventQueue := [];
      delivered := DrainEvents(toProcess);
    }

    /** What the ping round did to the traffic: the PINGs ENet accepted went out and were
        counted, and a refused one left the send-failure error. */
    twostate predicate PingRoundSent(t: Transport, now: u32)
      requires P.WellFormedLayout(layout)
      reads `lastError, `bytesSent, `packetsSent, `outbox, `host, `isClient, `isServer, `serverPeer, `peers
    {
      var pings := PingsSentIn(RolesNow(), t, peers, PingDatagram(now));
      && outbox == old(outbox) + pings
      && packetsSent == AddU32(old(packetsSent), |pings|)
      && bytesSent == AddU64(old(bytesSent), DatagramBytes(pings))
      && lastError == if AnyPingRefusedIn(RolesNow(), t, peers) then (if host.None? then ErrNoHost else ErrSendFailed) else old(lastError)
    }

    /** The callback sees each queued event once, front to back. */
    method DrainEvents(events: seq<NetworkEvent>) returns (delivered: seq<NetworkEvent>)
      ensures hasCallback ==> delivered == events
      ensures !hasCallback ==> delivered == []
    {
      delivered := [];
      var rest := events;
      while rest != []
        invariant hasCallback ==> events == delivered + rest
        invariant !hasCallback ==> delivered == []
        decreases |rest|
      {
        if hasCallback {
          delivered := delivered + [rest[0]];
        }
        rest := rest[1..];
      }
    }

    /** DisconnectFromServer: only a client with a server peer acts. A non-empty reason is first
        sent as a DISCONNECT packet; ENet's wait for the acknowledgement is outside the model.
        SERVER_DISCONNECTED is both queued and, when a callback is set, delivered at once. */
    method DisconnectFromServer(t: Transport, now: u32, reason: ByteString := "") returns (immediate: Option<NetworkEvent>)
      requires Valid()
      modifies `lastError, `bytesSent, `packetsSent, `outbox, `host, `serverPeer, `isClient, `peers, `eventQueue
      ensures Valid() && (old(IdsFresh()) ==> IdsFresh())
      ensures !(old(isClient) && old(serverPeer).Some?) ==> unchanged(this) && immediate == None
      ensures old(isClient) && old(serverPeer).Some? ==>
        && host == None && serverPeer == None && !isClient && peers == []
        && eventQueue == old(eventQueue) + [NetworkEvent(ServerDisconnected, 0, reason)]
        && immediate == (if hasCallback then Some(NetworkEvent(ServerDisconnected, 0, reason)) else None)
      ensures old(isClient) && old(serverPeer).Some? && reason == "" ==> unchanged(`lastError, `bytesSent, `packetsSent, `outbox)
      ensures old(isClient) && old(serverPeer).Some? && reason != "" ==>
        SendEffect(t, P.NewPacket(P.Disconnect, now).Appended(P.EncodeString(reason)), 0, P.Reliable, 0)
    {
      immediate := None;
      if !isClient || serverPeer.None? {
        return;
      }
      SendDisconnectNotice(t, now, reason);
      immediate := LeaveServer(reason);
    }

    /** The DISCONNECT packet carrying the reason, sent to the server only when there is one. */
    method SendDisconnectNotice(t: Transport, now: u32, reason: ByteString)
      requires Valid()
      modifies `lastError, `bytesSent, `packetsSent, `outbox
      ensures reason == "" ==> unchanged(`lastError, `bytesSent, `packetsSent, `outbox)
      ensures reason != "" ==> SendEffect(t, P.NewPacket(P.Disconnect, now).Appended(P.EncodeString(reason)), 0, P.Reliable, 0)
    {
      if reason != "" {
        var packet := PF.CreateDisconnectPacket(reason, now);
        var ok := SendPacket(t, packet.Value(), 0, P.Reliable);
      }
    }

    /** The client drops its host and server peer, clears the peer table and queues
        SERVER_DISCONNECTED, which the callback also receives at once when one is set. */
    method LeaveServer(reason: ByteString) returns (immediate: Option<NetworkEvent>)
      requires Valid() && isClient
      modifies `host, `serverPeer, `isClient, `peers, `eventQueue
      ensures Valid() && (old(IdsFresh()) ==> IdsFresh())
      ensures host == None && serverPeer == None && !isClient && peers == []
      ensures eventQueue == old(eventQueue) + [NetworkEvent(ServerDisconnected, 0, reason)]
      ensures immediate == (if hasCallback then Some(NetworkEvent(ServerDisconnected, 0, reason)) else None)
    {
      host := None;
      serverPeer := None;
      isClient := false;
      peers := [];
      var e := NetworkEvent(ServerDisconnected, 0, reason);
      QueueEvent(e);
      immediate := if hasCallback then Some(e) else None;
    }

    /** Shutdown: stops the network thread and the server, disconnects a client, drops the host,
        and clears the peer table and the whole handler table (built-ins included). */
    method Shutdown(t: Transport, now: u32)
      requires Valid()
      modifies `initialized, `threadRunning, `handlers, `lastError, `bytesSent, `packetsSent, `outbox,
               `host, `serverPeer, `isServer, `isClient, `peers, `eventQueue
      ensures Valid() && (old(IdsFresh()) ==> IdsFresh())
      ensures !old(initialized) ==> unchanged(this)
      ensures old(initialized) ==>
        && !initialized && !threadRunning && host == None && peers == [] && handlers == map[]
        && !isServer && !isClient
      ensures old(initialized) && old(isServer) && old(host).Some? ==>
        eventQueue == old(eventQueue) + [NetworkEvent(ServerStopped)]
      ensures old(initialized) && old(IsClient()) && old(serverPeer).Some? ==>
        serverPeer == None && eventQueue == old(eventQueue) + [NetworkEvent(ServerDisconnected, 0, ShutdownReason)]
    {
      if !initialized {
        return;
      }
      threadRunning := false;
      StopServer();
      if IsClient() {
        var e := DisconnectFromServer(t, now, ShutdownReason);
      }
      host := None;
      peers := [];
      handlers := map[];
      initialized := false;
    }
  }

  /** As written, on an initialised manager holding no role, a connection request queued with
      ConnectToServer and serviced by the network thread after StartServer succeeded leaves the
      manager both server and client. */
  method ConnectRaceBothRoles(m: NetworkManager, address: string, port: u16,
                              serverHost: HostHandle, clientHost: HostHandle, serverPeer: PeerHandle)
    requires m.Valid() && m.initialized && m.threadRunning && !m.isServer && !m.isClient && !m.pending
    modifies m
    ensures m.isServer && m.isClient && m.IsServer() && m.IsClient()
  {
    var ok := m.ConnectToServer(address, port);
    assert m.pending;
    ok := m.StartServer(Some(serverHost), port);
    assert m.isServer && m.host == Some(serverHost);
    m.ServicePendingConnectionAsWritten(Connected, clientHost, serverPeer);
  }

  /** With the role check repeated when the request is serviced, the same sequence leaves a
      server only, and the request is dropped with the "already running" error. */
  method ConnectRaceServerOnly(m: NetworkManager, address: string, port: u16,
                               serverHost: HostHandle, clientHost: HostHandle, serverPeer: PeerHandle)
    requires m.Valid() && m.initialized && m.threadRunning && !m.isServer && !m.isClient && !m.pending
    modifies m
    ensures m.Valid() && m.isServer && !m.isClient && m.lastError == ErrAlreadyRunning && !m.pending
  {
    var ok := m.ConnectToServer(address, port);
    assert m.pending;
    ok := m.StartServer(Some(serverHost), port);
    assert m.isServer && m.host == Some(serverHost);
    m.ServicePendingConnection(Connected, clientHost, serverPeer);
  }
}
