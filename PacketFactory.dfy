// PacketFactory: each factory builds a packet of its own type and writes its payload.
// The clock reading (enet_time_get) is the parameter `now`.

module PacketFactory {
  import opened Base
  import P = Packet
  import opened PacketData

  method CreatePingPacket(now: u32) returns (p: P.Packet)
    ensures fresh(p) && p.Value() == P.NewPacket(P.Ping, now).Appended(P.LeU32(now))
  {
    p := new P.Packet.OfType(P.Ping, now);
    p.WriteUint32(now);
  }

  method CreatePongPacket(now: u32) returns (p: P.Packet)
    ensures fresh(p) && p.Value() == P.NewPacket(P.Pong, now).Appended(P.LeU32(now))
  {
    p := new P.Packet.OfType(P.Pong, now);
    p.WriteUint32(now);
  }

  method CreatePlayerMovePacket(m: PlayerMove, now: u32) returns (p: P.Packet)
    ensures fresh(p) && p.Value() == P.NewPacket(P.PlayerMove, now).Appended(m.Encode())
  {
    p := new P.Packet.OfType(P.PlayerMove, now);
    m.WriteTo(p);
  }

  method CreateChatPacket(m: ChatMessage, now: u32) returns (p: P.Packet)
    ensures fresh(p) && p.Value() == P.NewPacket(P.ChatMessage, now).Appended(m.Encode())
  {
    p := new P.Packet.OfType(P.ChatMessage, now);
    m.WriteTo(p);
  }

  method CreateEntityUpdatePacket(m: EntityUpdate, now: u32) returns (p: P.Packet)
    ensures fresh(p) && p.Value() == P.NewPacket(P.EntityUpdate, now).Appended(m.Encode())
  {
    p := new P.Packet.OfType(P.EntityUpdate, now);
    m.WriteTo(p);
  }

  method CreatePlayerJoinPacket(m: PlayerJoin, now: u32) returns (p: P.Packet)
    ensures fresh(p) && p.Value() == P.NewPacket(P.PlayerJoin, now).Appended(m.Encode())
  {
    p := new P.Packet.OfType(P.PlayerJoin, now);
    m.WriteTo(p);
  }

  /** The payload is one encoded string, the reason (which defaults to ""). */
  method CreateDisconnectPacket(reason: ByteString, now: u32) returns (p: P.Packet)
    ensures fresh(p) && p.Value() == P.NewPacket(P.Disconnect, now).Appended(P.EncodeString(reason))
  {
    p := new P.Packet.OfType(P.Disconnect, now);
    p.WriteString(reason);
  }

  method CreatePlayerLeavePacket(playerId: u32, now: u32) returns (p: P.Packet)
    ensures fresh(p) && p.Value() == P.NewPacket(P.PlayerLeave, now).Appended(P.LeU32(playerId))
  {
    p := new P.Packet.OfType(P.PlayerLeave, now);
    p.WriteUint32(playerId);
  }

  method CreatePeerIdAssignmentPacket(assignedPeerId: u32, now: u32) returns (p: P.Packet)
    ensures fresh(p) && p.Value() == PeerIdAssignmentPacket(assignedPeerId, now)
  {
    p := new P.Packet.OfType(P.PeerIdAssignment, now);
    p.WriteUint32(assignedPeerId);
  }

  /** The value CreatePeerIDAssignmentPacket builds. */
  function PeerIdAssignmentPacket(assignedPeerId: u32, now: u32): (v: P.PacketValue)
    ensures v.header.typeId == P.TypeId(P.PeerIdAssignment) && v.header.dataSize == 4
    ensures v.data == P.LeU32(assignedPeerId) && v.readPos == 0
  {
    P.NewPacket(P.PeerIdAssignment, now).Appended(P.LeU32(assignedPeerId))
  }

  /** The first u32 of a PEER_ID_ASSIGNMENT packet is the assigned id. */
  lemma PeerIdAssignmentReadsBack(assignedPeerId: u32, now: u32)
    ensures P.DecodeU32(PeerIdAssignmentPacket(assignedPeerId, now).data, 0) == P.Got(assignedPeerId, 4)
  {
    P.U32RoundTrip([], assignedPeerId, []);
  }

  /** A factory packet read back from the start yields the payload it was built from. */
  lemma {:induction false} PlayerMovePacketReadsBack(m: PlayerMove, now: u32)
    ensures DecodePlayerMove(P.NewPacket(P.PlayerMove, now).Appended(m.Encode()).data, 0) == P.Got(m, 24)
  {
    PlayerMoveRoundTrip([], m, []);
    assert P.NewPacket(P.PlayerMove, now).Appended(m.Encode()).data == [] + m.Encode() + [];
  }

  lemma {:induction false} DisconnectPacketReadsBack(reason: ByteString, now: u32)
    requires |reason| < 0x1_0000
    ensures P.DecodeString(P.NewPacket(P.Disconnect, now).Appended(P.EncodeString(reason)).data, 0)
         == P.Got(reason, 2 + |reason|)
  {
    P.StringRoundTrip([], reason, []);
    assert P.NewPacket(P.Disconnect, now).Appended(P.EncodeString(reason)).data == [] + P.EncodeString(reason) + [];
  }

  lemma PingPacketReadsBack(now: u32)
    ensures P.DecodeU32(P.NewPacket(P.Ping, now).Appended(P.LeU32(now)).data, 0) == P.Got(now, 4)
  {
    P.U32RoundTrip([], now, []);
  }

  lemma PongPacketReadsBack(now: u32)
    ensures P.DecodeU32(P.NewPacket(P.Pong, now).Appended(P.LeU32(now)).data, 0) == P.Got(now, 4)
  {
    P.U32RoundTrip([], now, []);
  }

  lemma {:induction false} ChatPacketReadsBack(m: ChatMessage, now: u32)
    requires |m.playerName| < 0x1_0000 && |m.message| < 0x1_0000
    ensures DecodeChatMessage(P.NewPacket(P.ChatMessage, now).Appended(m.Encode()).data, 0) == P.Got(m, |m.Encode()|)
  {
    ChatMessageRoundTrip([], m, []);
    assert P.NewPacket(P.ChatMessage, now).Appended(m.Encode()).data == [] + m.Encode() + [];
  }

  lemma {:induction false} EntityUpdatePacketReadsBack(m: EntityUpdate, now: u32)
    ensures DecodeEntityUpdate(P.NewPacket(P.EntityUpdate, now).Appended(m.Encode()).data, 0) == P.Got(m, 41)
  {
    EntityUpdateRoundTrip([], m, []);
    assert P.NewPacket(P.EntityUpdate, now).Appended(m.Encode()).data == [] + m.Encode() + [];
  }

  lemma {:induction false} PlayerJoinPacketReadsBack(m: PlayerJoin, now: u32)
    requires |m.playerName| < 0x1_0000
    ensures DecodePlayerJoin(P.NewPacket(P.PlayerJoin, now).Appended(m.Encode()).data, 0) == P.Got(m, |m.Encode()|)
  {
    PlayerJoinRoundTrip([], m, []);
    assert P.NewPacket(P.PlayerJoin, now).Appended(m.Encode()).data == [] + m.Encode() + [];
  }

  lemma PlayerLeavePacketReadsBack(playerId: u32, now: u32)
    ensures P.DecodeU32(P.NewPacket(P.PlayerLeave, now).Appended(P.LeU32(playerId)).data, 0) == P.Got(playerId, 4)
  {
    P.U32RoundTrip([], playerId, []);
  }
}
