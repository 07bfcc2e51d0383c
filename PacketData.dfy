// The game payloads carried in packets, their byte layout, and their
// WriteTo/ReadFrom against the mutable Packet.

module PacketData {
  import opened Base
  import P = Packet

  // ---------------------------------------------------------------- PlayerMove

  datatype PlayerMove = PlayerMove(playerId: u32, position: P.Vec2, velocity: P.Vec2, rotation: FloatBits)
  {
    /** WriteTo: id, position, velocity, rotation. */
    function Encode(): (b: seq<byte>)
      ensures |b| == 24
    {
      P.LeU32(playerId) + P.Vec2Bytes(position) + P.Vec2Bytes(velocity) + P.LeU32(rotation)
    }

    method WriteTo(p: P.Packet)
      modifies p
      ensures p.Value() == old(p.Value()).Appended(Encode())
    {
      ghost var v0 := p.Value();
      p.WriteUint32(playerId);
      p.WriteVec2(position);
      p.WriteVec2(velocity);
      p.WriteFloat(rotation);
      assert p.data == v0.data + Encode();
    }

    static method ReadFrom(p: P.Packet) returns (m: Option<PlayerMove>)
      modifies p
      ensures P.ReadStep(old(p.Value()), DecodePlayerMove(old(p.data), old(p.readPos)), m, p.Value())
    {
      var id := p.ReadUint32();
      if id.None? { return None; }
      var pos := p.ReadVec2();
      if pos.None? { return None; }
      var vel := p.ReadVec2();
      if vel.None? { return None; }
      var rot := p.ReadFloat();
      if rot.None? { return None; }
      m := Some(PlayerMove(id.value, pos.value, vel.value, rot.value));
    }
  }

  function DecodePlayerMove(d: seq<byte>, p: nat): (r: P.Read<PlayerMove>)
    ensures r.Got? <==> p + 24 <= |d|
    ensures r.Got? ==> r.next == p + 24
  {
    match P.DecodeU32(d, p)
    case Overflow => P.Overflow
    case Got(id, p1) =>
      match P.DecodeVec2(d, p1)
      case Overflow => P.Overflow
      case Got(pos, p2) =>
        match P.DecodeVec2(d, p2)
        case Overflow => P.Overflow
        case Got(vel, p3) =>
          match P.DecodeU32(d, p3)
          case Overflow => P.Overflow
          case Got(rot, p4) => P.Got(PlayerMove(id, pos, vel, rot), p4)
  }

  /** ReadFrom after WriteTo reproduces every field of a PlayerMove. */
  lemma {:induction false} PlayerMoveRoundTrip(pre: seq<byte>, m: PlayerMove, rest: seq<byte>)
    ensures DecodePlayerMove(pre + m.Encode() + rest, |pre|) == P.Got(m, |pre| + 24)
  {
    var d := pre + m.Encode() + rest;
    var a := P.LeU32(m.playerId);
    var b := P.Vec2Bytes(m.position);
    var c := P.Vec2Bytes(m.velocity);
    var e := P.LeU32(m.rotation);
    Regroup4(pre, a, b, c, e, rest);
    P.U32RoundTrip(pre, m.playerId, b + c + e + rest);
    assert P.DecodeU32(d, |pre|) == P.Got(m.playerId, |pre| + 4);
    P.Vec2RoundTrip(pre + a, m.position, c + e + rest);
    assert P.DecodeVec2(d, |pre| + 4) == P.Got(m.position, |pre| + 12);
    P.Vec2RoundTrip(pre + a + b, m.velocity, e + rest);
    assert P.DecodeVec2(d, |pre| + 12) == P.Got(m.velocity, |pre| + 20);
    P.U32RoundTrip(pre + a + b + c, m.rotation, rest);
    assert P.DecodeU32(d, |pre| + 20) == P.Got(m.rotation, |pre| + 24);
  }

  // ---------------------------------------------------------------- ChatMessage

  datatype ChatMessage = ChatMessage(playerId: u32, playerName: ByteString, message: ByteString)
  {
    /** WriteTo: id, name, message. */
    function Encode(): (b: seq<byte>)
      ensures |b| == 8 + |playerName| + |message|
    {
      P.LeU32(playerId) + P.EncodeString(playerName) + P.EncodeString(message)
    }

    method WriteTo(p: P.Packet)
      modifies p
      ensures p.Value() == old(p.Value()).Appended(Encode())
    {
      ghost var v0 := p.Value();
      p.WriteUint32(playerId);
      p.WriteString(playerName);
      p.WriteString(message);
      assert p.data == v0.data + Encode();
    }

    static method ReadFrom(p: P.Packet) returns (m: Option<ChatMessage>)
      modifies p
      ensures P.ReadStep(old(p.Value()), DecodeChatMessage(old(p.data), old(p.readPos)), m, p.Value())
    {
      var id := p.ReadUint32();
      if id.None? { return None; }
      var name := p.ReadString();
      if name.None? { return None; }
      var msg := p.ReadString();
      if msg.None? { return None; }
      m := Some(ChatMessage(id.value, name.value, msg.value));
    }
  }

  function DecodeChatMessage(d: seq<byte>, p: nat): (r: P.Read<ChatMessage>)
    ensures r.Got? ==> p + 8 <= r.next <= |d|
  {
    match P.DecodeU32(d, p)
    case Overflow => P.Overflow
    case Got(id, p1) =>
      match P.DecodeString(d, p1)
      case Overflow => P.Overflow
      case Got(name, p2) =>
        match P.DecodeString(d, p2)
        case Overflow => P.Overflow
        case Got(msg, p3) => P.Got(ChatMessage(id, name, msg), p3)
  }

  /** ReadFrom after WriteTo reproduces every field of a ChatMessage whose strings are shorter than 65536 characters. */
  lemma {:induction false} ChatMessageRoundTrip(pre: seq<byte>, m: ChatMessage, rest: seq<byte>)
    requires |m.playerName| < 0x1_0000 && |m.message| < 0x1_0000
    ensures DecodeChatMessage(pre + m.Encode() + rest, |pre|) == P.Got(m, |pre| + |m.Encode()|)
  {
    var d := pre + m.Encode() + rest;
    var a := P.LeU32(m.playerId);
    var b := P.EncodeString(m.playerName);
    var c := P.EncodeString(m.message);
    Regroup3(pre, a, b, c, rest);
    P.U32RoundTrip(pre, m.playerId, b + c + rest);
    assert P.DecodeU32(d, |pre|) == P.Got(m.playerId, |pre| + 4);
    P.StringRoundTrip(pre + a, m.playerName, c + rest);
    assert P.DecodeString(d, |pre| + 4) == P.Got(m.playerName, |pre| + 4 + |b|);
    P.StringRoundTrip(pre + a + b, m.message, rest);
    assert P.DecodeString(d, |pre| + 4 + |b|) == P.Got(m.message, |pre| + 4 + |b| + |c|);
  }

  // ---------------------------------------------------------------- EntityUpdate

  datatype EntityUpdate = EntityUpdate(entityId: u32, position: P.Vec3, rotation: P.Vec3, scale: P.Vec3, isVisible: bool)
  {
    /** WriteTo: id, position, rotation, scale, then isVisible as the byte 1 or 0. */
    function Encode(): (b: seq<byte>)
      ensures |b| == 41
      ensures b[40] == (if isVisible then 1 else 0)
    {
      P.LeU32(entityId) + P.Vec3Bytes(position) + P.Vec3Bytes(rotation) + P.Vec3Bytes(scale)
        + [if isVisible then 1 else 0]
    }

    method WriteTo(p: P.Packet)
      modifies p
      ensures p.Value() == old(p.Value()).Appended(Encode())
    {
      ghost var v0 := p.Value();
      p.WriteUint32(entityId);
      p.WriteVec3(position);
      ghost var pre := P.LeU32(entityId) + P.Vec3Bytes(position);
      assert p.data == v0.data + pre;
      p.WriteVec3(rotation);
      p.WriteVec3(scale);
      ghost var mid := pre + P.Vec3Bytes(rotation) + P.Vec3Bytes(scale);
      assert p.data == v0.data + mid;
      p.WriteUint8(if isVisible then 1 else 0);
      assert p.data == v0.data + Encode();
    }

    static method ReadFrom(p: P.Packet) returns (m: Option<EntityUpdate>)
      modifies p
      ensures P.ReadStep(old(p.Value()), DecodeEntityUpdate(old(p.data), old(p.readPos)), m, p.Value())
    {
      var id := p.ReadUint32();
      if id.None? { return None; }
      var pos := p.ReadVec3();
      if pos.None? { return None; }
      var rot := p.ReadVec3();
      if rot.None? { return None; }
      var scl := p.ReadVec3();
      if scl.None? { return None; }
      var vis := p.ReadUint8();
      if vis.None? { return None; }
      m := Some(EntityUpdate(id.value, pos.value, rot.value, scl.value, vis.value != 0));
    }
  }

  /** ReadFrom: isVisible is true for any nonzero byte. */
  function DecodeEntityUpdate(d: seq<byte>, p: nat): (r: P.Read<EntityUpdate>)
    ensures r.Got? <==> p + 41 <= |d|
    ensures r.Got? ==> r.next == p + 41 && (r.value.isVisible <==> d[p + 40] != 0)
  {
    match P.DecodeU32(d, p)
    case Overflow => P.Overflow
    case Got(id, p1) =>
      match P.DecodeVec3(d, p1)
      case Overflow => P.Overflow
      case Got(pos, p2) =>
        match P.DecodeVec3(d, p2)
        case Overflow => P.Overflow
        case Got(rot, p3) =>
          match P.DecodeVec3(d, p3)
          case Overflow => P.Overflow
          case Got(scl, p4) =>
            match P.DecodeU8(d, p4)
            case Overflow => P.Overflow
            case Got(vis, p5) => P.Got(EntityUpdate(id, pos, rot, scl, vis != 0), p5)
  }

  lemma {:induction false} EntityUpdateRoundTrip(pre: seq<byte>, m: EntityUpdate, rest: seq<byte>)
    ensures DecodeEntityUpdate(pre + m.Encode() + rest, |pre|) == P.Got(m, |pre| + 41)
  {
    var d := pre + m.Encode() + rest;
    var a := P.LeU32(m.entityId);
    var b := P.Vec3Bytes(m.position);
    var c := P.Vec3Bytes(m.rotation);
    var e := P.Vec3Bytes(m.scale);
    var f: seq<byte> := [if m.isVisible then 1 else 0];
    Regroup5(pre, a, b, c, e, f, rest);
    P.U32RoundTrip(pre, m.entityId, b + c + e + f + rest);
    assert P.DecodeU32(d, |pre|) == P.Got(m.entityId, |pre| + 4);
    P.Vec3RoundTrip(pre + a, m.position, c + e + f + rest);
    assert P.DecodeVec3(d, |pre| + 4) == P.Got(m.position, |pre| + 16);
    P.Vec3RoundTrip(pre + a + b, m.rotation, e + f + rest);
    assert P.DecodeVec3(d, |pre| + 16) == P.Got(m.rotation, |pre| + 28);
    P.Vec3RoundTrip(pre + a + b + c, m.scale, f + rest);
    assert P.DecodeVec3(d, |pre| + 28) == P.Got(m.scale, |pre| + 40);
    assert d[|pre| + 40] == f[0];
  }

  // ---------------------------------------------------------------- PlayerJoin

  datatype PlayerJoin = PlayerJoin(playerId: u32, playerName: ByteString, spawnPosition: P.Vec2)
  {
    /** WriteTo: id, name, spawn position. */
    function Encode(): (b: seq<byte>)
      ensures |b| == 14 + |playerName|
    {
      P.LeU32(playerId) + P.EncodeString(playerName) + P.Vec2Bytes(spawnPosition)
    }

    method WriteTo(p: P.Packet)
      modifies p
      ensures p.Value() == old(p.Value()).Appended(Encode())
    {
      ghost var v0 := p.Value();
      p.WriteUint32(playerId);
      p.WriteString(playerName);
      p.WriteVec2(spawnPosition);
      assert p.data == v0.data + Encode();
    }

    static method ReadFrom(p: P.Packet) returns (m: Option<PlayerJoin>)
      modifies p
      ensures P.ReadStep(old(p.Value()), DecodePlayerJoin(old(p.data), old(p.readPos)), m, p.Value())
    {
      var id := p.ReadUint32();
      if id.None? { return None; }
      var name := p.ReadString();
      if name.None? { return None; }
      var pos := p.ReadVec2();
      if pos.None? { return None; }
      m := Some(PlayerJoin(id.value, name.value, pos.value));
    }
  }

  function DecodePlayerJoin(d: seq<byte>, p: nat): (r: P.Read<PlayerJoin>)
    ensures r.Got? ==> p + 14 <= r.next <= |d|
  {
    match P.DecodeU32(d, p)
    case Overflow => P.Overflow
    case Got(id, p1) =>
      match P.DecodeString(d, p1)
      case Overflow => P.Overflow
      case Got(name, p2) =>
        match P.DecodeVec2(d, p2)
        case Overflow => P.Overflow
        case Got(pos, p3) => P.Got(PlayerJoin(id, name, pos), p3)
  }

  lemma {:induction false} PlayerJoinRoundTrip(pre: seq<byte>, m: PlayerJoin, rest: seq<byte>)
    requires |m.playerName| < 0x1_0000
    ensures DecodePlayerJoin(pre + m.Encode() + rest, |pre|) == P.Got(m, |pre| + |m.Encode()|)
  {
    var d := pre + m.Encode() + rest;
    var a := P.LeU32(m.playerId);
    var b := P.EncodeString(m.playerName);
    var c := P.Vec2Bytes(m.spawnPosition);
    Regroup3(pre, a, b, c, rest);
    P.U32RoundTrip(pre, m.playerId, b + c + rest);
    assert P.DecodeU32(d, |pre|) == P.Got(m.playerId, |pre| + 4);
    P.StringRoundTrip(pre + a, m.playerName, c + rest);
    assert P.DecodeString(d, |pre| + 4) == P.Got(m.playerName, |pre| + 4 + |b|);
    P.Vec2RoundTrip(pre + a + b, m.spawnPosition, rest);
    assert P.DecodeVec2(d, |pre| + 4 + |b|) == P.Got(m.spawnPosition, |pre| + 12 + |b|);
  }

  // ---------------------------------------------------------------- PeerIDAssignment

  datatype PeerIdAssignment = PeerIdAssignment(assignedPeerId: u32)
  {
    /** WriteTo: the id's four little-endian bytes. */
    function Encode(): (b: seq<byte>)
      ensures |b| == 4
    {
      P.LeU32(assignedPeerId)
    }

    method WriteTo(p: P.Packet)
      modifies p
      ensures p.Value() == old(p.Value()).Appended(Encode())
    {
      p.WriteUint32(assignedPeerId);
    }

    static method ReadFrom(p: P.Packet) returns (m: Option<PeerIdAssignment>)
      modifies p
      ensures P.ReadStep(old(p.Value()), DecodePeerIdAssignment(old(p.data), old(p.readPos)), m, p.Value())
    {
      var id := p.ReadUint32();
      if id.None? { return None; }
      m := Some(PeerIdAssignment(id.value));
    }
  }

  function DecodePeerIdAssignment(d: seq<byte>, p: nat): (r: P.Read<PeerIdAssignment>)
    ensures r.Got? <==> p + 4 <= |d|
    ensures r.Got? ==> r.next == p + 4
  {
    match P.DecodeU32(d, p)
    case Overflow => P.Overflow
    case Got(id, p1) => P.Got(PeerIdAssignment(id), p1)
  }

  lemma {:induction false} PeerIdAssignmentRoundTrip(pre: seq<byte>, m: PeerIdAssignment, rest: seq<byte>)
    ensures DecodePeerIdAssignment(pre + m.Encode() + rest, |pre|) == P.Got(m, |pre| + 4)
  {
    P.U32RoundTrip(pre, m.assignedPeerId, rest);
  }
}
