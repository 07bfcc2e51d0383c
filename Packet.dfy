// The network packet: message kinds, the header, the little-endian payload
// codec, and the mutable Packet buffer with its read cursor.

module Packet {
  import opened Base

  /** Message kinds. The C++ enumeration has an 8-bit underlying type. */
  datatype PacketType =
    | Handshake | Disconnect | Ping | Pong | PeerIdAssignment
    | PlayerMove | PlayerPositionUpdate | PlayerJoin | PlayerLeave
    | GameStateUpdate | EntitySpawn | EntityDestroy | EntityUpdate
    | ChatMessage | CustomGameEvent

  /** The wire identifier of each message kind. */
  function TypeId(t: PacketType): (id: byte)
    ensures id <= 13 || id == 100
  {
    match t
    case Handshake => 0
    case Disconnect => 1
    case Ping => 2
    case Pong => 3
    case PeerIdAssignment => 4
    case PlayerMove => 5
    case PlayerPositionUpdate => 6
    case PlayerJoin => 7
    case PlayerLeave => 8
    case GameStateUpdate => 9
    case EntitySpawn => 10
    case EntityDestroy => 11
    case EntityUpdate => 12
    case ChatMessage => 13
    case CustomGameEvent => 100
  }

  /** The enumerator named by a wire identifier, if there is one. */
  function TypeOfId(id: byte): (t: Option<PacketType>)
    ensures t.Some? <==> id <= 13 || id == 100
    ensures t.Some? ==> TypeId(t.value) == id
  {
    if id == 100 then Some(CustomGameEvent)
    else if id > 13 then None
    else Some([Handshake, Disconnect, Ping, Pong, PeerIdAssignment, PlayerMove,
               PlayerPositionUpdate, PlayerJoin, PlayerLeave, GameStateUpdate,
               EntitySpawn, EntityDestroy, EntityUpdate, ChatMessage][id])
  }

  /** Identifiers are HANDSHAKE..CHAT_MESSAGE = 0..13 in declaration order and CUSTOM_GAME_EVENT = 100,
      so distinct kinds never share an identifier. */
  lemma TypeIdRoundTrip(t: PacketType)
    ensures TypeOfId(TypeId(t)) == Some(t)
  {
  }

  lemma TypeIdInjective(t1: PacketType, t2: PacketType)
    requires TypeId(t1) == TypeId(t2)
    ensures t1 == t2
  {
    TypeIdRoundTrip(t1);
    TypeIdRoundTrip(t2);
  }

  datatype PacketReliability = Unreliable | Reliable | Unsequenced

  /** ENet's packet flags: ENET_PACKET_FLAG_RELIABLE is bit 0, ENET_PACKET_FLAG_UNSEQUENCED bit 1. */
  const FlagReliable: u32 := 1
  const FlagUnsequenced: u32 := 2

  /** The flags CreateENetPacket passes to ENet for a reliability mode. */
  function ReliabilityFlags(r: PacketReliability): (flags: u32)
    ensures r == Reliable <==> flags == FlagReliable
    ensures r == Unreliable <==> flags == 0
    ensures r == Unsequenced <==> flags == FlagUnsequenced
  {
    match r
    case Reliable => FlagReliable
    case Unreliable => 0
    case Unsequenced => FlagUnsequenced
  }

  /** The header. `typeId` is the raw byte of the PacketType field: a header copied in from
      the network can carry any byte there. */
  datatype PacketHeader = PacketHeader(typeId: byte, timestamp: u32, dataSize: u32)

  /** PacketHeader(): type PING, timestamp 0, dataSize 0. */
  const DefaultHeader: PacketHeader := PacketHeader(TypeId(Ping), 0, 0)

  /** The in-memory layout of the header struct, which is copied to and from the wire as raw
      bytes. Its size and byte order are the compiler's; the model fixes only that every header
      occupies `size` bytes and that copying those bytes back reproduces the header. */
  datatype HeaderLayout = HeaderLayout(size: nat, encode: PacketHeader -> seq<byte>, decode: seq<byte> -> PacketHeader)

  ghost predicate WellFormedLayout(l: HeaderLayout)
  {
    && (forall h :: |l.encode(h)| == l.size)
    && (forall h :: l.decode(l.encode(h)) == h)
  }

  // ---------------------------------------------------------------- payload codec

  /** WriteUint16's bytes: least significant first. */
  function LeU16(v: u16): (b: seq<byte>)
    ensures |b| == 2
  {
    [v % 0x100, v / 0x100]
  }

  /** WriteUint32's bytes: least significant first. */
  function LeU32(v: u32): (b: seq<byte>)
    ensures |b| == 4
  {
    [v % 0x100, (v / 0x100) % 0x100, (v / 0x100 / 0x100) % 0x100, v / 0x100 / 0x100 / 0x100]
  }

  /** The characters of a string as bytes. */
  function StringBytes(s: ByteString): (b: seq<byte>)
    ensures |b| == |s|
    ensures forall i | 0 <= i < |s| :: b[i] == s[i] as int
  {
    seq(|s|, i requires 0 <= i < |s| => s[i] as int)
  }

  /** The string whose characters are the given bytes. */
  function BytesString(b: seq<byte>): (s: ByteString)
    ensures |s| == |b|
    ensures forall i | 0 <= i < |b| :: s[i] as int == b[i]
  {
    seq(|b|, i requires 0 <= i < |b| => b[i] as char)
  }

  lemma StringBytesRoundTrip(s: ByteString)
    ensures BytesString(StringBytes(s)) == s
  {
    assert forall i | 0 <= i < |s| :: BytesString(StringBytes(s))[i] == s[i];
  }

  /** WriteString's bytes: the length cast to 16 bits, then the characters. */
  function EncodeString(s: ByteString): (b: seq<byte>)
    ensures |b| == 2 + |s|
  {
    LeU16(|s| % 0x1_0000) + StringBytes(s)
  }

  /** The outcome of reading a value at a cursor: the value and the cursor after it, or a read past the end. */
  datatype Read<T> = Got(value: T, next: nat) | Overflow

  /** ReadUint8 at cursor p. */
  function DecodeU8(d: seq<byte>, p: nat): (r: Read<byte>)
    ensures r.Got? <==> p < |d|
    ensures r.Got? ==> r.value == d[p] && r.next == p + 1
  {
    if p < |d| then Got(d[p], p + 1) else Overflow
  }

  /** ReadUint16 at cursor p: two bytes, least significant first. */
  function DecodeU16(d: seq<byte>, p: nat): (r: Read<u16>)
    ensures r.Got? <==> p + 2 <= |d|
    ensures r.Got? ==> r.next == p + 2
  {
    if p + 2 <= |d| then Got(d[p] as int + 0x100 * (d[p + 1] as int), p + 2) else Overflow
  }

  /** ReadUint32 at cursor p: four bytes, least significant first. */
  function DecodeU32(d: seq<byte>, p: nat): (r: Read<u32>)
    ensures r.Got? <==> p + 4 <= |d|
    ensures r.Got? ==> r.next == p + 4
  {
    if p + 4 <= |d| then
      Got(d[p] as int + 0x100 * (d[p + 1] as int) + 0x1_0000 * (d[p + 2] as int) + 0x100_0000 * (d[p + 3] as int), p + 4)
    else Overflow
  }

  /** ReadString at cursor p: a 16-bit length, then that many characters. */
  function DecodeString(d: seq<byte>, p: nat): (r: Read<ByteString>)
    ensures r.Got? ==> p + 2 <= r.next <= |d| && |r.value| == r.next - p - 2
  {
    match DecodeU16(d, p)
    case Overflow => Overflow
    case Got(n, q) => if q + n <= |d| then Got(BytesString(d[q..q + n]), q + n) else Overflow
  }

  lemma {:induction false} U16RoundTrip(pre: seq<byte>, v: u16, rest: seq<byte>)
    ensures DecodeU16(pre + LeU16(v) + rest, |pre|) == Got(v, |pre| + 2)
  {
    var d := pre + LeU16(v) + rest;
    assert d[|pre|] == v % 0x100 && d[|pre| + 1] == v / 0x100;
  }

  lemma {:induction false} U32RoundTrip(pre: seq<byte>, v: u32, rest: seq<byte>)
    ensures DecodeU32(pre + LeU32(v) + rest, |pre|) == Got(v, |pre| + 4)
  {
    var d := pre + LeU32(v) + rest;
    var p := |pre|;
    assert d[p] == v % 0x100;
    assert d[p + 1] == (v / 0x100) % 0x100;
    assert d[p + 2] == (v / 0x100 / 0x100) % 0x100;
    assert d[p + 3] == v / 0x100 / 0x100 / 0x100;
    var q1 := v / 0x100;
    var q2 := q1 / 0x100;
    assert v == v % 0x100 + 0x100 * q1;
    assert q1 == q1 % 0x100 + 0x100 * q2;
    assert q2 == q2 % 0x100 + 0x100 * (q2 / 0x100);
  }

  /** ReadString returns any string shorter than 65536 characters that WriteString wrote. */
  lemma {:induction false} StringRoundTrip(pre: seq<byte>, s: ByteString, rest: seq<byte>)
    requires |s| < 0x1_0000
    ensures DecodeString(pre + EncodeString(s) + rest, |pre|) == Got(s, |pre| + 2 + |s|)
  {
    var d := pre + EncodeString(s) + rest;
    assert d == pre + LeU16(|s|) + (StringBytes(s) + rest);
    U16RoundTrip(pre, |s|, StringBytes(s) + rest);
    var q := |pre| + 2;
    assert d[q..q + |s|] == StringBytes(s);
    StringBytesRoundTrip(s);
  }

  /** A string of 65536 characters or more is written with a truncated length, and reading it
      back yields only the first |s| mod 65536 characters. */
  lemma {:induction false} LongStringTruncates(s: ByteString)
    requires |s| >= 0x1_0000
    ensures DecodeString(EncodeString(s), 0).Got?
    ensures DecodeString(EncodeString(s), 0).value == s[..|s| % 0x1_0000]
  {
    var d := EncodeString(s);
    var n := |s| % 0x1_0000;
    assert d == [] + LeU16(n) + StringBytes(s);
    U16RoundTrip([], n, StringBytes(s));
    assert d[2..2 + n] == StringBytes(s[..n]);
    StringBytesRoundTrip(s[..n]);
  }

  /** glm vectors of floats, as bit patterns. */
  datatype Vec2 = Vec2(x: FloatBits, y: FloatBits)
  datatype Vec3 = Vec3(x: FloatBits, y: FloatBits, z: FloatBits)

  function Vec2Bytes(v: Vec2): (b: seq<byte>)
    ensures |b| == 8
  {
    LeU32(v.x) + LeU32(v.y)
  }

  function Vec3Bytes(v: Vec3): (b: seq<byte>)
    ensures |b| == 12
  {
    LeU32(v.x) + LeU32(v.y) + LeU32(v.z)
  }

  function DecodeVec2(d: seq<byte>, p: nat): (r: Read<Vec2>)
    ensures r.Got? <==> p + 8 <= |d|
    ensures r.Got? ==> r.next == p + 8
  {
    match DecodeU32(d, p)
    case Overflow => Overflow
    case Got(x, p1) =>
      match DecodeU32(d, p1)
      case Overflow => Overflow
      case Got(y, p2) => Got(Vec2(x, y), p2)
  }

  function DecodeVec3(d: seq<byte>, p: nat): (r: Read<Vec3>)
    ensures r.Got? <==> p + 12 <= |d|
    ensures r.Got? ==> r.next == p + 12
  {
    match DecodeU32(d, p)
    case Overflow => Overflow
    case Got(x, p1) =>
      match DecodeU32(d, p1)
      case Overflow => Overflow
      case Got(y, p2) =>
        match DecodeU32(d, p2)
        case Overflow => Overflow
        case Got(z, p3) => Got(Vec3(x, y, z), p3)
  }

  lemma {:induction false} Vec2RoundTrip(pre: seq<byte>, v: Vec2, rest: seq<byte>)
    ensures DecodeVec2(pre + Vec2Bytes(v) + rest, |pre|) == Got(v, |pre| + 8)
  {
    var d := pre + Vec2Bytes(v) + rest;
    assert d == pre + LeU32(v.x) + (LeU32(v.y) + rest);
    U32RoundTrip(pre, v.x, LeU32(v.y) + rest);
    assert d == (pre + LeU32(v.x)) + LeU32(v.y) + rest;
    U32RoundTrip(pre + LeU32(v.x), v.y, rest);
  }

  lemma {:induction false} Vec3RoundTrip(pre: seq<byte>, v: Vec3, rest: seq<byte>)
    ensures DecodeVec3(pre + Vec3Bytes(v) + rest, |pre|) == Got(v, |pre| + 12)
  {
    var d := pre + Vec3Bytes(v) + rest;
    assert d == pre + LeU32(v.x) + (LeU32(v.y) + LeU32(v.z) + rest);
    U32RoundTrip(pre, v.x, LeU32(v.y) + LeU32(v.z) + rest);
    assert d == (pre + LeU32(v.x)) + LeU32(v.y) + (LeU32(v.z) + rest);
    U32RoundTrip(pre + LeU32(v.x), v.y, LeU32(v.z) + rest);
    assert d == (pre + LeU32(v.x) + LeU32(v.y)) + LeU32(v.z) + rest;
    U32RoundTrip(pre + LeU32(v.x) + LeU32(v.y), v.z, rest);
  }

  // ---------------------------------------------------------------- packet values

  /** A packet as a value: header, payload and read cursor. */
  datatype PacketValue = PacketValue(header: PacketHeader, data: seq<byte>, readPos: nat)
  {
    /** The packet after a write of `b`: payload extended and the header's dataSize refreshed. */
    function Appended(b: seq<byte>): (r: PacketValue)
      ensures r.data == data + b && r.readPos == readPos
      ensures r.header.typeId == header.typeId && r.header.timestamp == header.timestamp
      ensures r.SizeInSync()
    {
      PacketValue(header.(dataSize := (|data| + |b|) % 0x1_0000_0000), data + b, readPos)
    }

    /** The header's dataSize is the payload length cast to 32 bits, as UpdateHeader leaves it. */
    predicate SizeInSync()
    {
      header.dataSize == |data| % 0x1_0000_0000
    }

    /** GetTotalSize: header bytes plus payload bytes. */
    function TotalSize(l: HeaderLayout): (n: nat)
      ensures n >= l.size && n - l.size == |data|
    {
      l.size + |data|
    }

    /** GetRawData: the header's raw bytes followed by the payload. */
    function RawData(l: HeaderLayout): (b: seq<byte>)
      requires WellFormedLayout(l)
      ensures |b| == TotalSize(l)
      ensures b[..l.size] == l.encode(header) && b[l.size..] == data
    {
      l.encode(header) + data
    }
  }

  lemma {:induction false} AppendedTwice(v: PacketValue, a: seq<byte>, b: seq<byte>)
    ensures v.Appended(a).Appended(b) == v.Appended(a + b)
  {
    assert v.data + a + b == v.data + (a + b);
  }

  /** A packet as `Packet(type)` builds it: that type, the clock reading, an empty payload. */
  function NewPacket(t: PacketType, now: u32): (p: PacketValue)
    ensures p.header.typeId == TypeId(t) && p.header.timestamp == now
    ensures p.data == [] && p.readPos == 0 && p.SizeInSync()
  {
    PacketValue(PacketHeader(TypeId(t), now, 0), [], 0)
  }

  /** The datagram handed to ENet: raw bytes and flags. */
  datatype ENetPacket = ENetPacket(bytes: seq<byte>, flags: u32)

  /** CreateENetPacket: header bytes then payload, GetTotalSize bytes long, with the reliability flags. */
  function CreateENetPacket(l: HeaderLayout, p: PacketValue, r: PacketReliability): (e: ENetPacket)
    requires WellFormedLayout(l)
    ensures |e.bytes| == p.TotalSize(l) && e.flags == ReliabilityFlags(r)
  {
    ENetPacket(p.RawData(l), ReliabilityFlags(r))
  }

  /** FromENetPacket on a received datagram (None is a null packet). A datagram shorter than
      the header is rejected (the C++ throws); otherwise the header is copied from the leading
      bytes without checking its dataSize against the payload. */
  function FromENetPacket(l: HeaderLayout, datagram: Option<seq<byte>>): (r: Option<PacketValue>)
    ensures r.Some? <==> datagram.Some? && |datagram.value| >= l.size
    ensures r.Some? ==> r.value.readPos == 0 && datagram.value == datagram.value[..l.size] + r.value.data
    ensures r.Some? ==> r.value.header == l.decode(datagram.value[..l.size])
  {
    match datagram
    case None => None
    case Some(b) => if |b| < l.size then None else Some(PacketValue(l.decode(b[..l.size]), b[l.size..], 0))
  }

  /** A datagram built by CreateENetPacket is parsed back to the same header and payload, cursor 0. */
  lemma DatagramRoundTrip(l: HeaderLayout, p: PacketValue, r: PacketReliability)
    requires WellFormedLayout(l)
    ensures FromENetPacket(l, Some(CreateENetPacket(l, p, r).bytes)) == Some(p.(readPos := 0))
  {
    var b := CreateENetPacket(l, p, r).bytes;
    assert b[..l.size] == l.encode(p.header);
  }

  // ---------------------------------------------------------------- the mutable packet

  /** A read step: header and payload unchanged; on success the value is returned and the cursor
      moves past it; on a read past the end nothing is returned and the cursor stands at
      max(cursor, payload length), because reads consume byte by byte until the one that fails. */
  predicate ReadStep<T(==)>(before: PacketValue, r: Read<T>, v: Option<T>, after: PacketValue)
  {
    && after.header == before.header && after.data == before.data
    && match r
       case Got(x, n) => v == Some(x) && after.readPos == n
       case Overflow => v == None && after.readPos == Max(before.readPos, |before.data|)
  }

  class Packet {
    var header: PacketHeader
    var data: seq<byte>
    var readPos: nat

    function Value(): PacketValue
      reads this
    {
      PacketValue(header, data, readPos)
    }

    /** Packet(): default header, empty payload, cursor 0. */
    constructor ()
      ensures Value() == PacketValue(DefaultHeader, [], 0)
    {
      header := DefaultHeader;
      data := [];
      readPos := 0;
    }

    /** Packet(type): the header carries the type and the clock reading `now`; dataSize 0. */
    constructor OfType(t: PacketType, now: u32)
      ensures Value() == NewPacket(t, now)
    {
      header := PacketHeader(TypeId(t), now, 0);
      data := [];
      readPos := 0;
    }

    /** A copy of a packet value. */
    constructor FromValue(v: PacketValue)
      ensures Value() == v
    {
      header := v.header;
      data := v.data;
      readPos := v.readPos;
    }

    method GetType() returns (id: byte)
      ensures id == header.typeId
    {
      id := header.typeId;
    }

    method UpdateHeader()
      modifies this
      ensures Value() == old(Value()).Appended([])
    {
      header := header.(dataSize := |data| % 0x1_0000_0000);
    }

    method ResetReadPosition()
      modifies this
      ensures Value() == old(Value()).(readPos := 0)
    {
      readPos := 0;
    }

    method Clear()
      modifies this
      ensures Value() == PacketValue(DefaultHeader, [], 0)
    {
      data := [];
      readPos := 0;
      header := DefaultHeader;
    }

    method WriteUint8(v: byte)
      modifies this
      ensures Value() == old(Value()).Appended([v])
    {
      data := data + [v];
      UpdateHeader();
    }

    method WriteUint16(v: u16)
      modifies this
      ensures Value() == old(Value()).Appended(LeU16(v))
    {
      data := data + [v % 0x100];
      data := data + [v / 0x100];
      UpdateHeader();
    }

    method WriteUint32(v: u32)
      modifies this
      ensures Value() == old(Value()).Appended(LeU32(v))
    {
      data := data + [v % 0x100];
      data := data + [(v / 0x100) % 0x100];
      data := data + [(v / 0x100 / 0x100) % 0x100];
      data := data + [v / 0x100 / 0x100 / 0x100];
      UpdateHeader();
    }

    /** WriteFloat writes the float's bit pattern as a 32-bit value. */
    method WriteFloat(bits: FloatBits)
      modifies this
      ensures Value() == old(Value()).Appended(LeU32(bits))
    {
      WriteUint32(bits);
    }

    method WriteString(s: ByteString)
      modifies this
      ensures Value() == old(Value()).Appended(EncodeString(s))
    {
      WriteUint16(|s| % 0x1_0000);
      ghost var start := old(Value());
      var i := 0;
      while i < |s|
        invariant 0 <= i <= |s|
        invariant Value() == start.Appended(LeU16(|s| % 0x1_0000) + StringBytes(s[..i]))
      {
        WriteUint8(s[i] as int);
        assert StringBytes(s[..i + 1]) == StringBytes(s[..i]) + [s[i] as int];
        AppendedTwice(start, LeU16(|s| % 0x1_0000) + StringBytes(s[..i]), [s[i] as int]);
        i := i + 1;
      }
      assert s[..i] == s;
    }

    method WriteVec2(v: Vec2)
      modifies this
      ensures Value() == old(Value()).Appended(Vec2Bytes(v))
    {
      WriteFloat(v.x);
      WriteFloat(v.y);
      AppendedTwice(old(Value()), LeU32(v.x), LeU32(v.y));
    }

    method WriteVec3(v: Vec3)
      modifies this
      ensures Value() == old(Value()).Appended(Vec3Bytes(v))
    {
      WriteFloat(v.x);
      WriteFloat(v.y);
      WriteFloat(v.z);
      AppendedTwice(old(Value()), LeU32(v.x), LeU32(v.y));
      AppendedTwice(old(Value()), LeU32(v.x) + LeU32(v.y), LeU32(v.z));
    }

    method ReadUint8() returns (v: Option<byte>)
      modifies this
      ensures ReadStep(old(Value()), DecodeU8(old(data), old(readPos)), v, Value())
    {
      if readPos >= |data| {
        return None;
      }
      v := Some(data[readPos]);
      readPos := readPos + 1;
    }

    method ReadUint16() returns (v: Option<u16>)
      modifies this
      ensures ReadStep(old(Value()), DecodeU16(old(data), old(readPos)), v, Value())
    {
      var lo := ReadUint8();
      if lo.None? { return None; }
      var hi := ReadUint8();
      if hi.None? { return None; }
      v := Some(lo.value as int + 0x100 * (hi.value as int));
    }

    method ReadUint32() returns (v: Option<u32>)
      modifies this
      ensures ReadStep(old(Value()), DecodeU32(old(data), old(readPos)), v, Value())
    {
      var b0 := ReadUint8();
      if b0.None? { return None; }
      var b1 := ReadUint8();
      if b1.None? { return None; }
      var b2 := ReadUint8();
      if b2.None? { return None; }
      var b3 := ReadUint8();
      if b3.None? { return None; }
      v := Some(b0.value as int + 0x100 * (b1.value as int) + 0x1_0000 * (b2.value as int) + 0x100_0000 * (b3.value as int));
    }

    /** ReadFloat reinterprets the 32-bit value read as a float's bit pattern. */
    method ReadFloat() returns (v: Option<FloatBits>)
      modifies this
      ensures ReadStep(old(Value()), DecodeU32(old(data), old(readPos)), v, Value())
    {
      v := ReadUint32();
    }

    method ReadString() returns (v: Option<ByteString>)
      modifies this
      ensures ReadStep(old(Value()), DecodeString(old(data), old(readPos)), v, Value())
    {
      var len := ReadUint16();
      if len.None? { return None; }
      var start := readPos;
      var result: ByteString := "";
      var i := 0;
      while i < len.value
        invariant 0 <= i <= len.value
        invariant data == old(data) && header == old(header)
        invariant start == old(readPos) + 2 && readPos == start + i <= |data|
        invariant result == BytesString(data[start..start + i])
      {
        var c := ReadUint8();
        if c.None? { return None; }
        assert data[start..start + i + 1] == data[start..start + i] + [c.value];
        result := result + [c.value as char];
        i := i + 1;
      }
      v := Some(result);
    }

    method ReadVec2() returns (v: Option<Vec2>)
      modifies this
      ensures ReadStep(old(Value()), DecodeVec2(old(data), old(readPos)), v, Value())
    {
      var x := ReadFloat();
      if x.None? { return None; }
      var y := ReadFloat();
      if y.None? { return None; }
      v := Some(Vec2(x.value, y.value));
    }

    method ReadVec3() returns (v: Option<Vec3>)
      modifies this
      ensures ReadStep(old(Value()), DecodeVec3(old(data), old(readPos)), v, Value())
    {
      var x := ReadFloat();
      if x.None? { return None; }
      var y := ReadFloat();
      if y.None? { return None; }
      var z := ReadFloat();
      if z.None? { return None; }
      v := Some(Vec3(x.value, y.value, z.value));
    }
  }
}
