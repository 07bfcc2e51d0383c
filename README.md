# prism-engine core, modelled in Dafny

This project models the sequential bookkeeping at the core of prism-engine, a small C++
OpenGL/ImGui 2D game engine. The model follows the engine's own source files.

- **Networking.** `Packet.dfy` models the packet codec. A packet is a growing byte buffer with
  a read cursor and a header. The header is copied as a raw block whose layout is a parameter.
  Writes append little-endian u8/u16/u32 values, float bit patterns and u16-length-prefixed
  strings. Reads advance the cursor and fail at the end of the buffer.
  - `PacketData.dfy` models the payload structs. `PacketFactory.dfy` models the factories.
  - `NetworkManager.dfy` models the manager as a class: the server/client roles, the
    pending-connection flag, the peer table with its increasing ids, the handler registry
    keyed by packet type, the event FIFO and the traffic counters.
  - ENet is a `Transport` oracle, and its peers and hosts are opaque handles.
- **ECS.**
  - `Component.dfy` models the shared component type counter and the enabled flag.
  - `ComponentManager.dfy` models the per-type pools and the lazily created pool map.
  - `EntityManager.dfy` models id allocation with a first-in-first-out free list,
    parent/child links, recursive destroy and the active-entity query.
  - `Entity.dfy` models the entity handle.
  - `System.dfy` models the system registry, including its per-type id counters.
  - `CommonSystems.dfy` models the render, camera, audio and lifetime systems.
  - `Scene.dfy` models the scene: gated update, entity lookups and the two-pass
    deserialisation of saved entity nodes.
- **Audio.** `Audio.dfy` models the command and event queues of the audio manager and the
  per-name loaded-sound and loaded-music records each command updates. The audio thread
  becomes explicit processing rounds. raudio's results are oracle inputs.
- **Input.** `Input.dfy` models key and mouse-button edge detection over current and
  previous state arrays.
- **GUI.**
  - `GuiText.dfy` models the string rewriting of variable substitution.
  - `GuiLayout.dfy` models the widget record, the name-to-enum lookups, widget creation,
    recursive reset, list-source tokenising, change application and event registration.
  - `GuiCallbackRegistry.dfy` models the named callback registry.
- **Rendering.** The drawing itself is left out.
  - `QuadBatch.dfy` models the bounded instance buffer that flushes when full.
  - `LightRenderer2D.dfy`, `FogRenderer2D.dfy` and `VisionRenderer2D.dfy` model the light
    and obstacle lists, their index-guarded edits and the caps on uniform uploads.
- **Utilities.**
  - `FileUtils.dfy` models path splitting, including its `npos` wrap-around arithmetic.
  - `ResourcePath.dfy` models base-path concatenation.
  - `Logger.dfy` models class-name extraction, level names, the level filter and the line
    format.
- **Shared definitions.** `Base.dfy` holds the fixed-width integer types and sequence helpers.

Where the source mutates state, the model is a class. Its methods carry `modifies` clauses
and state the whole new state. Pure source code becomes functions and lemmas.

Three things replace the source's foreign code:

- Threads and mutexes become sequential FIFOs drained by explicit steps.
- Clocks become parameters.
- ENet, raudio, GL and yaml-cpp calls become oracle parameters or are left out.

C++ `std::unordered_map` iteration order is unspecified. Where it matters, the model takes
the order as an argument, or returns it as a ghost witness.

The `System<Derived>` type-id counter is modelled as written: every system type gets id 0.
A `Scene` therefore owns its own type-id table. Since every id is 0 in either case, this
changes nothing.

## Model

| member | source | states |
|---|---|---|
| Packet.TypeId | src/engine/core/networking/Packet.h:13-39 | every packet type's wire byte is one of 0..13 or 100 (HANDSHAKE..CHAT_MESSAGE in order, CUSTOM_GAME_EVENT = 100) |
| Packet.TypeOfId | src/engine/core/networking/Packet.h:13-39 | a byte names a packet type exactly when it is 0..13 or 100, and then it is that type's byte |
| Packet.TypeIdRoundTrip | src/engine/core/networking/Packet.h:13-39 | reading a type back from its byte gives the same type |
| Packet.TypeIdInjective | src/engine/core/networking/Packet.h:13-39 | two packet types with the same byte are the same type |
| Packet.ReliabilityFlags | src/engine/core/networking/Packet.cpp:115-128 | RELIABLE maps to ENet's reliable flag, UNRELIABLE to 0 and UNSEQUENCED to the unsequenced flag, each exactly |
| Packet.StringBytesRoundTrip | src/engine/core/networking/Packet.cpp:31-36 | characters cast to bytes and back are the original string |
| Packet.DecodeU8 | src/engine/core/networking/Packet.cpp:49-54 | a read succeeds exactly when the cursor is before the end, and then yields that byte and advances by one |
| Packet.DecodeU16 | src/engine/core/networking/Packet.cpp:56-61 | a read succeeds exactly when two bytes remain, and advances by two |
| Packet.DecodeU32 | src/engine/core/networking/Packet.cpp:63-70 | a read succeeds exactly when four bytes remain, and advances by four |
| Packet.DecodeString | src/engine/core/networking/Packet.cpp:78-86 | a successful read consumes the 2-byte length and exactly that many characters, within the data |
| Packet.U16RoundTrip | src/engine/core/networking/Packet.cpp:11-15 | reading back a written u16 anywhere in a buffer yields it and advances by 2 |
| Packet.U32RoundTrip | src/engine/core/networking/Packet.cpp:17-23 | reading back a written u32 anywhere in a buffer yields it and advances by 4 |
| Packet.StringRoundTrip | src/engine/core/networking/Packet.cpp:31-36 | a string shorter than 65536 characters reads back unchanged, consuming 2 + its length |
| Packet.LongStringTruncates | src/engine/core/networking/Packet.cpp:31-36 | a string of 65536 or more characters reads back as its prefix of length mod 65536 (the 16-bit length cast) |
| Packet.Vec2RoundTrip | src/engine/core/networking/Packet.cpp:38-41 | a written vec2 reads back unchanged and advances by 8 |
| Packet.Vec3RoundTrip | src/engine/core/networking/Packet.cpp:43-47 | a written vec3 reads back unchanged and advances by 12 |
| Packet.DecodeVec2 | src/engine/core/networking/Packet.cpp:88-92 | succeeds exactly when 8 bytes remain, and advances by 8 |
| Packet.DecodeVec3 | src/engine/core/networking/Packet.cpp:94-99 | succeeds exactly when 12 bytes remain, and advances by 12 |
| Packet.PacketValue.Appended | src/engine/core/networking/Packet.h:110 | a write extends the payload, keeps type, timestamp and cursor, and leaves dataSize equal to the payload length |
| Packet.PacketValue.TotalSize | src/engine/core/networking/Packet.h:91 | the header size plus the payload length |
| Packet.PacketValue.RawData | src/engine/core/networking/Packet.cpp:101-113 | the header's bytes followed by the payload, GetTotalSize bytes long |
| Packet.AppendedTwice | src/engine/core/networking/Packet.cpp:6-47 | two writes in a row equal one write of the concatenated bytes |
| Packet.NewPacket | src/engine/core/networking/Packet.h:55-63 | a new packet has the given type and clock reading, an empty payload, cursor 0 and dataSize 0 |
| Packet.CreateENetPacket | src/engine/core/networking/Packet.cpp:115-131 | the datagram is GetTotalSize bytes long and carries the reliability's flags |
| Packet.FromENetPacket | src/engine/core/networking/Packet.cpp:133-154 | a null or too-short datagram is rejected; otherwise the header is the decoded leading bytes, the payload the rest, the cursor 0 |
| Packet.DatagramRoundTrip | src/engine/core/networking/Packet.cpp:115-154 | a datagram built by CreateENetPacket parses back to the same header and payload with cursor 0 |
| Packet.Packet.constructor | src/engine/core/networking/Packet.h:54-62 | the default packet has the default header, no data and cursor 0 |
| Packet.Packet.OfType | src/engine/core/networking/Packet.h:55-63 | Packet(type) has that type, the clock reading and an empty payload |
| Packet.Packet.GetType | src/engine/core/networking/Packet.h:67 | the header's type byte |
| Packet.Packet.UpdateHeader | src/engine/core/networking/Packet.h:110 | dataSize becomes the payload length; nothing else changes |
| Packet.Packet.ResetReadPosition | src/engine/core/networking/Packet.h:94 | only the cursor changes, to 0 |
| Packet.Packet.Clear | src/engine/core/networking/Packet.cpp:156-160 | payload emptied, cursor 0, default header |
| Packet.Packet.WriteUint8 | src/engine/core/networking/Packet.cpp:6-9 | the payload gains the byte |
| Packet.Packet.WriteUint16 | src/engine/core/networking/Packet.cpp:11-15 | the payload gains the two little-endian bytes |
| Packet.Packet.WriteUint32 | src/engine/core/networking/Packet.cpp:17-23 | the payload gains the four little-endian bytes |
| Packet.Packet.WriteFloat | src/engine/core/networking/Packet.cpp:25-29 | the payload gains the float's bit pattern as a u32 |
| Packet.Packet.WriteString | src/engine/core/networking/Packet.cpp:31-36 | the payload gains the 16-bit length then the characters |
| Packet.Packet.WriteVec2 | src/engine/core/networking/Packet.cpp:38-41 | the payload gains x then y |
| Packet.Packet.WriteVec3 | src/engine/core/networking/Packet.cpp:43-47 | the payload gains x, y then z |
| Packet.Packet.ReadUint8 | src/engine/core/networking/Packet.cpp:49-54 | returns the byte at the cursor and advances, or reports the overflow and leaves the cursor |
| Packet.Packet.ReadUint16 | src/engine/core/networking/Packet.cpp:56-61 | the decoded value and cursor, or an overflow that keeps the bytes already consumed |
| Packet.Packet.ReadUint32 | src/engine/core/networking/Packet.cpp:63-70 | the decoded value and cursor, or an overflow that keeps the bytes already consumed |
| Packet.Packet.ReadFloat | src/engine/core/networking/Packet.cpp:72-76 | the u32 read as a float's bit pattern |
| Packet.Packet.ReadString | src/engine/core/networking/Packet.cpp:78-86 | the length-prefixed string and cursor, or an overflow |
| Packet.Packet.ReadVec2 | src/engine/core/networking/Packet.cpp:88-92 | two floats, or an overflow |
| Packet.Packet.ReadVec3 | src/engine/core/networking/Packet.cpp:94-99 | three floats, or an overflow |
| PacketData.PlayerMove.Encode | src/engine/core/networking/Packet.cpp:164-169 | the 24 bytes WriteTo appends: id, position, velocity, rotation |
| PacketData.PlayerMove.WriteTo | src/engine/core/networking/Packet.cpp:164-169 | the packet gains exactly the encoding, its header refreshed |
| PacketData.PlayerMove.ReadFrom | src/engine/core/networking/Packet.cpp:171-176 | the packet's cursor and result follow DecodePlayerMove; a short payload yields None (the C++ throws) |
| PacketData.DecodePlayerMove | src/engine/core/networking/Packet.cpp:171-176 | succeeds exactly when 24 bytes remain, and then advances by 24 |
| PacketData.PlayerMoveRoundTrip | src/engine/core/networking/Packet.cpp:164-176 | a PlayerMove written anywhere in a payload reads back unchanged and advances by 24 |
| PacketData.ChatMessage.Encode | src/engine/core/networking/Packet.cpp:178-182 | id then two length-prefixed strings, 8 + both lengths bytes |
| PacketData.ChatMessage.WriteTo | src/engine/core/networking/Packet.cpp:178-182 | the packet gains exactly the encoding |
| PacketData.ChatMessage.ReadFrom | src/engine/core/networking/Packet.cpp:184-188 | cursor and result follow DecodeChatMessage |
| PacketData.DecodeChatMessage | src/engine/core/networking/Packet.cpp:184-188 | a successful read consumes at least 8 bytes and stays within the payload |
| PacketData.ChatMessageRoundTrip | src/engine/core/networking/Packet.cpp:178-188 | a ChatMessage whose strings are shorter than 65536 reads back unchanged, consuming its encoding |
| PacketData.EntityUpdate.Encode | src/engine/core/networking/Packet.cpp:190-196 | 41 bytes, the last being 1 for visible and 0 otherwise |
| PacketData.EntityUpdate.WriteTo | src/engine/core/networking/Packet.cpp:190-196 | the packet gains exactly the encoding |
| PacketData.EntityUpdate.ReadFrom | src/engine/core/networking/Packet.cpp:198-204 | cursor and result follow DecodeEntityUpdate |
| PacketData.DecodeEntityUpdate | src/engine/core/networking/Packet.cpp:198-204 | succeeds exactly when 41 bytes remain; visible exactly when the last byte is non-zero |
| PacketData.EntityUpdateRoundTrip | src/engine/core/networking/Packet.cpp:190-204 | an EntityUpdate reads back unchanged and advances by 41 |
| PacketData.PlayerJoin.Encode | src/engine/core/networking/Packet.cpp:206-210 | id, length-prefixed name, spawn position: 14 + name length bytes |
| PacketData.PlayerJoin.WriteTo | src/engine/core/networking/Packet.cpp:206-210 | the packet gains exactly the encoding |
| PacketData.PlayerJoin.ReadFrom | src/engine/core/networking/Packet.cpp:212-216 | cursor and result follow DecodePlayerJoin |
| PacketData.DecodePlayerJoin | src/engine/core/networking/Packet.cpp:212-216 | a successful read consumes at least 14 bytes within the payload |
| PacketData.PlayerJoinRoundTrip | src/engine/core/networking/Packet.cpp:206-216 | a PlayerJoin whose name is shorter than 65536 reads back unchanged |
| PacketData.PeerIdAssignment.Encode | src/engine/core/networking/Packet.cpp:218-220 | the 4-byte id |
| PacketData.PeerIdAssignment.WriteTo | src/engine/core/networking/Packet.cpp:218-220 | the packet gains exactly the encoding |
| PacketData.PeerIdAssignment.ReadFrom | src/engine/core/networking/Packet.cpp:222-224 | cursor and result follow DecodePeerIdAssignment |
| PacketData.DecodePeerIdAssignment | src/engine/core/networking/Packet.cpp:222-224 | succeeds exactly when 4 bytes remain, advancing by 4 |
| PacketData.PeerIdAssignmentRoundTrip | src/engine/core/networking/Packet.cpp:218-224 | the id reads back unchanged and advances by 4 |
| PacketFactory.CreatePingPacket | src/engine/core/networking/Packet.cpp:228-232 | a fresh PING packet whose payload is the clock reading as a u32 |
| PacketFactory.CreatePongPacket | src/engine/core/networking/Packet.cpp:234-238 | a fresh PONG packet whose payload is the clock reading as a u32 |
| PacketFactory.CreatePlayerMovePacket | src/engine/core/networking/Packet.cpp:240-244 | a fresh PLAYER_MOVE packet whose payload is the PlayerMove's encoding |
| PacketFactory.CreateChatPacket | src/engine/core/networking/Packet.cpp:246-250 | a fresh CHAT_MESSAGE packet whose payload is the message's encoding |
| PacketFactory.CreateEntityUpdatePacket | src/engine/core/networking/Packet.cpp:252-256 | a fresh ENTITY_UPDATE packet whose payload is the update's encoding |
| PacketFactory.CreatePlayerJoinPacket | src/engine/core/networking/Packet.cpp:258-262 | a fresh PLAYER_JOIN packet whose payload is the join's encoding |
| PacketFactory.CreateDisconnectPacket | src/engine/core/networking/Packet.cpp:264-268 | a fresh DISCONNECT packet whose payload is the length-prefixed reason |
| PacketFactory.CreatePlayerLeavePacket | src/engine/core/networking/Packet.cpp:270-274 | a fresh PLAYER_LEAVE packet whose payload is the player id |
| PacketFactory.CreatePeerIdAssignmentPacket | src/engine/core/networking/Packet.cpp:276-280 | a fresh packet equal to PeerIdAssignmentPacket |
| PacketFactory.PeerIdAssignmentPacket | src/engine/core/networking/Packet.cpp:276-280 | type PEER_ID_ASSIGNMENT, dataSize 4, payload the id's 4 bytes, cursor 0 |
| PacketFactory.PeerIdAssignmentReadsBack | src/engine/core/networking/Packet.cpp:276-280 | the receiver reads the assigned id back from the payload |
| PacketFactory.PingPacketReadsBack | src/engine/core/networking/Packet.cpp:228-232 | the receiver reads the sender's clock back |
| PacketFactory.PongPacketReadsBack | src/engine/core/networking/Packet.cpp:234-238 | the receiver reads the responder's clock back |
| PacketFactory.PlayerMovePacketReadsBack | src/engine/core/networking/Packet.cpp:240-244 | the receiver decodes the same PlayerMove from the payload |
| PacketFactory.ChatPacketReadsBack | src/engine/core/networking/Packet.cpp:246-250 | the receiver decodes the same ChatMessage (strings shorter than 65536) |
| PacketFactory.EntityUpdatePacketReadsBack | src/engine/core/networking/Packet.cpp:252-256 | the receiver decodes the same EntityUpdate |
| PacketFactory.PlayerJoinPacketReadsBack | src/engine/core/networking/Packet.cpp:258-262 | the receiver decodes the same PlayerJoin (name shorter than 65536) |
| PacketFactory.DisconnectPacketReadsBack | src/engine/core/networking/Packet.cpp:264-268 | the receiver reads the same reason (shorter than 65536) |
| PacketFactory.PlayerLeavePacketReadsBack | src/engine/core/networking/Packet.cpp:270-274 | the receiver reads the same player id |
| Resources.ResourcePath.constructor | src/engine/utils/ResourcePath.cpp:3 | the base path starts empty |
| Resources.ResourcePath.SetBasePath | src/engine/utils/ResourcePath.cpp:5-7 | the base path becomes the argument |
| Resources.ResourcePath.GetBasePath | src/engine/utils/ResourcePath.cpp:9-11 | the current base path |
| Resources.ResourcePath.GetFullPath | src/engine/utils/ResourcePath.cpp:13-15 | the base path followed by the relative path, nothing inserted |
| Logging.Rank | src/engine/utils/Logger.h:22-29 | the order used by the level filter: TRACE lowest, ERROR highest (declared after FATAL) |
| Logging.LevelToString | src/engine/utils/Logger.h:109-119 | every level name is five characters (INFO and WARN padded) |
| Logging.LevelNamesDistinct | src/engine/utils/Logger.h:109-119 | distinct levels print distinct names |
| Logging.LastColons | src/engine/utils/Logger.h:123-124 | the position of the last "::", or none exactly when the text has no "::" |
| Logging.LastColonsIsLast | src/engine/utils/Logger.h:123 | no "::" starts after the found one |
| Logging.LastColonsUnique | src/engine/utils/Logger.h:123 | a "::" with none after it is the one found |
| Logging.LastIndexUnique | src/engine/utils/Logger.h:126 | a character with no later copy is what the backward search finds |
| Logging.ExtractClassName | src/engine/utils/Logger.h:121-131 | never longer than its input; empty when there is no "::" |
| Logging.ClassNameCases | src/engine/utils/Logger.h:126-130 | the result is the text between the last space before the "::" (or the start) and the "::", with no space in it |
| Logging.ExtractFromSignature | src/engine/utils/Logger.h:121-131 | for "ret Class::method" the class name is extracted |
| Logging.FormatLine | src/engine/utils/Logger.h:137-147 | "[time][LEVEL]" then "[class] " or a single space, the message and a newline |
| Logging.Logger.constructor | src/engine/utils/Logger.h:160 | the threshold starts at INFO |
| Logging.Logger.SetLogLevel | src/engine/utils/Logger.h:85-87 | the threshold becomes the level |
| Logging.Logger.Log | src/engine/utils/Logger.h:133-155 | a line is produced exactly when the level ranks at or above the threshold, and it is FormatLine's |
| Logging.Logger.Trace | src/engine/utils/Logger.h:56-58 | printed only at threshold TRACE, tagged with the type name |
| Logging.Logger.Debug | src/engine/utils/Logger.h:61-63 | printed only at threshold TRACE or DEBUG, tagged with the type name |
| Logging.Logger.Info | src/engine/utils/Logger.h:65-67 | printed at thresholds up to INFO, with no class tag |
| Logging.Logger.Warn | src/engine/utils/Logger.h:70-72 | printed at thresholds up to WARN; tagged only when an instance is given |
| Logging.Logger.Error | src/engine/utils/Logger.h:75-77 | always printed, since ERROR ranks highest |
| Logging.Logger.Fatal | src/engine/utils/Logger.h:80-82 | printed unless the threshold is ERROR |
| FileUtils.Wrap | src/engine/utils/FileUtils.cpp:19-28 | size_t arithmetic: the value reduced modulo 2^64 |
| FileUtils.FindLastOf | src/engine/utils/FileUtils.cpp:14 | npos exactly when the character is absent; otherwise the index of its last occurrence |
| FileUtils.Substr | src/engine/utils/FileUtils.cpp:15 | std::string::substr: a count reaching past the end takes the rest of the string |
| FileUtils.DirectoryIsBeforeLastSlash | src/engine/utils/FileUtils.cpp:13-16 | the directory is everything before the last '/', or the whole path when it has none |
| FileUtils.FileNameIsAfterLastSlash | src/engine/utils/FileUtils.cpp:17-20 | the file name is everything after the last '/', or the whole path, and holds no '/' |
| FileUtils.ExtensionIsAfterLastDot | src/engine/utils/FileUtils.cpp:21-24 | the extension is everything after the last '.', or the whole path, and holds no '.' |
| FileUtils.StemCases | src/engine/utils/FileUtils.cpp:25-29 | the stem runs from after the last '/' up to the last '.' when that dot is in the file name, and to the end otherwise |
| FileUtils.DirectoryAndFileName | src/engine/utils/FileUtils.cpp:13-20 | with a '/', directory + "/" + file name is the path again |
| FileUtils.StemAndExtension | src/engine/utils/FileUtils.cpp:21-29 | with a dot in the file name, stem + "." + extension is the file name |
| Input.EdgeClassification | src/engine/core/input/Input.cpp:52-60 | a key is never both pressed and released in a frame, and neither when its state did not change |
| Input.InputState.constructor | src/engine/core/input/Input.cpp:9-16 | all keys and buttons up, cursor at 0,0, no window |
| Input.InputState.Initialize | src/engine/core/input/Input.cpp:38-43 | the window is recorded |
| Input.InputState.KeyCallback | src/engine/core/input/Input.cpp:18-22 | an in-range key becomes down unless the action is a release; an out-of-range key changes nothing |
| Input.InputState.MouseButtonCallback | src/engine/core/input/Input.cpp:24-28 | an in-range button becomes down unless the action is a release; out of range changes nothing |
| Input.InputState.CursorPosCallback | src/engine/core/input/Input.cpp:30-33 | the cursor position becomes the arguments |
| Input.InputState.Update | src/engine/core/input/Input.cpp:45-49 | the previous frame becomes a copy of the current one, which is unchanged |
| Input.InputState.IsKeyPressed | src/engine/core/input/Input.cpp:52-54 | down now and up in the previous frame; a pressed key is not up |
| Input.InputState.IsKeyHeld | src/engine/core/input/Input.cpp:55-57 | down now |
| Input.InputState.IsKeyReleased | src/engine/core/input/Input.cpp:58-60 | up now and down in the previous frame; a released key is not held |
| Input.InputState.IsKeyUp | src/engine/core/input/Input.cpp:61-63 | up now |
| Input.InputState.IsMousePressed | src/engine/core/input/Input.cpp:66-68 | down now and up in the previous frame |
| Input.InputState.IsMouseHeld | src/engine/core/input/Input.cpp:69-71 | down now |
| Input.InputState.IsMouseReleased | src/engine/core/input/Input.cpp:72-74 | up now and down in the previous frame |
| Input.InputState.IsMouseUp | src/engine/core/input/Input.cpp:75-77 | up now |
| Input.InputState.GetMouseX | src/engine/core/input/Input.cpp:79 | the last reported x |
| Input.InputState.GetMouseY | src/engine/core/input/Input.cpp:80 | the last reported y |
| Input.PressFrame | src/engine/core/input/Input.cpp:18-63 | a key that was up and gets a press callback is pressed and held, not released and not up |
| Input.NoEdgesAfterUpdate | src/engine/core/input/Input.cpp:45-77 | straight after Update no key or button is pressed or released, and held is what was current |
| Components.Component.SetEnabled | src/engine/scene/component/Component.h:39 | only the enabled flag changes; the component's data is kept |
| Components.NewComponent | src/engine/scene/component/Component.h:22-42 | a new component is enabled and holds the given data |
| Components.SetEnabledThenIsEnabled | src/engine/scene/component/Component.h:38-39 | IsEnabled reports what SetEnabled stored, and restoring the old flag gives the original component |
| Components.LifetimeWith | src/engine/scene/system/CommonSystems.h:255-264 | LifetimeComponent(life) differs from the defaults (5 s, nothing elapsed, destroyed on timeout) only in its lifetime |
| Components.AssignId | src/engine/scene/component/Component.h:12-16 | a type seen before keeps its id and the counter; a new type gets the counter, which then advances; other ids are kept |
| Components.AssignIdKeepsIdsFresh | src/engine/scene/component/Component.h:10-16 | GetID keeps every id below the counter and distinct types on distinct ids |
| Components.ComponentTypeID.constructor | src/engine/scene/component/Component.h:10 | counter 0, no ids assigned |
| Components.ComponentTypeID.GetID | src/engine/scene/component/Component.h:12-16 | the registry moves as AssignId says and stays injective |
| ComponentManager.WithoutEntities | src/engine/scene/component/ComponentManager.h:158-162 | every pool keeps its type; an entity has a component afterwards exactly when it had it and is not among those removed |
| ComponentManager.PoolOfWithout | src/engine/scene/component/ComponentManager.h:158-162 | each pool loses exactly the removed entities |
| ComponentManager.WithoutEntitiesTwice | src/engine/scene/component/ComponentManager.h:158-162 | removing two sets in turn equals removing their union |
| ComponentManager.WithoutNoEntities | src/engine/scene/component/ComponentManager.h:158-162 | removing nobody changes nothing |
| ComponentManager.Lookup | src/engine/scene/component/ComponentManager.h:142-151 | a component exactly when the entity has one of that type, and then the stored one |
| ComponentManager.SameContentsLookups | src/engine/scene/component/ComponentManager.h:117-127 | pools that differ only in empty pools answer every lookup alike |
| ComponentManager.PoolsOf | src/engine/scene/component/ComponentManager.h:113-115 | the pools of a manager, or none for a null manager |
| ComponentManager.UpdateHooks | src/engine/scene/component/ComponentManager.h:103-109 | one OnUpdate per entity, in the given order, each with the frame time |
| ComponentManager.ComponentManager.constructor | src/engine/scene/component/ComponentManager.h:115 | no pools, no hook calls |
| ComponentManager.ComponentManager.GetPool | src/engine/scene/component/ComponentManager.h:117-127 | the type's pool exists afterwards, created empty if missing; nothing else changes |
| ComponentManager.ComponentManager.AddComponent | src/engine/scene/component/ComponentManager.h:31-52 | the pool gains the component, OnCreate is logged, and the stored component is returned |
| ComponentManager.ComponentManager.RemoveComponent | src/engine/scene/component/ComponentManager.h:54-60 | the entity leaves the pool, and OnDestroy is logged only if it was there |
| ComponentManager.ComponentManager.GetComponent | src/engine/scene/component/ComponentManager.h:62-65 | none exactly when the entity had no such component; otherwise the stored one |
| ComponentManager.ComponentManager.ReplaceComponent | src/engine/scene/component/ComponentManager.h:141-144 | a write through the component GetComponent returns: the stored component becomes the new one |
| ComponentManager.ComponentManager.RemoveAllComponents | src/engine/scene/component/ComponentManager.h:158-162 | the entity leaves every pool, with exactly one OnDestroy logged per component it had, no duplicates and no other hook |
| ComponentManager.ComponentManager.UpdateComponents | src/engine/scene/component/ComponentManager.h:103-109 | exactly the enabled components of the type get one OnUpdate each, in some order |
| Systems.SystemTypeIDs.constructor | src/engine/scene/system/System.h:45-49 | no type has an id yet |
| Systems.SystemTypeIDs.GetStaticTypeID | src/engine/scene/system/System.h:35-49 | as written: every system type gets id 0, since each type counts from its own zero |
| Systems.ISystem.constructor | src/engine/scene/system/System.h:20-24 | a new system is enabled and has no managers |
| Systems.EcsGetEntitiesWith | src/engine/scene/system/System.h:175-180 | none without an entity manager; otherwise, without repeats, exactly the entities that have every listed component |
| Systems.EcsGetComponent | src/engine/scene/system/System.h:183-186 | the stored component, or none without a component manager; the pools' contents and hook log are unchanged |
| Systems.UpdateCalls | src/engine/scene/system/System.h:132-138 | at most one call per system |
| Systems.UpdateCallsExactlyEnabled | src/engine/scene/system/System.h:132-138 | Update reaches exactly the enabled systems, each with the frame time |
| Systems.UpdateCallsSnoc | src/engine/scene/system/System.h:133-137 | the calls for a list are those for its prefix, then one for its last system if enabled |
| Systems.DestroyCalls | src/engine/scene/system/System.h:80-84 | one OnDestroy per system, in registration order |
| Systems.SystemManager.constructor | src/engine/scene/system/System.h:77-78 | the managers given, no systems and no calls |
| Systems.SystemManager.RegisterSystem | src/engine/scene/system/System.h:86-104 | a fresh enabled system is appended and gets OnCreate; ECS systems receive the managers; as written it goes into the map under id 0 |
| Systems.SystemManager.GetSystem | src/engine/scene/system/System.h:106-110 | the system stored under the type's id (0), or null |
| Systems.SystemManager.RemoveSystem | src/engine/scene/system/System.h:112-130 | with an entry under id 0, that system leaves the list (found by identity) and the map and gets OnDestroy; otherwise nothing changes |
| Systems.SystemManager.UpdateSystems | src/engine/scene/system/System.h:132-138 | the log gains UpdateCalls for the current list |
| Systems.SystemManager.SetSystemEnabled | src/engine/scene/system/System.h:140-145 | the system under that id, if any, takes the flag and keeps its manager links; no other system changes |
| Systems.SystemManager.DestroyAll | src/engine/scene/system/System.h:80-84 | the log gains one OnDestroy per system |
| Systems.SecondRegistrationHidesFirst | src/engine/scene/system/System.h:35-110 | as written, after registering two different system types, GetSystem for either returns the second |
| Systems.SharedTypeIDs.constructor | src/engine/scene/system/System.h:45-49 | corrected: one counter shared by all system types, starting at 0 |
| Systems.SharedTypeIDs.GetStaticTypeID | src/engine/scene/system/System.h:35-38 | corrected: a type keeps its cached id, and a new type gets an id no other type has |
| Systems.DistinctTypesDistinctIds | src/engine/scene/system/System.h:35-38 | corrected: two different system types get different ids |
| Systems.RemoveAtKeepsNoDup | src/engine/scene/system/System.h:118-125 | erasing one system from a list without repeats leaves a list without repeats, without that system |
| EntityManager.NewInfo | src/engine/scene/entity/EntityManager.h:14-24 | EntityInfo(id, name): active, no parent (0), no children |
| EntityManager.RemoveAll | src/engine/scene/entity/EntityManager.h:147-148 | the erase-remove idiom: the id no longer appears, nothing is added, and a list without it is unchanged |
| EntityManager.RemoveAllKeeps | src/engine/scene/entity/EntityManager.h:147-148 | every other id stays in the list |
| EntityManager.Reparent | src/engine/scene/entity/EntityManager.h:131-140 | the parent field is set and a live, non-zero parent appends the child; no entity appears or disappears |
| EntityManager.ReparentKeepsLinked | src/engine/scene/entity/EntityManager.h:131-140 | reparenting an entity no list mentions keeps every child pointing back at its parent |
| EntityManager.Detach | src/engine/scene/entity/EntityManager.h:126-129 | removing the entity from its parent's list; no entity appears or disappears |
| EntityManager.SetParentOf | src/engine/scene/entity/EntityManager.h:120-141 | SetParent on a valid child; no entity appears or disappears |
| EntityManager.SetParentSteps | src/engine/scene/entity/EntityManager.h:126-140 | SetParent is the detach followed by the reparent |
| EntityManager.SetParentKeepsLinked | src/engine/scene/entity/EntityManager.h:120-141 | SetParent keeps the links consistent, and afterwards exactly the new parent lists the child |
| EntityManager.SetParentKeepsIds | src/engine/scene/entity/EntityManager.h:120-141 | SetParent changes no entity's id |
| EntityManager.FreshSameIds | src/engine/scene/entity/EntityManager.h:28-30 | id freshness depends only on which ids are live and their id fields |
| EntityManager.AttachedAreLive | src/engine/scene/entity/EntityManager.h:52-74 | under consistent links every listed child is live |
| EntityManager.Keep | src/engine/scene/entity/EntityManager.h:143-149 | the sublist of live ids, in order |
| EntityManager.KeepRemoveAll | src/engine/scene/entity/EntityManager.h:148 | removing one id and then keeping the live ones equals keeping the live ones without it |
| EntityManager.PrunedTrans | src/engine/scene/entity/EntityManager.h:52-74 | two prunings in a row are one pruning, and their destroyed sets add up |
| EntityManager.PrunedRefl | src/engine/scene/entity/EntityManager.h:52-74 | a consistent table is a pruning of itself |
| EntityManager.ReachesStep | src/engine/scene/entity/EntityManager.h:62-66 | a child's descendants are the parent's descendants |
| EntityManager.SubtreeExact | src/engine/scene/entity/EntityManager.h:52-74 | when the destroyed set is closed under children and every destroyed id is reachable from the root, it is exactly the root's subtree |
| EntityManager.SubtreesExact | src/engine/scene/entity/EntityManager.h:264-270 | the same for several roots: exactly the union of their subtrees |
| EntityManager.SubtreeOfDead | src/engine/scene/entity/EntityManager.h:53 | a dead id has no subtree |
| EntityManager.FreedTrans | src/engine/scene/entity/EntityManager.h:73 | ids freed in two steps are freed in one |
| EntityManager.EraseKeepsValid | src/engine/scene/entity/EntityManager.h:72-73 | erasing an entity nobody lists and queueing its id keeps the links consistent and no live id queued |
| EntityManager.TornDownNone | src/engine/scene/entity/EntityManager.h:53 | destroying nothing is a teardown |
| EntityManager.HooksNone | src/engine/scene/entity/EntityManager.h:53 | destroying nothing logs no hook |
| EntityManager.HooksTrans | src/engine/scene/entity/EntityManager.h:52-74 | the hooks of two rounds of destruction add up: the second round logs the OnDestroy of the components the first left, each once, and no hook is logged twice across the rounds |
| EntityManager.TornDownTrans | src/engine/scene/entity/EntityManager.h:52-74 | two teardowns in a row are one: the pruned tables, the freed ids, the removed components and the logged hooks add up |
| EntityManager.ErasePruned | src/engine/scene/entity/EntityManager.h:72 | erasing an unlisted entity is a pruning |
| EntityManager.DestroyPruned | src/engine/scene/entity/EntityManager.h:57-73 | detach, destroy the children, erase: a pruning of the original table |
| EntityManager.DestroyClosed | src/engine/scene/entity/EntityManager.h:62-72 | the result is closed under children |
| EntityManager.DestroyReached | src/engine/scene/entity/EntityManager.h:62-72 | every destroyed id is reachable from the destroyed entity |
| EntityManager.ChildDestroyed | src/engine/scene/entity/EntityManager.h:64-66 | after destroying a child, all destroyed ids stay closed and reachable from the parent |
| EntityManager.TearDownOf | src/engine/scene/entity/EntityManager.h:52-74 | DestroyEntity replayed on the table and the queued ids: nothing for a dead id; otherwise detach, each child's teardown in list order, then erase the entity and queue it last; it never adds an entity |
| EntityManager.TearDownOrderExample | src/engine/scene/entity/EntityManager.h:62-73 | destroying entity 1 with children [2, 3] queues 2, 3, then 1 and leaves no entity |
| EntityManager.TearDownList | src/engine/scene/entity/EntityManager.h:63-66 | the loop over the copied children list after its first `n` rounds; it never adds an entity |
| EntityManager.NextRound | src/engine/scene/entity/EntityManager.h:64-66 | one round of the loop over a children list: the child's teardown on the table the earlier rounds left, its ids queued after theirs; it never adds an entity |
| EntityManager.RoundsStep | src/engine/scene/entity/EntityManager.h:64-66 | tearing the next child down from the table and queue a history of rounds ended at extends that history by one round, the NextRound of its last |
| EntityManager.RoundsMatch | src/engine/scene/entity/EntityManager.h:63-66 | round `k` of a history of rounds holds TearDownList's table after `k` children and its queued ids after the history's first queue |
| EntityManager.RoundsWithout | src/engine/scene/entity/EntityManager.h:57-66 | the children's rounds run on the detached table that still holds the entity end where TearDownList run without its record does, but for that record, with the same ids queued in the same order |
| EntityManager.TearDownOfLive | src/engine/scene/entity/EntityManager.h:55-73 | on a live id, TearDownOf is its children's rounds on the detached table without the entity, then the entity's id queued last |
| EntityManager.TearDownOfDead | src/engine/scene/entity/EntityManager.h:53 | a dead id is torn down as nothing |
| EntityManager.TearDownOfErased | src/engine/scene/entity/EntityManager.h:57-73 | detaching, running the children's rounds in list order, erasing the record and queueing the id give exactly TearDownOf's table, and TearDownOf's ids appended to the queue in its order |
| EntityManager.TearDownAttached | src/engine/scene/entity/EntityManager.h:52-74 | a teardown lists no child that was not listed before |
| EntityManager.TearDownListAttached | src/engine/scene/entity/EntityManager.h:63-66 | the same for the rounds over a children list |
| EntityManager.TearDownWithout | src/engine/scene/entity/EntityManager.h:52-74 | a teardown never touches an entity no list mentions: run without it, it queues the same ids and leaves the same table without it |
| EntityManager.TearDownListWithout | src/engine/scene/entity/EntityManager.h:63-66 | the same for the rounds over a children list that does not name the entity |
| EntityManager.HasAll | src/engine/scene/entity/EntityManager.h:202 | the fold over the component types: the entity has a component of every listed type |
| EntityManager.EntityManager.constructor | src/engine/scene/entity/EntityManager.h:28-35 | no entities, no free ids, next id 1 |
| EntityManager.EntityManager.GetEntityInfo | src/engine/scene/entity/EntityManager.h:83-91 | the record exactly when the id is live |
| EntityManager.EntityManager.GetEntityName | src/engine/scene/entity/EntityManager.h:99-104 | the name, or "" for an unknown id |
| EntityManager.EntityManager.IsEntityActive | src/engine/scene/entity/EntityManager.h:112-117 | true exactly when the entity is live and active |
| EntityManager.EntityManager.GetParent | src/engine/scene/entity/EntityManager.h:151-156 | the parent field, or 0 for an unknown id |
| EntityManager.EntityManager.GetChildren | src/engine/scene/entity/EntityManager.h:158-164 | the children list, or empty for an unknown id |
| EntityManager.EntityManager.CreateEntity | src/engine/scene/entity/EntityManager.h:38-50 | a queued id is reused first-in first-out, else the counter is taken and advanced; the id is non-zero and was not live; the entity gets a fresh record |
| EntityManager.EntityManager.SetEntityName | src/engine/scene/entity/EntityManager.h:93-97 | a live entity's name changes; an unknown id changes nothing |
| EntityManager.EntityManager.SetEntityActive | src/engine/scene/entity/EntityManager.h:106-110 | a live entity's flag changes; an unknown id changes nothing |
| EntityManager.EntityManager.RemoveChild | src/engine/scene/entity/EntityManager.h:143-149 | every occurrence of the child leaves a live parent's list; an unknown parent changes nothing |
| EntityManager.EntityManager.SetParent | src/engine/scene/entity/EntityManager.h:120-141 | an invalid child changes nothing; otherwise the table becomes SetParentOf's |
| EntityManager.EntityManager.DestroyEntity | src/engine/scene/entity/EntityManager.h:52-74 | an invalid id changes nothing; otherwise exactly the entity's subtree is destroyed: erased, its ids queued, its components removed, and every surviving children list loses exactly those ids; the table and the queue are TearDownOf's, so the ids are queued in post-order, each child's subtree in list order before the entity; the hook log gains exactly one OnDestroy for each component a destroyed entity had |
| EntityManager.EntityManager.DestroyChildren | src/engine/scene/entity/EntityManager.h:63-66 | the loop over the copied list, from the detached entity's state: every child is gone, everything destroyed was attached and reachable from the entity, and the table and queue are the last of a history of rounds that starts from the table and queue before the loop and runs NextRound once per child, in list order |
| EntityManager.EntityManager.DestroyChildrenLoop | src/engine/scene/entity/EntityManager.h:64-66 | the same loop from any state that starts such a history: its invariant (the rounds so far, the children so far gone) holds at the end with every child done |
| EntityManager.EntityManager.DestroyChildOf | src/engine/scene/entity/EntityManager.h:65 | one round of that loop: the child is gone, the loop's invariant is kept, and the history gains one round, the NextRound of the last |
| EntityManager.EntityManager.DestroyRoot | src/engine/scene/entity/EntityManager.h:268 | one round of Clear: the union-of-subtrees invariant is kept with the root added |
| EntityManager.EntityManager.EraseEntity | src/engine/scene/entity/EntityManager.h:69-73 | components removed, entity erased, its id queued at the back |
| EntityManager.EntityManager.AddComponent | src/engine/scene/entity/EntityManager.h:167-171 | none and no change for an invalid id; otherwise the pool gains the component and OnCreate is logged |
| EntityManager.EntityManager.RemoveComponent | src/engine/scene/entity/EntityManager.h:173-178 | only for a valid id, the component leaves its pool and its OnDestroy hook runs exactly when it was there; an invalid id changes nothing |
| EntityManager.EntityManager.GetComponent | src/engine/scene/entity/EntityManager.h:180-184 | none exactly when the entity has no such component (or is invalid); otherwise the stored one; a valid id only creates the type's empty pool if it was missing, no hook runs |
| EntityManager.EntityManager.GetEntitiesWith | src/engine/scene/entity/EntityManager.h:198-207 | without repeats, exactly the live, active entities with every listed component |
| EntityManager.EntityManager.Clear | src/engine/scene/entity/EntityManager.h:264-270 | every entity destroyed, as one teardown of the whole table: every pool loses the old entities, each of their components logs one OnDestroy, and every old id is queued once |
| Entities.Entity.GetName | src/engine/scene/entity/Entity.h:54-56 | "" without a manager or for an unknown id; otherwise the entity's name |
| Entities.Entity.IsActive | src/engine/scene/entity/Entity.h:64-66 | true exactly when there is a manager and the entity is live and active |
| Entities.Entity.SetName | src/engine/scene/entity/Entity.h:58-62 | through the manager: a live entity's name changes, an unknown id changes nothing |
| Entities.Entity.SetActive | src/engine/scene/entity/Entity.h:68-72 | through the manager: a live entity's flag changes, an unknown id changes nothing |
| Entities.Entity.AddComponent | src/engine/scene/entity/Entity.h:75-79 | none and no change on an invalid handle or without a component manager; otherwise the pool gains the component and OnCreate is logged |
| Entities.Entity.GetComponent | src/engine/scene/entity/Entity.h:81-91 | none exactly when the handle is invalid, there is no component manager, or there is no such component; a valid handle only creates the type's empty pool if it was missing, no hook runs |
| Entities.Entity.RemoveComponent | src/engine/scene/entity/Entity.h:99-104 | on a valid handle the component leaves its pool and one OnDestroy is logged exactly when it was there; otherwise nothing changes |
| Entities.Entity.GetParent | src/engine/scene/entity/Entity.h:107-115 | a handle on the parent, or the invalid handle when the entity is invalid or has no parent |
| Entities.Entity.SetParent | src/engine/scene/entity/Entity.h:117-121 | acts only when both handles are valid, as EntityManager's SetParent |
| Entities.Entity.SetParentId | src/engine/scene/entity/Entity.h:123-127 | acts when this handle is valid, recording the id even when it names no live entity |
| Entities.Entity.GetID | src/engine/scene/entity/Entity.h:51 | the handle's id |
| Entities.Entity.GetChildren | src/engine/scene/entity/Entity.h:129-141 | empty for an invalid handle; otherwise one handle per listed child, in order |
| Entities.Entity.AddChild | src/engine/scene/entity/Entity.h:143-147 | a valid child is reparented to this entity when this handle is valid too |
| Entities.Entity.RemoveChild | src/engine/scene/entity/Entity.h:149-153 | detaches the child (parent 0) only when the child's parent equals this handle |
| Entities.Entity.Destroy | src/engine/scene/entity/Entity.h:156-161 | on a valid handle, exactly the entity's subtree is destroyed, the table and queue are EntityManager.TearDownOf's (ids queued in post-order), the hook log gains one OnDestroy per component of each destroyed entity, and the handle's id becomes 0; otherwise nothing changes |
| Entities.Invalid | src/engine/scene/entity/Entity.h:168-170 | id 0, never valid |
| Entities.ComparisonsUseIds | src/engine/scene/entity/Entity.h:46-48 | ==, != and < look only at ids; < is a strict total order up to == |
| Entities.ValidHandleIsLive | src/engine/scene/entity/Entity.h:36-40 | a valid handle has a manager in which its non-zero id is live |
| Scenes.Named | src/engine/scene/Scene.h:193-196 | the nodes that carry a name, in order |
| Scenes.InfoOf | src/engine/scene/entity/EntityManager.h:237-251 | the record DeserializeEntity creates: the name, active unless the node says false, no links |
| Scenes.ParentAfter | src/engine/scene/entity/EntityManager.h:253-257 | the node's parent value when present, else the current parent |
| Scenes.TableAt | src/engine/scene/Scene.h:188-197 | the first pass gives each created id its node's record |
| Scenes.StaleParentAfterReload | src/engine/scene/Scene.h:199-202 | as written: with two reloaded entities and a saved parent id 5, the child points at the dead id 5 and no entity lists it |
| Scenes.SavedIndex | src/engine/scene/Scene.h:157-161 | the position of a saved id in the saved order, or none exactly when it was not saved |
| Scenes.RenumberedAll | src/engine/scene/Scene.h:199-202 | corrected: each node's saved parent is mapped to the id its saved entity was reloaded under |
| Scenes.RenumberedReloadKeepsHierarchy | src/engine/scene/Scene.h:168-204 | corrected: after a reload with renumbered parents, entity i lists j exactly when j was saved as i's child, and j points back at i |
| Scenes.RelinkStep | src/engine/scene/Scene.h:200-202 | one round of the second pass keeps the relinking invariant with that entity handled |
| Scenes.RelinkSkip | src/engine/scene/entity/EntityManager.h:254-257 | a node without "parent" leaves the entity as it is |
| Scenes.LinkedLoaded | src/engine/scene/Scene.h:187-203 | after both passes, the entities are exactly what Loaded describes |
| Scenes.LoadedLinks | src/engine/scene/Scene.h:198-202 | after the second pass, a loaded entity's children are exactly the loaded entities naming it as parent |
| Scenes.LoadedFields | src/engine/scene/Scene.h:187-203 | after both passes, each loaded entity has its node's name, active flag and parent |
| Scenes.Scene.constructor | src/engine/scene/Scene.h:23-46 | name and id as given (defaults "Scene" and 0), active, with fresh empty managers wired together |
| Scenes.Scene.CreateEntity | src/engine/scene/Scene.h:59-62 | a handle on a newly created, non-zero, previously unused id with a fresh record |
| Scenes.Scene.DestroyEntity | src/engine/scene/Scene.h:64-68 | an invalid handle changes nothing; otherwise exactly the entity's subtree is torn down, leaving EntityManager.TearDownOf's table and queue, with one OnDestroy hook logged per component of each destroyed entity |
| Scenes.Scene.DestroyEntityByID | src/engine/scene/Scene.h:70-72 | exactly the id's subtree is torn down, leaving EntityManager.TearDownOf's table and queue, with one OnDestroy hook logged per component of each destroyed entity; an invalid id changes nothing |
| Scenes.Scene.GetEntity | src/engine/scene/Scene.h:74-79 | a valid handle for a live id, otherwise the invalid handle |
| Scenes.Scene.GetAllEntities | src/engine/scene/Scene.h:81-91 | one handle per live entity, no id twice, all on this scene's managers |
| Scenes.Scene.GetEntitiesWith | src/engine/scene/Scene.h:94-105 | one handle per live, active entity with every listed component, no id twice |
| Scenes.Scene.Update | src/engine/scene/Scene.h:129-133 | the enabled systems are updated only while the scene is active |
| Scenes.Scene.Clear | src/engine/scene/Scene.h:135-139 | no entity is left, as one teardown of them all, so every pool loses exactly the old entities and each of their components logs one OnDestroy; the id counter is kept |
| Scenes.Scene.Deserialize | src/engine/scene/Scene.h:168-204 | each present scene field is taken; the entities are cleared and, when "entities" is a sequence, reloaded as Loaded describes; every pool loses exactly the old entities and the reloaded ones get no component; the hook log gains exactly one OnDestroy per component of an old entity |
| Scenes.Scene.LoadEntities | src/engine/scene/Scene.h:183-203 | cleared, then both passes: the result is Loaded for the named nodes; the pools are the old ones without the old entities and the hook log gains exactly one OnDestroy per component of an old entity |
| Scenes.Scene.CreateNamed | src/engine/scene/Scene.h:188-197 | the first pass: one fresh, distinct id per named node, recorded with its node |
| Scenes.Scene.CreateOne | src/engine/scene/Scene.h:191-196 | one round of the first pass |
| Scenes.Scene.DeserializeEntity | src/engine/scene/entity/EntityManager.h:237-251 | no name: id 0 and no change; otherwise a new entity with the node's name and active flag |
| Scenes.Scene.LinkParents | src/engine/scene/Scene.h:199-202 | the second pass: every entity whose node names a parent is reparented |
| Scenes.Scene.LinkOne | src/engine/scene/entity/EntityManager.h:253-262 | DeserializeEntityRelationships for one entity |
| Scenes.DefaultScene | src/engine/scene/Scene.h:26-29 | a default scene is named "Scene", has id 0 and is active |
| CommonSystems.RenderEntryOf | src/engine/scene/system/CommonSystems.h:95-104 | an entry exactly when the entity has a Transform and a visible Renderable, carrying the renderable's layer |
| CommonSystems.RenderEntriesCount | src/engine/scene/system/CommonSystems.h:94-107 | the collected queue holds each eligible entity's entry once and nothing else |
| CommonSystems.InsertByLayerAdds | src/engine/scene/system/CommonSystems.h:110-113 | insertion adds exactly the new entry to the multiset |
| CommonSystems.ConsSorted | src/engine/scene/system/CommonSystems.h:110-113 | an entry no later than the rest, in front of a sorted queue, stays sorted |
| CommonSystems.InsertByLayerSorts | src/engine/scene/system/CommonSystems.h:110-113 | insertion into a sorted queue keeps it sorted by layer |
| CommonSystems.SortByLayer | src/engine/scene/system/CommonSystems.h:110-113 | the result is non-decreasing by layer and a permutation of the input (equal layers in any order) |
| CommonSystems.RenderSystem.constructor | src/engine/scene/system/CommonSystems.h:73 | no managers and an empty queue |
| CommonSystems.RenderSystem.Update | src/engine/scene/system/CommonSystems.h:86-117 | the queue is sorted by layer and holds, once each, exactly the active entities with a Transform and a visible Renderable; components are not changed |
| CommonSystems.RenderSystem.CollectEntries | src/engine/scene/system/CommonSystems.h:94-107 | the queue built by the loop is RenderEntries of the selected ids |
| CommonSystems.RenderSystem.EntryFor | src/engine/scene/system/CommonSystems.h:95-104 | one round of that loop |
| CommonSystems.RenderSystem.GetRenderQueue | src/engine/scene/system/CommonSystems.h:130-132 | the current queue |
| CommonSystems.Promote | src/engine/scene/system/CommonSystems.h:160-164 | only the chosen camera's isPrimary is set; every other component is kept |
| CommonSystems.PromoteSameContents | src/engine/scene/system/CommonSystems.h:160-164 | the write through the camera component GetComponent returns is that promotion |
| CommonSystems.CameraSystem.constructor | src/engine/scene/system/CommonSystems.h:138 | no managers, no primary camera |
| CommonSystems.CameraSystem.Update | src/engine/scene/system/CommonSystems.h:145-167 | no camera entity gives INVALID_ENTITY_ID; otherwise a selected camera entity; a flagged one when any is flagged, with nothing changed; else the chosen camera is promoted |
| CommonSystems.CameraSystem.IsPrimaryCamera | src/engine/scene/system/CommonSystems.h:151-152 | whether the entity's camera is flagged primary; nothing changes |
| CommonSystems.CameraSystem.GetPrimaryCameraEntity | src/engine/scene/system/CommonSystems.h:182-184 | the entity chosen by the last Update |
| CommonSystems.Quiet | src/engine/scene/system/CommonSystems.h:223 | playOnCreate is cleared on an audio component; anything else is kept |
| CommonSystems.Quieted | src/engine/scene/system/CommonSystems.h:216-224 | visited audio components no longer want to play; the others are unchanged |
| CommonSystems.WantingExactly | src/engine/scene/system/CommonSystems.h:221 | the played list holds, once each, exactly the visited entities that wanted to play |
| CommonSystems.WantingSnoc | src/engine/scene/system/CommonSystems.h:216-224 | one more entity adds itself to the played list exactly when it wants to play |
| CommonSystems.AudioSystem.constructor | src/engine/scene/system/CommonSystems.h:200-202 | no managers, nothing played |
| CommonSystems.AudioSystem.Update | src/engine/scene/system/CommonSystems.h:212-234 | exactly the selected entities whose component wanted to play are played, once each, and their flag is cleared; no other pool changes, and without an entity manager no pool changes at all |
| CommonSystems.AudioSystem.PlayAll | src/engine/scene/system/CommonSystems.h:216-233 | the loop: played gains the wanting entities in order and each visited component is quieted |
| CommonSystems.AudioSystem.PlayOnCreate | src/engine/scene/system/CommonSystems.h:217-224 | one round of that loop |
| CommonSystems.QuietedStep | src/engine/scene/system/CommonSystems.h:223 | quieting one more entity updates only that entity |
| CommonSystems.Age | src/engine/scene/system/CommonSystems.h:293 | a lifetime component's elapsed grows by the frame time; anything else is kept |
| CommonSystems.Aged | src/engine/scene/system/CommonSystems.h:289-298 | the visited lifetime components are aged, the others kept |
| CommonSystems.AgedStep | src/engine/scene/system/CommonSystems.h:293 | ageing one more entity updates only that entity |
| CommonSystems.LifetimeSystem.constructor | src/engine/scene/system/CommonSystems.h:281-283 | no managers |
| CommonSystems.LifetimeSystem.Update | src/engine/scene/system/CommonSystems.h:285-306 | exactly the subtrees of the expired entities are destroyed and their ids freed; a surviving lifetime component of a selected (live, active) entity is the old one aged by the frame time, any other surviving one is kept as it was, and no selected survivor loses its component; every other pool loses exactly the destroyed entities and the hook log gains exactly one OnDestroy per component of a destroyed entity; without an entity manager, nothing changes |
| CommonSystems.LifetimeSystem.Scan | src/engine/scene/system/CommonSystems.h:286-298 | the first loop: every selected component is aged, and the expired list holds, once each, exactly those with elapsed + dt at least the lifetime and destroyOnTimeout; without an entity manager the list is empty and no pool changes |
| CommonSystems.LifetimeSystem.AgeEntity | src/engine/scene/system/CommonSystems.h:290-297 | one round of that loop |
| CommonSystems.LifetimeSystem.DestroyScanned | src/engine/scene/system/CommonSystems.h:300-306 | the second loop seen from the first's result: the expired subtrees are destroyed, survivors keep their aged lifetimes, other pools lose exactly the destroyed entities and their OnDestroy hooks are logged once each |
| CommonSystems.LifetimeSystem.DestroyExpired | src/engine/scene/system/CommonSystems.h:300-305 | the second loop: every expired entity is gone, as one teardown of exactly their subtrees |
| GuiText.FirstOcc | src/engine/renderer/ui/GuiLayout.h:113 | a found position leaves room for the whole pattern |
| GuiText.FirstOccMatches | src/engine/renderer/ui/GuiLayout.h:113 | the position std::string::find reports holds the pattern |
| GuiText.FirstOccIsFirst | src/engine/renderer/ui/GuiLayout.h:113 | no earlier position holds it |
| GuiText.FirstOccNone | src/engine/renderer/ui/GuiLayout.h:113-114 | npos exactly when the pattern occurs nowhere |
| GuiText.Find | src/engine/renderer/ui/GuiLayout.h:116 | find from a start position: the first occurrence at or after the start, npos past the end |
| GuiText.ReplaceAbsent | src/engine/renderer/ui/GuiLayout.h:113-117 | a string without the pattern is left alone |
| GuiText.ReplaceSelf | src/engine/renderer/ui/GuiLayout.h:113-117 | replacing a pattern by itself gives back the input |
| GuiText.ReplaceUnfold | src/engine/renderer/ui/GuiLayout.h:113-117 | the replacement is the text before the first match, the value, then the replacement of the rest |
| GuiText.ReplaceStep | src/engine/renderer/ui/GuiLayout.h:115-116 | one round of the replace loop keeps the invariant that the finished prefix plus the rest's replacement is the final text |
| GuiText.ReplaceLoop | src/engine/renderer/ui/GuiLayout.h:113-123 | the find/replace loop, searching on after each inserted value, yields the left-to-right non-overlapping replacement |
| GuiText.FindAny | src/engine/renderer/ui/GuiLayout.h:119 | find of the empty string succeeds at the start position whenever it is not past the end |
| GuiText.EmptyKeyLoopNeverEnds | src/engine/renderer/ui/GuiLayout.h:119-123 | as written, with an empty key the bare-key loop still has a match after any number of rounds, and the text grows by the value each round |
| GuiText.Braced | src/engine/renderer/ui/GuiLayout.h:110 | "${" + key + "}" is three longer and holds the key at index 2 |
| GuiText.SubstituteWithoutVariables | src/engine/renderer/ui/GuiLayout.h:105-126 | without variables the label comes back unchanged |
| GuiText.KeyInBraced | src/engine/renderer/ui/GuiLayout.h:110 | every occurrence of the braced key holds the bare key two places on |
| GuiText.BracedNeedsKey | src/engine/renderer/ui/GuiLayout.h:110 | a text without the key has no braced key either |
| GuiText.SubstituteNoKeys | src/engine/renderer/ui/GuiLayout.h:105-126 | a label that mentions no variable name, in any order of the map, comes back unchanged |
| GuiText.TrimLeft | src/engine/renderer/ui/GuiLayout.cpp:347 | the erase up to find_first_not_of leaves nothing or a non-space first character, adds no comma |
| GuiText.TrimRight | src/engine/renderer/ui/GuiLayout.cpp:348 | the erase after find_last_not_of leaves nothing or a non-space last character, keeps the first |
| GuiText.Trim | src/engine/renderer/ui/GuiLayout.cpp:347-348 | a trimmed token is empty or starts and ends with a non-space character |
| GuiText.TrimTrimmed | src/engine/renderer/ui/GuiLayout.cpp:347-348 | trimming an already trimmed token changes nothing |
| GuiText.IndexOfComma | src/engine/renderer/ui/GuiLayout.cpp:345 | getline's cut: the first comma, with none before it; none when there is no comma |
| GuiText.Piece | src/engine/renderer/ui/GuiLayout.cpp:345 | a field holds no comma |
| GuiText.Rest | src/engine/renderer/ui/GuiLayout.cpp:345 | what getline leaves is shorter, so the loop ends |
| GuiText.TokensShape | src/engine/renderer/ui/GuiLayout.cpp:345-353 | every list item is non-empty, trimmed and comma-free |
| GuiText.CommaAfter | src/engine/renderer/ui/GuiLayout.cpp:345 | a comma-free field followed by a comma is cut at that comma |
| GuiText.TokensJoin | src/engine/renderer/ui/GuiLayout.cpp:345-353 | tokenising the comma-joined items gives the items back |
| GuiText.TokenStep | src/engine/renderer/ui/GuiLayout.cpp:346-352 | one round of the getline loop keeps its invariant |
| GuiText.TokenizeList | src/engine/renderer/ui/GuiLayout.cpp:339-353 | the getline loop's items are the trimmed non-empty comma fields of the source |
| Gui.GetWidgetType | src/engine/renderer/ui/GuiLayout.cpp:15-38 | each listed type string parses to its type; any other string gives BUTTON; IMAGE_BUTTON is never produced |
| Gui.GetWidgetState | src/engine/renderer/ui/GuiLayout.cpp:40-51 | each listed state string parses to its state; any other gives NORMAL |
| Gui.GetWidgetCallback | src/engine/renderer/ui/GuiLayout.cpp:53-64 | each listed callback string parses to its callback; any other gives ON_CLICK |
| Gui.TypeNameRoundTrip | src/engine/renderer/ui/GuiLayout.cpp:15-38 | a type's name parses back to it exactly when the type is not IMAGE_BUTTON |
| Gui.StateNameRoundTrip | src/engine/renderer/ui/GuiLayout.cpp:40-51 | a state's name parses back to it exactly when the parser lists that name, and to NORMAL otherwise |
| Gui.CallbackNameRoundTrip | src/engine/renderer/ui/GuiLayout.cpp:53-64 | every callback's name parses back to it |
| Gui.DefaultLabel | src/engine/renderer/ui/GuiLayout.cpp:72-81 | "Button" exactly for BUTTON, "Slider" exactly for SLIDER, empty otherwise |
| Gui.UnknownTypeIsButton | src/engine/renderer/ui/GuiLayout.cpp:35-37 | an unknown type string yields a widget labelled "Button" |
| Gui.FirstPresent | src/engine/renderer/ui/GuiLayout.cpp:324-334 | the fallback picks a listed name that is a variable; none exactly when no listed name is a variable |
| Gui.ListSource | src/engine/renderer/ui/GuiLayout.cpp:299-335 | the list source is the custom variable when present, else the widget name when present, else a common name; none exactly when all three fail |
| Gui.LastChange | src/engine/renderer/ui/GuiLayout.cpp:189-191 | no change for a key exactly when no recorded change names it; otherwise a recorded value for it |
| Gui.ApplyChanges | src/engine/renderer/ui/GuiLayout.cpp:179-191 | after the change loop, the keys are the old ones plus the changed ones; a changed variable holds its last change, the others keep their value |
| Gui.Widget.constructor | src/engine/renderer/ui/GuiLayout.h:63-90 | every field holds its declared default, no children, no parent |
| Gui.Widget.WithChildren | src/engine/renderer/ui/GuiLayout.h:88-89 | a default widget owning the given children |
| Gui.Widget.SubstituteVariables | src/engine/renderer/ui/GuiLayout.h:105-126 | for every non-empty key, in the map's iteration order, the braced then the bare key is replaced left to right; an input in which no non-empty key occurs comes back unchanged |
| Gui.BelowSnoc | src/engine/renderer/ui/GuiLayout.cpp:477-479 | the widgets under one more top-level widget are those before plus its subtree |
| Gui.CreateWidget | src/engine/renderer/ui/GuiLayout.cpp:66-83 | a fresh childless widget with the type string, the name, the parsed type and that type's default label, every other field at its default |
| Gui.GuiLayout.constructor | src/engine/renderer/ui/GuiLayout.h:144-148 | a layout of the given type over the loaded widgets, with no title and no file name |
| Gui.GuiLayout.GetWidget | src/engine/renderer/ui/GuiLayout.cpp:457-464 | null exactly when no top-level widget has the name; otherwise the first one that has it |
| Gui.GuiLayout.ResetWidgetState | src/engine/renderer/ui/GuiLayout.cpp:483-494 | every widget in the subtree has no items and selection 0; widgets already reset stay reset |
| Gui.GuiLayout.Reset | src/engine/renderer/ui/GuiLayout.cpp:475-480 | every widget in every top-level subtree has no items and selection 0 |
| Gui.ListNamesDistinct | src/engine/renderer/ui/GuiLayout.cpp:293-294 | different counter values give different names |
| Gui.ListCounter.constructor | src/engine/renderer/ui/GuiLayout.cpp:293 | the program-wide counter starts at 0 |
| Gui.GuiLayout.RefreshListItems | src/engine/renderer/ui/GuiLayout.cpp:290-369 | an unnamed list widget gets "list_widget_N" from the program-wide counter, which then grows by one; a named one keeps its name and the counter; with a source, the items are that variable's tokens; without one they are kept |
| Gui.RenderTwoLayouts | src/engine/renderer/ui/GuiLayout.cpp:290-296 | unnamed lists of two layouts rendered in turn get consecutive names from the shared counter, so their names differ |
| Gui.GuiLayout.RegisterWidgetEvents | src/engine/renderer/ui/GuiLayout.cpp:521-538 | the registry gains exactly the callback names in the widget's events and its children's, each with a default handler; callbacks already registered are kept |
| Gui.RegisterDefaults | src/engine/renderer/ui/GuiLayout.cpp:522-532 | the registry gains exactly the unregistered callback names of one widget's events, each with a default handler |
| GuiCallbacks.GuiCallbackRegistry.constructor | src/engine/renderer/ui/GuiCallbackRegistry.h:9-12 | the single instance starts with no callbacks and nothing invoked |
| GuiCallbacks.GuiCallbackRegistry.Register | src/engine/renderer/ui/GuiCallbackRegistry.h:14-16 | the name maps to the callback, replacing any earlier one; every other entry is kept |
| GuiCallbacks.GuiCallbackRegistry.Execute | src/engine/renderer/ui/GuiCallbackRegistry.h:18-25 | true exactly when the name is registered, and then that callback is invoked once with the parameter; otherwise nothing is invoked |
| GuiCallbacks.GuiCallbackRegistry.IsRegistered | src/engine/renderer/ui/GuiCallbackRegistry.h:27-29 | true exactly when the name has a callback |
| QuadBatches.FlattenSnoc | src/engine/renderer/QuadBatch.cpp:94-130 | the quads drawn by the batches so far plus one more batch are the earlier quads followed by that batch |
| QuadBatches.FlattenConcat | src/engine/renderer/QuadBatch.cpp:94-130 | the quads of two runs of batches are the first run's followed by the second's |
| QuadBatches.FullScreenQuad | src/engine/renderer/fog/FogRenderer2D.cpp:41-47 | the overlay quad is centred on the window, 100 larger in each direction, unrotated, white, texture 0 |
| QuadBatches.QuadBatch.constructor | src/engine/renderer/QuadBatch.cpp:6-8 | no pending instances, no shader, nothing drawn |
| QuadBatches.QuadBatch.Begin | src/engine/renderer/QuadBatch.cpp:78-92 | the shader is stored (absent is allowed) and the pending instances cleared; nothing is drawn |
| QuadBatches.QuadBatch.Flush | src/engine/renderer/QuadBatch.cpp:111-130 | without a shader nothing changes; with one, the pending instances are drawn as one batch with that shader and cleared |
| QuadBatches.QuadBatch.Add | src/engine/renderer/QuadBatch.cpp:94-98 | the instance is queued; when the queue reaches MaxQuads (2048) with a shader bound it is drawn as one batch and emptied |
| QuadBatches.QuadBatch.End | src/engine/renderer/QuadBatch.cpp:100-109 | pending instances are flushed when there are any, the shader is dropped, and every quad added since Begin has been drawn, in order |
| QuadBatches.DrawSingleQuad | src/engine/renderer/lighting/LightRenderer2D.cpp:23-43 | Begin, Add, End with one quad: with a shader the quad is drawn as a batch of its own |
| Lighting.LightTypeCode | src/engine/renderer/lighting/LightRenderer2D.cpp:169 | the shader's type code: 0 exactly for point, 1 exactly for directional, 2 for spot |
| Lighting.MakePointLight | src/engine/renderer/lighting/Light.h:27-31 | a non-directional point light at the position with the range, colour and intensity, pointing down, with a full-circle (2 x 3.14159) cone |
| Lighting.MakeSpotLight | src/engine/renderer/lighting/Light.h:34-38 | a directional spot light along the normalised direction whose inner angle is 0.8 of the cone angle |
| Lighting.CreateDirectionalLight | src/engine/renderer/lighting/Light.h:41-55 | a directional light along the normalised direction, at the origin, with zero range and angles |
| Lighting.CreateSpotLight | src/engine/renderer/lighting/Light.h:58-74 | a directional spot light with the given inner and outer angles along the normalised direction |
| Lighting.LightFrame | src/engine/renderer/lighting/LightRenderer2D.cpp:137-184 | the uniforms carry the config's globals, the first min(n, 16) lights and the first min(m, 32) obstacles, all of them when there are few enough |
| Lighting.LightRenderer2D.constructor | src/engine/renderer/lighting/LightRenderer2D.cpp:8-14 | the window size, no lights, no obstacles, the default config, a fresh batch, debug off |
| Lighting.LightRenderer2D.AddLight | src/engine/renderer/lighting/LightRenderer2D.cpp:46-48 | the light is appended |
| Lighting.LightRenderer2D.AddLights | src/engine/renderer/lighting/LightRenderer2D.cpp:50-52 | the lights are appended in order |
| Lighting.LightRenderer2D.ClearLights | src/engine/renderer/lighting/LightRenderer2D.cpp:54-56 | no lights remain |
| Lighting.LightRenderer2D.RemoveLight | src/engine/renderer/lighting/LightRenderer2D.cpp:58-62 | an in-range index removes that light, keeping the order of the rest; any other index changes nothing |
| Lighting.LightRenderer2D.UpdateLight | src/engine/renderer/lighting/LightRenderer2D.cpp:64-68 | an in-range index replaces that light; any other index changes nothing |
| Lighting.LightRenderer2D.AddPointLight | src/engine/renderer/lighting/LightRenderer2D.cpp:317-319 | appends the point light built from the arguments |
| Lighting.LightRenderer2D.AddSpotLight | src/engine/renderer/lighting/LightRenderer2D.cpp:321-324 | appends the spot light built from the arguments |
| Lighting.LightRenderer2D.AddDirectionalLight | src/engine/renderer/lighting/LightRenderer2D.cpp:326-328 | appends the directional light built from the arguments |
| Lighting.LightRenderer2D.AddAdvancedSpotLight | src/engine/renderer/lighting/LightRenderer2D.cpp:330-333 | appends the spot light with separate angles built from the arguments |
| Lighting.LightRenderer2D.AddObstacle | src/engine/renderer/lighting/LightRenderer2D.cpp:70-72 | the obstacle is appended |
| Lighting.LightRenderer2D.AddObstacles | src/engine/renderer/lighting/LightRenderer2D.cpp:74-76 | the obstacles are appended in order |
| Lighting.LightRenderer2D.ClearObstacles | src/engine/renderer/lighting/LightRenderer2D.cpp:78-80 | no obstacles remain |
| Lighting.LightRenderer2D.RemoveObstacle | src/engine/renderer/lighting/LightRenderer2D.cpp:82-86 | an in-range index removes that obstacle; any other index changes nothing |
| Lighting.LightRenderer2D.SetLightConfig | src/engine/renderer/lighting/LightRenderer2D.cpp:88-90 | the config is stored |
| Lighting.LightRenderer2D.GetLightConfig | src/engine/renderer/lighting/LightRenderer2D.cpp:92-94 | the stored config |
| Lighting.LightRenderer2D.SetWindowSize | src/engine/renderer/lighting/LightRenderer2D.cpp:96-99 | the window size is stored |
| Lighting.LightRenderer2D.SetDebugMode | src/engine/renderer/lighting/LightRenderer2D.cpp:126-128 | the debug flag is stored |
| Lighting.LightRenderer2D.UpdateShaderUniforms | src/engine/renderer/lighting/LightRenderer2D.cpp:137-184 | the uploaded uniforms are the frame's light uniforms |
| Lighting.LightRenderer2D.DrawLightingOverlay | src/engine/renderer/lighting/LightRenderer2D.cpp:21-44 | the uniforms are uploaded and exactly one full-window quad is drawn with the light shader |
| Fog.FogFrame | src/engine/renderer/fog/FogRenderer2D.cpp:138-159 | the uniforms carry the player position, range, colour and softness, and the first min(m, 32) obstacles |
| Fog.LegacyConfig | src/engine/renderer/fog/FogRenderer2D.cpp:53-59 | the legacy call's config: range = radius, softness scaled by 0.01, the given colour |
| Fog.FogRenderer2D.constructor | src/engine/renderer/fog/FogRenderer2D.cpp:8-14 | the window size, no obstacles, the default config, a fresh batch, debug off |
| Fog.FogRenderer2D.AddObstacle | src/engine/renderer/fog/FogRenderer2D.cpp:64-66 | the obstacle is appended |
| Fog.FogRenderer2D.AddObstacles | src/engine/renderer/fog/FogRenderer2D.cpp:68-70 | the obstacles are appended in order |
| Fog.FogRenderer2D.ClearObstacles | src/engine/renderer/fog/FogRenderer2D.cpp:72-74 | no obstacles remain |
| Fog.FogRenderer2D.RemoveObstacle | src/engine/renderer/fog/FogRenderer2D.cpp:76-80 | an in-range index removes that obstacle; any other index changes nothing |
| Fog.FogRenderer2D.SetFogConfig | src/engine/renderer/fog/FogRenderer2D.cpp:82-84 | the config is stored |
| Fog.FogRenderer2D.GetFogConfig | src/engine/renderer/fog/FogRenderer2D.cpp:86-88 | the stored config |
| Fog.FogRenderer2D.SetWindowSize | src/engine/renderer/fog/FogRenderer2D.cpp:90-93 | the window size is stored |
| Fog.FogRenderer2D.SetDebugMode | src/engine/renderer/fog/FogRenderer2D.cpp:126-128 | the debug flag is stored |
| Fog.FogRenderer2D.UpdateShaderUniforms | src/engine/renderer/fog/FogRenderer2D.cpp:138-159 | the uploaded uniforms are the frame's fog uniforms |
| Fog.FogRenderer2D.DrawFogQuad | src/engine/renderer/fog/FogRenderer2D.cpp:27-50 | the uniforms are uploaded and exactly one full-window quad is drawn with the fog shader |
| Fog.FogRenderer2D.DrawFogQuadFacing | src/engine/renderer/fog/FogRenderer2D.cpp:21-25 | the facing overload ignores the direction and draws as DrawFogQuad does |
| Fog.FogRenderer2D.DrawFogQuadLegacy | src/engine/renderer/fog/FogRenderer2D.cpp:53-62 | the legacy overload draws with the converted config |
| Vision.VisionFrame | src/engine/renderer/vision/VisionRenderer2D.cpp:125-150 | the uniforms carry the player position, the normalised direction, every config value, and the first min(m, 32) obstacles in order |
| Vision.UploadPrefix | src/engine/renderer/vision/VisionRenderer2D.cpp:139-149 | the upload loop sends min(n, cap) items, exactly the prefix of that length, everything when n is small enough |
| Vision.VisionRenderer2D.constructor | src/engine/renderer/vision/VisionRenderer2D.cpp:7-13 | the window size, no obstacles, the default config, a fresh batch, debug off |
| Vision.VisionRenderer2D.AddObstacle | src/engine/renderer/vision/VisionRenderer2D.cpp:46-48 | the obstacle is appended |
| Vision.VisionRenderer2D.AddObstacles | src/engine/renderer/vision/VisionRenderer2D.cpp:121-123 | the obstacles are appended in order |
| Vision.VisionRenderer2D.ClearObstacles | src/engine/renderer/vision/VisionRenderer2D.cpp:54-56 | no obstacles remain |
| Vision.VisionRenderer2D.RemoveObstacle | src/engine/renderer/vision/VisionRenderer2D.cpp:58-62 | an in-range index removes that obstacle; any other index changes nothing |
| Vision.VisionRenderer2D.SetVisionConfig | src/engine/renderer/vision/VisionRenderer2D.cpp:64-66 | the config is stored |
| Vision.VisionRenderer2D.GetVisionConfig | src/engine/renderer/vision/VisionRenderer2D.cpp:68-70 | the stored config |
| Vision.VisionRenderer2D.SetWindowSize | src/engine/renderer/vision/VisionRenderer2D.cpp:72-75 | the window size is stored |
| Vision.VisionRenderer2D.SetDebugMode | src/engine/renderer/vision/VisionRenderer2D.cpp:109-111 | the debug flag is stored |
| Vision.VisionRenderer2D.UpdateShaderUniforms | src/engine/renderer/vision/VisionRenderer2D.cpp:125-150 | the uploaded uniforms are exactly VisionFrame of the position, direction, given config and stored obstacles |
| Vision.VisionRenderer2D.DrawVisionOverlay | src/engine/renderer/vision/VisionRenderer2D.cpp:20-44 | the uniforms are exactly VisionFrame of the frame's parameters and the stored obstacles, and exactly one full-window quad is drawn with the vision shader |
| Audio.MoveAssignSound | src/engine/core/audio/AudioManager.cpp:60-92 | self-assignment changes nothing; otherwise the target takes the source's fields, releases its own old handle, and the source is left without a handle, stopped, unpaused |
| Audio.MoveConstructSound | src/engine/core/audio/AudioManager.cpp:53-58 | the new sound takes the source's fields; the source keeps its flags but loses the handle |
| Audio.MoveAssignMusic | src/engine/core/audio/AudioManager.cpp:101-134 | as for sounds, and the emptied source is also not looping |
| Audio.MoveConstructMusic | src/engine/core/audio/AudioManager.cpp:94-99 | the new music takes the source's fields; the source loses the handle |
| Audio.MoveHasOneOwner | src/engine/core/audio/AudioManager.cpp:53-92 | after either kind of move exactly the target owns the handle |
| Audio.Clamp01 | src/engine/core/audio/AudioManager.cpp:921-927 | the volume clamp: inside [0, 1], the value itself when in range, the nearer bound otherwise |
| Audio.PitchFloor | src/engine/core/audio/AudioManager.cpp:929-935 | the pitch floor: at least the minimum pitch, the value itself when above it |
| Audio.DestructorUnloads | src/engine/core/audio/AudioManager.cpp:17-32 | the sound destructor unloads the handle exactly when there is one and the device reports it ready |
| Audio.UnloadReleasesTwice | src/engine/core/audio/AudioManager.cpp:491-509 | as written, unloading a ready sound releases its handle twice: explicitly and again in the destructor of the erased entry |
| Audio.UnloadCalls | src/engine/core/audio/AudioManager.cpp:491-509 | corrected: unloading a sound releases its handle at most once, and exactly once when it is ready |
| Audio.Step | src/engine/core/audio/AudioManager.cpp:382-452 | one command adds at most one event and never drops one |
| Audio.Run | src/engine/core/audio/AudioManager.cpp:326-337 | a batch of commands adds at most one event per command, keeping the old ones in front |
| Audio.LoadLoadedIsNoop | src/engine/core/audio/AudioManager.cpp:454-460 | loading a name that is already loaded changes nothing |
| Audio.LoadSoundOutcome | src/engine/core/audio/AudioManager.cpp:454-489 | loading a new sound either stores it with the command's settings and reports SOUND_LOADED, or on failure changes no sound and records the load error |
| Audio.LoadThenUnload | src/engine/core/audio/AudioManager.cpp:454-509 | loading then unloading a new sound leaves the sounds and music as before, with the two events reported |
| Audio.UnloadUnknownIsNoop | src/engine/core/audio/AudioManager.cpp:491-509 | unloading an unknown sound or music changes nothing |
| Audio.SoundFlags | src/engine/core/audio/AudioManager.cpp:511-576 | play sets playing and not paused; stop clears both; pause sets paused keeping playing; resume clears paused keeping playing |
| Audio.MusicFlags | src/engine/core/audio/AudioManager.cpp:679-742 | play music sets playing with the command's loop flag and reports MUSIC_STARTED; stop clears both flags; pause and resume set or clear paused without events |
| Audio.UnknownNameIsNoop | src/engine/core/audio/AudioManager.cpp:511-619 | a sound command for an unknown name changes nothing |
| Audio.AllSoundsFlags | src/engine/core/audio/AudioManager.cpp:792-825 | the all-sounds commands keep the names and events; stop clears the flags; pause pauses exactly the playing ones; resume unpauses all |
| Audio.StepKeepsOwned | src/engine/core/audio/AudioManager.cpp:382-452 | after any command every sound and music entry still owns a loaded raudio object (its handle is present) |
| Audio.LoadSoundKeepsOwned | src/engine/core/audio/AudioManager.cpp:454-489 | loading a sound leaves every sound and music entry owning a loaded raudio object |
| Audio.LoadMusicKeepsOwned | src/engine/core/audio/AudioManager.cpp:621-657 | loading music leaves every sound and music entry owning a loaded raudio object |
| Audio.AllSoundsKeepsOwned | src/engine/core/audio/AudioManager.cpp:792-825 | the all-sounds commands leave every sound and music entry owning a loaded raudio object |
| Audio.StepLeavesOtherSounds | src/engine/core/audio/AudioManager.cpp:382-452 | a command about another name leaves a sound untouched |
| Audio.RunKeepsOwned | src/engine/core/audio/AudioManager.cpp:326-337 | after a whole batch of commands every sound and music entry still owns a loaded raudio object |
| Audio.RunAppend | src/engine/core/audio/AudioManager.cpp:319-337 | running two batches one after the other is running their concatenation |
| Audio.RunLeavesOtherSounds | src/engine/core/audio/AudioManager.cpp:326-337 | a batch about other names leaves a sound untouched |
| Audio.SoundBatch | src/engine/core/audio/AudioManager.cpp:1078-1086 | one LOAD_SOUND command per asset, in order, with the asset's settings |
| Audio.MusicBatch | src/engine/core/audio/AudioManager.cpp:1088-1097 | one LOAD_MUSIC command per asset, in order, with the asset's settings and loop flag |
| Audio.AudioManager.constructor | src/engine/core/audio/AudioManager.cpp:136-142 | not initialised, master volume 1, no thread, no callback, nothing loaded or queued; the static last-error string keeps whatever value it had |
| Audio.AudioManager.Initialize | src/engine/core/audio/AudioManager.cpp:148-172 | an initialised manager returns true unchanged; a device failure records the error and returns false; otherwise the manager and its thread start |
| Audio.AudioManager.Shutdown | src/engine/core/audio/AudioManager.cpp:174-306 | an uninitialised manager is unchanged; otherwise the callback, events, sounds and music are cleared, the thread stops, and the command queue is emptied when the thread was running |
| Audio.AudioManager.IsInitialized | src/engine/core/audio/AudioManager.h:143 | the initialised flag |
| Audio.AudioManager.SetEventCallback | src/engine/core/audio/AudioManager.h:199 | records whether a callback is set |
| Audio.AudioManager.SetError | src/engine/core/audio/AudioManager.cpp:869-872 | the last error is the message |
| Audio.AudioManager.QueueCommand | src/engine/core/audio/AudioManager.cpp:858-862 | the command is appended to the command queue |
| Audio.AudioManager.QueueEvent | src/engine/core/audio/AudioManager.cpp:864-867 | the event is appended to the event queue |
| Audio.AudioManager.ProcessLoadSound | src/engine/core/audio/AudioManager.cpp:454-489 | the state after is the load step of the state before |
| Audio.AudioManager.ProcessUnloadSound | src/engine/core/audio/AudioManager.cpp:491-509 | the state after is the unload step |
| Audio.AudioManager.ProcessSoundEntry | src/engine/core/audio/AudioManager.cpp:511-619 | the state after is the per-sound command step |
| Audio.AudioManager.ProcessLoadMusic | src/engine/core/audio/AudioManager.cpp:621-657 | the state after is the music load step |
| Audio.AudioManager.ProcessUnloadMusic | src/engine/core/audio/AudioManager.cpp:659-677 | the state after is the music unload step |
| Audio.AudioManager.ProcessMusicEntry | src/engine/core/audio/AudioManager.cpp:679-785 | the state after is the per-music command step |
| Audio.AudioManager.ProcessAllSounds | src/engine/core/audio/AudioManager.cpp:792-825 | every sound is updated by the all-sounds command |
| Audio.AudioManager.VisitSound | src/engine/core/audio/AudioManager.cpp:792-825 | one round of that loop |
| Audio.AudioManager.ProcessCommand | src/engine/core/audio/AudioManager.cpp:382-452 | the state after is Step of the state before |
| Audio.AudioManager.ProcessCommands | src/engine/core/audio/AudioManager.cpp:326-337 | the state after is Run of the commands in order |
| Audio.AudioManager.UpdateMusicStreams | src/engine/core/audio/AudioManager.cpp:827-841 | each music is updated as the stream says, and a MUSIC_FINISHED event is queued for exactly the non-looping playing music that ended |
| Audio.AudioManager.StreamStep | src/engine/core/audio/AudioManager.cpp:830-839 | one round of that loop |
| Audio.AudioManager.CleanupFinishedSounds | src/engine/core/audio/AudioManager.cpp:843-856 | each finished sound is marked stopped and a SOUND_STOPPED event is queued for exactly those |
| Audio.AudioManager.CleanupStep | src/engine/core/audio/AudioManager.cpp:846-855 | one round of that loop |
| Audio.AudioManager.ThreadRound | src/engine/core/audio/AudioManager.cpp:314-366 | one round of the audio thread, which runs only while the thread flag is set: all queued commands run in order, then the streams update, then cleanup when due; the queue ends empty; the event queue is the commands' events, then one MUSIC_FINISHED per stream that finished, then (only when cleanup is due) one SOUND_STOPPED per sound that ended |
| Audio.AudioManager.Post | src/engine/core/audio/AudioManager.cpp:886-891 | a command is queued exactly when the manager is initialised |
| Audio.AudioManager.LoadSound | src/engine/core/audio/AudioManager.cpp:875-884 | uninitialised: false with the not-initialised error; otherwise true and a LOAD_SOUND command is queued |
| Audio.AudioManager.UnloadSound | src/engine/core/audio/AudioManager.cpp:886-891 | queues UNLOAD_SOUND when initialised |
| Audio.AudioManager.PlayAudio | src/engine/core/audio/AudioManager.cpp:893-898 | queues PLAY_SOUND when initialised |
| Audio.AudioManager.StopAudio | src/engine/core/audio/AudioManager.cpp:900-905 | queues STOP_SOUND when initialised |
| Audio.AudioManager.PauseAudio | src/engine/core/audio/AudioManager.cpp:907-912 | queues PAUSE_SOUND when initialised |
| Audio.AudioManager.ResumeAudio | src/engine/core/audio/AudioManager.cpp:914-919 | queues RESUME_SOUND when initialised |
| Audio.AudioManager.SetSoundVolume | src/engine/core/audio/AudioManager.cpp:921-927 | queues the volume clamped to [0, 1] when initialised |
| Audio.AudioManager.SetSoundPitch | src/engine/core/audio/AudioManager.cpp:929-935 | queues the pitch raised to the minimum when initialised |
| Audio.AudioManager.SetSoundPan | src/engine/core/audio/AudioManager.cpp:937-943 | queues the pan clamped to [0, 1] when initialised |
| Audio.AudioManager.LoadMusic | src/engine/core/audio/AudioManager.cpp:945-954 | uninitialised: false with the not-initialised error; otherwise true and a LOAD_MUSIC command is queued |
| Audio.AudioManager.UnloadMusic | src/engine/core/audio/AudioManager.cpp:956-961 | queues UNLOAD_MUSIC when initialised |
| Audio.AudioManager.PlayMusic | src/engine/core/audio/AudioManager.cpp:963-969 | queues PLAY_MUSIC with the loop flag when initialised |
| Audio.AudioManager.StopMusic | src/engine/core/audio/AudioManager.cpp:971-976 | queues STOP_MUSIC when initialised |
| Audio.AudioManager.PauseMusic | src/engine/core/audio/AudioManager.cpp:978-983 | queues PAUSE_MUSIC when initialised |
| Audio.AudioManager.ResumeMusic | src/engine/core/audio/AudioManager.cpp:985-990 | queues RESUME_MUSIC when initialised |
| Audio.AudioManager.SetMusicVolume | src/engine/core/audio/AudioManager.cpp:992-998 | queues the clamped volume when initialised |
| Audio.AudioManager.SetMusicPitch | src/engine/core/audio/AudioManager.cpp:1000-1006 | queues the floored pitch when initialised |
| Audio.AudioManager.SetMusicPan | src/engine/core/audio/AudioManager.cpp:1008-1014 | queues the clamped pan when initialised |
| Audio.AudioManager.SetMasterVolume | src/engine/core/audio/AudioManager.cpp:1016-1020 | queues the clamped master volume, initialised or not |
| Audio.AudioManager.GetMasterVolume | src/engine/core/audio/AudioManager.cpp:1022-1024 | the master volume |
| Audio.AudioManager.StopAllSounds | src/engine/core/audio/AudioManager.cpp:1026-1031 | queues STOP_ALL_SOUNDS when initialised |
| Audio.AudioManager.PauseAllSounds | src/engine/core/audio/AudioManager.cpp:1033-1038 | queues PAUSE_ALL_SOUNDS when initialised |
| Audio.AudioManager.ResumeAllSounds | src/engine/core/audio/AudioManager.cpp:1040-1045 | queues RESUME_ALL_SOUNDS when initialised |
| Audio.AudioManager.QueueForMusic | src/engine/core/audio/AudioManager.cpp:1047-1076 | queues one command for each music the selector picks, and nothing else |
| Audio.AudioManager.QueueStep | src/engine/core/audio/AudioManager.cpp:1047-1076 | one round of that loop |
| Audio.AudioManager.StopAllMusic | src/engine/core/audio/AudioManager.cpp:1047-1054 | queues STOP_MUSIC once for every loaded music |
| Audio.AudioManager.PauseAllMusic | src/engine/core/audio/AudioManager.cpp:1056-1065 | queues PAUSE_MUSIC once for every playing, unpaused music |
| Audio.AudioManager.ResumeAllMusic | src/engine/core/audio/AudioManager.cpp:1067-1076 | queues RESUME_MUSIC once for every paused music |
| Audio.AudioManager.LoadSoundBatch | src/engine/core/audio/AudioManager.cpp:1078-1086 | queues the sound batch's commands |
| Audio.AudioManager.LoadMusicBatch | src/engine/core/audio/AudioManager.cpp:1088-1097 | queues the music batch's commands |
| Audio.AudioManager.Update | src/engine/core/audio/AudioManager.cpp:1099-1131 | uninitialised: nothing; otherwise the event queue is emptied and its events are delivered in order when a callback is set, dropped otherwise |
| Audio.AudioManager.IsSoundLoaded | src/engine/core/audio/AudioManager.cpp:1134-1137 | whether the sound is loaded |
| Audio.AudioManager.IsAudioPlaying | src/engine/core/audio/AudioManager.cpp:1139-1143 | a loaded sound that is playing |
| Audio.AudioManager.IsAudioPaused | src/engine/core/audio/AudioManager.cpp:1145-1149 | a loaded sound that is paused |
| Audio.AudioManager.IsMusicLoaded | src/engine/core/audio/AudioManager.cpp:1151-1154 | whether the music is loaded |
| Audio.AudioManager.IsMusicPlaying | src/engine/core/audio/AudioManager.cpp:1156-1160 | a loaded music that is playing |
| Audio.AudioManager.IsMusicPaused | src/engine/core/audio/AudioManager.cpp:1162-1166 | a loaded music that is paused |
| Audio.AudioManager.GetLoadedSoundCount | src/engine/core/audio/AudioManager.cpp:1168-1171 | the number of loaded sounds |
| Audio.AudioManager.GetLoadedMusicCount | src/engine/core/audio/AudioManager.cpp:1173-1176 | the number of loaded music streams |
| Audio.AudioManager.GetLoadedSoundNames | src/engine/core/audio/AudioManager.cpp:1178-1188 | each loaded sound's name exactly once |
| Audio.AudioManager.GetLoadedMusicNames | src/engine/core/audio/AudioManager.cpp:1190-1200 | each loaded music's name exactly once |
| Audio.AudioManager.GetLastError | src/engine/core/audio/AudioManager.h:211 | the last error |
| Audio.AllSoundsPartlyStep | src/engine/core/audio/AudioManager.cpp:792-825 | visiting one more sound extends the partial update by that sound |
| Audio.AllSoundsPartlyAll | src/engine/core/audio/AudioManager.cpp:792-825 | once every sound is visited the partial update is the whole update |
| Audio.KeysOf | src/engine/core/audio/AudioManager.cpp:1178-1188 | listing a key set gives each key exactly once |
| NetworkManager.BuiltinHandlers | src/engine/core/networking/NetworkManager.cpp:658-691 | the registry gains exactly PING (reply with PONG), PONG (update latency) and PEER_ID_ASSIGNMENT (assign the local id), replacing those three and keeping every other handler |
| NetworkManager.FirstPeerWithId | src/engine/core/networking/NetworkManager.cpp:555-562 | the first peer with the id, or none exactly when no peer has it |
| NetworkManager.FirstPeerWithHandle | src/engine/core/networking/NetworkManager.cpp:546-553 | the first peer with the handle, or none exactly when no peer has it |
| NetworkManager.WithoutFirstHandle | src/engine/core/networking/NetworkManager.cpp:535-544 | removal leaves the table alone when no peer has the handle and drops exactly one entry otherwise |
| NetworkManager.RemovePeerKeepsOthers | src/engine/core/networking/NetworkManager.cpp:535-544 | RemovePeer erases only the first matching entry and keeps the rest in order |
| NetworkManager.AddPeerKeepsIdsFresh | src/engine/core/networking/NetworkManager.cpp:498-514 | appending a peer with the counter's value and advancing the counter keeps every id distinct and below the counter |
| NetworkManager.RemoveAtKeepsIdsFresh | src/engine/core/networking/NetworkManager.cpp:541-543 | erasing any entry keeps ids distinct and below the counter |
| NetworkManager.RemovePeerKeepsIdsFresh | src/engine/core/networking/NetworkManager.cpp:535-544 | so does RemovePeer |
| NetworkManager.WithLatency | src/engine/core/networking/NetworkManager.cpp:629-638 | only the first peer with the id gets the round-trip time and the ping time; every other entry is unchanged |
| NetworkManager.PeerPings | src/engine/core/networking/NetworkManager.cpp:384-391 | the ping round sends at most one datagram per peer |
| NetworkManager.EventsAppend | src/engine/core/networking/NetworkManager.cpp:409-415 | handling two batches of events one after the other is handling their concatenation |
| NetworkManager.EventStepAppendOnly | src/engine/core/networking/NetworkManager.cpp:417-488 | one event only appends to the event queue, the outbox and the handler invocations |
| NetworkManager.ReceiveStep | src/engine/core/networking/NetworkManager.cpp:449-482 | what handling a RECEIVE leaves is EventStep of that event |
| NetworkManager.EventsAppendOnly | src/engine/core/networking/NetworkManager.cpp:409-415 | a frame's events only append to the event queue, the outbox and the handler invocations |
| NetworkManager.PingStepIn | src/engine/core/networking/NetworkManager.cpp:385-389 | one peer's ping sends at most one datagram |
| NetworkManager.PingsSentIn | src/engine/core/networking/NetworkManager.cpp:385-389 | the pings sent for a table number at most its peers |
| NetworkManager.ServerPingsReachEachPeer | src/engine/core/networking/NetworkManager.cpp:384-391 | on a server with distinct ids, the ping round reaches every connected peer in table order through its own handle |
| NetworkManager.DatagramBytesAppend | src/engine/core/networking/NetworkManager.cpp:342 | the bytes of two runs of sends add up |
| NetworkManager.CountersAppend | src/engine/core/networking/NetworkManager.cpp:341-344 | the 32-bit packet and 64-bit byte counters, updated one send at a time, equal the counters updated by the whole run |
| NetworkManager.AddU32Twice | src/engine/core/networking/NetworkManager.cpp:343 | two wrapping 32-bit additions are one addition of the sum |
| NetworkManager.AddU64Twice | src/engine/core/networking/NetworkManager.cpp:342 | two wrapping 64-bit additions are one addition of the sum |
| NetworkManager.NetworkManager.constructor | src/engine/core/networking/NetworkManager.cpp:9-30 | not initialised, no host, no roles, no peers, next id 1, 32 clients, zero counters, nothing pending, and the built-in handlers registered; the static last-error string and Update's static last ping time keep whatever values they had |
| NetworkManager.NetworkManager.IsServer | src/engine/core/networking/NetworkManager.h:70 | the server flag and a host |
| NetworkManager.NetworkManager.IsClient | src/engine/core/networking/NetworkManager.h:75 | the client flag and a host |
| NetworkManager.NetworkManager.IsConnectedToServer | src/engine/core/networking/NetworkManager.cpp:308-311 | a client with a server peer in the connected state |
| NetworkManager.NetworkManager.GetPeerCount | src/engine/core/networking/NetworkManager.h:98 | the number of table entries |
| NetworkManager.NetworkManager.GetPeerInfo | src/engine/core/networking/NetworkManager.cpp:555-571 | a peer with the id from the table exactly when there is one |
| NetworkManager.NetworkManager.FindPeerByENetPeer | src/engine/core/networking/NetworkManager.cpp:546-553 | a peer with the handle from the table exactly when there is one |
| NetworkManager.NetworkManager.SenderId | src/engine/core/networking/NetworkManager.cpp:457-463 | on a server the id of the peer that sent, else 0 |
| NetworkManager.NetworkManager.SendTarget | src/engine/core/networking/NetworkManager.cpp:315-339 | a client sends to its connected server peer; a server sends to the connected peer with the id; nothing without a host |
| NetworkManager.NetworkManager.SetEventCallback | src/engine/core/networking/NetworkManager.h:90 | records whether a callback is set |
| NetworkManager.NetworkManager.SetError | src/engine/core/networking/NetworkManager.cpp:577-580 | the last error is the message |
| NetworkManager.NetworkManager.QueueEvent | src/engine/core/networking/NetworkManager.cpp:572-575 | the event is appended to the queue |
| NetworkManager.NetworkManager.RegisterPacketHandler | src/engine/core/networking/NetworkManager.cpp:490-492 | the type maps to the handler, replacing any earlier one |
| NetworkManager.NetworkManager.UnregisterPacketHandler | src/engine/core/networking/NetworkManager.cpp:494-496 | the type has no handler; others are kept |
| NetworkManager.NetworkManager.RegisterBuiltinHandlers | src/engine/core/networking/NetworkManager.cpp:658-691 | the registry becomes the built-in handlers over the old one |
| NetworkManager.NetworkManager.Initialize | src/engine/core/networking/NetworkManager.cpp:43-62 | true when already initialised (unchanged) or when ENet starts; an ENet failure records the error; success starts the thread and registers the built-ins |
| NetworkManager.NetworkManager.StartServer | src/engine/core/networking/NetworkManager.cpp:98-139 | fails with only the error set when uninitialised or already a server or client; otherwise stores the client limit and the host handle, and when no host could be created fails with the port in the error and no role taken; on success: server mode, local id 0, empty table, SERVER_STARTED queued |
| NetworkManager.NetworkManager.StopServer | src/engine/core/networking/NetworkManager.cpp:141-168 | a running server drops its host, its role and its table and queues SERVER_STOPPED; otherwise nothing changes |
| NetworkManager.NetworkManager.ConnectToServer | src/engine/core/networking/NetworkManager.cpp:170-200 | fails when uninitialised, already a server or client, or pending, each with its error; otherwise stores the connection data and marks it pending without becoming a client |
| NetworkManager.NetworkManager.ConnectToServerBlocking | src/engine/core/networking/NetworkManager.cpp:202-265 | connected exactly when ENet connects: then client mode with the server peer as entry 0 and local id 0; each failure leaves no host, records its error, and a timeout queues CONNECTION_FAILED |
| NetworkManager.NetworkManager.ServicePendingConnectionAsWritten | src/engine/core/networking/NetworkManager.cpp:698-717 | as written, the thread clears pending and becomes a client on connection even when the manager meanwhile became a server |
| NetworkManager.NetworkManager.ServicePendingConnection | src/engine/core/networking/NetworkManager.cpp:698-717 | corrected: the thread clears pending; when a role was taken meanwhile it records the error and changes no connection state |
| NetworkManager.NetworkManager.SendPacket | src/engine/core/networking/NetworkManager.cpp:313-350 | true exactly when there is a host and a connected target; then one datagram goes to it and the counters grow by one packet and the total size; otherwise the error is recorded and counters stay |
| NetworkManager.NetworkManager.BroadcastPacket | src/engine/core/networking/NetworkManager.cpp:352-371 | fails unless a running server; otherwise one broadcast datagram, bytes grow by total size times the peer count and packets by one |
| NetworkManager.NetworkManager.SendPing | src/engine/core/networking/NetworkManager.cpp:618-621 | sends an unreliable PING to the peer |
| NetworkManager.NetworkManager.SendPong | src/engine/core/networking/NetworkManager.cpp:624-627 | sends an unreliable PONG to the peer |
| NetworkManager.NetworkManager.UpdatePeerLatency | src/engine/core/networking/NetworkManager.cpp:629-638 | the first peer with the id records now minus the timestamp (32-bit wrap) and now; others unchanged |
| NetworkManager.NetworkManager.HandlePong | src/engine/core/networking/NetworkManager.cpp:646-652 | the first peer with the id records now minus its last ping time; without such a peer nothing changes |
| NetworkManager.NetworkManager.AddPeer | src/engine/core/networking/NetworkManager.cpp:498-533 | the peer is appended with the counter's id, connected; the counter advances; the id assignment is sent when the peer accepts; CLIENT_CONNECTED "Client N connected" is queued |
| NetworkManager.NetworkManager.RemovePeer | src/engine/core/networking/NetworkManager.cpp:535-544 | the first entry with the handle is erased |
| NetworkManager.NetworkManager.AssignLocalId | src/engine/core/networking/NetworkManager.cpp:670-690 | as client with a readable u32: the local id becomes it and SERVER_CONNECTED is queued with it; otherwise nothing changes |
| NetworkManager.NetworkManager.Dispatch | src/engine/core/networking/NetworkManager.cpp:466-468 | the handler runs on the packet and sender; queues and outbox only grow |
| NetworkManager.NetworkManager.HandleDisconnect | src/engine/core/networking/NetworkManager.cpp:432-447 | a server with the peer queues CLIENT_DISCONNECTED with its id and removes it; a server without it changes nothing; a client queues SERVER_DISCONNECTED |
| NetworkManager.NetworkManager.HandleReceive | src/engine/core/networking/NetworkManager.cpp:449-483 | an unparseable datagram changes nothing; otherwise the receive counters grow by one packet and the datagram length, and the packet is delivered from the sender |
| NetworkManager.NetworkManager.CountReceived | src/engine/core/networking/NetworkManager.cpp:453-454 | the receive counters grow by one packet and the size |
| NetworkManager.NetworkManager.Deliver | src/engine/core/networking/NetworkManager.cpp:465-474 | a packet type without a handler is queued as PACKET_RECEIVED from the sender; with one, that handler runs |
| NetworkManager.NetworkManager.HandleENetEvent | src/engine/core/networking/NetworkManager.cpp:417-488 | the state the event changes ends as EventStep of it; the id counter advances exactly on a server CONNECT; ids stay fresh unless the counter wraps |
| NetworkManager.NetworkManager.ProcessEvents | src/engine/core/networking/NetworkManager.cpp:409-415 | the events are handled in order: the state they change ends as the fold of EventStep over them; queue and outbox only grow |
| NetworkManager.NetworkManager.PingConnectedPeers | src/engine/core/networking/NetworkManager.cpp:384-391 | every connected peer is pinged in order; counters and outbox grow by exactly those sends |
| NetworkManager.NetworkManager.PingEntry | src/engine/core/networking/NetworkManager.cpp:385-389 | one peer's ping |
| NetworkManager.NetworkManager.PingOne | src/engine/core/networking/NetworkManager.cpp:385-389 | one round of the ping loop keeps its invariant |
| NetworkManager.NetworkManager.Update | src/engine/core/networking/NetworkManager.cpp:373-407 | without a host nothing; otherwise the peers, ids, handler calls and receive counters are those the fold of EventStep leaves; when more than 5000 ms passed the PINGs are appended and counted after the events' datagrams; the queue the events left is delivered in order to the callback and emptied |
| NetworkManager.NetworkManager.PingAndDrain | src/engine/core/networking/NetworkManager.cpp:380-406 | pings after more than 5000 ms (and remembers the time), then empties the queue, delivering it when a callback is set |
| NetworkManager.NetworkManager.DrainEvents | src/engine/core/networking/NetworkManager.cpp:401-406 | the drained events are delivered in order, once each, exactly when a callback is set |
| NetworkManager.NetworkManager.DisconnectFromServer | src/engine/core/networking/NetworkManager.cpp:267-306 | a client with a server peer sends the notice, drops host, server peer, role and table, queues SERVER_DISCONNECTED with the reason and delivers it at once to the callback; otherwise nothing |
| NetworkManager.NetworkManager.SendDisconnectNotice | src/engine/core/networking/NetworkManager.cpp:272-276 | a non-empty reason is sent as a reliable DISCONNECT packet; an empty one sends nothing |
| NetworkManager.NetworkManager.LeaveServer | src/engine/core/networking/NetworkManager.cpp:288-305 | the client state is dropped and SERVER_DISCONNECTED is queued and delivered |
| NetworkManager.NetworkManager.Shutdown | src/engine/core/networking/NetworkManager.cpp:64-96 | uninitialised: nothing; otherwise thread stopped, server stopped, client disconnected, host, peers and handlers cleared, not initialised |
| NetworkManager.ConnectRaceBothRoles | src/engine/core/networking/NetworkManager.cpp:170-265 | as written, a server started after ConnectToServer but before the thread services it ends up both server and client |
| NetworkManager.ConnectRaceServerOnly | src/engine/core/networking/NetworkManager.cpp:170-265 | corrected: the same schedule leaves only the server role, with the already-running error |

## Left out

- EntityManager.EntityManager.CreateEntity: requires that a fresh id is never minted after the u32 counter has wrapped (`availableIDs == [] ==> nextID != 0`). As written, a wrapped counter issues id 0 and then reissues live ids. The model does not follow the source past that point.
- Scenes.Scene.Deserialize: requires `nextID + |nodes| < 2^32`, inherited from CreateEntity's no-wrap requirement. Component data is not loaded, because that is YAML parsing.
- Scenes.Scene.Deserialize: links parents as written, taking each saved parent id verbatim (see Findings). The corrected renumbering is stated and proved on values (Scenes.RenumberedAll, Scenes.RenumberedReloadKeepsHierarchy) and is not wired into the method.
- ComponentManager.ComponentManager.AddComponent, EntityManager.EntityManager.AddComponent, Entities.Entity.AddComponent: the pool's C++ `assert` that the entity has no component of the type is a `requires`, which the two wrappers inherit. In a release build the assert is compiled out, and the new component replaces the old one without the old one's OnDestroy. That path is not modelled.
- EntityManager.EntityManager.DestroyEntity, Entities.Entity.Destroy, Scenes.Scene.DestroyEntity, Scenes.Scene.DestroyEntityByID, EntityManager.EntityManager.Clear, CommonSystems.LifetimeSystem.Update: state which hooks a teardown appends to the log (one OnDestroy for each component of each destroyed entity, each once, and nothing else) but not their order. Within one entity the order is unspecified: ComponentManager.ComponentManager.RemoveAllComponents walks an unordered_map of pools (ComponentManager.h:115). Across entities the hooks follow the order in which the ids are queued, which the model states for DestroyEntity but does not tie to the hook log.
- EntityManager.EntityManager.Clear: states which ids are queued but not their order. Its loop walks a copy of the unordered_map of entities (EntityManager.h:265-268), whose iteration order C++ leaves unspecified.
- CommonSystems.LifetimeSystem.DestroyExpired: states which ids are queued but not their order. The expired list comes from GetEntitiesWith, which walks the unordered_map of entities, so its order is unspecified.
- Gui.Widget.SubstituteVariables: skips the empty key in both replacements. As written, the source first replaces every `${}` for it and only then hangs in the bare-key loop (GuiText.EmptyKeyLoopNeverEnds), so the partial `${}` replacement before the hang is not modelled.
- Gui.ListCounter: counts with an unbounded natural. The source's function-static `int` would overflow after 2^31 LIST widgets have been named.
- Input.InputState.IsKeyPressed, IsKeyReleased, IsKeyHeld, IsKeyUp, IsMousePressed, IsMouseReleased, IsMouseHeld, IsMouseUp: require an in-range key or button. The source does no bounds check, and reads out of range.
- Floating point is modelled as `real`: audio volume, pitch and pan, lifetime elapsed time, renderer positions and configs. On the wire, floats are 32-bit patterns. Rounding is not modelled.
- Threads, mutexes, condition variables and sleeps are not modelled. The audio thread becomes `Audio.AudioManager.ThreadRound`. The network thread's connection servicing becomes `NetworkManager.NetworkManager.ServicePendingConnection`. Interleavings other than these explicit steps are not modelled, apart from the connect race under Findings.
- ENet is an oracle. This covers host creation, `enet_host_service` and its service/wait loops (including the blocking connect wait and the disconnect wait), peer connect, send and broadcast success, and `enet_packet_create` failure.
- raudio and the audio device are oracles: load success, stream-finished and sound-finished results.
- Audio.StepKeepsOwned, LoadSoundKeepsOwned, LoadMusicKeepsOwned, AllSoundsKeepsOwned, RunKeepsOwned: state only that every entry owns a handle, not that no two entries share one. The load oracle is a function of the file path, so two names loaded from one file get the same handle in the model, where raudio would allocate two. Single ownership under moves is Audio.MoveHasOneOwner.
- GL is an oracle. Shaders are opaque values, and draws are recorded as values.
- PacketFactory.CreatePingPacket, PacketFactory.CreatePongPacket: read the clock once, from a parameter. The C++ reads it twice: once for the header timestamp, once for the payload.
- Logging.Logger.Trace, Logging.Logger.Debug: take the type name as a parameter. The source's `typeid(*instance)` on a null instance is not modelled.
- Logger's console and file output is left out, and so is its clock. The formatted line is the result.
- PhysicsSystem, the transform/camera matrices and the components' float fields are left out, because they are float geometry.
- YAML and file I/O are left out: LoadFromYaml, CreateWidgetFromYaml, Reload, the component and entity Serialize/Deserialize bodies, and Scene's file save and load.
- GuiLayout::Render's ImGui drawing branches are left out. Only its change-application loop and the LIST item refresh are modelled.
- NetworkManager.NetworkManager.IdsFresh: holds only while the u32 peer-id counter does not wrap. The mutators preserve it under that condition.
- NetworkManager.NetworkManager.AddPeer: requires the server role. Its only caller, the CONNECT case of HandleENetEvent, checks that role first.
- NetworkManager.NetworkManager.HandleReceive: advances the receive counters after running the handler; the source does it before. No handler reads the counters.
- NetworkManager.NetworkManager.constructor: takes the uninitialised local peer id as a parameter. It also takes the current values of the static `s_LastError` (NetworkManager.h:148) and of Update's function-static `lastPingTime` (NetworkManager.cpp:381), which the model keeps as per-manager fields. That two live managers share one error string and one ping clock is not modelled.
- Audio.AudioManager.constructor: takes the current value of the static `s_LastError` (AudioManager.h:236) as a parameter and keeps it as a per-manager field. That two live managers share one error string is not modelled.
- The following NetworkManager members are not modelled:
  - GetLatency, because it reads ENet's round-trip time;
  - SetChannelLimit, SetBandwidthLimit and SetCompressionEnabled, because they are ENet configuration;
  - the GetBytesSent/GetBytesReceived/GetPacketsSent/GetPacketsReceived, GetLocalPeerID and GetConnectedPeers getters, because they are plain field reads (the fields are the model's state);
  - HandlePing, because it does what SendPong does and is never registered;
  - the `Network::` global wrappers.
- Audio: SeekMusic, GetMusicTimeLength and GetMusicTimePlayed are raudio queries and are not modelled. The AudioManager destructor is not modelled, beyond what Shutdown does.
- Audio.AudioManager.GetLoadedSoundNames, GetLoadedMusicNames: the order of the names is left open, as `std::unordered_map` leaves it.
- Vision: the `AddObstacle(const Obstacle&)` overload is not modelled separately. It appends exactly what `AddObstacle(position, size)` appends.
- Lighting, fog and vision geometry is left out, because it is float geometry: IsPositionLit, GetLightIntensityAtPosition, GetLightColorAtPosition, RayIntersectsBox, IsInLightCone, CalculateLightContribution, GetVisibilityAtPosition, IsPositionVisible, IsInVisionCone and the debug draws.
- QuadBatch's SetupBuffers and destructor are left out, because they are GL buffer management.
- Clocks (Time.cpp, `enet_time_get`, the logger's time stamp) are parameters.

## Findings

| source | as written | input that shows it | evidently intended | confidence | as-written member | corrected member |
|---|---|---|---|---|---|---|
| src/engine/scene/system/System.h:35-49 | each `System<Derived>` has its own static `s_counter` starting at 0, so every system type gets type id 0 | register two different system types: the second overwrites the first's `systemMap` entry, and GetSystem of the first type returns the second system | one counter shared by all system types, so distinct types get distinct ids | high, not executed | Systems.SecondRegistrationHidesFirst | Systems.SharedTypeIDs.GetStaticTypeID, Systems.DistinctTypesDistinctIds |
| src/engine/scene/Scene.h:199-202 | the second deserialisation pass calls SetParent with the saved parent id, which names an entity of the old numbering | a fresh manager reloads two nodes as ids 1 and 2, with the second saved with parent 5: entity 2 gets parent 5, which is not live, and entity 1 does not list it as a child | map each saved id to the id its node was reloaded under before linking | medium, not executed | Scenes.StaleParentAfterReload | Scenes.RenumberedAll, Scenes.RenumberedReloadKeepsHierarchy |
| src/engine/renderer/ui/GuiLayout.h:119-123 | the bare-key loop searches for `key` from the position after the inserted value, and an empty key is found at every position | a variable map containing the key "" with any value: the loop never ends | skip empty keys | high, not executed | GuiText.EmptyKeyLoopNeverEnds | Gui.Widget.SubstituteVariables |
| src/engine/core/audio/AudioManager.cpp:491-509 | ProcessUnloadSound calls `UnloadSound` on the handle and then erases the entry, whose destructor (AudioManager.cpp:17-32) unloads the same handle again | load a sound successfully, then unload it: the handle is released twice | release the handle once, in the destructor | high, not executed | Audio.UnloadReleasesTwice | Audio.UnloadCalls |
| src/engine/core/networking/NetworkManager.cpp:98-107 | StartServer checks only the server and client flags, not the pending-connection flag. The network thread (NetworkManager.cpp:693-725) then runs ConnectToServerBlocking (lines 202-265) on the pending request without checking the roles, and becomes a client | ConnectToServer, then StartServer before the thread services the connection: the manager ends up both server and client | the thread checks the roles again before it becomes a client, and drops the request with the "already running" error | medium, not executed | NetworkManager.ConnectRaceBothRoles, NetworkManager.NetworkManager.ServicePendingConnectionAsWritten | NetworkManager.ConnectRaceServerOnly, NetworkManager.NetworkManager.ServicePendingConnection |
